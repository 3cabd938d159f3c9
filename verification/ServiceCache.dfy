/**
 The in-memory service cache. `CacheState` is its contents as a value and the
 functions over it are what each method does under the lock; the class holds
 shared entries whose health is updated in place.
 */
module ServiceCaches {
  import opened Wrappers
  import opened Domain
  import opened ProbeTargets

  datatype CacheState = CacheState(services: map<Uid, ServiceInfo>, drops: map<Uid, DropReason>)

  const EMPTY := CacheState(map[], map[])

  predicate Listed(a: App)
  {
    a.landingPage.Some? && a.landingPage.value.enabled
  }

  function ConfigOf(a: App): Option<HealthCheckConfig>
  {
    match BuildHealthCheckConfig(a)
    case Configured(config) => Some(config)
    case _ => None
  }

  /** Health survives an update, except that losing the health check resets it. */
  function HealthAfterAdd(services: map<Uid, ServiceInfo>, uid: Uid, config: Option<HealthCheckConfig>): HealthStatus
  {
    if uid !in services then UNKNOWN
    else if services[uid].healthCheckConfig.Some? && config.None? then UNKNOWN
    else services[uid].health
  }

  function EntryFor(a: App, config: Option<HealthCheckConfig>, health: HealthStatus): ServiceInfo
    requires Listed(a)
  {
    var lp := a.landingPage.value;
    ServiceInfo(a.uid, a.name, a.namespace, lp.displayName, if lp.visibility == "" then "private" else lp.visibility,
                lp.requiredGroups, a.isStatic, config, health)
  }

  function DropsAfterAdd(drops: map<Uid, DropReason>, a: App): map<Uid, DropReason>
  {
    match BuildHealthCheckConfig(a)
    case Dropped(reason) => drops[a.uid := reason]
    case _ => drops - {a.uid}
  }

  function AddApp(c: CacheState, a: App): CacheState
  {
    if !Listed(a) then RemoveUid(c, a.uid)
    else
      var config := ConfigOf(a);
      CacheState(c.services[a.uid := EntryFor(a, config, HealthAfterAdd(c.services, a.uid, config))],
                 DropsAfterAdd(c.drops, a))
  }

  function RemoveUid(c: CacheState, uid: Uid): CacheState
  {
    CacheState(c.services - {uid}, c.drops - {uid})
  }

  predicate Current(services: map<Uid, ServiceInfo>, uid: Uid, config: HealthCheckConfig)
  {
    uid in services && services[uid].healthCheckConfig == Some(config)
  }

  function StoreHealth(services: map<Uid, ServiceInfo>, uid: Uid, status: HealthStatus): map<Uid, ServiceInfo>
    requires uid in services
  {
    services[uid := services[uid].(health := status)]
  }

  ghost predicate EntryOk(uid: Uid, service: ServiceInfo)
  {
    service.uid == uid && (service.healthCheckConfig.None? ==> service.health == UNKNOWN)
  }

  /**
   Entries carry their key as UID; without a health check there is no health; a drop reason belongs
   to a cached service without a check.
   */
  ghost predicate Wellformed(c: CacheState)
  {
    && (forall u :: u in c.services ==> EntryOk(u, c.services[u]))
    && (forall u :: u in c.drops ==> u in c.services && c.services[u].healthCheckConfig.None?)
  }

  /** Nothing is known of other services than `uid` that was not known before, and nothing is forgotten. */
  ghost predicate OthersKept(c: CacheState, c': CacheState, uid: Uid)
  {
    && (forall u :: u != uid ==> (u in c'.services <==> u in c.services) && (u in c'.drops <==> u in c.drops))
    && (forall u :: u != uid && u in c.services ==> c'.services[u] == c.services[u])
    && (forall u :: u != uid && u in c.drops ==> c'.drops[u] == c.drops[u])
  }

  /**
   What the cache holds after an app was added: an entry with the app's own fields, private unless it
   says otherwise, whose health is that of the entry before unless the check is new to the cache or
   lost; and a drop reason exactly if a check was dropped. A disabled app leaves neither.
   */
  lemma AddedExactly(c: CacheState, a: App)
    ensures var c', built := AddApp(c, a), BuildHealthCheckConfig(a);
            && OthersKept(c, c', a.uid)
            && (a.uid in c'.services <==> a.landingPage.Some? && a.landingPage.value.enabled)
            && (a.uid in c'.drops <==> a.uid in c'.services && built.Dropped?)
            && (a.uid in c'.drops ==> c'.drops[a.uid] == built.reason)
            && (a.uid in c'.services ==>
                  var e, lp := c'.services[a.uid], a.landingPage.value;
                  && e.uid == a.uid && e.name == a.name && e.namespace == a.namespace && e.isStatic == a.isStatic
                  && e.displayName == lp.displayName && e.requiredGroups == lp.requiredGroups
                  && e.visibility == (if lp.visibility != "" then lp.visibility else "private")
                  && (e.healthCheckConfig.Some? <==> built.Configured?)
                  && (built.Configured? ==> e.healthCheckConfig == Some(built.config))
                  && (a.uid !in c.services ==> e.health == UNKNOWN)
                  && (a.uid in c.services && c.services[a.uid].healthCheckConfig.Some? && !built.Configured? ==>
                        e.health == UNKNOWN)
                  && (a.uid in c.services && (c.services[a.uid].healthCheckConfig.None? || built.Configured?) ==>
                        e.health == c.services[a.uid].health))
  {
    hide BuildHealthCheckConfig;
  }

  lemma RemovedExactly(c: CacheState, uid: Uid)
    ensures var c' := RemoveUid(c, uid); OthersKept(c, c', uid) && uid !in c'.services && uid !in c'.drops
  {
  }

  /** A stored result changes the health of that service and nothing else. */
  lemma StoredExactly(c: CacheState, uid: Uid, status: HealthStatus)
    requires uid in c.services
    ensures var c' := c.(services := StoreHealth(c.services, uid, status));
            && OthersKept(c, c', uid) && c'.drops == c.drops
            && uid in c'.services && c'.services[uid].health == status
            && c'.services[uid].(health := c.services[uid].health) == c.services[uid]
  {
  }

  lemma AddKeepsWellformed(c: CacheState, a: App)
    requires Wellformed(c)
    ensures Wellformed(AddApp(c, a))
  {
    hide BuildHealthCheckConfig;
  }

  lemma RemoveKeepsWellformed(c: CacheState, uid: Uid)
    requires Wellformed(c)
    ensures Wellformed(RemoveUid(c, uid))
  {
  }

  lemma StoreKeepsWellformed(c: CacheState, uid: Uid, config: HealthCheckConfig, status: HealthStatus)
    requires Wellformed(c) && Current(c.services, uid, config)
    ensures Wellformed(c.(services := StoreHealth(c.services, uid, status)))
  {
  }

  /** A cached entry as the program shares it: readers may hold it while its health changes. */
  class Entry {
    const info: ServiceInfo
    var health: HealthStatus

    constructor (info: ServiceInfo)
      ensures this.info == info && health == info.health
    {
      this.info := info;
      health := info.health;
    }

    function Value(): ServiceInfo
      reads this
    {
      info.(health := health)
    }
  }

  class ServiceCache {
    var services: map<Uid, Entry>
    var drops: map<Uid, DropReason>

    /** Each entry is stored under its own UID, so no two keys share an entry. */
    ghost predicate Valid()
      reads this
    {
      forall u :: u in services ==> services[u].info.uid == u
    }

    ghost function View(): CacheState
      reads this, services.Values
    {
      CacheState(map u | u in services :: services[u].Value(), drops)
    }

    constructor ()
      ensures Valid() && View() == EMPTY
    {
      services, drops := map[], map[];
    }

    method Add(a: App)
      requires Valid()
      modifies this
      ensures Valid() && View() == AddApp(old(View()), a)
      ensures fresh(services.Values - old(services.Values))
    {
      if a.landingPage.None? || !a.landingPage.value.enabled {
        Remove(a.uid);
      } else {
        AddListed(a);
      }
    }

    method AddListed(a: App)
      requires Valid() && Listed(a)
      modifies this
      ensures Valid() && View() == AddApp(old(View()), a)
      ensures fresh(services.Values - old(services.Values))
    {
      hide BuildHealthCheckConfig, Wellformed;
      var lp := a.landingPage.value;
      var visibility := if lp.visibility != "" then lp.visibility else "private";
      var built := BuildHealthCheckConfig(a);
      var config := if built.Configured? then Some(built.config) else None;
      RecordHealthCheckDrop(a.uid, if built.Dropped? then Some(built.reason) else None);
      var health := HealthFor(a.uid, config);
      Put(ServiceInfo(a.uid, a.name, a.namespace, lp.displayName, visibility, lp.requiredGroups, a.isStatic, config,
                      health));
    }

    /** `preserveHealthStatus`, then `shouldResetHealthStatus`. */
    method HealthFor(uid: Uid, config: Option<HealthCheckConfig>) returns (health: HealthStatus)
      requires Valid()
      ensures health == HealthAfterAdd(View().services, uid, config)
    {
      health := UNKNOWN;
      if uid in services {
        health := services[uid].health;
        if services[uid].info.healthCheckConfig.Some? && config.None? {
          health := UNKNOWN;
        }
      }
    }

    /** A replaced entry is left as it is: a reader that still holds it sees its last values. */
    method Put(info: ServiceInfo)
      requires Valid()
      modifies this`services
      ensures Valid() && View() == old(View()).(services := old(View()).services[info.uid := info])
      ensures fresh(services.Values - old(services.Values))
    {
      var entry := new Entry(info);
      services := services[info.uid := entry];
      assert View().services == old(View()).services[info.uid := info];
    }

    method Remove(uid: Uid)
      requires Valid()
      modifies this
      ensures Valid() && View() == RemoveUid(old(View()), uid)
      ensures services.Values <= old(services.Values)
    {
      services := services - {uid};
      drops := drops - {uid};
    }

    /** Remembers the reason only when it changed. */
    method RecordHealthCheckDrop(uid: Uid, reason: Option<DropReason>)
      modifies this`drops
      ensures drops == if reason.Some? then old(drops)[uid := reason.value] else old(drops) - {uid}
      ensures View() == old(View()).(drops := drops)
    {
      if reason == (if uid in drops then Some(drops[uid]) else None) {
        return;
      }
      if reason.None? {
        drops := drops - {uid};
        return;
      }
      drops := drops[uid := reason.value];
    }

    method HealthStatusIfCurrent(uid: Uid, config: HealthCheckConfig) returns (prev: Option<string>)
      requires Valid()
      ensures prev == if Current(View().services, uid, config) then Some(View().services[uid].health.status) else None
    {
      if uid !in services || services[uid].info.healthCheckConfig != Some(config) {
        return None;
      }
      return Some(services[uid].health.status);
    }

    /** The currency check and the write are one section; no entry but this one changes, and the entry stays shared. */
    method UpdateHealthIfCurrent(uid: Uid, config: HealthCheckConfig, status: HealthStatus) returns (stored: bool)
      requires Valid()
      modifies services.Values
      ensures Valid() && services == old(services) && drops == old(drops)
      ensures stored == Current(old(View()).services, uid, config)
      ensures View().services == if stored then StoreHealth(old(View()).services, uid, status) else old(View()).services
    {
      if uid !in services || services[uid].info.healthCheckConfig != Some(config) {
        return false;
      }
      services[uid].health := status;
      return true;
    }
  }
}
