/**
 The changes to the service cache and what each publishes: the watcher's event
 handlers and the health checker's stored probe results. A change and its
 publish are one step.
 */
module Fanouts {
  import opened Wrappers
  import opened Domain
  import opened ServiceCaches
  import opened Hubs
  import Runs

  datatype Event =
    | OnAdd(app: App)
    | OnUpdate(app: App)
    | OnDelete(uid: Uid)
    | Resync(app: App)  // one NebariApp of a ReferenceGrant resync
    | ProbeResult(uid: Uid, config: HealthCheckConfig, status: HealthStatus)
    | Post(frame: Frame)  // a notification, or a frame type this version does not know

  /** An app of another namespace's service, which a ReferenceGrant can affect. */
  predicate CrossNamespace(a: App)
  {
    a.serviceNamespace != "" && a.serviceNamespace != a.namespace
  }

  function Apply(c: CacheState, e: Event): CacheState
  {
    match e
    case OnAdd(app) => if Listed(app) then AddApp(c, app) else c
    case OnUpdate(app) => if Listed(app) then AddApp(c, app) else RemoveUid(c, app.uid)
    case OnDelete(uid) => RemoveUid(c, uid)
    case Resync(app) => if Listed(app) && CrossNamespace(app) then AddApp(c, app) else c
    case ProbeResult(uid, config, status) =>
      if Current(c.services, uid, config) then c.(services := StoreHealth(c.services, uid, status)) else c
    case Post(_) => c
  }

  function Changed(kind: EventType, services: map<Uid, ServiceInfo>, uid: Uid): seq<Frame>
  {
    if uid in services then [ServiceEvent(kind, Some(services[uid]))] else []
  }

  /** What the step publishes: the new entry, or for a deletion the old one. */
  function Published(c: CacheState, e: Event): seq<Frame>
  {
    match e
    case OnAdd(app) => if Listed(app) then Changed(Added, Apply(c, e).services, app.uid) else []
    case OnUpdate(app) =>
      if Listed(app) then Changed(Modified, Apply(c, e).services, app.uid) else Changed(Deleted, c.services, app.uid)
    case OnDelete(uid) => Changed(Deleted, c.services, uid)
    case Resync(app) => if Listed(app) && CrossNamespace(app) then Changed(Modified, Apply(c, e).services, app.uid)
        else []
    case ProbeResult(uid, config, _) =>
      if Current(c.services, uid, config) then Changed(Modified, Apply(c, e).services, uid) else []
    case Post(frame) => if frame.ServiceEvent? then [] else [frame]
  }

  function CacheAfter(c: CacheState, events: seq<Event>): CacheState
  {
    Runs.Exec(Apply, c, events)
  }

  function FramesOf(c: CacheState, events: seq<Event>): seq<Frame>
  {
    if events == [] then []
    else
      var earlier := events[..|events| - 1];
      FramesOf(c, earlier) + Published(CacheAfter(c, earlier), events[|events| - 1])
  }

  lemma ApplyKeepsWellformed(c: CacheState, e: Event)
    requires Wellformed(c)
    ensures Wellformed(Apply(c, e))
  {
    hide Wellformed, AddApp, RemoveUid;
    match e
    case OnAdd(app) => AddKeepsWellformed(c, app);
    case OnUpdate(app) => AddKeepsWellformed(c, app); RemoveKeepsWellformed(c, app.uid);
    case OnDelete(uid) => RemoveKeepsWellformed(c, uid);
    case Resync(app) => AddKeepsWellformed(c, app);
    case ProbeResult(uid, config, status) =>
      if Current(c.services, uid, config) {
        StoreKeepsWellformed(c, uid, config, status);
      }
    case Post(_) =>
  }

  lemma {:induction false} CacheAfterWellformed(c: CacheState, events: seq<Event>)
    requires Wellformed(c)
    ensures Wellformed(CacheAfter(c, events))
  {
    hide Wellformed, Apply;
    if events != [] {
      CacheAfterWellformed(c, events[..|events| - 1]);
      ApplyKeepsWellformed(CacheAfter(c, events[..|events| - 1]), events[|events| - 1]);
    }
  }

  lemma {:induction false} CacheAfterConcat(c: CacheState, first: seq<Event>, second: seq<Event>)
    ensures CacheAfter(c, first + second) == CacheAfter(CacheAfter(c, first), second)
    ensures FramesOf(c, first + second) == FramesOf(c, first) + FramesOf(CacheAfter(c, first), second)
  {
    hide Apply, Published;
    if second == [] {
      assert first + second == first;
    } else {
      var n := |second| - 1;
      assert (first + second)[..|first + second| - 1] == first + second[..n];
      CacheAfterConcat(c, first, second[..n]);
    }
  }

  /** The watcher and the health checker's publisher, sharing the cache; `published` is what they sent to the hub. */
  class ChangeFeed {
    const cache: ServiceCache
    var published: seq<Frame>

    constructor (cache: ServiceCache)
      ensures this.cache == cache && published == []
    {
      this.cache := cache;
      published := [];
    }

    ghost predicate Valid()
      reads this, cache
    {
      cache.Valid()
    }

    method Publish(kind: EventType, service: ServiceInfo)
      modifies this`published
      ensures published == old(published) + [ServiceEvent(kind, Some(service))]
    {
      published := published + [ServiceEvent(kind, Some(service))];
    }

    /** Publishes the entry of `uid`, if there is one. */
    method PublishCurrent(kind: EventType, uid: Uid)
      requires Valid()
      modifies this`published
      ensures published == old(published) + Changed(kind, cache.View().services, uid)
    {
      if uid in cache.services {
        Publish(kind, cache.services[uid].Value());
      }
    }

    method OnAdd(app: App)
      requires Valid()
      modifies this`published, cache
      ensures Valid() && cache.View() == Apply(old(cache.View()), Event.OnAdd(app))
      ensures published == old(published) + Published(old(cache.View()), Event.OnAdd(app))
      ensures var c, c' := old(cache.View()), cache.View();
              if Listed(app) then
                && c' == AddApp(c, app) && app.uid in c'.services
                && published == old(published) + [ServiceEvent(Added, Some(c'.services[app.uid]))]
              else c' == c && published == old(published)
    {
      AddedIsCached(cache.View(), app);
      hide AddApp;
      if app.landingPage.Some? && app.landingPage.value.enabled {
        cache.Add(app);
        PublishCurrent(Added, app.uid);
      }
    }

    method OnUpdate(app: App)
      requires Valid()
      modifies this`published, cache
      ensures Valid() && cache.View() == Apply(old(cache.View()), Event.OnUpdate(app))
      ensures published == old(published) + Published(old(cache.View()), Event.OnUpdate(app))
      ensures var c, c' := old(cache.View()), cache.View();
              if Listed(app) then
                && c' == AddApp(c, app) && app.uid in c'.services
                && published == old(published) + [ServiceEvent(Modified, Some(c'.services[app.uid]))]
              else
                && c' == RemoveUid(c, app.uid)
                && published == old(published) + (if app.uid in c.services
                                                  then [ServiceEvent(Deleted, Some(c.services[app.uid]))] else [])
    {
      AddedIsCached(cache.View(), app);
      hide AddApp;
      if app.landingPage.Some? && app.landingPage.value.enabled {
        cache.Add(app);
        PublishCurrent(Modified, app.uid);
      } else {
        Drop(app.uid);
      }
    }

    method OnDelete(uid: Uid)
      requires Valid()
      modifies this`published, cache
      ensures Valid() && cache.View() == Apply(old(cache.View()), Event.OnDelete(uid))
      ensures published == old(published) + Published(old(cache.View()), Event.OnDelete(uid))
      ensures var c := old(cache.View());
              && cache.View() == RemoveUid(c, uid)
              && published == old(published) + (if uid in c.services
                                                then [ServiceEvent(Deleted, Some(c.services[uid]))] else [])
    {
      Drop(uid);
    }

    /** Takes the entry out of the cache and publishes it as it was. */
    method Drop(uid: Uid)
      requires Valid()
      modifies this`published, cache
      ensures Valid() && cache.View() == RemoveUid(old(cache.View()), uid)
      ensures published == old(published) + Changed(Deleted, old(cache.View()).services, uid)
    {
      if uid in cache.services {
        var entry := cache.services[uid];
        cache.Remove(uid);
        Publish(Deleted, entry.Value());
      } else {
        cache.Remove(uid);
      }
    }

    /** `apps` is the list read from the cluster. */
    method ResyncCrossNamespaceApps(apps: seq<App>)
      requires Valid()
      modifies this`published, cache
      ensures Valid()
      ensures cache.View() == CacheAfter(old(cache.View()), ResyncEvents(apps))
      ensures published == old(published) + FramesOf(old(cache.View()), ResyncEvents(apps))
    {
      hide AddApp, Apply, Published;
      for i := 0 to |apps|
        invariant Valid()
        invariant cache.View() == CacheAfter(old(cache.View()), ResyncEvents(apps[..i]))
        invariant published == old(published) + FramesOf(old(cache.View()), ResyncEvents(apps[..i]))
      {
        assert ResyncEvents(apps[..i + 1]) == ResyncEvents(apps[..i]) + [Resync(apps[i])];
        CacheAfterConcat(old(cache.View()), ResyncEvents(apps[..i]), [Resync(apps[i])]);
        OneEvent(cache.View(), Resync(apps[i]));
        ResyncOne(apps[i]);
      }
      assert apps[..|apps|] == apps;
    }

    method ResyncOne(app: App)
      requires Valid()
      modifies this`published, cache
      ensures Valid() && cache.View() == Apply(old(cache.View()), Resync(app))
      ensures var c, c' := old(cache.View()), cache.View();
              if Listed(app) && app.serviceNamespace != "" && app.serviceNamespace != app.namespace then
                && c' == AddApp(c, app) && app.uid in c'.services
                && published == old(published) + [ServiceEvent(Modified, Some(c'.services[app.uid]))]
              else c' == c && published == old(published)
      ensures published == old(published) + Published(old(cache.View()), Resync(app))
    {
      AddedIsCached(cache.View(), app);
      hide AddApp;
      if app.landingPage.None? || !app.landingPage.value.enabled {
        return;
      }
      if app.serviceNamespace == "" || app.serviceNamespace == app.namespace {
        return;
      }
      cache.Add(app);
      PublishCurrent(Modified, app.uid);
    }

    /** The end of `probeIfCurrent`: store the result if its config is still current, then publish. */
    method StoreProbeResult(uid: Uid, config: HealthCheckConfig, status: HealthStatus) returns (stored: bool)
      requires Valid()
      modifies this`published, cache.services.Values
      ensures Valid() && stored == Current(old(cache.View()).services, uid, config)
      ensures cache.View() == Apply(old(cache.View()), ProbeResult(uid, config, status))
      ensures !stored ==> cache.View() == old(cache.View()) && published == old(published)
      ensures stored ==> uid in cache.View().services && cache.View().services[uid].health == status
                         && published == old(published) + [ServiceEvent(Modified, Some(cache.View().services[uid]))]
      ensures published == old(published) + Published(old(cache.View()), ProbeResult(uid, config, status))
    {
      stored := cache.UpdateHealthIfCurrent(uid, config, status);
      if !stored {
        return;
      }
      PublishCurrent(Modified, uid);
    }
  }

  lemma AddedIsCached(c: CacheState, app: App)
    ensures Listed(app) ==> app.uid in AddApp(c, app).services
  {
    hide ConfigOf, DropsAfterAdd;
  }

  function ResyncEvents(apps: seq<App>): seq<Event>
  {
    seq(|apps|, i requires 0 <= i < |apps| => Resync(apps[i]))
  }

  lemma OneEvent(c: CacheState, e: Event)
    ensures CacheAfter(c, [e]) == Apply(c, e) && FramesOf(c, [e]) == Published(c, e)
  {
    assert [e][..0] == [];
    assert CacheAfter(c, []) == c && FramesOf(c, []) == [];
    hide Apply, Published;
  }
}
