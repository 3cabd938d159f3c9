/**
 The probe loops the health checker believes are running. A token stands for the
 context of one started loop; `cancelled` holds the tokens whose cancel function
 was called.
 */
module HealthCheckers {
  import opened Wrappers
  import opened Domain

  datatype Running = Running(token: nat, config: HealthCheckConfig)

  datatype ProbeSet = ProbeSet(running: map<Uid, Running>, cancelled: set<nat>, next: nat)

  /**
   The section of `reconcile` for one service with a health check: restart on a changed config,
   start when not running.
   */
  function Scan(ps: ProbeSet, uid: Uid, config: HealthCheckConfig): ProbeSet
  {
    if uid in ps.running && ps.running[uid].config == config then ps
    else
      ProbeSet(ps.running[uid := Running(ps.next, config)],
               if uid in ps.running then ps.cancelled + {ps.running[uid].token} else ps.cancelled,
               ps.next + 1)
  }

  function TokensOf(running: map<Uid, Running>, uids: set<Uid>): set<nat>
  {
    set u | u in running && u in uids :: running[u].token
  }

  /** The last section of `reconcile`: cancel and forget what is not in `active`. */
  function SweepOut(ps: ProbeSet, active: set<Uid>): ProbeSet
  {
    var gone := ps.running.Keys - active;
    ps.(running := ps.running - gone, cancelled := ps.cancelled + TokensOf(ps.running, gone))
  }

  function Forget(ps: ProbeSet, uid: Uid, config: HealthCheckConfig): ProbeSet
  {
    if uid in ps.running && ps.running[uid].config == config then
      ps.(running := ps.running - {uid}, cancelled := ps.cancelled + {ps.running[uid].token})
    else ps
  }

  function CancelAll(ps: ProbeSet): ProbeSet
  {
    SweepOut(ps, {})
  }

  function ScanAll(ps: ProbeSet, services: seq<ServiceInfo>): ProbeSet
  {
    if services == [] then ps
    else
      var n := |services| - 1;
      var before := ScanAll(ps, services[..n]);
      if services[n].healthCheckConfig.None? then before
      else Scan(before, services[n].uid, services[n].healthCheckConfig.value)
  }

  function ActiveUids(services: seq<ServiceInfo>): set<Uid>
  {
    set i | 0 <= i < |services| && services[i].healthCheckConfig.Some? :: services[i].uid
  }

  function Reconciled(ps: ProbeSet, services: seq<ServiceInfo>): ProbeSet
  {
    SweepOut(ScanAll(ps, services), ActiveUids(services))
  }

  predicate DistinctUids(services: seq<ServiceInfo>)
  {
    forall i, j :: 0 <= i < j < |services| ==> services[i].uid != services[j].uid
  }

  /** Running loops have tokens of their own that were handed out and not cancelled. */
  ghost predicate ProbeSetOk(ps: ProbeSet)
  {
    && (forall u :: u in ps.running ==> ps.running[u].token < ps.next && ps.running[u].token !in ps.cancelled)
    && (forall u, v :: u in ps.running && v in ps.running && ps.running[u].token == ps.running[v].token ==> u == v)
    && (forall t :: t in ps.cancelled ==> t < ps.next)
  }

  /** What one scan does to the loop of each UID. */
  lemma ScanEffect(ps: ProbeSet, uid: Uid, config: HealthCheckConfig)
    requires ProbeSetOk(ps)
    ensures var r := Scan(ps, uid, config);
            && ProbeSetOk(r)
            && ps.next <= r.next
            && uid in r.running && r.running[uid].config == config
            && (uid in ps.running && ps.running[uid].config == config ==> r == ps)
            && (forall u :: u != uid ==> (u in r.running <==> u in ps.running))
            && (forall u :: u != uid && u in ps.running ==> r.running[u] == ps.running[u])
            && ps.cancelled <= r.cancelled
            && (!(uid in ps.running && ps.running[uid].config == config) ==> r.running[uid].token == ps.next)
            && (forall t :: t in r.cancelled && t !in ps.cancelled ==>
                  uid in ps.running && t == ps.running[uid].token && ps.running[uid].config != config)
            && (uid in ps.running && ps.running[uid].config != config ==> ps.running[uid].token in r.cancelled)
  {
  }

  /** `u` keeps its loop from `ps` to `r`: same token, not cancelled. */
  ghost predicate SameLoop(ps: ProbeSet, r: ProbeSet, u: Uid)
  {
    u in ps.running && u in r.running && r.running[u] == ps.running[u] && ps.running[u].token !in r.cancelled
  }

  /** `u` has a loop in `r` that `ps` did not know, and none of its old ones is left uncancelled. */
  ghost predicate NewLoop(ps: ProbeSet, r: ProbeSet, u: Uid)
  {
    u in r.running && ps.next <= r.running[u].token && (u in ps.running ==> ps.running[u].token in r.cancelled)
  }

  ghost predicate Scanned(ps: ProbeSet, r: ProbeSet, config: Option<HealthCheckConfig>, u: Uid)
  {
    match config
    case None => (u in r.running <==> u in ps.running) && (u in ps.running ==> SameLoop(ps, r, u))
    case Some(c) =>
      && u in r.running && r.running[u].config == c
      && (if u in ps.running && ps.running[u].config == c then SameLoop(ps, r, u) else NewLoop(ps, r, u))
  }

  function ConfigIn(services: seq<ServiceInfo>, u: Uid): Option<HealthCheckConfig>
  {
    if services == [] then None
    else if services[|services| - 1].uid == u then services[|services| - 1].healthCheckConfig
    else ConfigIn(services[..|services| - 1], u)
  }

  lemma {:induction false} ConfigInActive(services: seq<ServiceInfo>, u: Uid)
    requires DistinctUids(services)
    ensures ConfigIn(services, u).Some? <==> u in ActiveUids(services)
  {
    if services != [] {
      var n := |services| - 1;
      var shorter := services[..n];
      ConfigInActive(shorter, u);
      if services[n].uid == u {
        assert services[n].healthCheckConfig.Some? ==> u in ActiveUids(services);
      } else {
        assert u in ActiveUids(services) ==> u in ActiveUids(shorter) by {
          if i :| 0 <= i < |services| && services[i].healthCheckConfig.Some? && services[i].uid == u {
            assert shorter[i] == services[i];
          }
        }
        assert u in ActiveUids(shorter) ==> u in ActiveUids(services) by {
          if i :| 0 <= i < |shorter| && shorter[i].healthCheckConfig.Some? && shorter[i].uid == u {
            assert shorter[i] == services[i];
          }
        }
      }
    }
  }

  lemma {:induction false} ConfigInPrefix(services: seq<ServiceInfo>, n: nat)
    requires DistinctUids(services) && n < |services|
    ensures ConfigIn(services[..n], services[n].uid) == None
  {
    ConfigInActive(services[..n], services[n].uid);
  }

  /** Why a token is cancelled by the scans: its loop ran an outdated config. */
  ghost predicate Replaced(ps: ProbeSet, services: seq<ServiceInfo>, t: nat)
  {
    exists u :: u in ps.running && ps.running[u].token == t && ConfigIn(services, u).Some?
          && ConfigIn(services, u) != Some(ps.running[u].config)
  }

  lemma ScannedStep(ps: ProbeSet, mid: ProbeSet, uid: Uid, config: HealthCheckConfig, was: Option<HealthCheckConfig>,
                    u: Uid)
    requires ProbeSetOk(ps) && ProbeSetOk(mid) && ps.next <= mid.next && ps.cancelled <= mid.cancelled
    requires Scanned(ps, mid, was, u)
    requires u == uid ==> was.None?
    ensures Scanned(ps, Scan(mid, uid, config), if u == uid then Some(config) else was, u)
  {
    ScanEffect(mid, uid, config);
    hide Scan;
  }

  lemma {:induction false} ScanAllEffect(ps: ProbeSet, services: seq<ServiceInfo>)
    requires ProbeSetOk(ps) && DistinctUids(services)
    ensures var r := ScanAll(ps, services);
            && ProbeSetOk(r) && ps.next <= r.next && ps.cancelled <= r.cancelled
            && (forall u :: Scanned(ps, r, ConfigIn(services, u), u))
            && (forall t :: t in r.cancelled ==> t in ps.cancelled || Replaced(ps, services, t))
  {
    if services != [] {
      var n := |services| - 1;
      var mid := ScanAll(ps, services[..n]);
      ScanAllEffect(ps, services[..n]);
      var r := ScanAll(ps, services);
      if services[n].healthCheckConfig.Some? {
        var config := services[n].healthCheckConfig.value;
        ConfigInPrefix(services, n);
        ScanEffect(mid, services[n].uid, config);
        ScanAllStep(ps, services);
        ScanAllCancels(ps, services);
        hide Scan, ProbeSetOk, Scanned, Replaced, ConfigIn;
      } else {
        ConfigInPrefix(services, n);
        ScanAllStep(ps, services);
        ScanAllCancels(ps, services);
        hide Scan, ProbeSetOk, Scanned, Replaced, ConfigIn;
      }
    } else {
      hide ProbeSetOk;
    }
  }

  /** The last service of the list, after the scans of the others. */
  lemma ScanAllStep(ps: ProbeSet, services: seq<ServiceInfo>)
    requires services != [] && DistinctUids(services)
    requires var n := |services| - 1;
             var mid := ScanAll(ps, services[..n]);
             && ProbeSetOk(ps) && ProbeSetOk(mid) && ps.next <= mid.next && ps.cancelled <= mid.cancelled
             && forall u :: Scanned(ps, mid, ConfigIn(services[..n], u), u)
    ensures forall u :: Scanned(ps, ScanAll(ps, services), ConfigIn(services, u), u)
  {
    var n := |services| - 1;
    var mid := ScanAll(ps, services[..n]);
    ConfigInPrefix(services, n);
    forall u ensures Scanned(ps, ScanAll(ps, services), ConfigIn(services, u), u) {
      assert Scanned(ps, mid, ConfigIn(services[..n], u), u);
      if services[n].healthCheckConfig.Some? {
        ScannedStep(ps, mid, services[n].uid, services[n].healthCheckConfig.value, ConfigIn(services[..n], u), u);
      }
      hide ProbeSetOk, Scanned, Scan, DistinctUids;
    }
  }

  lemma ScanAllCancels(ps: ProbeSet, services: seq<ServiceInfo>)
    requires services != [] && DistinctUids(services)
    requires var n := |services| - 1;
             var mid := ScanAll(ps, services[..n]);
             && ProbeSetOk(mid)
             && (forall u :: Scanned(ps, mid, ConfigIn(services[..n], u), u))
             && (forall t :: t in mid.cancelled ==> t in ps.cancelled || Replaced(ps, services[..n], t))
    ensures forall t :: t in ScanAll(ps, services).cancelled ==> t in ps.cancelled || Replaced(ps, services, t)
  {
    var n := |services| - 1;
    var uid := services[n].uid;
    var mid := ScanAll(ps, services[..n]);
    ConfigInPrefix(services, n);
    assert Scanned(ps, mid, None, uid);
    forall t | t in ScanAll(ps, services).cancelled && t !in ps.cancelled
      ensures Replaced(ps, services, t)
    {
      if t in mid.cancelled {
        var u :| u in ps.running && ps.running[u].token == t && ConfigIn(services[..n], u).Some?
                 && ConfigIn(services[..n], u) != Some(ps.running[u].config);
        assert ConfigIn(services, u) == ConfigIn(services[..n], u);
      } else {
        assert mid.running[uid].token == t;
        assert ps.running[uid] == mid.running[uid];
      }
    }
  }

  /**
   Alone, from any set of running loops, `reconcile` ends with one loop for
   exactly the UIDs that have a health check, each with the current config; a
   loop whose config did not change is left alone; a token is cancelled only if
   its loop was replaced or its UID lost its check.
   */
  lemma ReconcileExact(ps: ProbeSet, services: seq<ServiceInfo>)
    requires ProbeSetOk(ps) && DistinctUids(services)
    ensures var r := Reconciled(ps, services);
            && ProbeSetOk(r)
            && r.running.Keys == ActiveUids(services)
            && (forall u :: u in r.running ==> ConfigIn(services, u) == Some(r.running[u].config))
            && (forall u :: u in ps.running && ConfigIn(services, u) == Some(ps.running[u].config) ==>
                  SameLoop(ps, r, u))
            && (forall u :: u in r.running ==>
                  (u in ps.running ==> ConfigIn(services, u) != Some(ps.running[u].config)) ==> NewLoop(ps, r, u))
            && (forall u :: u in ps.running ==>
                  (ps.running[u].token in r.cancelled <==> ConfigIn(services, u) != Some(ps.running[u].config)))
  {
    var mid := ScanAll(ps, services);
    var r := Reconciled(ps, services);
    ScanAllEffect(ps, services);
    forall u ensures u in ActiveUids(services) <==> ConfigIn(services, u).Some? { ConfigInActive(services, u); }
    hide ScanAll, ConfigIn, ActiveUids, Replaced, DistinctUids;
    SweepEffect(mid, ActiveUids(services));
    forall u ensures ReconciledOne(ps, r, ConfigIn(services, u), u) {
      assert Scanned(ps, mid, ConfigIn(services, u), u);
      assert ConfigIn(services, u).Some? <==> u in ActiveUids(services);
      SweptOne(ps, mid, ActiveUids(services), ConfigIn(services, u), u);
    }
    hide SweepOut, Scanned, ProbeSetOk;
    forall u ensures u in r.running.Keys <==> u in ActiveUids(services) {
      assert ReconciledOne(ps, r, ConfigIn(services, u), u);
    }
    hide SameLoop, NewLoop;
    assert forall u :: ReconciledOne(ps, r, ConfigIn(services, u), u);
  }

  /** What `reconcile` did for one UID, given its config now. */
  ghost predicate ReconciledOne(ps: ProbeSet, r: ProbeSet, config: Option<HealthCheckConfig>, u: Uid)
  {
    var kept := u in ps.running && config == Some(ps.running[u].config);
    && (u in r.running <==> config.Some?)
    && (u in r.running ==> config == Some(r.running[u].config))
    && (kept ==> SameLoop(ps, r, u))
    && (u in r.running && !kept ==> NewLoop(ps, r, u))
    && (u in ps.running ==> (ps.running[u].token in r.cancelled <==> !kept))
  }

  lemma SweptOne(ps: ProbeSet, mid: ProbeSet, active: set<Uid>, config: Option<HealthCheckConfig>, u: Uid)
    requires ProbeSetOk(mid) && Scanned(ps, mid, config, u) && (config.Some? <==> u in active)
    ensures ReconciledOne(ps, SweepOut(mid, active), config, u)
  {
    SweepEffect(mid, active);
    hide SweepOut;
  }

  lemma SweepEffect(ps: ProbeSet, active: set<Uid>)
    requires ProbeSetOk(ps)
    ensures var r := SweepOut(ps, active);
            && ProbeSetOk(r) && r.next == ps.next && ps.cancelled <= r.cancelled
            && (forall u :: u in r.running <==> u in ps.running && u in active)
            && (forall u :: u in r.running ==> r.running[u] == ps.running[u])
            && (forall u :: u in ps.running ==> (ps.running[u].token in r.cancelled <==> u !in active))
            && (forall t :: t in r.cancelled && t !in ps.cancelled ==>
                  exists u :: u in ps.running && u !in active && ps.running[u].token == t)
  {
    var r := SweepOut(ps, active);
    forall u | u in ps.running && u !in active ensures ps.running[u].token in r.cancelled {
      assert u in ps.running.Keys - active;
    }
  }

  lemma {:induction false} ScanAllIdle(ps: ProbeSet, services: seq<ServiceInfo>)
    requires forall i :: 0 <= i < |services| && services[i].healthCheckConfig.Some? ==>
               services[i].uid in ps.running
                   && Some(ps.running[services[i].uid].config) == services[i].healthCheckConfig
    ensures ScanAll(ps, services) == ps
  {
    if services != [] {
      ScanAllIdle(ps, services[..|services| - 1]);
    }
  }

  lemma {:induction false} ConfigInAt(services: seq<ServiceInfo>, i: nat)
    requires DistinctUids(services) && i < |services|
    ensures ConfigIn(services, services[i].uid) == services[i].healthCheckConfig
  {
    if i < |services| - 1 {
      ConfigInAt(services[..|services| - 1], i);
    }
  }

  /** A second `reconcile` over the same services changes nothing. */
  lemma ReconcileIdempotent(ps: ProbeSet, services: seq<ServiceInfo>)
    requires ProbeSetOk(ps) && DistinctUids(services)
    ensures Reconciled(Reconciled(ps, services), services) == Reconciled(ps, services)
  {
    var r := Reconciled(ps, services);
    ReconcileExact(ps, services);
    hide Reconciled, ScanAll, ConfigIn, ProbeSetOk, SameLoop, NewLoop, DistinctUids;
    forall i | 0 <= i < |services| && services[i].healthCheckConfig.Some?
      ensures services[i].uid in r.running && Some(r.running[services[i].uid].config) == services[i].healthCheckConfig
    {
      ConfigInAt(services, i);
      assert services[i].uid in ActiveUids(services);
    }
    ScanAllIdle(r, services);
    SweepNothing(r, ActiveUids(services));
    ReconciledIs(r, services);
  }

  lemma ReconciledIs(ps: ProbeSet, services: seq<ServiceInfo>)
    ensures Reconciled(ps, services) == SweepOut(ScanAll(ps, services), ActiveUids(services))
  {
  }

  lemma SweepNothing(ps: ProbeSet, active: set<Uid>)
    requires ps.running.Keys <= active
    ensures SweepOut(ps, active) == ps
  {
    assert ps.running.Keys - active == {};
  }

  class HealthChecker {
    var running: map<Uid, Running>
    var cancelled: set<nat>
    var next: nat

    function View(): ProbeSet
      reads this
    {
      ProbeSet(running, cancelled, next)
    }

    constructor ()
      ensures View() == ProbeSet(map[], {}, 0)
    {
      running, cancelled, next := map[], {}, 0;
    }

    method Cancel(token: nat)
      modifies this`cancelled
      ensures cancelled == old(cancelled) + {token}
    {
      cancelled := cancelled + {token};
    }

    method ReconcileService(uid: Uid, config: HealthCheckConfig)
      modifies this
      ensures View() == Scan(old(View()), uid, config)
    {
      var isRunning := uid in running;
      if isRunning && running[uid].config != config {
        Cancel(running[uid].token);
        isRunning := false;
        running := running - {uid};
      }
      if !isRunning {
        running := running[uid := Running(next, config)];
        next := next + 1;
      }
    }

    /** Cancels and deletes, one by one, the entries of `running` that are not in `active`. */
    method StopInactive(active: set<Uid>)
      modifies this`running, this`cancelled
      ensures View() == SweepOut(old(View()), active)
    {
      var todo := running.Keys;
      while todo != {}
        invariant todo <= running.Keys <= old(running).Keys
        invariant forall u :: u in running ==> running[u] == old(running)[u]
        invariant forall u :: u in old(running) && u !in todo ==> (u in running <==> u in active)
        invariant cancelled == old(cancelled) + TokensOf(old(running), old(running).Keys - running.Keys)
        decreases todo
      {
        var uid :| uid in todo;
        todo := todo - {uid};
        if uid !in active {
          ghost var before := old(running).Keys - running.Keys;
          Cancel(running[uid].token);
          running := running - {uid};
          TokensOfOneMore(old(running), before, uid);
          assert old(running).Keys - running.Keys == before + {uid};
        }
      }
      assert running.Keys == old(running).Keys - (old(running).Keys - active);
      assert old(running).Keys - running.Keys == old(running).Keys - active;
    }

    /** `services` is what the cache returned when this run of `reconcile` began. */
    method Reconcile(services: seq<ServiceInfo>)
      modifies this
      ensures View() == Reconciled(old(View()), services)
    {
      var active: set<Uid> := {};
      for i := 0 to |services|
        invariant View() == ScanAll(old(View()), services[..i])
        invariant active == ActiveUids(services[..i])
      {
        ActiveUidsStep(services, i);
        assert services[..i + 1][..i] == services[..i];
        if services[i].healthCheckConfig.Some? {
          active := active + {services[i].uid};
          ReconcileService(services[i].uid, services[i].healthCheckConfig.value);
        }
      }
      assert services[..|services|] == services;
      StopInactive(active);
    }

    method StopAll()
      modifies this
      ensures View() == CancelAll(old(View()))
    {
      StopInactive({});
    }

    method ForgetRunningProbe(uid: Uid, config: HealthCheckConfig)
      modifies this
      ensures View() == Forget(old(View()), uid, config)
    {
      if uid in running && running[uid].config == config {
        Cancel(running[uid].token);
        running := running - {uid};
      }
    }
  }

  lemma TokensOfOneMore(running: map<Uid, Running>, uids: set<Uid>, uid: Uid)
    requires uid in running
    ensures TokensOf(running, uids + {uid}) == TokensOf(running, uids) + {running[uid].token}
  {
  }

  lemma ActiveUidsStep(services: seq<ServiceInfo>, n: nat)
    requires n < |services|
    ensures ActiveUids(services[..n + 1]) ==
            ActiveUids(services[..n]) + (if services[n].healthCheckConfig.Some? then {services[n].uid} else {})
  {
    var longer, shorter := services[..n + 1], services[..n];
    forall i | 0 <= i < n ensures longer[i] == shorter[i] {}
    forall u | u in ActiveUids(shorter) ensures u in ActiveUids(longer) {
      var i :| 0 <= i < |shorter| && shorter[i].healthCheckConfig.Some? && shorter[i].uid == u;
      assert longer[i] == shorter[i];
    }
    assert services[n].healthCheckConfig.Some? ==> longer[n].uid in ActiveUids(longer);
  }
}
