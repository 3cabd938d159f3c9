/** Invariants of the health protocol that speak about what was written, and about configs that never return. */
module HealthHistory {
  import opened Wrappers
  import opened Domain
  import opened ServiceCaches
  import opened HealthCheckers
  import opened HealthProtocol

  // ---- Writes -------------------------------------------------------------

  /** The status of the last write for `u`. */
  function LastAfter(history: seq<Event>, u: Uid): Option<string>
  {
    if history == [] then None
    else
      var e := history[|history| - 1];
      if e.Wrote? && e.uid == u then Some(e.after) else LastAfter(history[..|history| - 1], u)
  }

  ghost predicate EventOk(e: Event, past: seq<Event>)
  {
    e.Wrote? ==> e.measuredFor == e.active && (e.before == "unhealthy" ==> LastAfter(past, e.uid) == Some("unhealthy"))
  }

  /**
   Every write measured the config in force; a status that reads unhealthy was written by the last
   probe of its UID.
   */
  ghost predicate WritesOk(history: seq<Event>, services: map<Uid, ServiceInfo>)
  {
    && (forall j :: 0 <= j < |history| ==> EventOk(history[j], history[..j]))
    && (forall u :: u in services && services[u].health.status == "unhealthy" ==>
          LastAfter(history, u) == Some("unhealthy"))
  }

  lemma EventsExtend(history: seq<Event>, e: Event)
    requires forall j :: 0 <= j < |history| ==> EventOk(history[j], history[..j])
    requires EventOk(e, history)
    ensures var h := history + [e]; forall j :: 0 <= j < |h| ==> EventOk(h[j], h[..j])
  {
    var h := history + [e];
    hide EventOk;
    forall j | 0 <= j < |h| ensures EventOk(h[j], h[..j]) {
      if j < |history| {
        assert h[..j] == history[..j];
      } else {
        assert h[..j] == history;
      }
    }
  }

  lemma LastAfterExtend(history: seq<Event>, e: Event, u: Uid)
    ensures LastAfter(history + [e], u) == if e.Wrote? && e.uid == u then Some(e.after) else LastAfter(history, u)
  {
    assert (history + [e])[..|history + [e]| - 1] == history;
  }

  lemma WritesKeptByNote(history: seq<Event>, services: map<Uid, ServiceInfo>, e: Event)
    requires WritesOk(history, services) && !e.Wrote?
    ensures WritesOk(history + [e], services)
  {
    EventsExtend(history, e);
    forall u ensures LastAfter(history + [e], u) == LastAfter(history, u) { LastAfterExtend(history, e, u); }
    hide LastAfter, EventOk;
  }

  lemma WritesKeptByStore(history: seq<Event>, services: map<Uid, ServiceInfo>, uid: Uid, config: HealthCheckConfig,
                          status: HealthStatus)
    requires WritesOk(history, services) && Current(services, uid, config)
    ensures WritesOk(history + [Wrote(uid, services[uid].health.status, status.status, config,
                                      services[uid].healthCheckConfig.value)],
                     StoreHealth(services, uid, status))
  {
    var e := Wrote(uid, services[uid].health.status, status.status, config, services[uid].healthCheckConfig.value);
    EventsExtend(history, e);
    forall u ensures LastAfter(history + [e], u) == if u == uid then Some(e.after) else LastAfter(history, u) {
      LastAfterExtend(history, e, u);
    }
    hide LastAfter, EventOk;
  }

  /** An update never makes a status read unhealthy that did not. */
  lemma WritesKeptByUpdate(history: seq<Event>, services: map<Uid, ServiceInfo>, services': map<Uid, ServiceInfo>)
    requires WritesOk(history, services)
    requires forall u :: u in services' && services'[u].health.status == "unhealthy" ==>
               u in services && services[u].health.status == "unhealthy"
    ensures WritesOk(history, services')
  {
    hide LastAfter, EventOk;
  }

  lemma AddHealth(c: CacheState, a: App)
    ensures forall u :: u in AddApp(c, a).services && AddApp(c, a).services[u].health.status == "unhealthy" ==>
              u in c.services && c.services[u].health.status == "unhealthy"
  {
    hide ConfigOf, DropsAfterAdd;
  }

  ghost predicate CacheInv(s: State)
  {
    Wellformed(s.cache) && WritesOk(s.history, s.cache.services)
  }

  lemma CacheInvKept(s: State, action: Action)
    requires CacheInv(s)
    ensures CacheInv(Step(s, action))
  {
    hide Wellformed, WritesOk;
    match action
    case Add(a) =>
      AddKeepsWellformed(s.cache, a);
      RemoveKeepsWellformed(s.cache, a.uid);
      AddHealth(s.cache, a);
      WritesKeptByUpdate(s.history, s.cache.services, AddApp(s.cache, a).services);
      WritesKeptByUpdate(s.history, s.cache.services, RemoveUid(s.cache, a.uid).services);
      hide AddApp, RemoveUid, ConfigOf, Retire;
    case Remove(uid) =>
      RemoveKeepsWellformed(s.cache, uid);
      WritesKeptByUpdate(s.history, s.cache.services, RemoveUid(s.cache, uid).services);
      hide RemoveUid, Retire;
    case LoopStep(token, result, exit) =>
      if token in s.loops {
        LoopCacheInv(s, token, result, exit);
      }
      hide StepLoop;
    case _ =>
  }

  lemma LoopCacheInv(s: State, token: nat, result: HealthStatus, exit: bool)
    requires CacheInv(s) && token in s.loops
    ensures CacheInv(StepLoop(s, token, result, exit))
  {
    hide Wellformed, WritesOk, Forget;
    var Loop(uid, config, pc) := s.loops[token];
    match pc
    case Probing(prev) =>
      if Current(s.cache.services, uid, config) {
        StoreKeepsWellformed(s.cache, uid, config, result);
        WritesKeptByStore(s.history, s.cache.services, uid, config, result);
        hide StoreHealth;
      }
    case Stored(prev, status, at) =>
      WritesKeptByNote(s.history, s.cache.services, Announcement(s.cache.services, uid, config, at));
    case _ =>
  }

  // ---- Configs that never return -----------------------------------------

  predicate Known(services: map<Uid, ServiceInfo>, retired: set<Pair>, uid: Uid, config: HealthCheckConfig)
  {
    Current(services, uid, config) || (uid, config) in retired
  }

  /**
   A loop whose config is in force is uncancelled, in the snapshot being scanned, and has read the
   status that is still stored.
   */
  ghost predicate LoopOk(t: nat, loop: Loop, services: map<Uid, ServiceInfo>, retired: set<Pair>, cancelled: set<nat>,
                         rec: ReconcilePc)
  {
    && Known(services, retired, loop.uid, loop.config)
    && (Current(services, loop.uid, loop.config) ==>
          && (rec.Ended? || (t !in cancelled && !loop.pc.Outdated?))
          && (rec.Scanning? ==> loop.uid in rec.snapshot && rec.snapshot[loop.uid] == loop.config)
          && (loop.pc.Probing? ==> loop.pc.prev == services[loop.uid].health.status))
  }

  ghost predicate LoopsOk(loops: map<nat, Loop>, services: map<Uid, ServiceInfo>, retired: set<Pair>,
                          cancelled: set<nat>, rec: ReconcilePc)
  {
    forall t :: t in loops ==> LoopOk(t, loops[t], services, retired, cancelled, rec)
  }

  predicate SameJob(a: Loop, b: Loop)
  {
    a.uid == b.uid && a.config == b.config
  }

  /** Only one loop can serve a config in force. */
  ghost predicate OneServer(loops: map<nat, Loop>, services: map<Uid, ServiceInfo>)
  {
    forall t, t' :: t in loops && t' in loops && SameJob(loops[t], loops[t']) ==>
      Current(services, loops[t].uid, loops[t].config) ==> t == t'
  }

  ghost predicate SnapshotKnown(services: map<Uid, ServiceInfo>, retired: set<Pair>, rec: ReconcilePc)
  {
    rec.Scanning? ==> forall u :: u in rec.snapshot ==> Known(services, retired, u, rec.snapshot[u])
  }

  ghost predicate NoneRetired(services: map<Uid, ServiceInfo>, retired: set<Pair>)
  {
    forall u :: u in services && services[u].healthCheckConfig.Some? ==>
        (u, services[u].healthCheckConfig.value) !in retired
  }

  ghost predicate Fresh(s: State)
  {
    && LoopsOk(s.loops, s.cache.services, s.retired, s.ps.cancelled, s.rec)
    && OneServer(s.loops, s.cache.services)
    && SnapshotKnown(s.cache.services, s.retired, s.rec)
    && NoneRetired(s.cache.services, s.retired)
  }

  /** How an update without a return may change configs and stored health. */
  ghost predicate Updates(services: map<Uid, ServiceInfo>, retired: set<Pair>, services': map<Uid, ServiceInfo>,
                          retired': set<Pair>)
  {
    && retired <= retired'
    && (forall u, c :: Current(services, u, c) && !Current(services', u, c) ==> (u, c) in retired')
    && (forall u, c :: !Current(services, u, c) && Current(services', u, c) ==> (u, c) !in retired)
    && (forall u, c :: Current(services', u, c) ==> (u, c) !in retired')
    && (forall u, c :: Current(services, u, c) && Current(services', u, c) ==>
          services'[u].health == services[u].health)
  }

  lemma UpdateKeepsFresh(s: State, services': map<Uid, ServiceInfo>, retired': set<Pair>)
    requires Fresh(s)
    requires Updates(s.cache.services, s.retired, services', retired')
    ensures LoopsOk(s.loops, services', retired', s.ps.cancelled, s.rec)
    ensures OneServer(s.loops, services')
    ensures SnapshotKnown(services', retired', s.rec)
    ensures NoneRetired(services', retired')
  {
    forall t | t in s.loops ensures LoopOk(t, s.loops[t], services', retired', s.ps.cancelled, s.rec) {
      assert LoopOk(t, s.loops[t], s.cache.services, s.retired, s.ps.cancelled, s.rec);
    }
    forall u | u in services' && services'[u].healthCheckConfig.Some?
      ensures (u, services'[u].healthCheckConfig.value) !in retired' {
      assert Current(services', u, services'[u].healthCheckConfig.value);
    }
    hide Current;
  }

  lemma RemoveUpdates(s: State, uid: Uid)
    requires NoneRetired(s.cache.services, s.retired)
    ensures var s' := StepRemove(s, uid); Updates(s.cache.services, s.retired, s'.cache.services, s'.retired)
  {
  }

  lemma AddUpdates(s: State, a: App)
    requires NoneRetired(s.cache.services, s.retired) && Listed(a)
    requires !StepAdd(s, a).returned
    ensures var s' := StepAdd(s, a); Updates(s.cache.services, s.retired, s'.cache.services, s'.retired)
  {
    hide ConfigOf, DropsAfterAdd;
    var services' := AddApp(s.cache, a).services;
    assert services' == s.cache.services[a.uid := EntryFor(a, ConfigOf(a),
                                                           HealthAfterAdd(s.cache.services, a.uid, ConfigOf(a)))];
    hide AddApp;
  }

  lemma BeginKeepsFresh(s: State)
    requires Fresh(s) && s.rec.Idle?
    ensures Fresh(Step(s, BeginReconcile))
  {
    var snapshot := Configs(s.cache.services);
    var rec := Scanning(snapshot, snapshot.Keys);
    forall t | t in s.loops ensures LoopOk(t, s.loops[t], s.cache.services, s.retired, s.ps.cancelled, rec) {
      assert LoopOk(t, s.loops[t], s.cache.services, s.retired, s.ps.cancelled, s.rec);
    }
    hide LoopOk, OneServer;
  }

  /** Cancelling only loops whose config is no longer in force keeps the invariant. */
  lemma CancelKeepsLoops(s: State, cancelled': set<nat>, rec': ReconcilePc)
    requires LoopsOk(s.loops, s.cache.services, s.retired, s.ps.cancelled, s.rec)
    requires rec'.Ended? || (!s.rec.Ended? && forall t :: t in s.loops && t in cancelled' && t !in s.ps.cancelled ==>
               !Current(s.cache.services, s.loops[t].uid, s.loops[t].config))
    requires rec'.Scanning? ==> s.rec.Scanning? && rec'.snapshot == s.rec.snapshot
    ensures LoopsOk(s.loops, s.cache.services, s.retired, cancelled', rec')
  {
    forall t | t in s.loops ensures LoopOk(t, s.loops[t], s.cache.services, s.retired, cancelled', rec') {
      assert LoopOk(t, s.loops[t], s.cache.services, s.retired, s.ps.cancelled, s.rec);
    }
  }

  lemma SweepKeepsFresh(s: State)
    requires Fresh(s) && RunningMatches(s.ps, s.loops, s.alive) && s.rec.Scanning?
    ensures Fresh(s.(ps := SweepOut(s.ps, s.rec.snapshot.Keys), rec := Idle))
  {
    var ps' := SweepOut(s.ps, s.rec.snapshot.Keys);
    SweepEffect(s.ps, s.rec.snapshot.Keys);
    hide SweepOut, ProbeSetOk;
    forall t | t in s.loops && t in ps'.cancelled && t !in s.ps.cancelled
      ensures !Current(s.cache.services, s.loops[t].uid, s.loops[t].config)
    {
      var u :| u in s.ps.running && u !in s.rec.snapshot.Keys && s.ps.running[u].token == t;
      assert Represented(s.ps.running[u], u, s.loops, s.alive);
      assert LoopOk(t, s.loops[t], s.cache.services, s.retired, s.ps.cancelled, s.rec);
    }
    hide Current, RunningMatches, LoopOk;
    CancelKeepsLoops(s, ps'.cancelled, Idle);
  }

  lemma StopAllKeepsFresh(s: State)
    requires Fresh(s)
    ensures Fresh(s.(ps := CancelAll(s.ps), rec := Ended))
  {
    hide LoopOk, OneServer, CancelAll;
    CancelKeepsLoops(s, CancelAll(s.ps).cancelled, Ended);
  }

  lemma ForgetKeepsFresh(s: State, token: nat)
    requires Fresh(s) && RunningMatches(s.ps, s.loops, s.alive)
    requires token in s.loops && s.loops[token].pc.Outdated?
    ensures Fresh(s.(ps := Forget(s.ps, s.loops[token].uid, s.loops[token].config), loops := s.loops - {token}))
  {
    var loop := s.loops[token];
    var ps' := Forget(s.ps, loop.uid, loop.config);
    ForgetEffect(s.ps, loop.uid, loop.config);
    hide Forget, ProbeSetOk;
    assert LoopOk(token, loop, s.cache.services, s.retired, s.ps.cancelled, s.rec);
    forall t | t in s.loops && t in ps'.cancelled && t !in s.ps.cancelled
      ensures s.rec.Ended? || !Current(s.cache.services, s.loops[t].uid, s.loops[t].config)
    {
      assert s.ps.running[loop.uid] == Running(t, loop.config);
      assert Represented(s.ps.running[loop.uid], loop.uid, s.loops, s.alive);
    }
    hide Current, RunningMatches, LoopOk;
    CancelKeepsLoops(s, ps'.cancelled, s.rec);
  }

  lemma GotoKeepsFresh(s: State, token: nat, pc: LoopPc)
    requires Fresh(s) && token in s.loops
    requires pc.Outdated? ==> !Current(s.cache.services, s.loops[token].uid, s.loops[token].config)
    requires pc.Probing? ==>
               s.loops[token].uid in s.cache.services && pc.prev == s.cache.services[s.loops[token].uid].health.status
    ensures Fresh(Goto(s, token, pc))
  {
    var loops' := s.loops[token := s.loops[token].(pc := pc)];
    forall t | t in loops' ensures LoopOk(t, loops'[t], s.cache.services, s.retired, s.ps.cancelled, s.rec) {
      assert LoopOk(t, s.loops[t], s.cache.services, s.retired, s.ps.cancelled, s.rec);
    }
    hide LoopOk, Current, Known;
  }

  /** The loop that stores is the only one that serves the config, so nobody else has read the status it overwrites. */
  lemma StoreKeepsFresh(s: State, token: nat, status: HealthStatus)
    requires Fresh(s) && token in s.loops && !s.loops[token].pc.Probing?
    requires Current(s.cache.services, s.loops[token].uid, s.loops[token].config)
    ensures Fresh(s.(cache := s.cache.(services := StoreHealth(s.cache.services, s.loops[token].uid, status))))
  {
    var services' := StoreHealth(s.cache.services, s.loops[token].uid, status);
    forall u, c ensures Current(services', u, c) == Current(s.cache.services, u, c) {}
    forall t | t in s.loops ensures LoopOk(t, s.loops[t], services', s.retired, s.ps.cancelled, s.rec) {
      assert LoopOk(t, s.loops[t], s.cache.services, s.retired, s.ps.cancelled, s.rec);
      assert Current(s.cache.services, s.loops[t].uid, s.loops[t].config) && s.loops[t].uid == s.loops[token].uid ==>
          SameJob(s.loops[t], s.loops[token]);
    }
    hide LoopOk, Known, Current;
  }

  /** A new loop starts only when no live loop serves the config. */
  lemma ScanKeepsFresh(s: State, uid: Uid)
    requires Fresh(s) && RunningMatches(s.ps, s.loops, s.alive)
    requires s.rec.Scanning? && uid in s.rec.todo && uid in s.rec.snapshot
    ensures Fresh(StepScan(s, uid))
  {
    var config := s.rec.snapshot[uid];
    var ps' := Scan(s.ps, uid, config);
    var rec' := s.rec.(todo := s.rec.todo - {uid});
    ScanEffect(s.ps, uid, config);
    ScanCancelsOutdated(s, uid);
    assert s.ps.next !in ps'.cancelled;
    CancelKeepsLoops(s, ps'.cancelled, rec');
    if ps' != s.ps {
      ScanStartsAlone(s, uid);
      var loops' := s.loops[s.ps.next := Loop(uid, config, Ready)];
      hide Scan, ProbeSetOk, RunningMatches, Current;
      forall t | t in loops' ensures LoopOk(t, loops'[t], s.cache.services, s.retired, ps'.cancelled, rec') {}
    } else {
      hide Scan, ProbeSetOk, RunningMatches, Current;
    }
  }

  lemma ScanCancelsOutdated(s: State, uid: Uid)
    requires Fresh(s) && RunningMatches(s.ps, s.loops, s.alive)
    requires s.rec.Scanning? && uid in s.rec.snapshot
    ensures var ps' := Scan(s.ps, uid, s.rec.snapshot[uid]);
            forall t :: t in s.loops && t in ps'.cancelled && t !in s.ps.cancelled ==>
              !Current(s.cache.services, s.loops[t].uid, s.loops[t].config)
  {
    var ps' := Scan(s.ps, uid, s.rec.snapshot[uid]);
    forall t | t in s.loops && t in ps'.cancelled && t !in s.ps.cancelled
      ensures !Current(s.cache.services, s.loops[t].uid, s.loops[t].config)
    {
      assert Represented(s.ps.running[uid], uid, s.loops, s.alive);
      assert LoopOk(t, s.loops[t], s.cache.services, s.retired, s.ps.cancelled, s.rec);
    }
  }

  lemma ScanStartsAlone(s: State, uid: Uid)
    requires Fresh(s) && RunningMatches(s.ps, s.loops, s.alive)
    requires s.rec.Scanning? && uid in s.rec.snapshot
    requires Scan(s.ps, uid, s.rec.snapshot[uid]) != s.ps
    ensures OneServer(s.loops[s.ps.next := Loop(uid, s.rec.snapshot[uid], Ready)], s.cache.services)
  {
    var started := Loop(uid, s.rec.snapshot[uid], Ready);
    forall t | t in s.loops && SameJob(s.loops[t], started) ensures !Current(s.cache.services, uid, started.config) {
      assert LoopOk(t, s.loops[t], s.cache.services, s.retired, s.ps.cancelled, s.rec);
    }
    hide Scan, LoopsOk, RunningMatches, Current, SnapshotKnown, NoneRetired;
  }

  ghost predicate FreshInv(s: State)
  {
    RunningMatches(s.ps, s.loops, s.alive) && (s.returned || Fresh(s))
  }

  lemma FreshKept(s: State, action: Action)
    requires FreshInv(s)
    ensures FreshInv(Step(s, action))
  {
    MatchKept(s, action);
    if !Step(s, action).returned {
      FreshKeptStep(s, action);
    }
    hide Step, Fresh, RunningMatches;
  }

  lemma FreshKeptStep(s: State, action: Action)
    requires Fresh(s) && RunningMatches(s.ps, s.loops, s.alive)
    requires !Step(s, action).returned
    ensures Fresh(Step(s, action))
  {
    match action
    case Add(a) =>
      var s' := Step(s, action);
      RemoveUpdates(s, a.uid);
      if Listed(a) { AddUpdates(s, a); }
      hide LoopsOk, OneServer, SnapshotKnown, NoneRetired, Updates, AddApp, RemoveUid, Retire, Current, ConfigOf;
      UpdateKeepsFresh(s, s'.cache.services, s'.retired);
    case Remove(uid) =>
      var s' := Step(s, action);
      RemoveUpdates(s, uid);
      hide LoopsOk, OneServer, SnapshotKnown, NoneRetired, Updates, RemoveUid, Retire;
      UpdateKeepsFresh(s, s'.cache.services, s'.retired);
    case BeginReconcile =>
      if s.rec.Idle? { BeginKeepsFresh(s); }
      hide Fresh;
    case ScanOne(uid) =>
      hide Fresh, RunningMatches;
      if s.rec.Scanning? && uid in s.rec.todo && uid in s.rec.snapshot { ScanKeepsFresh(s, uid); }
    case Sweep =>
      hide Fresh, RunningMatches, SweepOut;
      if s.rec.Scanning? { SweepKeepsFresh(s); }
    case StopAll =>
      hide Fresh, CancelAll;
      StopAllKeepsFresh(s);
    case CancelParent => hide LoopsOk, OneServer, SnapshotKnown, NoneRetired;
    case LoopStep(token, result, exit) =>
      hide Fresh, RunningMatches, StepLoop;
      if token in s.loops { LoopKeepsFresh(s, token, result, exit); }
  }

  lemma HistoryKeepsFresh(s: State, history: seq<Event>)
    requires Fresh(s)
    ensures Fresh(s.(history := history))
  {
    hide LoopsOk, OneServer, SnapshotKnown, NoneRetired;
  }

  lemma ExitKeepsFresh(s: State, token: nat)
    requires Fresh(s)
    ensures Fresh(s.(loops := s.loops - {token}))
  {
    hide LoopOk, SnapshotKnown, NoneRetired, Current;
  }

  lemma LoopKeepsFresh(s: State, token: nat, result: HealthStatus, exit: bool)
    requires Fresh(s) && RunningMatches(s.ps, s.loops, s.alive) && token in s.loops
    ensures Fresh(StepLoop(s, token, result, exit))
  {
    hide Fresh, RunningMatches, Forget;
    var Loop(uid, config, pc) := s.loops[token];
    match pc
    case Ready =>
      if Current(s.cache.services, uid, config) {
        GotoKeepsFresh(s, token, Probing(s.cache.services[uid].health.status));
      } else {
        GotoKeepsFresh(s, token, Outdated);
      }
    case Probing(prev) =>
      if Current(s.cache.services, uid, config) {
        var s1 := Goto(s, token, Stored(prev, result.status, |s.history|));
        GotoKeepsFresh(s, token, Stored(prev, result.status, |s.history|));
        StoreKeepsFresh(s1, token, result);
        HistoryKeepsFresh(s1.(cache := s1.cache.(services := StoreHealth(s1.cache.services, uid, result))),
                          StepLoop(s, token, result, exit).history);
        hide StoreHealth;
      } else {
        GotoKeepsFresh(s, token, Outdated);
      }
    case Stored(prev, status, at) =>
      GotoKeepsFresh(s, token, Waiting);
      HistoryKeepsFresh(Goto(s, token, Waiting), Announce(s, s.loops[token]));
    case Outdated => ForgetKeepsFresh(s, token);
    case Waiting =>
      ExitKeepsFresh(s, token);
      GotoKeepsFresh(s, token, Ready);
  }
}
