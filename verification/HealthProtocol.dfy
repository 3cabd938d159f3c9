/**
 All interleavings of the watcher's cache updates, the reconcile loop and the
 probe loops. One action is one critical section of the cache or of the
 checker's `running` map; a probe runs between two of them.
 */
module HealthProtocol {
  import opened Wrappers
  import opened Domain
  import opened ServiceCaches
  import opened HealthCheckers

  /** Where a probe loop is between its critical sections. */
  datatype LoopPc =
    | Ready
    | Probing(prev: string)
    | Stored(prev: string, status: string, at: nat)  // `at` is where history has the write
    | Outdated
    | Waiting

  datatype Loop = Loop(uid: Uid, config: HealthCheckConfig, pc: LoopPc)

  datatype ReconcilePc =
    | Idle
    | Scanning(snapshot: map<Uid, HealthCheckConfig>, todo: set<Uid>)
    | Ended

  datatype Event =
    | Wrote(uid: Uid, before: string, after: string, measuredFor: HealthCheckConfig, active: HealthCheckConfig)
    | Posted(uid: Uid, cause: nat, config: HealthCheckConfig, onTime: bool)  // `onTime`: under a config still in force
    | Unposted(uid: Uid, cause: nat)  // the service had left the cache

  type Pair = (Uid, HealthCheckConfig)

  datatype State = State(
    cache: CacheState,
    ps: ProbeSet,
    loops: map<nat, Loop>,
    rec: ReconcilePc,
    alive: bool,  // the parent context
    // History, read by no step: what was written and posted, the configs that
    // were replaced or removed, and whether one of them ever came back.
    history: seq<Event>,
    retired: set<Pair>,
    returned: bool)

  datatype Action =
    | Add(a: App)
    | Remove(uid: Uid)
    | BeginReconcile
    | ScanOne(uid: Uid)
    | Sweep
    | CancelParent
    | StopAll
    | LoopStep(token: nat, result: HealthStatus, exit: bool)

  const START := State(EMPTY, ProbeSet(map[], {}, 0), map[], Idle, true, [], {}, false)

  /** The configs in force, as `GetAll` shows them to `reconcile`. */
  function Configs(services: map<Uid, ServiceInfo>): map<Uid, HealthCheckConfig>
  {
    map u | u in services && services[u].healthCheckConfig.Some? :: services[u].healthCheckConfig.value
  }

  function Retire(s: State, uid: Uid, config: Option<HealthCheckConfig>): set<Pair>
  {
    if uid in s.cache.services && s.cache.services[uid].healthCheckConfig.Some?
        && s.cache.services[uid].healthCheckConfig != config then
      s.retired + {(uid, s.cache.services[uid].healthCheckConfig.value)}
    else s.retired
  }

  function StepRemove(s: State, uid: Uid): State
  {
    s.(cache := RemoveUid(s.cache, uid), retired := Retire(s, uid, None))
  }

  function StepAdd(s: State, a: App): State
  {
    if !Listed(a) then StepRemove(s, a.uid)
    else
      var config := ConfigOf(a);
      s.(cache := AddApp(s.cache, a),
         retired := Retire(s, a.uid, config),
         returned := s.returned || (config.Some? && (a.uid, config.value) in s.retired
                                    && !Current(s.cache.services, a.uid, config.value)))
  }

  function StepScan(s: State, uid: Uid): State
  {
    if !s.rec.Scanning? || uid !in s.rec.todo || uid !in s.rec.snapshot then s
    else
      var config := s.rec.snapshot[uid];
      var ps := Scan(s.ps, uid, config);
      s.(ps := ps,
         loops := if ps == s.ps then s.loops else s.loops[s.ps.next := Loop(uid, config, Ready)],
         rec := s.rec.(todo := s.rec.todo - {uid}))
  }

  function Goto(s: State, token: nat, pc: LoopPc): State
    requires token in s.loops
  {
    s.(loops := s.loops[token := s.loops[token].(pc := pc)])
  }

  function StepProbing(s: State, token: nat, prev: string, result: HealthStatus): State
    requires token in s.loops
  {
    var Loop(uid, config, _) := s.loops[token];
    if Current(s.cache.services, uid, config) then
      var before := s.cache.services[uid];
      Goto(s.(cache := s.cache.(services := StoreHealth(s.cache.services, uid, result)),
              history := s.history + [Wrote(uid, before.health.status, result.status, config,
                                            before.healthCheckConfig.value)]),
           token, Stored(prev, result.status, |s.history|))
    else Goto(s, token, Outdated)
  }

  /** What `afterHealthUpdate` leaves behind: a post if the cache still has the service. */
  function Announcement(services: map<Uid, ServiceInfo>, uid: Uid, config: HealthCheckConfig, at: nat): Event
  {
    if uid in services then Posted(uid, at, config, Current(services, uid, config)) else Unposted(uid, at)
  }

  function Announce(s: State, loop: Loop): seq<Event>
    requires loop.pc.Stored?
  {
    if loop.pc.status == "healthy" && loop.pc.prev == "unhealthy" then
      s.history + [Announcement(s.cache.services, loop.uid, loop.config, loop.pc.at)]
    else s.history
  }

  function StepLoop(s: State, token: nat, result: HealthStatus, exit: bool): State
    requires token in s.loops
  {
    var Loop(uid, config, pc) := s.loops[token];
    match pc
    case Ready =>
      if Current(s.cache.services, uid, config) then Goto(s, token, Probing(s.cache.services[uid].health.status))
      else Goto(s, token, Outdated)
    case Probing(prev) => StepProbing(s, token, prev, result)
    case Stored(_, _, _) => Goto(s, token, Waiting).(history := Announce(s, s.loops[token]))
    case Outdated => s.(ps := Forget(s.ps, uid, config), loops := s.loops - {token})
    case Waiting =>
      // A cancelled loop may still see its ticker first.
      if exit && (token in s.ps.cancelled || !s.alive) then s.(loops := s.loops - {token}) else Goto(s, token, Ready)
  }

  function Step(s: State, action: Action): State
  {
    match action
    case Add(a) => StepAdd(s, a)
    case Remove(uid) => StepRemove(s, uid)
    case BeginReconcile =>
      var snapshot := Configs(s.cache.services);
      if s.rec.Idle? then s.(rec := Scanning(snapshot, snapshot.Keys)) else s
    case ScanOne(uid) => StepScan(s, uid)
    case Sweep =>
      if s.rec.Scanning? && s.rec.todo == {} then s.(ps := SweepOut(s.ps, s.rec.snapshot.Keys), rec := Idle) else s
    case CancelParent => s.(alive := false)
    case StopAll => if !s.alive && s.rec.Idle? then s.(ps := CancelAll(s.ps), rec := Ended) else s
    case LoopStep(token, result, exit) => if token in s.loops then StepLoop(s, token, result, exit) else s
  }

  // ---- Loops and the running map -----------------------------------------

  predicate Tracked(ps: ProbeSet, token: nat, loop: Loop)
  {
    loop.uid in ps.running && ps.running[loop.uid] == Running(token, loop.config)
  }

  /**
   An uncancelled loop is the one `running` names for its UID; `running` names only live loops while
   the parent lives.
   */
  ghost predicate RunningMatches(ps: ProbeSet, loops: map<nat, Loop>, alive: bool)
  {
    && ProbeSetOk(ps)
    && (forall t :: t in loops ==> t < ps.next && (t !in ps.cancelled ==> Tracked(ps, t, loops[t])))
    && (forall u :: u in ps.running ==> Represented(ps.running[u], u, loops, alive))
  }

  ghost predicate Represented(r: Running, u: Uid, loops: map<nat, Loop>, alive: bool)
  {
    && (alive ==> r.token in loops)
    && (r.token in loops ==> loops[r.token].uid == u && loops[r.token].config == r.config)
  }

  lemma GotoMatches(ps: ProbeSet, loops: map<nat, Loop>, alive: bool, token: nat, pc: LoopPc)
    requires RunningMatches(ps, loops, alive) && token in loops
    ensures RunningMatches(ps, loops[token := loops[token].(pc := pc)], alive)
  {
  }

  lemma ScanMatches(ps: ProbeSet, loops: map<nat, Loop>, alive: bool, uid: Uid, config: HealthCheckConfig)
    requires RunningMatches(ps, loops, alive)
    ensures var ps' := Scan(ps, uid, config);
            RunningMatches(ps', if ps' == ps then loops else loops[ps.next := Loop(uid, config, Ready)], alive)
  {
    ScanEffect(ps, uid, config);
  }

  lemma SweepMatches(ps: ProbeSet, loops: map<nat, Loop>, alive: bool, active: set<Uid>)
    requires RunningMatches(ps, loops, alive)
    ensures RunningMatches(SweepOut(ps, active), loops, alive)
  {
    SweepEffect(ps, active);
    hide SweepOut, ProbeSetOk;
  }

  lemma ForgetEffect(ps: ProbeSet, uid: Uid, config: HealthCheckConfig)
    requires ProbeSetOk(ps)
    ensures var r := Forget(ps, uid, config);
            && ProbeSetOk(r) && r.next == ps.next && ps.cancelled <= r.cancelled
            && (forall u :: u in r.running ==> u in ps.running && r.running[u] == ps.running[u])
            && (forall u :: u in ps.running && u !in r.running ==>
                  u == uid && ps.running[u].config == config && ps.running[u].token in r.cancelled)
            && (uid in r.running ==> r.running[uid].config != config)
            && (forall t :: t in r.cancelled && t !in ps.cancelled ==>
                  uid in ps.running && ps.running[uid] == Running(t, config))
  {
  }

  /** An outdated loop leaves: if it was still the running one, `forgetRunningProbe` has taken it off the map. */
  lemma ForgetMatches(ps: ProbeSet, loops: map<nat, Loop>, alive: bool, token: nat)
    requires RunningMatches(ps, loops, alive) && token in loops
    ensures RunningMatches(Forget(ps, loops[token].uid, loops[token].config), loops - {token}, alive)
  {
    ForgetEffect(ps, loops[token].uid, loops[token].config);
    hide Forget;
  }

  lemma ExitMatches(ps: ProbeSet, loops: map<nat, Loop>, alive: bool, token: nat)
    requires RunningMatches(ps, loops, alive) && token in loops
    requires token in ps.cancelled || !alive
    ensures RunningMatches(ps, loops - {token}, alive)
  {
  }

  lemma MatchKept(s: State, action: Action)
    requires RunningMatches(s.ps, s.loops, s.alive)
    ensures var s' := Step(s, action); RunningMatches(s'.ps, s'.loops, s'.alive)
  {
    match action
    case ScanOne(uid) =>
      if s.rec.Scanning? && uid in s.rec.snapshot {
        ScanMatches(s.ps, s.loops, s.alive, uid, s.rec.snapshot[uid]);
      }
      hide RunningMatches, Scan;
    case Sweep =>
      if s.rec.Scanning? { SweepMatches(s.ps, s.loops, s.alive, s.rec.snapshot.Keys); }
      hide RunningMatches, SweepOut;
    case StopAll => SweepMatches(s.ps, s.loops, s.alive, {}); hide RunningMatches, SweepOut;
    case CancelParent =>
    case LoopStep(token, result, exit) =>
      if token in s.loops { LoopMatches(s, token, result, exit); }
      hide RunningMatches, StepLoop;
    case _ => hide RunningMatches, AddApp, RemoveUid;
  }

  lemma LoopMatches(s: State, token: nat, result: HealthStatus, exit: bool)
    requires RunningMatches(s.ps, s.loops, s.alive) && token in s.loops
    ensures var s' := StepLoop(s, token, result, exit); RunningMatches(s'.ps, s'.loops, s'.alive)
  {
    hide RunningMatches, Announce, Forget, StoreHealth;
    var s' := StepLoop(s, token, result, exit);
    match s.loops[token].pc
    case Outdated => ForgetMatches(s.ps, s.loops, s.alive, token);
    case Waiting =>
      if exit && (token in s.ps.cancelled || !s.alive) {
        ExitMatches(s.ps, s.loops, s.alive, token);
      } else {
        GotoMatches(s.ps, s.loops, s.alive, token, Ready);
      }
    case _ => GotoMatches(s.ps, s.loops, s.alive, token, s'.loops[token].pc);
  }
}
