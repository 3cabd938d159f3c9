/**
 All interleavings of the JWT validator's goroutines: the init loop, any number
 of request threads and the refresh goroutines they start. One action is one
 critical section, clock read or network response.
 */
module JwksProtocol {
  import opened Wrappers
  import opened JwksFields

  /** Progress of one `fetchPublicKeys` call. */
  datatype FetchPc =
    | Begin
    | Requested
    | Received(keys: KeySet)
    | Installed
    | Cleared
    | Counted(result: FetchResult)

  datatype InitPc = InitFetch(attempt: nat, fetch: FetchPc) | InitDone | InitStopped

  datatype Purpose = Miss(kid: Kid) | Stale(kid: Kid, key: Key)

  datatype Verdict =
    | NotReady
    | Accepted(kid: Kid, key: Key)
    | CachedUnknown(kid: Kid)
    | Cooldown(kid: Kid, now: Time)  // `now`: the clock reading it was refused at
    | RefreshFailed(kid: Kid)
    | NotInKeySet(kid: Kid)

  /** Progress of the key lookup of one `ValidateToken` call. */
  datatype ThreadPc =
    | Arrived(kid: Kid)
    | Lookup(kid: Kid)
    | Missed(kid: Kid)
    | Due(purpose: Purpose)
    | ReadClock(purpose: Purpose, now: Time)
    | Snapshot(purpose: Purpose, now: Time, lastFetch: Option<Time>)
    | Waiting(kid: Kid, call: nat)
    | Recheck(kid: Kid, call: nat)
    | Absent(kid: Kid, call: nat, gen: nat, read: Option<Time>)  // `read`: the clock, once read
    | Found(kid: Kid, key: Key)
    | Dated(kid: Kid, key: Key, lastFetch: Option<Time>)
    | Finished(verdict: Verdict)

  /** Why a kid is negatively cached: the refresh its caller waited for, and the key set it was then absent from. */
  datatype Evidence = Evidence(call: nat, gen: nat)

  datatype State = State(
    f: Fields,
    clock: Time,
    stopping: bool,
    init: InitPc,
    workers: map<nat, FetchPc>,
    threads: map<nat, ThreadPc>,
    // History, read by no step: successful responses in arrival order, how many
    // were installed, when and by which call, recorded refresh start times, calls to
    // startPublicKeysRefresh, and the evidence for each negative entry.
    responses: seq<KeySet>,
    installs: nat,
    installTimes: seq<Time>,
    installedBy: map<nat, nat>,
    starts: seq<Time>,
    startCalls: nat,
    evidence: map<Kid, Evidence>)

  datatype Action =
    | Tick(d: nat)
    | Stop
    | InitStep(response: Option<KeySet>)
    | WorkerStep(call: nat, response: Option<KeySet>)
    | Arrive(thread: nat, kid: Kid)
    | ThreadStep(thread: nat, victim: Kid)

  const START := State(INITIAL, 0, false, InitFetch(1, Begin), map[], map[], [], 0, [], map[], [], 0, map[])

  function FetchStep(f: Fields, pc: FetchPc, response: Option<KeySet>, now: Time): (Fields, FetchPc)
  {
    match pc
    case Begin => (f.(attempts := f.attempts + 1), Requested)
    case Requested =>
      // A set without a usable RSA key is a failure, like any error on the way.
      if response.Some? && response.value != map[] then (f, Received(response.value))
      else (f.(failures := f.failures + 1), Counted(Failed))
    case Received(keys) => (InstallKeys(f, keys, now), Installed)
    case Installed => (ClearUnknown(f), Cleared)
    case Cleared => (f.(successes := f.successes + 1), Counted(Fetched))
    case Counted(_) => (f, pc)
  }

  /** A fetch step plus the history it adds. */
  function Fetch(s: State, pc: FetchPc, response: Option<KeySet>): (State, FetchPc)
  {
    var (f, next) := FetchStep(s.f, pc, response, s.clock);
    (s.(f := f,
        responses := if pc.Requested? && next.Received? then s.responses + [next.keys] else s.responses,
        installs := if pc.Received? then s.installs + 1 else s.installs,
        installTimes := if pc.Received? then s.installTimes + [s.clock] else s.installTimes,
        evidence := if pc.Installed? then map[] else s.evidence),
     next)
  }

  function StepInit(s: State, response: Option<KeySet>): State
  {
    if !s.init.InitFetch? then s
    else
      match s.init.fetch
      case Counted(Fetched) => s.(f := s.f.(ready := true), init := InitDone)
      case Counted(Failed) => s.(init := InitFetch(s.init.attempt + 1, Begin))
      case pc =>
        // `stopped` is only looked at before an active attempt; the slow poll may take either branch.
        if pc.Begin? && s.stopping && (s.init.attempt <= RETRY_MAX_ATTEMPTS || response.None?) then
          s.(init := InitStopped)
        else
          var (s', next) := Fetch(s, pc, response);
          s'.(init := InitFetch(s.init.attempt, next))
  }

  function StepWorker(s: State, call: nat, response: Option<KeySet>): State
  {
    if call !in s.workers || call >= |s.f.calls| then s
    else
      match s.workers[call]
      case Counted(result) => s.(f := FinishRefresh(s.f, call, result), workers := s.workers - {call})
      case pc =>
        var (s', next) := Fetch(s, pc, response);
        s'.(workers := s.workers[call := next],
            installedBy := if pc.Received? then s.installedBy[call := s'.installs] else s.installedBy)
  }

  /** What a request thread does next with the outcome of `startPublicKeysRefresh`. */
  function AfterStart(p: Purpose, outcome: StartOutcome, now: Time): ThreadPc
  {
    match p
    case Stale(kid, key) => Finished(Accepted(kid, key))
    case Miss(kid) => if outcome.Skipped? then Finished(Cooldown(kid, now)) else Waiting(kid, outcome.call)
  }

  function StepSnapshot(s: State, thread: nat, p: Purpose, now: Time, lastFetch: Option<Time>): State
  {
    var (f, outcome) := StartRefresh(s.f, now, lastFetch);
    s.(f := f,
       threads := s.threads[thread := AfterStart(p, outcome, now)],
       workers := if outcome.Started? then s.workers[outcome.call := Begin] else s.workers,
       starts := if outcome.Started? then s.starts + [now] else s.starts,
       startCalls := s.startCalls + 1)
  }

  function StepMissed(s: State, thread: nat, kid: Kid): State
  {
    var (f, hit) := LookupUnknown(s.f, kid, s.clock);
    s.(f := f,
       threads := s.threads[thread := if hit then Finished(CachedUnknown(kid)) else Due(Miss(kid))],
       evidence := Restrict(s.evidence, f.unknownKIDs.Keys))
  }

  function StepAbsent(s: State, thread: nat, kid: Kid, call: nat, gen: nat, now: Time, victim: Kid): State
  {
    if !EvictionChoice(s.f.unknownKIDs, now, victim) then s
    else
      var unknown := Remembered(s.f.unknownKIDs, kid, now, victim);
      s.(f := s.f.(unknownKIDs := unknown),
         threads := s.threads[thread := Finished(NotInKeySet(kid))],
         evidence := Restrict(s.evidence, unknown.Keys)[kid := Evidence(call, gen)])
  }

  function Restrict(evidence: map<Kid, Evidence>, kids: set<Kid>): map<Kid, Evidence>
  {
    map kid | kid in evidence && kid in kids :: evidence[kid]
  }

  /** The thread steps that only look at the shared fields. */
  function NextPc(s: State, pc: ThreadPc): ThreadPc
  {
    match pc
    case Arrived(kid) => if s.f.ready then Lookup(kid) else Finished(NotReady)
    case Lookup(kid) => if kid in s.f.publicKeys then Found(kid, s.f.publicKeys[kid]) else Missed(kid)
    case Due(p) => ReadClock(p, s.clock)
    case ReadClock(p, now) => Snapshot(p, now, s.f.lastFetch)
    case Waiting(kid, call) =>
      if call >= |s.f.calls| || s.f.calls[call].closes == 0 then pc
      else if s.f.calls[call].err == Some(Fetched) then Recheck(kid, call)
      else Finished(RefreshFailed(kid))
    case Recheck(kid, call) =>
      if kid in s.f.publicKeys then Found(kid, s.f.publicKeys[kid]) else Absent(kid, call, s.installs, None)
    case Absent(kid, call, gen, None) => Absent(kid, call, gen, Some(s.clock))
    case Found(kid, key) => Dated(kid, key, s.f.lastFetch)
    case Dated(kid, key, lastFetch) =>
      var stale := lastFetch.None? || s.clock - lastFetch.value > JWKS_STALE_REFRESH_INTERVAL;
      if stale then Due(Stale(kid, key)) else Finished(Accepted(kid, key))
    case _ => pc
  }

  function StepThread(s: State, thread: nat, victim: Kid): State
  {
    if thread !in s.threads then s
    else
      match s.threads[thread]
      case Missed(kid) => StepMissed(s, thread, kid)
      case Snapshot(p, now, lastFetch) => StepSnapshot(s, thread, p, now, lastFetch)
      case Absent(kid, call, gen, Some(now)) => StepAbsent(s, thread, kid, call, gen, now, victim)
      case pc =>
        var next := NextPc(s, pc);
        Goto(if next.Missed? then CountUnknown(s) else s, thread, next)
  }

  function CountUnknown(s: State): State
  {
    s.(f := s.f.(unknownTotal := s.f.unknownTotal + 1))
  }

  function Goto(s: State, thread: nat, pc: ThreadPc): State
  {
    s.(threads := s.threads[thread := pc])
  }

  function Step(s: State, a: Action): State
  {
    match a
    case Tick(d) => s.(clock := s.clock + d)
    case Stop => s.(stopping := true)
    case InitStep(response) => StepInit(s, response)
    case WorkerStep(call, response) => StepWorker(s, call, response)
    case Arrive(thread, kid) => if thread in s.threads then s else Goto(s, thread, Arrived(kid))
    case ThreadStep(thread, victim) => StepThread(s, thread, victim)
  }

  // ---- Invariants --------------------------------------------------------

  /** A fetch counts as in flight from its attempt until its success or failure is counted. */
  predicate Busy(pc: FetchPc)
  {
    pc.Requested? || pc.Received? || pc.Installed? || pc.Cleared?
  }

  predicate NeedsReady(pc: ThreadPc)
  {
    !pc.Arrived? && pc != Finished(NotReady)
  }

  ghost predicate SingleFlight(ready: bool, calls: nat, refreshCall: Option<nat>, init: InitPc,
                               workers: map<nat, FetchPc>)
  {
    && (ready <==> init.InitDone?)
    && (refreshCall.Some? ==> ready && refreshCall.value < calls && refreshCall.value in workers)
    && (forall c :: c in workers ==> refreshCall == Some(c))
  }

  /** The one fetch that can be under way; a fetch that has not begun when there is none. */
  function Active(init: InitPc, workers: map<nat, FetchPc>, refreshCall: Option<nat>): FetchPc
  {
    if init.InitFetch? then init.fetch
    else if refreshCall.Some? && refreshCall.value in workers then workers[refreshCall.value]
    else Begin
  }

  ghost predicate CountersAgree(f: Fields, active: FetchPc, starts: nat, startCalls: nat)
  {
    && f.attempts == f.successes + f.failures + (if Busy(active) then 1 else 0)
    && startCalls == starts + f.coalesced + f.skipped
    && starts == |f.calls|
  }

  /**
   `done` is closed once, when the goroutine ends and the result is known; a successful call has
   installed its keys.
   */
  ghost predicate CallsOk(calls: seq<Call>, workers: map<nat, FetchPc>, installedBy: map<nat, nat>, installs: nat)
  {
    && (forall c :: 0 <= c < |calls| ==> CallOk(calls[c], c in workers, InstallOf(c, installedBy, installs)))
    && (forall c :: c in workers && PastInstall(workers[c]) ==> InstallOf(c, installedBy, installs))
  }

  predicate CallOk(call: Call, live: bool, installed: bool)
  {
    && call.closes == (if live then 0 else 1)
    && (call.err.Some? <==> !live)
    && (call.err == Some(Fetched) ==> installed)
  }

  predicate InstallOf(c: nat, installedBy: map<nat, nat>, installs: nat)
  {
    c in installedBy && 1 <= installedBy[c] <= installs
  }

  predicate PastInstall(pc: FetchPc)
  {
    pc.Installed? || pc.Cleared? || pc == Counted(Fetched)
  }

  /** The installed keys are those of the newest response, unless that response is still being installed. */
  ghost predicate KeysAreLatest(keys: KeySet, ready: bool, active: FetchPc, responses: seq<KeySet>, installs: nat)
  {
    && (forall g :: 0 <= g < |responses| ==> responses[g] != map[])
    && |responses| == installs + (if active.Received? then 1 else 0)
    && (active.Received? ==> responses[installs] == active.keys)
    && keys == (if installs == 0 then map[] else responses[installs - 1])
    && (ready || PastInstall(active) ==> installs >= 1)
  }

  predicate Spaced(starts: seq<Time>)
  {
    forall i, j :: 0 <= i < j < |starts| ==> starts[j] - starts[i] >= JWKS_REFRESH_MIN_INTERVAL
  }

  ghost predicate StartsSpaced(starts: seq<Time>, last: Option<Time>)
  {
    && Spaced(starts)
    && last == (if starts == [] then None else Some(starts[|starts| - 1]))
  }

  /** Call `call` succeeded, and the key set installed as number `gen`, at or after its own, lacks `kid`. */
  ghost predicate Justified(kid: Kid, e: Evidence, calls: seq<Call>, installedBy: map<nat, nat>, responses: seq<KeySet>,
                            installs: nat)
  {
    && e.call < |calls|
    && calls[e.call].err == Some(Fetched)
    && e.call in installedBy
    && 1 <= installedBy[e.call] <= e.gen <= installs <= |responses|
    && kid !in responses[e.gen - 1]
  }

  ghost predicate NegativeCacheJustified(unknown: map<Kid, Time>, evidence: map<Kid, Evidence>, calls: seq<Call>,
                                         installedBy: map<nat, nat>, responses: seq<KeySet>, installs: nat)
  {
    && |unknown| <= UNKNOWN_KID_CACHE_MAX_ENTRIES
    && evidence.Keys == unknown.Keys
    && (forall kid :: kid in evidence ==> Justified(kid, evidence[kid], calls, installedBy, responses, installs))
  }

  ghost predicate Served(kid: Kid, key: Key, responses: seq<KeySet>, installs: nat)
  {
    exists g :: 0 <= g < installs && g < |responses| && kid in responses[g] && responses[g][kid] == key
  }

  ghost predicate ThreadOk(pc: ThreadPc, calls: seq<Call>, installedBy: map<nat, nat>, responses: seq<KeySet>,
                           installs: nat)
  {
    match pc
    case Waiting(_, call) => call < |calls|
    case Recheck(_, call) => call < |calls| && calls[call].err == Some(Fetched)
    case Absent(kid, call, gen, _) => Justified(kid, Evidence(call, gen), calls, installedBy, responses, installs)
    case Found(kid, key) => Served(kid, key, responses, installs)
    case Dated(kid, key, _) => Served(kid, key, responses, installs)
    case Due(Stale(kid, key)) => Served(kid, key, responses, installs)
    case ReadClock(Stale(kid, key), _) => Served(kid, key, responses, installs)
    case Snapshot(Stale(kid, key), _, _) => Served(kid, key, responses, installs)
    case Finished(Accepted(kid, key)) => Served(kid, key, responses, installs)
    case _ => true
  }

  ghost predicate ThreadsOk(threads: map<nat, ThreadPc>, ready: bool, calls: seq<Call>, installedBy: map<nat, nat>,
                            responses: seq<KeySet>, installs: nat)
  {
    forall t :: t in threads ==>
      (NeedsReady(threads[t]) ==> ready) && ThreadOk(threads[t], calls, installedBy, responses, installs)
  }

  ghost predicate Inv(s: State)
  {
    var active := Active(s.init, s.workers, s.f.refreshCall);
    && SingleFlight(s.f.ready, |s.f.calls|, s.f.refreshCall, s.init, s.workers)
    && CountersAgree(s.f, active, |s.starts|, s.startCalls)
    && CallsOk(s.f.calls, s.workers, s.installedBy, s.installs)
    && KeysAreLatest(s.f.publicKeys, s.f.ready, active, s.responses, s.installs)
    && StartsSpaced(s.starts, s.f.lastRefreshAttempt)
    && NegativeCacheJustified(s.f.unknownKIDs, s.evidence, s.f.calls, s.installedBy, s.responses, s.installs)
    && ThreadsOk(s.threads, s.f.ready, s.f.calls, s.installedBy, s.responses, s.installs)
  }

  lemma TickKeeps(s: State, d: nat)
    requires Inv(s)
    ensures Inv(s.(clock := s.clock + d))
  {
  }

  lemma GotoKeeps(s: State, thread: nat, pc: ThreadPc)
    requires Inv(s)
    requires ThreadOk(pc, s.f.calls, s.installedBy, s.responses, s.installs) && (NeedsReady(pc) ==> s.f.ready)
    ensures Inv(Goto(s, thread, pc))
  {
  }

  /** How a step may change what the justification of an entry or an acceptance refers to. */
  ghost predicate Grows(s: State, s': State)
  {
    && |s.f.calls| <= |s'.f.calls|
    && (forall c :: 0 <= c < |s.f.calls| && s.f.calls[c].err == Some(Fetched) ==>
          s'.f.calls[c].err == Some(Fetched)
              && (c in s.installedBy ==> c in s'.installedBy && s'.installedBy[c] == s.installedBy[c]))
    && s.responses <= s'.responses
    && s.installs <= s'.installs <= |s'.responses|
    && (s.f.ready ==> s'.f.ready)
  }

  lemma JustifiedGrows(s: State, s': State, kid: Kid, e: Evidence)
    requires Grows(s, s')
    requires Justified(kid, e, s.f.calls, s.installedBy, s.responses, s.installs)
    ensures Justified(kid, e, s'.f.calls, s'.installedBy, s'.responses, s'.installs)
  {
  }

  lemma ServedGrows(s: State, s': State, kid: Kid, key: Key)
    requires Grows(s, s')
    requires Served(kid, key, s.responses, s.installs)
    ensures Served(kid, key, s'.responses, s'.installs)
  {
    var g :| 0 <= g < s.installs && g < |s.responses| && kid in s.responses[g] && s.responses[g][kid] == key;
    assert s'.responses[g] == s.responses[g];
  }

  lemma ThreadGrows(s: State, s': State, pc: ThreadPc)
    requires Grows(s, s')
    requires ThreadOk(pc, s.f.calls, s.installedBy, s.responses, s.installs)
    ensures ThreadOk(pc, s'.f.calls, s'.installedBy, s'.responses, s'.installs)
  {
    match pc
    case Absent(kid, call, gen, _) => JustifiedGrows(s, s', kid, Evidence(call, gen));
    case Found(kid, key) => ServedGrows(s, s', kid, key);
    case Dated(kid, key, _) => ServedGrows(s, s', kid, key);
    case Due(Stale(kid, key)) => ServedGrows(s, s', kid, key);
    case ReadClock(Stale(kid, key), _) => ServedGrows(s, s', kid, key);
    case Snapshot(Stale(kid, key), _, _) => ServedGrows(s, s', kid, key);
    case Finished(Accepted(kid, key)) => ServedGrows(s, s', kid, key);
    case _ =>
  }

  lemma ThreadsGrow(s: State, s': State)
    requires Grows(s, s')
    requires ThreadsOk(s.threads, s.f.ready, s.f.calls, s.installedBy, s.responses, s.installs)
    ensures ThreadsOk(s.threads, s'.f.ready, s'.f.calls, s'.installedBy, s'.responses, s'.installs)
  {
    forall t | t in s.threads
      ensures (NeedsReady(s.threads[t]) ==> s'.f.ready)
             && ThreadOk(s.threads[t], s'.f.calls, s'.installedBy, s'.responses, s'.installs)
    {
      ThreadGrows(s, s', s.threads[t]);
    }
  }

  lemma EvidenceGrows(s: State, s': State)
    requires Grows(s, s')
    requires NegativeCacheJustified(s.f.unknownKIDs, s.evidence, s.f.calls, s.installedBy, s.responses, s.installs)
    ensures NegativeCacheJustified(s.f.unknownKIDs, s.evidence, s'.f.calls, s'.installedBy, s'.responses, s'.installs)
  {
    forall kid | kid in s.evidence
      ensures Justified(kid, s.evidence[kid], s'.f.calls, s'.installedBy, s'.responses, s'.installs)
    {
      JustifiedGrows(s, s', kid, s.evidence[kid]);
    }
  }


  // ---- Each kind of step keeps the invariant ----------------------------

  lemma ThreadUpdateKeeps(s: State, thread: nat, pc: ThreadPc)
    requires ThreadsOk(s.threads, s.f.ready, s.f.calls, s.installedBy, s.responses, s.installs)
    requires NeedsReady(pc) ==> s.f.ready
    requires ThreadOk(pc, s.f.calls, s.installedBy, s.responses, s.installs)
    ensures ThreadsOk(s.threads[thread := pc], s.f.ready, s.f.calls, s.installedBy, s.responses, s.installs)
  {
  }

  lemma ThreadFacts(s: State, thread: nat)
    requires Inv(s)
    requires thread in s.threads
    ensures NeedsReady(s.threads[thread]) ==> s.f.ready
    ensures ThreadOk(s.threads[thread], s.f.calls, s.installedBy, s.responses, s.installs)
  {
    hide SingleFlight, CallsOk, KeysAreLatest, StartsSpaced, NegativeCacheJustified, Active, ThreadOk;
  }

  lemma NegativeCacheShrinks(s: State, unknown: map<Kid, Time>)
    requires NegativeCacheJustified(s.f.unknownKIDs, s.evidence, s.f.calls, s.installedBy, s.responses, s.installs)
    requires unknown.Keys <= s.f.unknownKIDs.Keys
    ensures NegativeCacheJustified(unknown, Restrict(s.evidence, unknown.Keys), s.f.calls, s.installedBy, s.responses,
                                   s.installs)
  {
    SubmapSize(unknown, s.f.unknownKIDs);
  }

  lemma NegativeCacheAdds(s: State, unknown: map<Kid, Time>, kid: Kid, e: Evidence)
    requires NegativeCacheJustified(s.f.unknownKIDs, s.evidence, s.f.calls, s.installedBy, s.responses, s.installs)
    requires kid in unknown && unknown.Keys <= s.f.unknownKIDs.Keys + {kid}
    requires |unknown| <= UNKNOWN_KID_CACHE_MAX_ENTRIES
    requires Justified(kid, e, s.f.calls, s.installedBy, s.responses, s.installs)
    ensures NegativeCacheJustified(unknown, Restrict(s.evidence, unknown.Keys)[kid := e], s.f.calls, s.installedBy,
                                   s.responses, s.installs)
  {
    hide Justified;
    assert Restrict(s.evidence, unknown.Keys)[kid := e].Keys == unknown.Keys;
  }

  lemma MissedKeeps(s: State, thread: nat, kid: Kid)
    requires Inv(s)
    requires thread in s.threads && s.threads[thread] == Missed(kid)
    ensures Inv(StepMissed(s, thread, kid))
  {
    hide SingleFlight, CallsOk, KeysAreLatest, StartsSpaced, NegativeCacheJustified, ThreadsOk, Active, Restrict;
    var (f, hit) := LookupUnknown(s.f, kid, s.clock);
    ThreadFacts(s, thread);
    ThreadUpdateKeeps(s, thread, if hit then Finished(CachedUnknown(kid)) else Due(Miss(kid)));
    NegativeCacheShrinks(s, f.unknownKIDs);
  }

  lemma AbsentKeeps(s: State, thread: nat, kid: Kid, call: nat, gen: nat, now: Time, victim: Kid)
    requires Inv(s)
    requires thread in s.threads && s.threads[thread] == Absent(kid, call, gen, Some(now))
    ensures Inv(StepAbsent(s, thread, kid, call, gen, now, victim))
  {
    hide SingleFlight, CallsOk, KeysAreLatest, StartsSpaced, ThreadsOk, Active, Restrict, Justified, Remembered,
         EvictionChoice;
    if EvictionChoice(s.f.unknownKIDs, now, victim) {
      var unknown := Remembered(s.f.unknownKIDs, kid, now, victim);
      ThreadFacts(s, thread);
      ThreadUpdateKeeps(s, thread, Finished(NotInKeySet(kid)));
      RememberedBound(s.f.unknownKIDs, kid, now, victim);
      hide NegativeCacheJustified;
      NegativeCacheAdds(s, unknown, kid, Evidence(call, gen));
    }
  }

  /** One step of `fetchPublicKeys`, whoever runs it, keeps the keys those of the newest response. */
  lemma FetchKeepsKeys(s: State, pc: FetchPc, response: Option<KeySet>)
    requires KeysAreLatest(s.f.publicKeys, s.f.ready, pc, s.responses, s.installs)
    ensures var (s', next) := Fetch(s, pc, response);
            KeysAreLatest(s'.f.publicKeys, s'.f.ready, next, s'.responses, s'.installs)
  {
  }

  lemma FetchFrame(s: State, pc: FetchPc, response: Option<KeySet>)
    requires s.installs <= |s.responses|
    requires pc.Received? ==> s.installs < |s.responses|
    requires !pc.Counted?
    ensures var (s', next) := Fetch(s, pc, response);
            && Grows(s, s')
            && s'.clock == s.clock && s'.init == s.init && s'.workers == s.workers && s'.threads == s.threads
            && s'.installedBy == s.installedBy && s'.starts == s.starts && s'.startCalls == s.startCalls
            && s'.f.calls == s.f.calls && s'.f.refreshCall == s.f.refreshCall && s'.f.ready == s.f.ready
            && s'.f.lastRefreshAttempt == s.f.lastRefreshAttempt
            && s'.f.coalesced == s.f.coalesced && s'.f.skipped == s.f.skipped
            && s'.f.attempts - s'.f.successes - s'.f.failures - (if Busy(next) then 1 else 0)
               == s.f.attempts - s.f.successes - s.f.failures - (if Busy(pc) then 1 else 0)
            && (PastInstall(next) ==> PastInstall(pc) || pc.Received?)
            && s'.installs == s.installs + (if pc.Received? then 1 else 0)
            && (if pc.Installed? then s'.f.unknownKIDs == map[] && s'.evidence == map[]
                else s'.f.unknownKIDs == s.f.unknownKIDs && s'.evidence == s.evidence)
  {
  }

  lemma EvidenceAfterFetch(s: State, s': State, cleared: bool)
    requires NegativeCacheJustified(s.f.unknownKIDs, s.evidence, s.f.calls, s.installedBy, s.responses, s.installs)
    requires Grows(s, s')
    requires if cleared then s'.f.unknownKIDs == map[] && s'.evidence == map[]
             else s'.f.unknownKIDs == s.f.unknownKIDs && s'.evidence == s.evidence
    ensures NegativeCacheJustified(s'.f.unknownKIDs, s'.evidence, s'.f.calls, s'.installedBy, s'.responses, s'.installs)
  {
    if !cleared {
      EvidenceGrows(s, s');
    }
  }

  lemma InitFetchKeeps(s: State, response: Option<KeySet>)
    requires Inv(s)
    requires s.init.InitFetch? && !s.init.fetch.Counted?
    ensures var (s', next) := Fetch(s, s.init.fetch, response);
            Inv(s'.(init := InitFetch(s.init.attempt, next)))
  {
    hide SingleFlight, CallsOk, KeysAreLatest, StartsSpaced, ThreadsOk, NegativeCacheJustified, CountersAgree, Grows,
         Busy, PastInstall, Fetch;
    var pc := s.init.fetch;
    var (s1, next) := Fetch(s, pc, response);
    InitFacts(s);
    FetchKeepsKeys(s, pc, response);
    FetchFrame(s, pc, response);
    CountersAfterFetch(s, pc, s1, next);
    InitFlight(|s.f.calls|, InitFetch(s.init.attempt, next));
    ThreadsGrow(s, s1);
    EvidenceAfterFetch(s, s1, pc.Installed?);
    CallsGrow(s.f.calls, s.workers, s.installedBy, s.installs, s1.installs);
  }

  lemma CountersAfterFetch(s: State, pc: FetchPc, s': State, next: FetchPc)
    requires CountersAgree(s.f, pc, |s.starts|, s.startCalls)
    requires s'.f.calls == s.f.calls && s'.f.coalesced == s.f.coalesced && s'.f.skipped == s.f.skipped
    requires s'.f.attempts - s'.f.successes - s'.f.failures - (if Busy(next) then 1 else 0)
             == s.f.attempts - s.f.successes - s.f.failures - (if Busy(pc) then 1 else 0)
    ensures CountersAgree(s'.f, next, |s.starts|, s.startCalls)
  {
  }

  lemma InitFlight(calls: nat, init: InitPc)
    requires !init.InitDone?
    ensures SingleFlight(false, calls, None, init, map[])
  {
  }

  lemma InitFacts(s: State)
    requires Inv(s) && s.init.InitFetch?
    ensures !s.f.ready && s.f.refreshCall.None? && s.workers == map[]
    ensures CountersAgree(s.f, s.init.fetch, |s.starts|, s.startCalls)
    ensures KeysAreLatest(s.f.publicKeys, s.f.ready, s.init.fetch, s.responses, s.installs)
    ensures s.installs <= |s.responses|
    ensures s.init.fetch.Received? ==> s.installs < |s.responses|
  {
    hide CallsOk, StartsSpaced, ThreadsOk, NegativeCacheJustified, CountersAgree;
  }

  lemma CallsGrow(calls: seq<Call>, workers: map<nat, FetchPc>, installedBy: map<nat, nat>, installs: nat,
                  installs': nat)
    requires CallsOk(calls, workers, installedBy, installs)
    requires installs <= installs'
    ensures CallsOk(calls, workers, installedBy, installs')
  {
  }

  lemma InitKeeps(s: State, response: Option<KeySet>)
    requires Inv(s)
    ensures Inv(StepInit(s, response))
  {
    if s.init.InitFetch? {
      InitFacts(s);
      if !s.init.fetch.Counted? {
        InitFetchKeeps(s, response);
      }
      if s.init.fetch.Counted? {
        InitEndKeeps(s);
      } else if s.init.fetch.Begin? {
        InitStopKeeps(s);
      }
    }
    hide Inv, Fetch;
  }

  lemma InitEndKeeps(s: State)
    requires Inv(s)
    requires s.init.InitFetch? && s.init.fetch.Counted?
    ensures s.init.fetch == Counted(Fetched) ==> Inv(s.(f := s.f.(ready := true), init := InitDone))
    ensures s.init.fetch == Counted(Failed) ==> Inv(s.(init := InitFetch(s.init.attempt + 1, Begin)))
  {
    hide CallsOk, StartsSpaced, ThreadsOk, NegativeCacheJustified, SingleFlight, CountersAgree, KeysAreLatest, Active;
    InitFacts(s);
    ReadyKeeps(s);
    InitEndKeys(s);
  }

  lemma InitEndKeys(s: State)
    requires s.init.InitFetch? && s.init.fetch.Counted? && !s.f.ready && s.f.refreshCall.None? && s.workers == map[]
    requires KeysAreLatest(s.f.publicKeys, s.f.ready, s.init.fetch, s.responses, s.installs)
    requires CountersAgree(s.f, s.init.fetch, |s.starts|, s.startCalls)
    ensures s.init.fetch == Counted(Fetched) ==>
              && SingleFlight(true, |s.f.calls|, None, InitDone, s.workers)
              && KeysAreLatest(s.f.publicKeys, true, Active(InitDone, s.workers, None), s.responses, s.installs)
              && CountersAgree(s.f.(ready := true), Active(InitDone, s.workers, None), |s.starts|, s.startCalls)
    ensures var init := InitFetch(s.init.attempt + 1, Begin);
            && SingleFlight(false, |s.f.calls|, None, init, s.workers)
            && KeysAreLatest(s.f.publicKeys, false, Active(init, s.workers, None), s.responses, s.installs)
            && CountersAgree(s.f, Active(init, s.workers, None), |s.starts|, s.startCalls)
  {
  }

  lemma ReadyKeeps(s: State)
    requires ThreadsOk(s.threads, s.f.ready, s.f.calls, s.installedBy, s.responses, s.installs)
    ensures ThreadsOk(s.threads, true, s.f.calls, s.installedBy, s.responses, s.installs)
  {
    hide ThreadOk;
  }

  lemma InitStopKeeps(s: State)
    requires Inv(s)
    requires s.init.InitFetch? && s.init.fetch.Begin?
    ensures Inv(s.(init := InitStopped))
  {
    InitFacts(s);
    hide CallsOk, StartsSpaced, ThreadsOk, NegativeCacheJustified;
  }

  lemma WorkerFacts(s: State, call: nat)
    requires Inv(s) && call in s.workers
    ensures s.f.ready && s.f.refreshCall == Some(call) && s.init.InitDone? && call < |s.f.calls|
    ensures forall c :: c in s.workers <==> c == call
    ensures Active(s.init, s.workers, s.f.refreshCall) == s.workers[call]
    ensures CountersAgree(s.f, s.workers[call], |s.starts|, s.startCalls)
    ensures KeysAreLatest(s.f.publicKeys, s.f.ready, s.workers[call], s.responses, s.installs)
    ensures s.installs <= |s.responses|
    ensures s.workers[call].Received? ==> s.installs < |s.responses|
  {
    hide CallsOk, StartsSpaced, ThreadsOk, NegativeCacheJustified, CountersAgree;
  }

  lemma WorkerFlight(calls: nat, init: InitPc, call: nat, workers: map<nat, FetchPc>, pc: FetchPc)
    requires call < calls && init.InitDone?
    requires forall c :: c in workers <==> c == call
    ensures SingleFlight(true, calls, Some(call), init, workers[call := pc])
    ensures Active(init, workers[call := pc], Some(call)) == pc
  {
  }

  lemma WorkerCalls(s: State, call: nat, next: FetchPc, installs': nat)
    requires CallsOk(s.f.calls, s.workers, s.installedBy, s.installs)
    requires call in s.workers && call < |s.f.calls|
    requires PastInstall(next) ==> PastInstall(s.workers[call]) || s.workers[call].Received?
    requires installs' == s.installs + (if s.workers[call].Received? then 1 else 0)
    ensures var owners := if s.workers[call].Received? then s.installedBy[call := installs'] else s.installedBy;
            CallsOk(s.f.calls, s.workers[call := next], owners, installs')
  {
    hide PastInstall;
    var owners := if s.workers[call].Received? then s.installedBy[call := installs'] else s.installedBy;
    var workers := s.workers[call := next];
    assert CallOk(s.f.calls[call], true, InstallOf(call, s.installedBy, s.installs));
    forall c | 0 <= c < |s.f.calls|
      ensures CallOk(s.f.calls[c], c in workers, InstallOf(c, owners, installs'))
    {
      assert CallOk(s.f.calls[c], c in s.workers, InstallOf(c, s.installedBy, s.installs));
    }
  }

  lemma GrowsWithInstall(s: State, s1: State, call: nat, installs: nat)
    requires Grows(s, s1) && s1.f.calls == s.f.calls && s1.installedBy == s.installedBy
    requires call < |s.f.calls| && s.f.calls[call].err.None?
    ensures Grows(s, s1.(installedBy := s.installedBy[call := installs]))
  {
  }

  lemma OpenCall(s: State, call: nat)
    requires CallsOk(s.f.calls, s.workers, s.installedBy, s.installs)
    requires call in s.workers && call < |s.f.calls|
    ensures s.f.calls[call] == Call(0, None)
  {
    assert CallOk(s.f.calls[call], true, InstallOf(call, s.installedBy, s.installs));
  }

  lemma WorkerFetchKeeps(s: State, call: nat, response: Option<KeySet>)
    requires Inv(s)
    requires call in s.workers && call < |s.f.calls| && !s.workers[call].Counted?
    ensures Inv(StepWorker(s, call, response))
  {
    hide SingleFlight, CallsOk, KeysAreLatest, StartsSpaced, ThreadsOk, NegativeCacheJustified, CountersAgree, Grows,
         Busy, PastInstall, Fetch, Active;
    var pc := s.workers[call];
    var (s1, next) := Fetch(s, pc, response);
    WorkerFacts(s, call);
    FetchKeepsKeys(s, pc, response);
    FetchFrame(s, pc, response);
    CountersAfterFetch(s, pc, s1, next);
    WorkerFlight(|s.f.calls|, s.init, call, s.workers, next);
    WorkerCalls(s, call, next, s1.installs);
    OpenCall(s, call);
    GrowsWithInstall(s, s1, call, s1.installs);
    var s2 := if pc.Received? then s1.(installedBy := s.installedBy[call := s1.installs]) else s1;
    ThreadsGrow(s, s2);
    EvidenceAfterFetch(s, s2, pc.Installed?);
  }

  lemma WorkerEndKeeps(s: State, call: nat, response: Option<KeySet>)
    requires Inv(s)
    requires call in s.workers && call < |s.f.calls| && s.workers[call].Counted?
    ensures Inv(StepWorker(s, call, response))
  {
    hide CallsOk, KeysAreLatest, StartsSpaced, ThreadsOk, NegativeCacheJustified, Grows, PastInstall, Active;
    var result := s.workers[call].result;
    var f := FinishRefresh(s.f, call, result);
    var s' := StepWorker(s, call, response);
    WorkerFacts(s, call);
    OpenCall(s, call);
    FinishGrows(s, call, result);
    FinishCalls(s, call, result);
    FinishKeys(s, call);
    FinishFlight(s, call);
    hide SingleFlight, FinishRefresh;
    ThreadsGrow(s, s');
    EvidenceGrows(s, s');
  }

  lemma FinishGrows(s: State, call: nat, result: FetchResult)
    requires call < |s.f.calls| && s.f.calls[call].err.None? && s.installs <= |s.responses|
    ensures Grows(s, s.(f := FinishRefresh(s.f, call, result), workers := s.workers - {call}))
  {
  }

  lemma FinishCalls(s: State, call: nat, result: FetchResult)
    requires CallsOk(s.f.calls, s.workers, s.installedBy, s.installs)
    requires call in s.workers && call < |s.f.calls| && s.workers[call] == Counted(result)
    ensures CallsOk(FinishRefresh(s.f, call, result).calls, s.workers - {call}, s.installedBy, s.installs)
  {
    OpenCall(s, call);
    var calls := FinishRefresh(s.f, call, result).calls;
    forall c | 0 <= c < |calls|
      ensures CallOk(calls[c], c in s.workers - {call}, InstallOf(c, s.installedBy, s.installs))
    {
      assert CallOk(s.f.calls[c], c in s.workers, InstallOf(c, s.installedBy, s.installs));
    }
  }

  lemma FinishKeys(s: State, call: nat)
    requires call in s.workers && s.workers[call].Counted?
    requires KeysAreLatest(s.f.publicKeys, s.f.ready, s.workers[call], s.responses, s.installs)
    ensures KeysAreLatest(s.f.publicKeys, s.f.ready, Begin, s.responses, s.installs)
  {
  }

  lemma FinishFlight(s: State, call: nat)
    requires s.init.InitDone?
    requires forall c :: c in s.workers <==> c == call
    ensures SingleFlight(true, |s.f.calls|, None, s.init, s.workers - {call})
    ensures Active(s.init, s.workers - {call}, None) == Begin
  {
  }

  lemma NoStartKeeps(s: State, thread: nat, pc: ThreadPc, f: Fields)
    requires Inv(s)
    requires f == s.f.(coalesced := s.f.coalesced + 1) || f == s.f.(skipped := s.f.skipped + 1)
    requires s.f.ready && ThreadOk(pc, s.f.calls, s.installedBy, s.responses, s.installs)
    ensures Inv(s.(f := f, threads := s.threads[thread := pc], startCalls := s.startCalls + 1))
  {
    hide SingleFlight, CallsOk, KeysAreLatest, StartsSpaced, ThreadsOk, NegativeCacheJustified, Active, ThreadOk,
         NeedsReady;
    ThreadUpdateKeeps(s, thread, pc);
  }

  /** The state right after `StartRefresh` took the branch that starts a fetch. */
  function NewCall(s: State, now: Time): State
  {
    s.(f := s.f.(lastRefreshAttempt := Some(now), refreshCall := Some(|s.f.calls|),
                 calls := s.f.calls + [Call(0, None)]),
       workers := s.workers[|s.f.calls| := Begin],
       starts := s.starts + [now],
       startCalls := s.startCalls + 1)
  }

  lemma NewCallFlight(s: State, now: Time)
    requires Inv(s) && s.f.ready && s.f.refreshCall.None?
    ensures var s' := NewCall(s, now);
            && SingleFlight(true, |s'.f.calls|, s'.f.refreshCall, s'.init, s'.workers)
            && Active(s'.init, s'.workers, s'.f.refreshCall) == Begin
            && Active(s.init, s.workers, s.f.refreshCall) == Begin
            && s.workers == map[]
            && s.installs <= |s.responses|
  {
    hide CallsOk, StartsSpaced, ThreadsOk, NegativeCacheJustified;
    assert s.workers == map[];
  }

  lemma NewCallCalls(s: State, now: Time)
    requires CallsOk(s.f.calls, s.workers, s.installedBy, s.installs) && s.workers == map[]
    ensures var s' := NewCall(s, now);
            CallsOk(s'.f.calls, s'.workers, s.installedBy, s.installs)
  {
    var s' := NewCall(s, now);
    forall c | 0 <= c < |s'.f.calls|
      ensures CallOk(s'.f.calls[c], c in s'.workers, InstallOf(c, s.installedBy, s.installs))
    {
      if c < |s.f.calls| {
        assert CallOk(s.f.calls[c], c in s.workers, InstallOf(c, s.installedBy, s.installs));
      }
    }
  }

  lemma NewCallStarts(starts: seq<Time>, last: Option<Time>, now: Time)
    requires StartsSpaced(starts, last)
    requires !InCooldown(now, last)
    ensures StartsSpaced(starts + [now], Some(now))
  {
  }

  lemma NewCallGrows(s: State, now: Time)
    requires s.installs <= |s.responses|
    ensures Grows(s, NewCall(s, now))
  {
  }

  lemma NewCallKeeps(s: State, now: Time)
    requires Inv(s) && s.f.ready && s.f.refreshCall.None?
    requires !InCooldown(now, s.f.lastRefreshAttempt)
    ensures Inv(NewCall(s, now))
  {
    hide SingleFlight, CallsOk, KeysAreLatest, StartsSpaced, ThreadsOk, NegativeCacheJustified, Active, Grows,
         InCooldown;
    var s' := NewCall(s, now);
    NewCallFlight(s, now);
    NewCallCalls(s, now);
    NewCallStarts(s.starts, s.f.lastRefreshAttempt, now);
    NewCallGrows(s, now);
    ThreadsGrow(s, s');
    EvidenceGrows(s, s');
  }

  lemma SnapshotKeeps(s: State, thread: nat, p: Purpose, now: Time, lastFetch: Option<Time>)
    requires Inv(s)
    requires thread in s.threads && s.threads[thread] == Snapshot(p, now, lastFetch)
    ensures Inv(StepSnapshot(s, thread, p, now, lastFetch))
  {
    hide Inv, ThreadOk, AfterStart;
    var (f, outcome) := StartRefresh(s.f, now, lastFetch);
    var pc := AfterStart(p, outcome, now);
    ThreadFacts(s, thread);
    SnapshotOk(s, p, now, lastFetch);
    AfterStartRunning(p, outcome, now);
    if outcome.Started? {
      NewCallKeeps(s, now);
      NewCallAccepts(s, p, now);
      GotoKeeps(NewCall(s, now), thread, pc);
    } else {
      JoinAccepts(s, p, outcome, now);
      NoStartKeeps(s, thread, pc, f);
    }
  }

  lemma SnapshotOk(s: State, p: Purpose, now: Time, lastFetch: Option<Time>)
    ensures ThreadOk(Snapshot(p, now, lastFetch), s.f.calls, s.installedBy, s.responses, s.installs)
         == ThreadOk(Due(p), s.f.calls, s.installedBy, s.responses, s.installs)
  {
  }

  lemma AfterStartRunning(p: Purpose, outcome: StartOutcome, now: Time)
    ensures NeedsReady(AfterStart(p, outcome, now))
  {
  }

  lemma NewCallAccepts(s: State, p: Purpose, now: Time)
    requires Inv(s)
    requires ThreadOk(Due(p), s.f.calls, s.installedBy, s.responses, s.installs)
    ensures var s' := NewCall(s, now);
            ThreadOk(AfterStart(p, Started(|s.f.calls|), now), s'.f.calls, s.installedBy, s.responses, s.installs)
  {
  }

  lemma JoinAccepts(s: State, p: Purpose, outcome: StartOutcome, now: Time)
    requires Inv(s)
    requires ThreadOk(Due(p), s.f.calls, s.installedBy, s.responses, s.installs)
    requires outcome.Joined? ==> s.f.refreshCall == Some(outcome.call)
    requires !outcome.Started?
    ensures ThreadOk(AfterStart(p, outcome, now), s.f.calls, s.installedBy, s.responses, s.installs)
  {
  }

  /** What a thread finds in the installed keys was in a response of the JWKS endpoint. */
  lemma InstalledServed(s: State, kid: Kid)
    requires Inv(s) && kid in s.f.publicKeys
    ensures Served(kid, s.f.publicKeys[kid], s.responses, s.installs)
  {
    hide SingleFlight, CallsOk, StartsSpaced, ThreadsOk, NegativeCacheJustified, Active, CountersAgree;
    assert s.responses[s.installs - 1] == s.f.publicKeys;
  }

  lemma RecheckAbsent(s: State, thread: nat, kid: Kid, call: nat)
    requires Inv(s)
    requires thread in s.threads && s.threads[thread] == Recheck(kid, call)
    requires kid !in s.f.publicKeys
    ensures Justified(kid, Evidence(call, s.installs), s.f.calls, s.installedBy, s.responses, s.installs)
  {
    ThreadFacts(s, thread);
    hide SingleFlight, StartsSpaced, ThreadsOk, NegativeCacheJustified, Active, CountersAgree;
    assert CallOk(s.f.calls[call], call in s.workers, InstallOf(call, s.installedBy, s.installs));
  }

  lemma ThreadStepKeeps(s: State, thread: nat, victim: Kid)
    requires Inv(s)
    ensures Inv(StepThread(s, thread, victim))
  {
    hide Inv, StepMissed, StepSnapshot, StepAbsent, NextPc, CountUnknown, Goto;
    if thread in s.threads {
      match s.threads[thread]
      case Missed(kid) => MissedKeeps(s, thread, kid);
      case Snapshot(p, now, lastFetch) => SnapshotKeeps(s, thread, p, now, lastFetch);
      case Absent(kid, call, gen, Some(now)) => AbsentKeeps(s, thread, kid, call, gen, now, victim);
      case _ => PlainStepKeeps(s, thread);
    }
  }

  lemma NextPcOk(s: State, thread: nat)
    requires Inv(s)
    requires thread in s.threads
    ensures var next := NextPc(s, s.threads[thread]);
            && ThreadOk(next, s.f.calls, s.installedBy, s.responses, s.installs)
            && (NeedsReady(next) ==> s.f.ready)
  {
    hide Inv, Justified, Served;
    ThreadFacts(s, thread);
    match s.threads[thread]
    case Lookup(kid) => if kid in s.f.publicKeys { InstalledServed(s, kid); }
    case Recheck(kid, call) =>
      if kid in s.f.publicKeys {
        InstalledServed(s, kid);
      } else {
        RecheckAbsent(s, thread, kid, call);
      }
    case _ =>
  }

  lemma PlainStepKeeps(s: State, thread: nat)
    requires Inv(s)
    requires thread in s.threads
    ensures var next := NextPc(s, s.threads[thread]);
            && Inv(Goto(s, thread, next))
            && Inv(Goto(CountUnknown(s), thread, next))
  {
    hide Inv, ThreadOk, NextPc, NeedsReady;
    var next := NextPc(s, s.threads[thread]);
    NextPcOk(s, thread);
    GotoKeeps(s, thread, next);
    CountUnknownKeeps(s);
    GotoKeeps(CountUnknown(s), thread, next);
  }

  lemma CountUnknownKeeps(s: State)
    requires Inv(s)
    ensures Inv(CountUnknown(s))
  {
    hide SingleFlight, CallsOk, KeysAreLatest, StartsSpaced, ThreadsOk, NegativeCacheJustified, Active;
  }

  lemma StepKeeps(s: State, a: Action)
    requires Inv(s)
    ensures Inv(Step(s, a))
  {
    match a
    case Tick(d) => TickKeeps(s, d); hide Inv;
    case Stop => StopKeeps(s); hide Inv;
    case InitStep(response) => InitKeeps(s, response); hide Inv;
    case WorkerStep(call, response) =>
      hide Inv;
      if call in s.workers && call < |s.f.calls| {
        if s.workers[call].Counted? {
          WorkerEndKeeps(s, call, response);
        } else {
          WorkerFetchKeeps(s, call, response);
        }
      }
    case Arrive(thread, kid) => hide Inv; GotoKeeps(s, thread, Arrived(kid));
    case ThreadStep(thread, victim) => hide Inv; ThreadStepKeeps(s, thread, victim);
  }

  lemma StopKeeps(s: State)
    requires Inv(s)
    ensures Inv(s.(stopping := true))
  {
  }
}
