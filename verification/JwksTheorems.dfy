/** What the JWT validator guarantees in every schedule of its goroutines. */
module JwksTheorems {
  import opened Wrappers
  import opened JwksFields
  import opened JwksProtocol
  import Runs

  function Run(acts: seq<Action>): State
  {
    Runs.Exec(Step, START, acts)
  }

  lemma RunInv(acts: seq<Action>)
    ensures Inv(Run(acts))
  {
    StartInv();
    hide Step, Inv, Runs.Exec;
    forall s, a | Inv(s) ensures Inv(Step(s, a)) { StepKeeps(s, a); }
    Runs.Invariance(Step, Inv, START, acts);
  }

  lemma StartInv()
    ensures Inv(START)
  {
  }

  // ---- Single flight and counters ---------------------------------------

  datatype Fetcher = ByInit | ByCall(call: nat)

  /** Everyone who has sent a JWKS request that is not yet counted as a success or a failure. */
  function Fetchers(s: State): set<Fetcher>
  {
    (if s.init.InitFetch? && Busy(s.init.fetch) then {ByInit} else {}) +
    set call | call in s.workers && Busy(s.workers[call]) :: ByCall(call)
  }

  lemma FetchersCount(s: State)
    requires SingleFlight(s.f.ready, |s.f.calls|, s.f.refreshCall, s.init, s.workers)
    ensures |Fetchers(s)| == if Busy(Active(s.init, s.workers, s.f.refreshCall)) then 1 else 0
  {
    var active := Active(s.init, s.workers, s.f.refreshCall);
    if s.init.InitFetch? {
      assert Fetchers(s) == if Busy(active) then {ByInit} else {};
    } else if s.f.refreshCall.Some? {
      assert Fetchers(s) == if Busy(active) then {ByCall(s.f.refreshCall.value)} else {};
    } else {
      assert Fetchers(s) == {};
    }
  }

  /** At most one JWKS request is in flight, and the counters account for every request and every caller. */
  lemma SingleFlightAlways(acts: seq<Action>)
    ensures var s := Run(acts);
            && |Fetchers(s)| <= 1
            && s.f.attempts == s.f.successes + s.f.failures + |Fetchers(s)|
            && s.startCalls == |s.f.calls| + s.f.coalesced + s.f.skipped
  {
    RunInv(acts);
    hide Runs.Exec, KeysAreLatest, StartsSpaced, ThreadsOk, NegativeCacheJustified, CallsOk;
    FetchersCount(Run(acts));
  }

  /** A refresh's `done` is closed exactly once, when its goroutine ends, and its result is known from then on. */
  lemma DoneClosesOnce(acts: seq<Action>, call: nat)
    requires call < |Run(acts).f.calls|
    ensures var s := Run(acts);
            && s.f.calls[call].closes <= 1
            && (s.f.calls[call].closes == 1 <==> s.f.calls[call].err.Some?)
            && (s.f.calls[call].closes == 0 <==> call in s.workers)
  {
    RunInv(acts);
    hide Runs.Exec, KeysAreLatest, StartsSpaced, ThreadsOk, NegativeCacheJustified;
    var s := Run(acts);
    assert CallOk(s.f.calls[call], call in s.workers, InstallOf(call, s.installedBy, s.installs));
  }

  // ---- Keys --------------------------------------------------------------

  /**
   The key set is that of the newest successful response, or of the one before
   while the newest is still being installed; it is empty only before `ready`.
   */
  lemma KeysAlwaysLatest(acts: seq<Action>)
    ensures var s := Run(acts);
            var n := |s.responses| - (if Active(s.init, s.workers, s.f.refreshCall).Received? then 1 else 0);
            && 0 <= n
            && s.f.publicKeys == (if n == 0 then map[] else s.responses[n - 1])
            && (s.f.ready ==> n > 0 && s.f.publicKeys != map[])
  {
    RunInv(acts);
    hide Runs.Exec, CallsOk, StartsSpaced, ThreadsOk, NegativeCacheJustified, SingleFlight;
  }

  /** A step takes `ready` back never, and only a caller that found its kid absent adds to the negative cache. */
  lemma StepEffect(s: State, a: Action)
    ensures s.f.ready ==> Step(s, a).f.ready
    ensures (a.ThreadStep? && a.thread in s.threads && s.threads[a.thread].Absent?) ||
            Step(s, a).f.unknownKIDs.Keys <= s.f.unknownKIDs.Keys
  {
    hide Fetch, StepThread, FinishRefresh;
    match a
    case InitStep(response) => if s.init.InitFetch? { FetchEffect(s, s.init.fetch, response); }
    case WorkerStep(call, response) =>
      if call in s.workers && call < |s.f.calls| {
        FetchEffect(s, s.workers[call], response);
        if s.workers[call].Counted? { FinishEffect(s, call, s.workers[call].result); }
      }
    case ThreadStep(thread, victim) => ThreadEffect(s, thread, victim);
    case _ =>
  }

  lemma FetchEffect(s: State, pc: FetchPc, response: Option<KeySet>)
    ensures Fetch(s, pc, response).0.f.ready == s.f.ready
    ensures Fetch(s, pc, response).0.f.unknownKIDs.Keys <= s.f.unknownKIDs.Keys
  {
  }

  lemma FinishEffect(s: State, call: nat, result: FetchResult)
    requires call < |s.f.calls|
    ensures FinishRefresh(s.f, call, result).ready == s.f.ready
    ensures FinishRefresh(s.f, call, result).unknownKIDs == s.f.unknownKIDs
  {
  }

  lemma ThreadEffect(s: State, thread: nat, victim: Kid)
    ensures StepThread(s, thread, victim).f.ready == s.f.ready
    ensures (thread in s.threads && s.threads[thread].Absent?) ||
            StepThread(s, thread, victim).f.unknownKIDs.Keys <= s.f.unknownKIDs.Keys
  {
    hide StepMissed, StepSnapshot, StepAbsent, NextPc;
    if thread in s.threads {
      match s.threads[thread]
      case Missed(kid) => MissedEffect(s, thread, kid);
      case Snapshot(p, now, lastFetch) => SnapshotEffect(s, thread, p, now, lastFetch);
      case Absent(kid, call, gen, Some(now)) => AbsentEffect(s, thread, kid, call, gen, now, victim);
      case _ =>
    }
  }

  lemma MissedEffect(s: State, thread: nat, kid: Kid)
    ensures StepMissed(s, thread, kid).f.ready == s.f.ready
    ensures StepMissed(s, thread, kid).f.unknownKIDs.Keys <= s.f.unknownKIDs.Keys
  {
  }

  lemma SnapshotEffect(s: State, thread: nat, p: Purpose, now: Time, lastFetch: Option<Time>)
    ensures StepSnapshot(s, thread, p, now, lastFetch).f.ready == s.f.ready
    ensures StepSnapshot(s, thread, p, now, lastFetch).f.unknownKIDs == s.f.unknownKIDs
  {
    hide AfterStart, InCooldown;
  }

  lemma AbsentEffect(s: State, thread: nat, kid: Kid, call: nat, gen: nat, now: Time, victim: Kid)
    ensures StepAbsent(s, thread, kid, call, gen, now, victim).f.ready == s.f.ready
    ensures StepAbsent(s, thread, kid, call, gen, now, victim).f.unknownKIDs.Keys <= s.f.unknownKIDs.Keys + {kid}
  {
    hide Remembered, EvictionChoice, Restrict;
    if EvictionChoice(s.f.unknownKIDs, now, victim) {
      RememberedKeys(s.f.unknownKIDs, kid, now, victim);
    }
  }

  lemma {:induction false} ReadyStays(acts: seq<Action>, more: seq<Action>)
    requires Run(acts).f.ready
    ensures Run(acts + more).f.ready
  {
    if more == [] {
      assert acts + more == acts;
    } else {
      var n := |more| - 1;
      ReadyStays(acts, more[..n]);
      assert (acts + more)[..|acts + more| - 1] == acts + more[..n];
      StepEffect(Run(acts + more[..n]), more[n]);
      hide Step;
    }
  }

  /** A token is only ever checked against a key that a JWKS response bound to its kid. */
  lemma AcceptedKeyWasServed(acts: seq<Action>, thread: nat, kid: Kid, key: Key)
    requires thread in Run(acts).threads && Run(acts).threads[thread] == Finished(Accepted(kid, key))
    ensures var responses := Run(acts).responses;
            exists g :: 0 <= g < |responses| && kid in responses[g] && responses[g][kid] == key
  {
    RunInv(acts);
    ThreadFacts(Run(acts), thread);
  }

  // ---- Rate --------------------------------------------------------------

  function CountWithin(starts: seq<Time>, lo: Time, hi: Time): nat
  {
    if starts == [] then 0
    else CountWithin(starts[..|starts| - 1], lo, hi) + (if lo <= starts[|starts| - 1] <= hi then 1 else 0)
  }

  /** The last of `n` spaced starts inside a window lies at least n-1 intervals after its beginning. */
  lemma {:induction false} SpacedReach(starts: seq<Time>, lo: Time, hi: Time) returns (k: nat)
    requires Spaced(starts) && CountWithin(starts, lo, hi) > 0
    ensures k < |starts|
    ensures lo + (CountWithin(starts, lo, hi) - 1) * JWKS_REFRESH_MIN_INTERVAL <= starts[k] <= hi
  {
    var n := |starts| - 1;
    var shorter := starts[..n];
    if lo <= starts[n] <= hi {
      k := n;
      if CountWithin(shorter, lo, hi) > 0 {
        var j := SpacedReach(shorter, lo, hi);
        assert starts[n] - starts[j] >= JWKS_REFRESH_MIN_INTERVAL;
      }
    } else {
      k := SpacedReach(shorter, lo, hi);
    }
  }

  /**
   However many unknown kids arrive and however stale the clock readings are,
   recorded refresh starts are at least one interval apart, so a window of
   length `w` holds at most w / interval + 1 of them.
   */
  lemma RefreshRateBounded(acts: seq<Action>, lo: Time, w: nat)
    ensures Spaced(Run(acts).starts)
    ensures CountWithin(Run(acts).starts, lo, lo + w) <= w / JWKS_REFRESH_MIN_INTERVAL + 1
  {
    RunInv(acts);
    hide Runs.Exec, KeysAreLatest, CallsOk, ThreadsOk, NegativeCacheJustified, SingleFlight, Active;
    var starts := Run(acts).starts;
    if CountWithin(starts, lo, lo + w) > 0 {
      var _ := SpacedReach(starts, lo, lo + w);
    }
  }

  // ---- Negative cache ----------------------------------------------------

  /**
   The negative cache stays within its bound; every entry goes back to a refresh
   that succeeded and to a key set, no older than the one that refresh
   installed, in which the kid was then absent.
   */
  lemma NegativeCacheSound(acts: seq<Action>, kid: Kid)
    ensures |Run(acts).f.unknownKIDs| <= 1024
    ensures var s := Run(acts);
            kid in s.f.unknownKIDs ==>
              && kid in s.evidence
              && var e := s.evidence[kid];
              && e.call < |s.f.calls| && s.f.calls[e.call].err == Some(Fetched)
              && e.call in s.installedBy && 1 <= s.installedBy[e.call] <= e.gen <= |s.responses|
              && kid !in s.responses[e.gen - 1]
  {
    RunInv(acts);
    hide Runs.Exec, KeysAreLatest, CallsOk, ThreadsOk, StartsSpaced, SingleFlight, Active;
  }

  /** A kid enters the negative cache only when a caller re-read the keys after a successful refresh and missed it. */
  lemma OnlyAbsentKidsEnter(s: State, a: Action, kid: Kid)
    requires kid !in s.f.unknownKIDs && kid in Step(s, a).f.unknownKIDs
    ensures a.ThreadStep? && a.thread in s.threads
    ensures s.threads[a.thread].Absent? && s.threads[a.thread].kid == kid
  {
    StepEffect(s, a);
    assert kid in Step(s, a).f.unknownKIDs.Keys;
    var pc := s.threads[a.thread];
    if pc.read.Some? {
      AbsentEffect(s, a.thread, pc.kid, pc.call, pc.gen, pc.read.value, a.victim);
    }
    hide StepAbsent;
  }

  /** Every entry of `after` was in `before`, or expires no later than a full lifetime from `now`. */
  ghost predicate OnlyAges(before: map<Kid, Time>, after: map<Kid, Time>, now: Time)
  {
    forall kid :: kid in after ==>
        (kid in before && after[kid] == before[kid]) || after[kid] <= now + UNKNOWN_KID_CACHE_TTL
  }

  /** A thread's clock reading is not from the future. */
  predicate ReadingOk(pc: ThreadPc, clock: Time)
  {
    pc.Absent? && pc.read.Some? ==> pc.read.value <= clock
  }

  ghost predicate ReadingsOk(threads: map<nat, ThreadPc>, clock: Time)
  {
    forall t :: t in threads ==> ReadingOk(threads[t], clock)
  }

  ghost predicate ExpiryBounded(s: State)
  {
    && (forall kid :: kid in s.f.unknownKIDs ==> s.f.unknownKIDs[kid] <= s.clock + UNKNOWN_KID_CACHE_TTL)
    && ReadingsOk(s.threads, s.clock)
  }

  /** What a step does to the negative cache, the clock and the readings. */
  ghost predicate Ages(s: State, s': State)
  {
    OnlyAges(s.f.unknownKIDs, s'.f.unknownKIDs, s.clock) && s'.clock == s.clock && ReadingsOk(s'.threads, s.clock)
  }

  lemma FetchAges(s: State, pc: FetchPc, response: Option<KeySet>)
    requires ReadingsOk(s.threads, s.clock)
    ensures Ages(s, Fetch(s, pc, response).0)
  {
  }

  lemma MissedAges(s: State, thread: nat, kid: Kid)
    requires ReadingsOk(s.threads, s.clock)
    ensures Ages(s, StepMissed(s, thread, kid))
  {
    hide Restrict;
  }

  lemma AbsentAges(s: State, thread: nat, kid: Kid, call: nat, gen: nat, now: Time, victim: Kid)
    requires ReadingsOk(s.threads, s.clock) && now <= s.clock
    ensures Ages(s, StepAbsent(s, thread, kid, call, gen, now, victim))
  {
    hide Restrict, EvictionChoice;
  }

  lemma SnapshotAges(s: State, thread: nat, p: Purpose, now: Time, lastFetch: Option<Time>)
    requires ReadingsOk(s.threads, s.clock)
    ensures Ages(s, StepSnapshot(s, thread, p, now, lastFetch))
  {
    SnapshotEffect(s, thread, p, now, lastFetch);
    hide InCooldown;
  }

  lemma PlainAges(s: State, thread: nat)
    requires ReadingsOk(s.threads, s.clock) && thread in s.threads
    ensures var next := NextPc(s, s.threads[thread]);
            Ages(s, Goto(s, thread, next)) && Ages(s, Goto(CountUnknown(s), thread, next))
  {
    assert ReadingOk(NextPc(s, s.threads[thread]), s.clock);
    hide NextPc, ReadingOk;
  }

  lemma ThreadAges(s: State, thread: nat, victim: Kid)
    requires ReadingsOk(s.threads, s.clock)
    ensures Ages(s, StepThread(s, thread, victim))
  {
    hide StepMissed, StepSnapshot, StepAbsent, NextPc, Goto, CountUnknown, Ages;
    if thread in s.threads {
      match s.threads[thread]
      case Missed(kid) => MissedAges(s, thread, kid);
      case Snapshot(p, now, lastFetch) => SnapshotAges(s, thread, p, now, lastFetch);
      case Absent(kid, call, gen, Some(now)) =>
        assert ReadingOk(s.threads[thread], s.clock);
        AbsentAges(s, thread, kid, call, gen, now, victim);
      case _ => PlainAges(s, thread);
    } else {
      SameAges(s);
    }
  }

  lemma SameAges(s: State)
    requires ReadingsOk(s.threads, s.clock)
    ensures Ages(s, s)
  {
  }

  lemma StepKeepsExpiry(s: State, a: Action)
    requires ExpiryBounded(s)
    ensures ExpiryBounded(Step(s, a))
  {
    hide StepInit, StepWorker, StepThread, Ages;
    match a
    case InitStep(response) => InitKeepsExpiry(s, response); hide ExpiryBounded;
    case WorkerStep(call, response) => WorkerKeepsExpiry(s, call, response); hide ExpiryBounded;
    case ThreadStep(thread, victim) =>
      ThreadAges(s, thread, victim);
      AgesBounded(s, StepThread(s, thread, victim));
      hide ExpiryBounded;
    case _ =>
  }

  lemma InitKeepsExpiry(s: State, response: Option<KeySet>)
    requires ExpiryBounded(s)
    ensures ExpiryBounded(StepInit(s, response))
  {
    hide Fetch, Ages;
    if s.init.InitFetch? {
      FetchAges(s, s.init.fetch, response);
      AgesBounded(s, Fetch(s, s.init.fetch, response).0);
    }
  }

  lemma WorkerKeepsExpiry(s: State, call: nat, response: Option<KeySet>)
    requires ExpiryBounded(s)
    ensures ExpiryBounded(StepWorker(s, call, response))
  {
    hide Fetch, FinishRefresh, Ages;
    if call in s.workers && call < |s.f.calls| {
      FetchAges(s, s.workers[call], response);
      AgesBounded(s, Fetch(s, s.workers[call], response).0);
      if s.workers[call].Counted? { FinishEffect(s, call, s.workers[call].result); }
    }
  }

  lemma AgesBounded(s: State, s': State)
    requires ExpiryBounded(s) && Ages(s, s')
    ensures ExpiryBounded(s')
  {
  }

  /** No refusal from the negative cache outlasts its lifetime: when the entry was made is at most that long ago. */
  lemma NegativeEntriesExpire(acts: seq<Action>, kid: Kid)
    ensures var s := Run(acts); kid in s.f.unknownKIDs ==> s.f.unknownKIDs[kid] <= s.clock + 300 * SECOND
  {
    hide Step, ExpiryBounded, Runs.Exec;
    forall s, a | ExpiryBounded(s) ensures ExpiryBounded(Step(s, a)) { StepKeepsExpiry(s, a); }
    StartExpiry();
    Runs.Invariance(Step, ExpiryBounded, START, acts);
    ExpiryAt(Run(acts), kid);
  }

  lemma StartExpiry()
    ensures ExpiryBounded(START)
  {
  }

  lemma ExpiryAt(s: State, kid: Kid)
    requires ExpiryBounded(s)
    ensures kid in s.f.unknownKIDs ==> s.f.unknownKIDs[kid] <= s.clock + UNKNOWN_KID_CACHE_TTL
  {
  }

  /** Whichever way the steps fall, a cached kid is among the keys only if a newer set brought it in. */
  lemma CachedKidInKeysIsOutdated(acts: seq<Action>, kid: Kid)
    requires kid in Run(acts).f.unknownKIDs && kid in Run(acts).f.publicKeys
    ensures kid in Run(acts).evidence && Run(acts).evidence[kid].gen < Run(acts).installs
  {
    RunInv(acts);
    hide Runs.Exec, CallsOk, ThreadsOk, StartsSpaced, SingleFlight, Active;
  }

  /** With the keys unchanged, remembering a kid keeps cache and keys disjoint exactly when the kid is still absent. */
  lemma RememberKeepsDisjoint(s: State, thread: nat, kid: Kid, call: nat, gen: nat, now: Time, victim: Kid)
    requires thread in s.threads && s.threads[thread] == Absent(kid, call, gen, Some(now))
    requires EvictionChoice(s.f.unknownKIDs, now, victim)
    requires s.f.unknownKIDs.Keys !! s.f.publicKeys.Keys
    ensures var s' := Step(s, ThreadStep(thread, victim));
            s'.f.unknownKIDs.Keys !! s'.f.publicKeys.Keys <==> kid !in s.f.publicKeys
  {
    var s' := Step(s, ThreadStep(thread, victim));
    RememberedKeys(s.f.unknownKIDs, kid, now, victim);
    assert kid in s'.f.unknownKIDs.Keys;
    hide Remembered, Pruned;
  }

  /**
   The coarse granularity: time may pass, but nobody else runs between installing keys and clearing the
   negative cache, nor between a caller's second look at the keys and its entry
   in the negative cache.
   */
  predicate Unsplit(s: State, a: Action)
  {
    a.Tick? ||
    ((Active(s.init, s.workers, s.f.refreshCall).Installed? ==>
        if s.init.InitFetch? then a.InitStep? else a.WorkerStep? && s.f.refreshCall == Some(a.call))
     && (forall t :: t in s.threads && s.threads[t].Absent? ==> a.ThreadStep? && a.thread == t))
  }

  function CoarseStep(s: State, a: Action): State
  {
    if Unsplit(s, a) then Step(s, a) else s
  }

  ghost predicate EvidenceFresh(evidence: map<Kid, Evidence>, threads: map<nat, ThreadPc>, installs: nat,
                                active: FetchPc)
  {
    && (!active.Installed? ==> forall kid :: kid in evidence ==> evidence[kid].gen == installs)
    && (forall t :: t in threads && threads[t].Absent? ==> threads[t].gen == installs && !active.Installed?)
  }

  ghost predicate CoarseInv(s: State)
  {
    Inv(s) && EvidenceFresh(s.evidence, s.threads, s.installs, Active(s.init, s.workers, s.f.refreshCall))
  }

  function FetcherPc(s: State): FetchPc
  {
    Active(s.init, s.workers, s.f.refreshCall)
  }

  lemma StartCoarse()
    ensures CoarseInv(START)
  {
    StartInv();
    hide Inv;
  }

  /** A fetch step in an unsplit schedule: nobody sits in `Absent`. */
  lemma CoarseFetchKeeps(s: State, pc: FetchPc, response: Option<KeySet>)
    requires EvidenceFresh(s.evidence, s.threads, s.installs, pc)
    requires forall t :: t in s.threads ==> !s.threads[t].Absent?
    requires !pc.Counted?
    ensures var (s', next) := Fetch(s, pc, response);
            EvidenceFresh(s'.evidence, s.threads, s'.installs, next) && s'.threads == s.threads
  {
  }

  lemma CoarseInitKeeps(s: State, response: Option<KeySet>)
    requires CoarseInv(s) && Unsplit(s, InitStep(response))
    ensures var s' := StepInit(s, response); EvidenceFresh(s'.evidence, s'.threads, s'.installs, FetcherPc(s'))
  {
    hide Inv, Fetch, EvidenceFresh;
    if s.init.InitFetch? {
      InitFacts(s);
      FreshMoves(s, s.init.fetch);
      if !s.init.fetch.Counted? {
        CoarseFetchKeeps(s, s.init.fetch, response);
        InitWorkersKept(s, response);
      }
      hide KeysAreLatest, CountersAgree;
    }
  }

  lemma InitWorkersKept(s: State, response: Option<KeySet>)
    ensures Fetch(s, s.init.fetch, response).0.workers == s.workers
    requires s.init.InitFetch?
  {
  }

  /** Leaving a fetch that is not mid-installation leaves the evidence fresh. */
  lemma FreshMoves(s: State, pc: FetchPc)
    requires EvidenceFresh(s.evidence, s.threads, s.installs, pc)
    ensures !pc.Installed? ==> EvidenceFresh(s.evidence, s.threads, s.installs, Begin)
  {
  }

  lemma CoarseWorkerKeeps(s: State, call: nat, response: Option<KeySet>)
    requires CoarseInv(s) && Unsplit(s, WorkerStep(call, response))
    ensures var s' := StepWorker(s, call, response); EvidenceFresh(s'.evidence, s'.threads, s'.installs, FetcherPc(s'))
  {
    hide Inv, Fetch, EvidenceFresh, Active;
    if call in s.workers && call < |s.f.calls| {
      var pc := s.workers[call];
      WorkerFacts(s, call);
      FreshMoves(s, pc);
      if pc.Counted? {
        FinishFlight(s, call);
      } else {
        CoarseFetchKeeps(s, pc, response);
        WorkerFlight(|s.f.calls|, s.init, call, s.workers, Fetch(s, pc, response).1);
        FetchCallKept(s, pc, response);
      }
    }
  }

  lemma FetchCallKept(s: State, pc: FetchPc, response: Option<KeySet>)
    ensures Fetch(s, pc, response).0.f.refreshCall == s.f.refreshCall
    ensures Fetch(s, pc, response).0.init == s.init
  {
  }

  lemma CoarseGoto(s: State, thread: nat, pc: ThreadPc, active: FetchPc)
    requires EvidenceFresh(s.evidence, s.threads, s.installs, active)
    requires pc.Absent? ==> pc.gen == s.installs && !active.Installed?
    ensures EvidenceFresh(s.evidence, s.threads[thread := pc], s.installs, active)
  {
  }

  lemma CoarseEvidence(s: State, evidence: map<Kid, Evidence>, thread: nat, active: FetchPc)
    requires EvidenceFresh(s.evidence, s.threads, s.installs, active)
    requires thread in s.threads
    requires forall kid :: kid in evidence ==>
               || (kid in s.evidence && evidence[kid] == s.evidence[kid])
               || (s.threads[thread].Absent? && evidence[kid].gen == s.threads[thread].gen)
    ensures EvidenceFresh(evidence, s.threads, s.installs, active)
  {
  }

  lemma CoarseNegativeKeeps(s: State, thread: nat, victim: Kid)
    requires CoarseInv(s) && thread in s.threads
    requires s.threads[thread].Missed? || (s.threads[thread].Absent? && s.threads[thread].read.Some?)
    ensures var s' := StepThread(s, thread, victim); EvidenceFresh(s'.evidence, s'.threads, s'.installs, FetcherPc(s'))
  {
    hide Inv, EvidenceFresh, Remembered, EvictionChoice, LookupUnknown, Active, StepSnapshot, NextPc;
    var s' := StepThread(s, thread, victim);
    if s.threads[thread].Missed? {
      MissedFrame(s);
      hide StepAbsent;
    } else {
      hide StepMissed;
    }
    CoarseEvidence(s, s'.evidence, thread, FetcherPc(s));
    CoarseGoto(s.(evidence := s'.evidence), thread, Finished(NotReady), FetcherPc(s));
    CoarseGoto(s.(evidence := s'.evidence), thread, s'.threads[thread], FetcherPc(s));
  }

  lemma MissedFrame(s: State)
    ensures forall kid, now :: LookupUnknown(s.f, kid, now).0.refreshCall == s.f.refreshCall
  {
  }

  lemma CoarsePlainKeeps(s: State, thread: nat)
    requires CoarseInv(s) && thread in s.threads && !(s.threads[thread].Absent? && s.threads[thread].read.Some?)
    requires FetcherPc(s).Installed? ==> !s.threads[thread].Recheck?
    ensures EvidenceFresh(s.evidence, s.threads[thread := NextPc(s, s.threads[thread])], s.installs, FetcherPc(s))
  {
    assert s.threads[thread].Absent? ==> s.threads[thread].gen == s.installs && !FetcherPc(s).Installed?;
    hide Inv, EvidenceFresh, Active;
    CoarseGoto(s, thread, NextPc(s, s.threads[thread]), FetcherPc(s));
  }

  lemma CoarseThreadKeeps(s: State, thread: nat, victim: Kid)
    requires CoarseInv(s) && Unsplit(s, ThreadStep(thread, victim))
    ensures var s' := StepThread(s, thread, victim); EvidenceFresh(s'.evidence, s'.threads, s'.installs, FetcherPc(s'))
  {
    hide Inv, EvidenceFresh, StepMissed, StepAbsent, StepSnapshot, NextPc, Active;
    if thread in s.threads {
      match s.threads[thread]
      case Snapshot(p, now, lastFetch) => CoarseSnapshotKeeps(s, thread, p, now, lastFetch);
      case Absent(_, _, _, Some(_)) => CoarseNegativeKeeps(s, thread, victim);
      case Missed(_) => CoarseNegativeKeeps(s, thread, victim);
      case _ => CoarsePlainKeeps(s, thread);
    }
  }

  lemma CoarseSnapshotKeeps(s: State, thread: nat, p: Purpose, now: Time, lastFetch: Option<Time>)
    requires CoarseInv(s)
    ensures var s' := StepSnapshot(s, thread, p, now, lastFetch);
            EvidenceFresh(s'.evidence, s'.threads, s'.installs, FetcherPc(s'))
  {
    hide InCooldown, KeysAreLatest, CallsOk, CountersAgree, StartsSpaced, ThreadsOk, NegativeCacheJustified;
  }

  lemma CoarseStepKeeps(s: State, a: Action)
    requires CoarseInv(s)
    ensures CoarseInv(CoarseStep(s, a))
  {
    hide Inv, EvidenceFresh, StepInit, StepWorker, StepThread;
    StepKeeps(s, a);
    if Unsplit(s, a) {
      match a
      case InitStep(response) => CoarseInitKeeps(s, response);
      case WorkerStep(call, response) => CoarseWorkerKeeps(s, call, response);
      case ThreadStep(thread, victim) => CoarseThreadKeeps(s, thread, victim);
      case Arrive(thread, kid) => CoarseGoto(s, thread, Arrived(kid), FetcherPc(s));
      case _ =>
    }
  }

  /**
   In every unsplit schedule, negatively cached kids are absent from the key set
   whenever no key set is half installed.
   */
  lemma CacheDisjointFromKeys(acts: seq<Action>)
    ensures var s := Runs.Exec(CoarseStep, START, acts);
            !FetcherPc(s).Installed? ==> s.f.unknownKIDs.Keys !! s.f.publicKeys.Keys
  {
    StartCoarse();
    hide CoarseStep, CoarseInv, Runs.Exec;
    forall s, a | CoarseInv(s) ensures CoarseInv(CoarseStep(s, a)) { CoarseStepKeeps(s, a); }
    Runs.Invariance(CoarseStep, CoarseInv, START, acts);
    var s := Runs.Exec(CoarseStep, START, acts);
    if !FetcherPc(s).Installed? {
      forall kid | kid in s.f.unknownKIDs ensures kid !in s.f.publicKeys {
        FreshEntryAbsent(s, kid);
      }
    }
  }

  lemma FreshEntryAbsent(s: State, kid: Kid)
    requires CoarseInv(s) && !FetcherPc(s).Installed? && kid in s.f.unknownKIDs
    ensures kid !in s.f.publicKeys
  {
    hide SingleFlight, CallsOk, StartsSpaced, ThreadsOk, Active, CountersAgree;
    assert Justified(kid, s.evidence[kid], s.f.calls, s.installedBy, s.responses, s.installs);
  }
}
