/** When the JWT validator must start a refresh, and what one token lookup comes to when nobody interrupts it. */
module JwksRefresh {
  import opened Wrappers
  import opened JwksFields
  import opened JwksProtocol
  import opened JwksTheorems
  import Runs

  // ---- Cooldown ------------------------------------------------------------

  /** One of the times lies less than the minimum interval before `now`, or after it. */
  ghost predicate Recent(times: seq<Time>, now: Time)
  {
    exists i :: 0 <= i < |times| && now - times[i] < JWKS_REFRESH_MIN_INTERVAL
  }

  /**
   Clock readings are not from the future, a reading of `lastFetch` is one of the times keys were
   installed, and a refusal by the cooldown had a reason.
   */
  ghost predicate PcTimesOk(pc: ThreadPc, installTimes: seq<Time>, starts: seq<Time>, clock: Time)
  {
    match pc
    case ReadClock(_, now) => now <= clock
    case Snapshot(_, now, lastFetch) => now <= clock && (lastFetch.Some? ==> lastFetch.value in installTimes)
    case Finished(Cooldown(_, now)) => Recent(starts, now) || Recent(installTimes, now)
    case _ => true
  }

  ghost predicate TimesOk(s: State)
  {
    && |s.installTimes| == s.installs
    && (forall i :: 0 <= i < |s.starts| ==> s.starts[i] <= s.clock)
    && (forall i :: 0 <= i < |s.installTimes| ==> s.installTimes[i] <= s.clock)
    && s.f.lastFetch == (if s.installTimes == [] then None else Some(s.installTimes[|s.installTimes| - 1]))
    && s.f.lastRefreshAttempt == (if s.starts == [] then None else Some(s.starts[|s.starts| - 1]))
    && (forall t :: t in s.threads ==> PcTimesOk(s.threads[t], s.installTimes, s.starts, s.clock))
  }

  lemma RecentGrows(times: seq<Time>, more: seq<Time>, now: Time)
    requires Recent(times, now)
    ensures Recent(times + more, now)
  {
    var i :| 0 <= i < |times| && now - times[i] < JWKS_REFRESH_MIN_INTERVAL;
    assert (times + more)[i] == times[i];
  }

  lemma PcTimesGrow(pc: ThreadPc, installTimes: seq<Time>, starts: seq<Time>, installed: seq<Time>, started: seq<Time>,
                    clock: Time)
    requires PcTimesOk(pc, installTimes, starts, clock)
    ensures PcTimesOk(pc, installTimes + installed, starts + started, clock)
  {
    match pc
    case Finished(Cooldown(_, now)) =>
      if Recent(starts, now) { RecentGrows(starts, started, now); }
      if Recent(installTimes, now) { RecentGrows(installTimes, installed, now); }
    case _ =>
  }

  lemma FetchTimes(s: State, pc: FetchPc, response: Option<KeySet>)
    requires TimesOk(s)
    ensures TimesOk(Fetch(s, pc, response).0)
  {
    var s' := Fetch(s, pc, response).0;
    forall t | t in s.threads ensures PcTimesOk(s.threads[t], s'.installTimes, s'.starts, s'.clock) {
      PcTimesGrow(s.threads[t], s.installTimes, s.starts, [s.clock], [], s.clock);
      assert s.starts + [] == s.starts;
    }
    hide PcTimesOk;
  }

  lemma SnapshotTimes(s: State, thread: nat, p: Purpose, now: Time, lastFetch: Option<Time>)
    requires TimesOk(s) && thread in s.threads && s.threads[thread] == Snapshot(p, now, lastFetch)
    ensures TimesOk(StepSnapshot(s, thread, p, now, lastFetch))
  {
    var s' := StepSnapshot(s, thread, p, now, lastFetch);
    assert PcTimesOk(s.threads[thread], s.installTimes, s.starts, s.clock);
    forall t | t in s'.threads ensures PcTimesOk(s'.threads[t], s'.installTimes, s'.starts, s'.clock) {
      if t != thread {
        PcTimesGrow(s.threads[t], s.installTimes, s.starts, [], [now], s.clock);
        assert s.installTimes + [] == s.installTimes;
      } else {
        SnapshotRefusal(s, p, now, lastFetch);
      }
    }
    hide PcTimesOk;
  }

  lemma SnapshotRefusal(s: State, p: Purpose, now: Time, lastFetch: Option<Time>)
    requires TimesOk(s) && (lastFetch.Some? ==> lastFetch.value in s.installTimes)
    ensures var outcome := StartRefresh(s.f, now, lastFetch).1;
            && (outcome.Skipped? ==> Recent(s.starts, now) || Recent(s.installTimes, now))
            && !AfterStart(p, outcome, now).Snapshot?
            && (AfterStart(p, outcome, now).Finished? && AfterStart(p, outcome, now).verdict.Cooldown? ==>
                  outcome.Skipped? && AfterStart(p, outcome, now).verdict.now == now)
  {
    if InCooldown(now, s.f.lastRefreshAttempt) {
      assert s.starts[|s.starts| - 1] == s.f.lastRefreshAttempt.value;
    }
    if InCooldown(now, lastFetch) {
      var i :| 0 <= i < |s.installTimes| && s.installTimes[i] == lastFetch.value;
    }
    hide PcTimesOk;
  }

  lemma PlainTimes(s: State, thread: nat)
    requires TimesOk(s) && thread in s.threads
    ensures TimesOk(Goto(s, thread, NextPc(s, s.threads[thread])))
    ensures TimesOk(Goto(CountUnknown(s), thread, NextPc(s, s.threads[thread])))
  {
    assert PcTimesOk(s.threads[thread], s.installTimes, s.starts, s.clock);
    assert PcTimesOk(NextPc(s, s.threads[thread]), s.installTimes, s.starts, s.clock) by {
      hide Recent;
    }
    hide NextPc, PcTimesOk;
  }

  lemma FieldsTimes(s: State, thread: nat, f: Fields, pc: ThreadPc, evidence: map<Kid, Evidence>)
    requires TimesOk(s) && f.lastFetch == s.f.lastFetch && f.lastRefreshAttempt == s.f.lastRefreshAttempt
    requires PcTimesOk(pc, s.installTimes, s.starts, s.clock)
    ensures TimesOk(s.(f := f, threads := s.threads[thread := pc], evidence := evidence))
  {
    hide PcTimesOk;
  }

  lemma ThreadTimes(s: State, thread: nat, victim: Kid)
    requires TimesOk(s)
    ensures TimesOk(StepThread(s, thread, victim))
  {
    hide TimesOk, StepSnapshot, NextPc, Goto, CountUnknown, Remembered, EvictionChoice, Restrict;
    if thread in s.threads {
      match s.threads[thread]
      case Missed(kid) =>
        var (f, hit) := LookupUnknown(s.f, kid, s.clock);
        FieldsTimes(s, thread, f, if hit then Finished(CachedUnknown(kid)) else Due(Miss(kid)),
                    Restrict(s.evidence, f.unknownKIDs.Keys));
      case Snapshot(p, now, lastFetch) => SnapshotTimes(s, thread, p, now, lastFetch);
      case Absent(kid, call, gen, Some(now)) =>
        var unknown := Remembered(s.f.unknownKIDs, kid, now, victim);
        FieldsTimes(s, thread, s.f.(unknownKIDs := unknown), Finished(NotInKeySet(kid)),
                    Restrict(s.evidence, unknown.Keys)[kid := Evidence(call, gen)]);
      case _ => PlainTimes(s, thread);
    }
  }

  lemma FrameTimes(s: State, s': State)
    requires TimesOk(s) && s'.threads == s.threads && s'.starts == s.starts && s'.installTimes == s.installTimes
    requires s'.installs == s.installs && s'.clock >= s.clock
    requires s'.f.lastFetch == s.f.lastFetch && s'.f.lastRefreshAttempt == s.f.lastRefreshAttempt
    ensures TimesOk(s')
  {
  }

  lemma InitTimes(s: State, response: Option<KeySet>)
    requires TimesOk(s)
    ensures TimesOk(StepInit(s, response))
  {
    hide TimesOk, Fetch;
    if s.init.InitFetch? {
      var s' := StepInit(s, response);
      FetchTimes(s, s.init.fetch, response);
      if s.init.fetch.Counted? || s' == s.(init := InitStopped) {
        FrameTimes(s, s');
      } else {
        FrameTimes(Fetch(s, s.init.fetch, response).0, s');
      }
    }
  }

  lemma WorkerTimes(s: State, call: nat, response: Option<KeySet>)
    requires TimesOk(s)
    ensures TimesOk(StepWorker(s, call, response))
  {
    hide TimesOk, Fetch;
    if call in s.workers && call < |s.f.calls| {
      var pc := s.workers[call];
      FetchTimes(s, pc, response);
      FrameTimes(if pc.Counted? then s else Fetch(s, pc, response).0, StepWorker(s, call, response));
    }
  }

  lemma StepTimes(s: State, a: Action)
    requires TimesOk(s)
    ensures TimesOk(Step(s, a))
  {
    hide TimesOk, StepThread, StepInit, StepWorker;
    match a
    case InitStep(response) => InitTimes(s, response);
    case WorkerStep(call, response) => WorkerTimes(s, call, response);
    case ThreadStep(thread, victim) => ThreadTimes(s, thread, victim);
    case Arrive(thread, kid) => FieldsTimes(s, thread, s.f, Arrived(kid), s.evidence);
    case _ => FrameTimes(s, Step(s, a));
  }

  lemma RunTimes(acts: seq<Action>)
    ensures TimesOk(Run(acts))
  {
    assert TimesOk(START);
    hide Step, TimesOk, Runs.Exec;
    forall s, a | TimesOk(s) ensures TimesOk(Step(s, a)) { StepTimes(s, a); }
    Runs.Invariance(Step, TimesOk, START, acts);
  }

  /**
   In every schedule a caller is refused by the cooldown only if a refresh was started, or keys were
   installed, less than the minimum interval before the clock reading it was refused at, or after it.
   */
  lemma CooldownHasReason(acts: seq<Action>, thread: nat, kid: Kid, now: Time)
    requires thread in Run(acts).threads && Run(acts).threads[thread] == Finished(Cooldown(kid, now))
    ensures Recent(Run(acts).starts, now) || Recent(Run(acts).installTimes, now)
  {
    RunTimes(acts);
    hide Run, Recent;
    var s := Run(acts);
    assert PcTimesOk(s.threads[thread], s.installTimes, s.starts, s.clock);
  }

  /**
   In every schedule, when no refresh is in flight: a caller that asks for one is refused exactly if
   the last start, or the key installation it has read of, is too recent for its clock reading.
   Otherwise the refresh is started at that reading, and a caller that needs its result waits for it;
   so it is if no start and no installation is recent.
   */
  lemma RefreshStartsExactly(acts: seq<Action>, thread: nat, victim: Kid, p: Purpose, now: Time,
                             lastFetch: Option<Time>)
    requires thread in Run(acts).threads && Run(acts).threads[thread] == Snapshot(p, now, lastFetch)
    requires Run(acts).f.refreshCall.None?
    ensures var s := Run(acts);
            var s' := Step(s, ThreadStep(thread, victim));
            var refused := (s.starts != [] && now - s.starts[|s.starts| - 1] < JWKS_REFRESH_MIN_INTERVAL)
                || (lastFetch.Some? && now - lastFetch.value < JWKS_REFRESH_MIN_INTERVAL);
            && s'.starts == (if refused then s.starts else s.starts + [now])
            && (refused ==> s'.f.calls == s.f.calls && s'.workers == s.workers && s'.f.refreshCall.None?)
            && (!refused ==> |s'.f.calls| == |s.f.calls| + 1 && s'.f.refreshCall == Some(|s.f.calls|)
                             && s'.workers == s.workers[|s.f.calls| := Begin])
            && (p.Miss? ==>
                  s'.threads[thread] == if refused then Finished(Cooldown(p.kid, now)) else Waiting(p.kid, |s.f.calls|))
            && (p.Stale? ==> s'.threads[thread] == Finished(Accepted(p.kid, p.key)))
            && (!Recent(s.starts, now) && !Recent(s.installTimes, now) ==> !refused)
  {
    RunTimes(acts);
    hide Run;
    var s := Run(acts);
    assert PcTimesOk(s.threads[thread], s.installTimes, s.starts, s.clock);
    if lastFetch.Some? {
      var i :| 0 <= i < |s.installTimes| && s.installTimes[i] == lastFetch.value;
    }
    assert s.starts != [] ==> s.f.lastRefreshAttempt == Some(s.starts[|s.starts| - 1]);
    AskStep(s, thread, victim, p, now, lastFetch);
    hide Step, PcTimesOk;
  }

  lemma AskStep(s: State, thread: nat, victim: Kid, p: Purpose, now: Time, lastFetch: Option<Time>)
    requires thread in s.threads && s.threads[thread] == Snapshot(p, now, lastFetch) && s.f.refreshCall.None?
    ensures var s' := Step(s, ThreadStep(thread, victim));
            var refused := InCooldown(now, s.f.lastRefreshAttempt) || InCooldown(now, lastFetch);
            && s'.starts == (if refused then s.starts else s.starts + [now])
            && (refused ==> s'.f.calls == s.f.calls && s'.workers == s.workers && s'.f.refreshCall.None?)
            && (!refused ==> |s'.f.calls| == |s.f.calls| + 1 && s'.f.refreshCall == Some(|s.f.calls|)
                             && s'.workers == s.workers[|s.f.calls| := Begin])
            && s'.threads[thread] ==
               (match p
                case Stale(kid, key) => Finished(Accepted(kid, key))
                case Miss(kid) => if refused then Finished(Cooldown(kid, now)) else Waiting(kid, |s.f.calls|))
  {
    hide StepMissed, StepAbsent, NextPc, StepInit, StepWorker, InCooldown;
  }

  /** Once the minimum interval has gone by, whatever came before, a refresh is not refused for coming too soon. */
  lemma CooldownEnds(acts: seq<Action>, d: nat)
    requires d >= 60 * SECOND
    ensures var s := Run(acts + [Tick(d)]);
            && !Recent(s.starts, s.clock) && !Recent(s.installTimes, s.clock)
            && (s.f.lastRefreshAttempt.Some? ==> s.clock - s.f.lastRefreshAttempt.value >= 60 * SECOND)
            && (s.f.lastFetch.Some? ==> s.clock - s.f.lastFetch.value >= 60 * SECOND)
  {
    assert (acts + [Tick(d)])[..|acts|] == acts;
    assert Run(acts + [Tick(d)]) == Step(Run(acts), Tick(d));
    RunTimes(acts);
    hide Run, PcTimesOk, StepInit, StepWorker, StepThread;
  }

  /** While a refresh is in flight every caller joins it. */
  lemma JoinsInFlight(s: State, thread: nat, victim: Kid, p: Purpose, now: Time, lastFetch: Option<Time>)
    requires thread in s.threads && s.threads[thread] == Snapshot(p, now, lastFetch) && s.f.refreshCall.Some?
    ensures var s' := Step(s, ThreadStep(thread, victim));
            && s'.starts == s.starts && s'.f.calls == s.f.calls && s'.workers == s.workers
            && s'.threads[thread] ==
               (if p.Miss? then Waiting(p.kid, s.f.refreshCall.value) else Finished(Accepted(p.kid, p.key)))
  {
    hide StepMissed, StepAbsent, NextPc, StepInit, StepWorker, InCooldown;
  }
}
