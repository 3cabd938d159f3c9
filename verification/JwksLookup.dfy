/** What one token lookup, and one round of the init loop, come to when nobody interrupts them. */
module JwksLookup {
  import opened Wrappers
  import opened JwksFields
  import opened JwksProtocol
  import opened JwksTheorems
  import Runs

  function Turns(a: Action, n: nat): seq<Action>
  {
    seq(n, _ => a)
  }

  /** `n` times the same action. */
  function Repeat(s: State, a: Action, n: nat): State
    decreases n
  {
    if n == 0 then s else Repeat(Step(s, a), a, n - 1)
  }

  lemma {:induction false} ExecTurns(s: State, a: Action, n: nat)
    ensures Runs.Exec(Step, s, Turns(a, n)) == Repeat(s, a, n)
    decreases n
  {
    hide Step;
    if n > 0 {
      ExecTurns(Step(s, a), a, n - 1);
      assert Turns(a, n) == [a] + Turns(a, n - 1);
      Runs.Concat(Step, s, [a], Turns(a, n - 1));
      assert [a][..0] == [];
      assert Runs.Exec(Step, s, []) == s;
      assert Runs.Exec(Step, s, [a]) == Step(s, a);
    }
  }

  // ---- The thread ----------------------------------------------------------

  lemma GotoAgain(s: State, thread: nat, pc: ThreadPc, next: ThreadPc)
    ensures Goto(Goto(s, thread, pc), thread, next) == Goto(s, thread, next)
  {
    assert s.threads[thread := pc][thread := next] == s.threads[thread := next];
  }

  /** A turn that only looks at the shared fields. */
  lemma Look(s: State, thread: nat, pc: ThreadPc, victim: Kid)
    requires !pc.Missed? && !pc.Snapshot? && !(pc.Absent? && pc.read.Some?) && !NextPc(s, pc).Missed?
    ensures Step(Goto(s, thread, pc), ThreadStep(thread, victim)) == Goto(s, thread, NextPc(s, pc))
  {
    GotoAgain(s, thread, pc, NextPc(s, pc));
    assert NextPc(Goto(s, thread, pc), pc) == NextPc(s, pc);
    hide NextPc, StepMissed, StepSnapshot, StepAbsent;
  }

  lemma Stays(s: State, thread: nat, victim: Kid, n: nat)
    requires thread in s.threads && s.threads[thread].Finished?
    ensures Repeat(s, ThreadStep(thread, victim), n) == s
    decreases n
  {
    assert s.threads[thread := s.threads[thread]] == s.threads;
    assert Step(s, ThreadStep(thread, victim)) == s by {
      hide StepMissed, StepSnapshot, StepAbsent, CountUnknown;
    }
    hide Step;
    if n > 0 {
      Stays(s, thread, victim, n - 1);
    }
  }

  predicate KeysOld(s: State)
  {
    s.f.lastFetch.None? || s.clock - s.f.lastFetch.value > 3600 * SECOND
  }

  /** Less than the minimum interval has passed since the last start or the last installation. */
  predicate TooSoon(s: State)
  {
    || (s.f.lastRefreshAttempt.Some? && s.clock - s.f.lastRefreshAttempt.value < 60 * SECOND)
    || (s.f.lastFetch.Some? && s.clock - s.f.lastFetch.value < 60 * SECOND)
  }

  predicate Refused(s: State, kid: Kid)
  {
    kid in s.f.unknownKIDs && s.clock <= s.f.unknownKIDs[kid]
  }

  /** The lookup asks for a refresh and gets one started. */
  predicate Starts(s: State, kid: Kid)
  {
    !TooSoon(s) && if kid in s.f.publicKeys then KeysOld(s) else !Refused(s, kid)
  }

  /** What a lookup that finds the kid does: four turns, and three more if the keys are stale. */
  lemma FoundTurns(s: State, thread: nat, kid: Kid, victim: Kid)
    requires s.f.ready && kid in s.f.publicKeys
    ensures var key, a := s.f.publicKeys[kid], ThreadStep(thread, victim);
            Repeat(Goto(s, thread, Arrived(kid)), a, 4) ==
            Goto(s, thread, if KeysOld(s) then Due(Stale(kid, key)) else Finished(Accepted(kid, key)))
  {
    var key := s.f.publicKeys[kid];
    Look(s, thread, Arrived(kid), victim);
    Look(s, thread, Lookup(kid), victim);
    Look(s, thread, Found(kid, key), victim);
    Look(s, thread, Dated(kid, key, s.f.lastFetch), victim);
    hide Step, Goto;
    FourTurns(Goto(s, thread, Arrived(kid)), ThreadStep(thread, victim));
  }

  lemma FourTurns(s: State, a: Action)
    ensures Repeat(s, a, 3) == Step(Step(Step(s, a), a), a)
    ensures Repeat(s, a, 4) == Step(Step(Step(Step(s, a), a), a), a)
  {
    hide Step;
    var s1 := Step(s, a);
    var s2 := Step(s1, a);
    var s3 := Step(s2, a);
    assert Repeat(s3, a, 0) == s3;
    assert Repeat(s3, a, 1) == Repeat(Step(s3, a), a, 0) == Step(s3, a);
    assert Repeat(s2, a, 1) == Repeat(s3, a, 0) && Repeat(s2, a, 2) == Repeat(s3, a, 1);
    assert Repeat(s1, a, 2) == Repeat(s2, a, 1) && Repeat(s1, a, 3) == Repeat(s2, a, 2);
  }

  lemma {:induction false} RepeatSplit(s: State, a: Action, m: nat, n: nat)
    ensures Repeat(s, a, m + n) == Repeat(Repeat(s, a, m), a, n)
    decreases m
  {
    hide Step;
    if m > 0 {
      RepeatSplit(Step(s, a), a, m - 1, n);
    }
  }

  /** What an unknown kid leaves before the caller asks for a refresh: an expired entry is dropped. */
  function Missing(s: State, kid: Kid): State
  {
    var unknown := if Refused(s, kid) then s.f.unknownKIDs else s.f.unknownKIDs - {kid};
    s.(f := s.f.(unknownTotal := s.f.unknownTotal + 1,
                 unknownHits := s.f.unknownHits + (if Refused(s, kid) then 1 else 0),
                 unknownKIDs := unknown),
       evidence := Restrict(s.evidence, unknown.Keys))
  }

  /** What a lookup that does not find the kid does: three turns. */
  lemma MissTurns(s: State, thread: nat, kid: Kid, victim: Kid)
    requires s.f.ready && kid !in s.f.publicKeys
    ensures Repeat(Goto(s, thread, Arrived(kid)), ThreadStep(thread, victim), 3) ==
            Goto(Missing(s, kid), thread, if Refused(s, kid) then Finished(CachedUnknown(kid)) else Due(Miss(kid)))
  {
    var a := ThreadStep(thread, victim);
    var missed := Goto(CountUnknown(s), thread, Missed(kid));
    Look(s, thread, Arrived(kid), victim);
    assert Step(Goto(s, thread, Lookup(kid)), a) == missed by {
      GotoAgain(CountUnknown(s), thread, Lookup(kid), Missed(kid));
      hide StepMissed, StepSnapshot, StepAbsent;
    }
    MissedTurn(s, thread, kid, victim);
    hide Step, Goto, Missing;
    FourTurns(Goto(s, thread, Arrived(kid)), a);
  }

  /** A cached kid is a hit until its entry has expired, which is then dropped. */
  lemma LookupUnknownExactly(f: Fields, kid: Kid, now: Time)
    ensures var hit := kid in f.unknownKIDs && now <= f.unknownKIDs[kid];
            LookupUnknown(f, kid, now) ==
            (f.(unknownHits := f.unknownHits + (if hit then 1 else 0),
                unknownKIDs := if hit then f.unknownKIDs else f.unknownKIDs - {kid}),
             hit)
  {
    if kid !in f.unknownKIDs { assert f.unknownKIDs - {kid} == f.unknownKIDs; }
  }

  lemma MissedTurn(s: State, thread: nat, kid: Kid, victim: Kid)
    ensures Step(Goto(CountUnknown(s), thread, Missed(kid)), ThreadStep(thread, victim)) ==
            Goto(Missing(s, kid), thread, if Refused(s, kid) then Finished(CachedUnknown(kid)) else Due(Miss(kid)))
  {
    var missed := Goto(CountUnknown(s), thread, Missed(kid));
    LookupUnknownExactly(missed.f, kid, s.clock);
    hide LookupUnknown, StepSnapshot, StepAbsent, NextPc, Restrict;
    var pc := if Refused(s, kid) then Finished(CachedUnknown(kid)) else Due(Miss(kid));
    assert s.threads[thread := Missed(kid)][thread := pc] == s.threads[thread := pc];
    assert Step(missed, ThreadStep(thread, victim)) == StepMissed(missed, thread, kid);
  }

  /** What is left once a caller has asked for a refresh and none is in flight. */
  function Asked(s: State): State
  {
    if TooSoon(s) then s.(f := s.f.(skipped := s.f.skipped + 1), startCalls := s.startCalls + 1)
    else NewCall(s, s.clock)
  }

  function AskedPc(s: State, p: Purpose): ThreadPc
  {
    match p
    case Stale(kid, key) => Finished(Accepted(kid, key))
    case Miss(kid) => if TooSoon(s) then Finished(Cooldown(kid, s.clock)) else Waiting(kid, |s.f.calls|)
  }

  lemma AskTurns(s: State, thread: nat, p: Purpose, victim: Kid)
    requires s.f.refreshCall.None?
    ensures Repeat(Goto(s, thread, Due(p)), ThreadStep(thread, victim), 3) == Goto(Asked(s), thread, AskedPc(s, p))
  {
    Look(s, thread, Due(p), victim);
    Look(s, thread, ReadClock(p, s.clock), victim);
    SnapshotTurn(s, thread, p, victim);
    hide Step, Goto, Asked, AskedPc;
    FourTurns(Goto(s, thread, Due(p)), ThreadStep(thread, victim));
  }

  lemma SnapshotTurn(s: State, thread: nat, p: Purpose, victim: Kid)
    requires s.f.refreshCall.None?
    ensures Step(Goto(s, thread, Snapshot(p, s.clock, s.f.lastFetch)), ThreadStep(thread, victim)) ==
            Goto(Asked(s), thread, AskedPc(s, p))
  {
    var asking := Goto(s, thread, Snapshot(p, s.clock, s.f.lastFetch));
    StartExactly(s.f, s.clock, s.f.lastFetch);
    hide StartRefresh, StepMissed, StepAbsent, NextPc;
    var pc := AskedPc(s, p);
    assert s.threads[thread := Snapshot(p, s.clock, s.f.lastFetch)][thread := pc] == s.threads[thread := pc];
    assert Step(asking, ThreadStep(thread, victim)) == StepSnapshot(asking, thread, p, s.clock, s.f.lastFetch);
  }

  lemma StartExactly(f: Fields, now: Time, lastFetch: Option<Time>)
    requires f.refreshCall.None?
    ensures var soon := (f.lastRefreshAttempt.Some? && now - f.lastRefreshAttempt.value < JWKS_REFRESH_MIN_INTERVAL)
                || (lastFetch.Some? && now - lastFetch.value < JWKS_REFRESH_MIN_INTERVAL);
            StartRefresh(f, now, lastFetch) ==
            if soon then (f.(skipped := f.skipped + 1), Skipped)
            else
              (f.(lastRefreshAttempt := Some(now), refreshCall := Some(|f.calls|),
                  calls := f.calls + [Call(0, None)]),
               Started(|f.calls|))
  {
  }

  function LookedUp(s: State, kid: Kid): State
  {
    if kid in s.f.publicKeys then (if KeysOld(s) then Asked(s) else s)
    else if Refused(s, kid) then Missing(s, kid)
    else Asked(Missing(s, kid))
  }

  function LookedUpPc(s: State, kid: Kid): ThreadPc
  {
    if kid in s.f.publicKeys then Finished(Accepted(kid, s.f.publicKeys[kid]))
    else if Refused(s, kid) then Finished(CachedUnknown(kid))
    else if TooSoon(s) then Finished(Cooldown(kid, s.clock))
    else Waiting(kid, |s.f.calls|)
  }

  /** The seven turns up to where the caller is done or waits for the refresh it had started. */
  lemma LookupTurns(s: State, thread: nat, kid: Kid, victim: Kid)
    requires s.f.ready && s.f.refreshCall.None?
    ensures Repeat(Goto(s, thread, Arrived(kid)), ThreadStep(thread, victim), 7) ==
            Goto(LookedUp(s, kid), thread, LookedUpPc(s, kid))
  {
    var a, arrived := ThreadStep(thread, victim), Goto(s, thread, Arrived(kid));
    if kid in s.f.publicKeys {
      FoundTurns(s, thread, kid, victim);
      RepeatSplit(arrived, a, 4, 3);
      if KeysOld(s) {
        AskTurns(s, thread, Stale(kid, s.f.publicKeys[kid]), victim);
      } else {
        Stays(Goto(s, thread, LookedUpPc(s, kid)), thread, victim, 3);
      }
    } else {
      MissTurns(s, thread, kid, victim);
      RepeatSplit(arrived, a, 3, 4);
      if Refused(s, kid) {
        Stays(Goto(Missing(s, kid), thread, LookedUpPc(s, kid)), thread, victim, 4);
      } else {
        UnknownTurns(Missing(s, kid), thread, kid, victim);
      }
    }
    hide Step, Repeat, Asked, KeysOld, Restrict;
  }

  lemma UnknownTurns(m: State, thread: nat, kid: Kid, victim: Kid)
    requires m.f.refreshCall.None?
    ensures Repeat(Goto(m, thread, Due(Miss(kid))), ThreadStep(thread, victim), 4) ==
            Goto(Asked(m), thread, AskedPc(m, Miss(kid)))
  {
    var a, pc := ThreadStep(thread, victim), AskedPc(m, Miss(kid));
    AskTurns(m, thread, Miss(kid), victim);
    RepeatSplit(Goto(m, thread, Due(Miss(kid))), a, 3, 1);
    var asked := Goto(Asked(m), thread, pc);
    OneTurn(asked, a);
    if TooSoon(m) {
      Stays(asked, thread, victim, 1);
    } else {
      Look(Asked(m), thread, pc, victim);
    }
    hide Step, Repeat;
  }

  lemma OneTurn(s: State, a: Action)
    ensures Repeat(s, a, 1) == Step(s, a)
  {
    hide Step;
    assert Repeat(Step(s, a), a, 0) == Step(s, a);
  }

  // ---- The refresh ---------------------------------------------------------

  /** A turn of the refresh changes no thread, no clock and no start. */
  predicate SameCallers(s: State, s': State)
  {
    s'.threads == s.threads && s'.clock == s.clock && s'.starts == s.starts
  }

  lemma FetchTurn(s: State, call: nat, response: Option<KeySet>)
    requires call in s.workers && call < |s.f.calls| && !s.workers[call].Counted?
    ensures var s' := Step(s, WorkerStep(call, response));
            && SameCallers(s, s') && call in s'.workers
            && (s'.f, s'.workers[call]) == FetchStep(s.f, s.workers[call], response, s.clock)
  {
    hide FetchStep;
  }

  lemma EndTurn(s: State, call: nat, response: Option<KeySet>)
    requires call in s.workers && call < |s.f.calls| && s.workers[call].Counted?
    ensures var s' := Step(s, WorkerStep(call, response));
            && SameCallers(s, s') && call !in s'.workers
            && s'.f == s.f.(calls := s.f.calls[call := Call(s.f.calls[call].closes + 1, Some(s.workers[call].result))],
                            refreshCall := None)
  {
  }

  lemma NoTurn(s: State, call: nat, response: Option<KeySet>, n: nat)
    requires call !in s.workers
    ensures Repeat(s, WorkerStep(call, response), n) == s
    decreases n
  {
    assert Step(s, WorkerStep(call, response)) == s;
    hide Step;
    if n > 0 {
      NoTurn(s, call, response, n - 1);
    }
  }

  /** The first two turns: the request and its answer. */
  lemma RequestTurns(s: State, call: nat, response: Option<KeySet>)
    requires call in s.workers && call < |s.f.calls| && s.workers[call] == Begin
    ensures var a := WorkerStep(call, response);
            var s' := Step(Step(s, a), a);
            && SameCallers(s, s') && call in s'.workers
            && (if response.Some? && response.value != map[] then
                  s'.workers[call] == Received(response.value) && s'.f == s.f.(attempts := s.f.attempts + 1)
                else
                  && s'.workers[call] == Counted(Failed)
                  && s'.f == s.f.(attempts := s.f.attempts + 1, failures := s.f.failures + 1))
  {
    FetchTurn(s, call, response);
    FetchTurn(Step(s, WorkerStep(call, response)), call, response);
    hide Step;
  }

  /** The next three: install the keys, clear the negative cache, count. */
  lemma InstallTurns(s: State, call: nat, response: Option<KeySet>)
    requires call in s.workers && call < |s.f.calls| && s.workers[call].Received?
    ensures var a := WorkerStep(call, response);
            var s' := Step(Step(Step(s, a), a), a);
            && SameCallers(s, s') && call in s'.workers && s'.workers[call] == Counted(Fetched)
            && s'.f == s.f.(publicKeys := s.workers[call].keys, lastFetch := Some(s.clock), unknownKIDs := map[],
                            successes := s.f.successes + 1)
  {
    var a := WorkerStep(call, response);
    FetchTurn(s, call, response);
    FetchTurn(Step(s, a), call, response);
    FetchTurn(Step(Step(s, a), a), call, response);
    hide Step;
  }

  lemma SixTurns(s: State, a: Action)
    ensures Repeat(s, a, 6) == Step(Step(Step(Step(Step(Step(s, a), a), a), a), a), a)
    ensures Repeat(s, a, 6) == Repeat(Step(Step(Step(s, a), a), a), a, 3)
  {
    RepeatSplit(s, a, 3, 3);
    FourTurns(s, a);
    FourTurns(Step(Step(Step(s, a), a), a), a);
    hide Step, Repeat;
  }

  /** The six turns of a refresh: the keys of a usable answer are installed, and its result is published. */
  lemma RefreshTurns(s: State, call: nat, response: Option<KeySet>)
    requires call in s.workers && call < |s.f.calls| && s.workers[call] == Begin && s.f.calls[call].closes == 0
    ensures var s' := Repeat(s, WorkerStep(call, response), 6);
            && SameCallers(s, s')
            && s'.f ==
               if response.Some? && response.value != map[] then
                 s.f.(attempts := s.f.attempts + 1, successes := s.f.successes + 1, publicKeys := response.value,
                      lastFetch := Some(s.clock), unknownKIDs := map[], refreshCall := None,
                      calls := s.f.calls[call := Call(1, Some(Fetched))])
               else
                 s.f.(attempts := s.f.attempts + 1, failures := s.f.failures + 1, refreshCall := None,
                      calls := s.f.calls[call := Call(1, Some(Failed))])
  {
    var a := WorkerStep(call, response);
    hide Step, Repeat;
    SixTurns(s, a);
    RequestTurns(s, call, response);
    var s2 := Step(Step(s, a), a);
    if response.Some? && response.value != map[] {
      InstallTurns(s2, call, response);
      EndTurn(Step(Step(Step(s2, a), a), a), call, response);
    } else {
      EndTurn(s2, call, response);
      NoTurn(Step(s2, a), call, response, 3);
    }
  }

  // ---- The answer ----------------------------------------------------------

  /** The four turns of a caller whose refresh is over. */
  lemma AnswerTurns(s: State, thread: nat, kid: Kid, call: nat, victim: Kid)
    requires call < |s.f.calls| && s.f.calls[call].closes > 0
    requires s.f.calls[call].err == Some(Fetched) ==> s.f.lastFetch == Some(s.clock) && s.f.unknownKIDs == map[]
    ensures var s' := Repeat(Goto(s, thread, Waiting(kid, call)), ThreadStep(thread, victim), 4);
            && s'.starts == s.starts && s'.f == s.f.(unknownKIDs := s'.f.unknownKIDs)
            && (if s.f.calls[call].err != Some(Fetched) then
                  s' == Goto(s, thread, Finished(RefreshFailed(kid)))
                else if kid in s.f.publicKeys then
                  s' == Goto(s, thread, Finished(Accepted(kid, s.f.publicKeys[kid])))
                else
                  && thread in s'.threads && s'.threads[thread] == Finished(NotInKeySet(kid))
                  && s'.f.unknownKIDs == map[kid := s.clock + 300 * SECOND])
  {
    hide Step, Repeat;
    if s.f.calls[call].err != Some(Fetched) {
      FailedAnswer(s, thread, kid, call, victim);
    } else if kid in s.f.publicKeys {
      FoundAnswer(s, thread, kid, call, victim);
    } else {
      AbsentAnswer(s, thread, kid, call, victim);
    }
  }

  lemma FailedAnswer(s: State, thread: nat, kid: Kid, call: nat, victim: Kid)
    requires call < |s.f.calls| && s.f.calls[call].closes > 0 && s.f.calls[call].err != Some(Fetched)
    ensures Repeat(Goto(s, thread, Waiting(kid, call)), ThreadStep(thread, victim), 4) ==
            Goto(s, thread, Finished(RefreshFailed(kid)))
  {
    var a, waiting := ThreadStep(thread, victim), Goto(s, thread, Waiting(kid, call));
    Look(s, thread, Waiting(kid, call), victim);
    RepeatSplit(waiting, a, 1, 3);
    OneTurn(waiting, a);
    Stays(Goto(s, thread, Finished(RefreshFailed(kid))), thread, victim, 3);
    hide Step, Repeat;
  }

  lemma FoundAnswer(s: State, thread: nat, kid: Kid, call: nat, victim: Kid)
    requires call < |s.f.calls| && s.f.calls[call].closes > 0 && s.f.calls[call].err == Some(Fetched)
    requires s.f.lastFetch == Some(s.clock) && kid in s.f.publicKeys
    ensures Repeat(Goto(s, thread, Waiting(kid, call)), ThreadStep(thread, victim), 4) ==
            Goto(s, thread, Finished(Accepted(kid, s.f.publicKeys[kid])))
  {
    var key := s.f.publicKeys[kid];
    Look(s, thread, Waiting(kid, call), victim);
    Look(s, thread, Recheck(kid, call), victim);
    Look(s, thread, Found(kid, key), victim);
    Look(s, thread, Dated(kid, key, s.f.lastFetch), victim);
    hide Step, Repeat, Goto;
    FourTurns(Goto(s, thread, Waiting(kid, call)), ThreadStep(thread, victim));
  }

  lemma AbsentAnswer(s: State, thread: nat, kid: Kid, call: nat, victim: Kid)
    requires call < |s.f.calls| && s.f.calls[call].closes > 0 && s.f.calls[call].err == Some(Fetched)
    requires s.f.unknownKIDs == map[] && kid !in s.f.publicKeys
    ensures var s' := Repeat(Goto(s, thread, Waiting(kid, call)), ThreadStep(thread, victim), 4);
            && thread in s'.threads && s'.threads[thread] == Finished(NotInKeySet(kid)) && s'.starts == s.starts
            && s'.f == s.f.(unknownKIDs := map[kid := s.clock + 300 * SECOND])
  {
    Look(s, thread, Waiting(kid, call), victim);
    Look(s, thread, Recheck(kid, call), victim);
    Look(s, thread, Absent(kid, call, s.installs, None), victim);
    RememberTurn(s, thread, kid, call, s.installs, victim);
    hide Step, Repeat, Goto;
    FourTurns(Goto(s, thread, Waiting(kid, call)), ThreadStep(thread, victim));
  }

  lemma RememberTurn(s: State, thread: nat, kid: Kid, call: nat, gen: nat, victim: Kid)
    requires s.f.unknownKIDs == map[]
    ensures var s' := Step(Goto(s, thread, Absent(kid, call, gen, Some(s.clock))), ThreadStep(thread, victim));
            && thread in s'.threads && s'.threads[thread] == Finished(NotInKeySet(kid)) && s'.starts == s.starts
            && s'.f == s.f.(unknownKIDs := map[kid := s.clock + 300 * SECOND])
  {
    assert Pruned(map[], s.clock) == map[];
    hide StepMissed, StepSnapshot, NextPc, Restrict, Pruned;
  }

  // ---- The whole lookup ----------------------------------------------------

  function Alone(thread: nat, call: nat, response: Option<KeySet>, victim: Kid): seq<Action>
  {
    var turn := ThreadStep(thread, victim);
    Turns(turn, 7) + Turns(WorkerStep(call, response), 6) + Turns(turn, 4)
  }

  /** What a caller is told if the refresh it may have started gets this answer. */
  function AnswerTo(s: State, kid: Kid, response: Option<KeySet>): Verdict
  {
    if kid in s.f.publicKeys then Accepted(kid, s.f.publicKeys[kid])
    else if Refused(s, kid) then CachedUnknown(kid)
    else if TooSoon(s) then Cooldown(kid, s.clock)
    else if response.None? || response.value == map[] then RefreshFailed(kid)
    else if kid in response.value then Accepted(kid, response.value[kid])
    else NotInKeySet(kid)
  }

  /**
   After any schedule, with no refresh in flight, a lookup that nobody interrupts: the key if it is
   there; else a refusal if the kid is cached as unknown or a refresh would come too soon; else the
   outcome of a refresh, and a kid that is still absent is remembered for five minutes. A key that
   is there is refreshed behind the caller's back if the keys are more than an hour old.
   */
  lemma LookupAlone(acts: seq<Action>, thread: nat, kid: Kid, response: Option<KeySet>, victim: Kid)
    requires thread in Run(acts).threads && Run(acts).threads[thread] == Arrived(kid)
    requires Run(acts).f.ready && Run(acts).f.refreshCall.None?
    ensures var s := Run(acts);
            var s' := Run(acts + Alone(thread, |s.f.calls|, response, victim));
            var started := Starts(s, kid);
            var installed := started && response.Some? && response.value != map[];
            && thread in s'.threads && s'.threads[thread] == Finished(AnswerTo(s, kid, response))
            && s'.starts == s.starts + (if started then [s.clock] else [])
            && s'.f.attempts == s.f.attempts + (if started then 1 else 0)
            && s'.f.publicKeys == (if installed then response.value else s.f.publicKeys)
            && (AnswerTo(s, kid, response).NotInKeySet? ==>
                  kid in s'.f.unknownKIDs && s'.f.unknownKIDs[kid] == s.clock + 300 * SECOND)
  {
    var s := Run(acts);
    RunInv(acts);
    Idle(s);
    AloneFrom(acts, s, thread, response, victim);
    hide Run, Inv, Step, Repeat, Alone;
    var turn, call := ThreadStep(thread, victim), |s.f.calls|;
    assert s.threads[thread := Arrived(kid)] == s.threads;
    LookupTurns(s, thread, kid, victim);
    var s1 := Repeat(s, turn, 7);
    RestAlone(s, s1, thread, kid, response, victim);
  }

  lemma Idle(s: State)
    requires Inv(s) && s.f.ready && s.f.refreshCall.None?
    ensures s.workers == map[]
  {
    hide CallsOk, KeysAreLatest, StartsSpaced, ThreadsOk, NegativeCacheJustified, CountersAgree;
    assert s.workers == map[];
  }

  lemma AloneFrom(acts: seq<Action>, s: State, thread: nat, response: Option<KeySet>, victim: Kid)
    requires s == Run(acts)
    ensures var turn, call := ThreadStep(thread, victim), |s.f.calls|;
            Run(acts + Alone(thread, call, response, victim)) ==
            Repeat(Repeat(Repeat(s, turn, 7), WorkerStep(call, response), 6), turn, 4)
  {
    var turn, call := ThreadStep(thread, victim), |s.f.calls|;
    hide Step, Turns, Repeat;
    Runs.Concat(Step, START, acts, Alone(thread, call, response, victim));
    Runs.Concat(Step, s, Turns(turn, 7) + Turns(WorkerStep(call, response), 6), Turns(turn, 4));
    Runs.Concat(Step, s, Turns(turn, 7), Turns(WorkerStep(call, response), 6));
    ExecTurns(s, turn, 7);
    ExecTurns(Repeat(s, turn, 7), WorkerStep(call, response), 6);
    ExecTurns(Repeat(Repeat(s, turn, 7), WorkerStep(call, response), 6), turn, 4);
    hide Runs.Exec;
  }

  lemma LookedUpEffect(s: State, kid: Kid)
    requires s.f.refreshCall.None? && s.workers == map[]
    ensures var x, call := LookedUp(s, kid), |s.f.calls|;
            && x.clock == s.clock && x.f.publicKeys == s.f.publicKeys && x.f.attempts == s.f.attempts
            && (if Starts(s, kid) then
                  && x.starts == s.starts + [s.clock]
                  && call in x.workers && x.workers[call] == Begin
                  && |x.f.calls| == call + 1 && x.f.calls[call] == Call(0, None)
                else
                  x.starts == s.starts && x.workers == map[])
  {
    AskedEffect(s);
    AskedEffect(Missing(s, kid));
    MissingEffect(s, kid);
    hide Asked, Missing, TooSoon, KeysOld, Refused;
  }

  lemma AskedEffect(s: State)
    ensures var x, call := Asked(s), |s.f.calls|;
            && x.clock == s.clock && x.f.publicKeys == s.f.publicKeys && x.f.attempts == s.f.attempts
            && (if TooSoon(s) then x.starts == s.starts && x.workers == s.workers
                else
                  && x.starts == s.starts + [s.clock]
                  && call in x.workers && x.workers[call] == Begin
                  && |x.f.calls| == call + 1 && x.f.calls[call] == Call(0, None))
  {
    hide TooSoon;
  }

  lemma MissingEffect(s: State, kid: Kid)
    ensures var m := Missing(s, kid);
            && m.clock == s.clock && m.f.publicKeys == s.f.publicKeys && m.f.attempts == s.f.attempts
            && m.starts == s.starts && m.workers == s.workers && m.f.calls == s.f.calls
            && (TooSoon(m) <==> TooSoon(s))
  {
    hide Restrict;
  }

  /** What a state after the whole lookup must show. */
  ghost predicate Ends(s: State, s': State, thread: nat, kid: Kid, response: Option<KeySet>)
  {
    var started := Starts(s, kid);
    var installed := started && response.Some? && response.value != map[];
    && thread in s'.threads && s'.threads[thread] == Finished(AnswerTo(s, kid, response))
    && s'.starts == s.starts + (if started then [s.clock] else [])
    && s'.f.attempts == s.f.attempts + (if started then 1 else 0)
    && s'.f.publicKeys == (if installed then response.value else s.f.publicKeys)
    && (AnswerTo(s, kid, response).NotInKeySet? ==>
          kid in s'.f.unknownKIDs && s'.f.unknownKIDs[kid] == s.clock + 300 * SECOND)
  }

  /** From where the caller is done or waits. */
  lemma RestAlone(s: State, s1: State, thread: nat, kid: Kid, response: Option<KeySet>, victim: Kid)
    requires s.f.refreshCall.None? && s.workers == map[]
    requires s1 == Goto(LookedUp(s, kid), thread, LookedUpPc(s, kid))
    ensures var turn := ThreadStep(thread, victim);
            Ends(s, Repeat(Repeat(s1, WorkerStep(|s.f.calls|, response), 6), turn, 4), thread, kid, response)
  {
    var call := |s.f.calls|;
    LookedUpEffect(s, kid);
    hide Step, Repeat, LookedUp, Ends;
    if Starts(s, kid) {
      RefreshTurns(s1, call, response);
      StartedAlone(s, Repeat(s1, WorkerStep(call, response), 6), thread, kid, response, victim);
    } else {
      NoTurn(s1, call, response, 6);
      Stays(s1, thread, victim, 4);
      NotStarted(s, s1, thread, kid, response);
    }
  }

  lemma NotStarted(s: State, s1: State, thread: nat, kid: Kid, response: Option<KeySet>)
    requires !Starts(s, kid) && thread in s1.threads && s1.threads[thread] == LookedUpPc(s, kid)
    requires s1.starts == s.starts && s1.f.attempts == s.f.attempts && s1.f.publicKeys == s.f.publicKeys
    ensures LookedUpPc(s, kid).Finished? && Ends(s, s1, thread, kid, response)
  {
  }

  /** With the refresh over. */
  lemma StartedAlone(s: State, s2: State, thread: nat, kid: Kid, response: Option<KeySet>, victim: Kid)
    requires Starts(s, kid) && thread in s2.threads && s2.threads[thread] == LookedUpPc(s, kid)
    requires var call := |s.f.calls|;
             && s2.clock == s.clock && s2.starts == s.starts + [s.clock] && s2.f.attempts == s.f.attempts + 1
             && call < |s2.f.calls| && s2.f.calls[call].closes == 1
             && (if response.Some? && response.value != map[] then
                   && s2.f.calls[call].err == Some(Fetched) && s2.f.publicKeys == response.value
                   && s2.f.lastFetch == Some(s.clock) && s2.f.unknownKIDs == map[]
                 else s2.f.calls[call].err == Some(Failed) && s2.f.publicKeys == s.f.publicKeys)
    ensures Ends(s, Repeat(s2, ThreadStep(thread, victim), 4), thread, kid, response)
  {
    hide Step, Repeat, TooSoon, KeysOld, Refused;
    if LookedUpPc(s, kid).Waiting? {
      assert s2.threads[thread := Waiting(kid, |s.f.calls|)] == s2.threads;
      AnswerTurns(s2, thread, kid, |s.f.calls|, victim);
    } else {
      Stays(s2, thread, victim, 4);
    }
  }

  // ---- The init loop -------------------------------------------------------

  lemma InitTurn(s: State, response: Option<KeySet>)
    requires s.init.InitFetch? && !s.init.fetch.Counted? && !(s.init.fetch.Begin? && s.stopping)
    ensures var s' := Step(s, InitStep(response));
            && s'.clock == s.clock && s'.stopping == s.stopping
            && s'.init.InitFetch? && s'.init.attempt == s.init.attempt
            && (s'.f, s'.init.fetch) == FetchStep(s.f, s.init.fetch, response, s.clock)
  {
    hide FetchStep;
  }

  lemma InitRequestTurns(s: State, response: Option<KeySet>)
    requires s.init.InitFetch? && s.init.fetch == Begin && !s.stopping
    ensures var a := InitStep(response);
            var s' := Step(Step(s, a), a);
            && s'.clock == s.clock && !s'.stopping && s'.init.InitFetch? && s'.init.attempt == s.init.attempt
            && (if response.Some? && response.value != map[] then
                  s'.init.fetch == Received(response.value) && s'.f == s.f.(attempts := s.f.attempts + 1)
                else
                  && s'.init.fetch == Counted(Failed)
                  && s'.f == s.f.(attempts := s.f.attempts + 1, failures := s.f.failures + 1))
  {
    InitTurn(s, response);
    InitTurn(Step(s, InitStep(response)), response);
    hide Step;
  }

  lemma InitInstallTurns(s: State, response: Option<KeySet>)
    requires s.init.InitFetch? && s.init.fetch.Received?
    ensures var a := InitStep(response);
            var s' := Step(Step(Step(s, a), a), a);
            && s'.init.InitFetch? && s'.init.fetch == Counted(Fetched)
            && s'.f == s.f.(publicKeys := s.init.fetch.keys, lastFetch := Some(s.clock), unknownKIDs := map[],
                            successes := s.f.successes + 1)
  {
    var a := InitStep(response);
    InitTurn(s, response);
    InitTurn(Step(s, a), response);
    InitTurn(Step(Step(s, a), a), response);
    hide Step;
  }

  /**
   One attempt of the init loop that nobody interrupts: with a usable answer the validator becomes
   ready and the loop is done; otherwise the failure is counted and the next attempt is due.
   */
  lemma InitAlone(s: State, response: Option<KeySet>)
    requires s.init.InitFetch? && s.init.fetch == Begin && !s.stopping
    ensures response.Some? && response.value != map[] ==>
              var s' := Repeat(s, InitStep(response), 6);
              && s'.init == InitDone
              && s'.f == s.f.(attempts := s.f.attempts + 1, successes := s.f.successes + 1, ready := true,
                              publicKeys := response.value, lastFetch := Some(s.clock), unknownKIDs := map[])
    ensures !(response.Some? && response.value != map[]) ==>
              var s' := Repeat(s, InitStep(response), 3);
              && s'.init == InitFetch(s.init.attempt + 1, Begin)
              && s'.f == s.f.(attempts := s.f.attempts + 1, failures := s.f.failures + 1)
  {
    var a := InitStep(response);
    SixTurns(s, a);
    FourTurns(s, a);
    hide Repeat;
    InitRequestTurns(s, response);
    var s2 := Step(Step(s, a), a);
    if response.Some? && response.value != map[] {
      InitInstallTurns(s2, response);
      InitEnds(Step(Step(Step(s2, a), a), a), response);
    } else {
      InitEnds(s2, response);
    }
    hide Step;
  }

  lemma InitEnds(s: State, response: Option<KeySet>)
    requires s.init.InitFetch? && s.init.fetch.Counted?
    ensures Step(s, InitStep(response)) ==
            if s.init.fetch == Counted(Fetched) then s.(f := s.f.(ready := true), init := InitDone)
            else s.(init := InitFetch(s.init.attempt + 1, Begin))
  {
  }

  /** A stop signal ends the loop before any of its active attempts. */
  lemma InitStopsWhenTold(s: State, response: Option<KeySet>)
    requires s.init.InitFetch? && s.init.fetch == Begin && s.init.attempt <= 5
    ensures Step(Step(s, Stop), InitStep(response)).init == InitStopped
    ensures Step(Step(s, Stop), InitStep(response)).f == s.f
  {
    hide Fetch;
  }
}
