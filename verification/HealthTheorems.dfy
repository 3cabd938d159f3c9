/** What the health checker guarantees in every schedule. */
module HealthTheorems {
  import opened Wrappers
  import opened Domain
  import opened ServiceCaches
  import opened HealthCheckers
  import opened HealthProtocol
  import opened HealthHistory
  import Runs

  // ---- Posts answer recoveries -------------------------------------------

  predicate IsRecovery(e: Event)
  {
    e.Wrote? && e.before == "unhealthy" && e.after == "healthy"
  }

  predicate Answers(e: Event, k: nat)
  {
    (e.Posted? || e.Unposted?) && e.cause == k
  }

  ghost predicate AnswerOk(e: Event, j: nat, history: seq<Event>)
  {
    !e.Wrote? ==>
      && e.cause < j <= |history| && IsRecovery(history[e.cause]) && history[e.cause].uid == e.uid
      && (e.Posted? ==> e.config == history[e.cause].measuredFor)
  }

  predicate Reports(loop: Loop, e: Event)
  {
    && loop.pc.Stored? && e.Wrote? && e.uid == loop.uid && e.measuredFor == loop.config
    && e.before == loop.pc.prev && e.after == loop.pc.status
  }

  ghost predicate PendingOk(loop: Loop, history: seq<Event>)
  {
    loop.pc.Stored? ==>
      && loop.pc.at < |history| && Reports(loop, history[loop.pc.at])
      && (forall j :: 0 <= j < |history| ==> !Answers(history[j], loop.pc.at))
  }

  ghost predicate Answered(history: seq<Event>, k: nat)
  {
    exists j :: 0 <= j < |history| && Answers(history[j], k)
  }

  ghost predicate Pending(loops: map<nat, Loop>, k: nat)
  {
    exists t :: t in loops && loops[t].pc.Stored? && loops[t].pc.at == k
  }

  ghost predicate AnswersOk(history: seq<Event>)
  {
    && (forall j :: 0 <= j < |history| ==> AnswerOk(history[j], j, history))
    && (forall i, j :: 0 <= i < j < |history| && !history[i].Wrote? && !history[j].Wrote? ==>
          history[i].cause != history[j].cause)
  }

  ghost predicate PostsOk(history: seq<Event>, loops: map<nat, Loop>)
  {
    && AnswersOk(history)
    && (forall t :: t in loops ==> PendingOk(loops[t], history))
    && (forall t, t' :: t in loops && t' in loops && loops[t].pc.Stored? && loops[t'].pc.Stored? ==>
          loops[t].pc.at == loops[t'].pc.at ==> t == t')
    && (forall k :: 0 <= k < |history| && IsRecovery(history[k]) ==> Answered(history, k) || Pending(loops, k))
  }

  /** Steps that neither begin nor end a report. */
  lemma SameReports(history: seq<Event>, loops: map<nat, Loop>, loops': map<nat, Loop>)
    requires PostsOk(history, loops)
    requires forall t :: t in loops && loops[t].pc.Stored? ==> t in loops' && loops'[t] == loops[t]
    requires forall t :: t in loops' && loops'[t].pc.Stored? ==> t in loops && loops'[t] == loops[t]
    ensures PostsOk(history, loops')
  {
    forall k | 0 <= k < |history| && IsRecovery(history[k]) ensures Answered(history, k) || Pending(loops', k) {
      if Pending(loops, k) {
        var t :| t in loops && loops[t].pc.Stored? && loops[t].pc.at == k;
        assert loops'[t].pc.at == k;
      }
    }
    hide AnswersOk, Answers, Reports, IsRecovery;
  }

  lemma AnswersExtend(history: seq<Event>, e: Event)
    requires AnswersOk(history)
    requires AnswerOk(e, |history|, history)
    requires !e.Wrote? ==> forall j :: 0 <= j < |history| ==> !Answers(history[j], e.cause)
    ensures AnswersOk(history + [e])
  {
    var h := history + [e];
    forall j | 0 <= j < |h| ensures AnswerOk(h[j], j, h) {
      if j < |history| {
        assert AnswerOk(history[j], j, history);
      }
    }
  }

  lemma AnsweredExtend(history: seq<Event>, e: Event, k: nat)
    requires Answered(history, k)
    ensures Answered(history + [e], k)
  {
    var j :| 0 <= j < |history| && Answers(history[j], k);
    assert Answers((history + [e])[j], k);
  }

  /** A write by `token`, whose reading of the status was still right. */
  lemma WriteKeepsPosts(history: seq<Event>, loops: map<nat, Loop>, token: nat, e: Event)
    requires PostsOk(history, loops)
    requires token in loops && !loops[token].pc.Stored?
    requires e.Wrote? && e.uid == loops[token].uid && e.measuredFor == loops[token].config
    ensures PostsOk(history + [e], loops[token := loops[token].(pc := Stored(e.before, e.after, |history|))])
  {
    var h := history + [e];
    var loops' := loops[token := loops[token].(pc := Stored(e.before, e.after, |history|))];
    AnswersExtend(history, e);
    forall t | t in loops' ensures PendingOk(loops'[t], h) {
      if t != token {
        assert PendingOk(loops[t], history);
      } else {
        forall j | 0 <= j < |h| ensures !Answers(h[j], |history|) {
          assert j < |history| ==> AnswerOk(history[j], j, history);
        }
      }
    }
    forall k | 0 <= k < |h| && IsRecovery(h[k]) ensures Answered(h, k) || Pending(loops', k) {
      if k == |history| {
        assert loops'[token].pc.at == k;
      } else {
        assert IsRecovery(history[k]);
        if Answered(history, k) {
          AnsweredExtend(history, e, k);
        } else {
          var t :| t in loops && loops[t].pc.Stored? && loops[t].pc.at == k;
          assert loops'[t].pc.at == k;
        }
      }
    }
    assert forall t :: t in loops && loops[t].pc.Stored? ==> PendingOk(loops[t], history);
    hide AnswersOk, AnswerOk, Answers, Reports, IsRecovery, Answered, Pending;
  }

  /** A report that is no recovery ends without a post. */
  lemma QuietEndKeepsPosts(history: seq<Event>, loops: map<nat, Loop>, token: nat)
    requires PostsOk(history, loops)
    requires token in loops && loops[token].pc.Stored?
            && !(loops[token].pc.status == "healthy" && loops[token].pc.prev == "unhealthy")
    ensures PostsOk(history, loops[token := loops[token].(pc := Waiting)])
  {
    var loops' := loops[token := loops[token].(pc := Waiting)];
    assert PendingOk(loops[token], history);
    forall k | 0 <= k < |history| && IsRecovery(history[k]) ensures Answered(history, k) || Pending(loops', k) {
      if Pending(loops, k) {
        var t :| t in loops && loops[t].pc.Stored? && loops[t].pc.at == k;
        assert t != token;
        assert loops'[t].pc.at == k;
      }
    }
    hide AnswersOk, Answers, Reports, IsRecovery;
  }

  lemma AnswerKeepsPosts(history: seq<Event>, loops: map<nat, Loop>, token: nat, e: Event)
    requires PostsOk(history, loops)
    requires token in loops && loops[token].pc.Stored? && loops[token].pc.status == "healthy"
            && loops[token].pc.prev == "unhealthy"
    requires Answers(e, loops[token].pc.at) && e.uid == loops[token].uid
            && (e.Posted? ==> e.config == loops[token].config)
    ensures PostsOk(history + [e], loops[token := loops[token].(pc := Waiting)])
  {
    var h := history + [e];
    var at := loops[token].pc.at;
    var loops' := loops[token := loops[token].(pc := Waiting)];
    assert PendingOk(loops[token], history);
    AnswersExtend(history, e);
    forall t | t in loops' ensures PendingOk(loops'[t], h) {
      if t != token {
        assert PendingOk(loops[t], history);
      }
    }
    forall k | 0 <= k < |h| && IsRecovery(h[k]) ensures Answered(h, k) || Pending(loops', k) {
      if k == at {
        assert Answers(h[|history|], k);
      } else {
        assert IsRecovery(history[k]);
        if Answered(history, k) {
          AnsweredExtend(history, e, k);
        } else {
          var t :| t in loops && loops[t].pc.Stored? && loops[t].pc.at == k;
          assert t != token;
          assert loops'[t].pc.at == k;
        }
      }
    }
    hide AnswersOk, AnswerOk, Answers, Reports, IsRecovery, Answered, Pending;
  }

  ghost predicate Inv(s: State)
  {
    && FreshInv(s)
    && CacheInv(s)
    && (s.returned || PostsOk(s.history, s.loops))
  }

  lemma LoopKeepsPosts(s: State, token: nat, result: HealthStatus, exit: bool)
    requires Fresh(s) && PostsOk(s.history, s.loops) && token in s.loops
    ensures var s' := StepLoop(s, token, result, exit); PostsOk(s'.history, s'.loops)
  {
    hide PostsOk, Forget, OneServer, SnapshotKnown, NoneRetired, Known;
    var Loop(uid, config, pc) := s.loops[token];
    var s' := StepLoop(s, token, result, exit);
    match pc
    case Probing(prev) =>
      if Current(s.cache.services, uid, config) {
        assert LoopOk(token, s.loops[token], s.cache.services, s.retired, s.ps.cancelled, s.rec);
        hide LoopsOk, LoopOk;
        WriteKeepsPosts(s.history, s.loops, token,
                        Wrote(uid, prev, result.status, config, s.cache.services[uid].healthCheckConfig.value));
      } else {
        SameReports(s.history, s.loops, s'.loops);
      }
    case Stored(prev, status, at) =>
      if status == "healthy" && prev == "unhealthy" {
        AnswerKeepsPosts(s.history, s.loops, token, Announcement(s.cache.services, uid, config, at));
      } else {
        QuietEndKeepsPosts(s.history, s.loops, token);
      }
    case _ => hide Fresh; SameReports(s.history, s.loops, s'.loops);
  }

  lemma StepKeepsPosts(s: State, action: Action)
    requires FreshInv(s) && (s.returned || PostsOk(s.history, s.loops))
    ensures Step(s, action).returned || PostsOk(Step(s, action).history, Step(s, action).loops)
  {
    hide Fresh, RunningMatches, PostsOk, StepLoop, SweepOut, CancelAll, AddApp, RemoveUid, Retire, Current, ConfigOf;
    var s' := Step(s, action);
    match action
    case LoopStep(token, result, exit) =>
      if token in s.loops && !s.returned { LoopKeepsPosts(s, token, result, exit); }
      LoopKeepsReturned(s, action);
    case ScanOne(uid) => if !s.returned { ScanFrame(s, uid); SameReports(s.history, s.loops, s'.loops); }
    case _ =>
  }

  lemma LoopKeepsReturned(s: State, action: Action)
    requires action.LoopStep?
    ensures Step(s, action).returned == s.returned
  {
    hide Forget, StoreHealth, Announce;
  }

  lemma ScanFrame(s: State, uid: Uid)
    requires RunningMatches(s.ps, s.loops, s.alive)
    ensures var s' := StepScan(s, uid);
            && s'.history == s.history && s'.returned == s.returned
            && (forall t :: t in s.loops ==> t in s'.loops && s'.loops[t] == s.loops[t])
            && (forall t :: t in s'.loops && t !in s.loops ==> s'.loops[t].pc.Ready?)
  {
    hide Scan, ProbeSetOk;
  }

  lemma StepKeepsInv(s: State, action: Action)
    requires Inv(s)
    ensures Inv(Step(s, action))
  {
    hide FreshInv, CacheInv, Step;
    FreshKept(s, action);
    CacheInvKept(s, action);
    StepKeepsPosts(s, action);
    hide PostsOk;
  }

  function Run(acts: seq<Action>): State
  {
    Runs.Exec(Step, START, acts)
  }

  lemma RunInv(acts: seq<Action>)
    ensures Inv(Run(acts))
  {
    StartInv();
    hide Step, Inv, Runs.Exec;
    forall s, a | Inv(s) ensures Inv(Step(s, a)) { StepKeepsInv(s, a); }
    Runs.Invariance(Step, Inv, START, acts);
  }

  lemma StartInv()
    ensures Inv(START)
  {
  }

  // ---- Theorems ------------------------------------------------------------

  /** While the parent context is alive, `running` is exactly the live uncancelled loops with their configs. */
  lemma RunningIsUncancelledLoops(acts: seq<Action>, u: Uid, token: nat, config: HealthCheckConfig)
    requires Run(acts).alive
    ensures var s := Run(acts);
            (u in s.ps.running && s.ps.running[u] == Running(token, config))
            <==> (token in s.loops && token !in s.ps.cancelled && SameJob(s.loops[token], Loop(u, config, Ready)))
  {
    RunInv(acts);
    hide Runs.Exec, Fresh, CacheInv, PostsOk;
    var s := Run(acts);
    if u in s.ps.running {
      assert Represented(s.ps.running[u], u, s.loops, s.alive);
    }
  }

  /** No UID ever has two uncancelled loops, in any schedule, also while shutting down. */
  lemma OneLoopPerUid(acts: seq<Action>, t: nat, t': nat)
    requires t in Run(acts).loops && t' in Run(acts).loops
    requires t !in Run(acts).ps.cancelled && t' !in Run(acts).ps.cancelled
    requires Run(acts).loops[t].uid == Run(acts).loops[t'].uid
    ensures t == t'
  {
    RunInv(acts);
    hide Runs.Exec, Fresh, CacheInv, PostsOk;
  }

  ghost predicate EndedEmpty(s: State)
  {
    s.rec.Ended? ==> s.ps.running == map[]
  }

  lemma StepKeepsEndedEmpty(s: State, action: Action)
    requires EndedEmpty(s)
    ensures EndedEmpty(Step(s, action))
  {
    hide StoreHealth, Announce, AddApp, RemoveUid, Retire, Current, ConfigOf, Scan;
  }

  /** Once the checker has stopped, it knows no running loop and every loop still unwinding is cancelled. */
  lemma StoppedMeansCancelled(acts: seq<Action>)
    requires Run(acts).rec.Ended?
    ensures Run(acts).ps.running == map[]
    ensures forall t :: t in Run(acts).loops ==> t in Run(acts).ps.cancelled
  {
    RunInv(acts);
    hide Step;
    forall s, a | EndedEmpty(s) ensures EndedEmpty(Step(s, a)) { StepKeepsEndedEmpty(s, a); }
    Runs.Invariance(Step, EndedEmpty, START, acts);
    hide Runs.Exec, Fresh, CacheInv, PostsOk;
  }

  lemma RunTwo(acts: seq<Action>, a: Action, b: Action)
    ensures Run(acts + [a, b]) == Step(Step(Run(acts), a), b)
  {
    hide Step;
    assert (acts + [a, b])[..|acts| + 1] == acts + [a] && (acts + [a])[..|acts|] == acts;
    assert Run(acts + [a]) == Step(Run(acts), a);
  }

  /** When its parent is cancelled with no reconcile under way the checker stops, and then has, whatever follows. */
  lemma StopsForGood(acts: seq<Action>, more: seq<Action>)
    requires Run(acts).rec.Idle?
    ensures Run(acts + [CancelParent, StopAll] + more).rec.Ended?
  {
    var stopped := acts + [CancelParent, StopAll];
    RunTwo(acts, CancelParent, StopAll);
    Runs.Concat(Step, START, stopped, more);
    assert Run(stopped).rec.Ended? by { hide CancelAll; }
    hide Step, Runs.Exec;
    var inv := (s: State) => s.rec.Ended?;
    forall s, a | inv(s) ensures inv(Step(s, a)) { StaysEnded(s, a); }
    Runs.Invariance(Step, inv, Run(stopped), more);
  }

  /**
   When a service goes while it is probed, the result is not stored; the loop then takes itself off
   `running`, if it is still there, and ends.
   */
  lemma RemovedIsNotStored(s: State, token: nat, result: HealthStatus)
    requires token in s.loops && s.loops[token].pc.Probing?
    ensures var Loop(uid, config, _) := s.loops[token];
            var removed := Step(s, Remove(uid));
            var after := Step(removed, LoopStep(token, result, false));
            var ended := Step(after, LoopStep(token, result, false));
            && uid !in removed.cache.services && removed.loops == s.loops && removed.ps == s.ps
            && after.cache == removed.cache && after.history == s.history
            && token !in ended.loops
            && (uid in s.ps.running && s.ps.running[uid].config == config ==>
                  uid !in ended.ps.running && s.ps.running[uid].token in ended.ps.cancelled)
  {
    hide Announce, Retire, StoreHealth;
  }

  lemma StaysEnded(s: State, action: Action)
    requires s.rec.Ended?
    ensures Step(s, action).rec.Ended?
  {
    hide StoreHealth, Announce, AddApp, RemoveUid, Retire, Current, ConfigOf, Scan, Forget;
  }

  /**
   Every stored probe result was measured for the config in force at the write,
   and a cached service without a health check has status unknown and no last check.
   */
  lemma StoredResultsAreCurrent(acts: seq<Action>)
    ensures var s := Run(acts);
            && (forall j :: 0 <= j < |s.history| && s.history[j].Wrote? ==>
                  s.history[j].measuredFor == s.history[j].active)
            && (forall u :: u in s.cache.services && s.cache.services[u].healthCheckConfig.None? ==>
                  s.cache.services[u].health.status == "unknown" && s.cache.services[u].health.lastCheck.None?)
  {
    RunInv(acts);
    hide Runs.Exec, FreshInv, PostsOk, LastAfter;
    var s := Run(acts);
    forall j | 0 <= j < |s.history| && s.history[j].Wrote? ensures s.history[j].measuredFor == s.history[j].active {
      assert EventOk(s.history[j], s.history[..j]);
    }
    forall u | u in s.cache.services && s.cache.services[u].healthCheckConfig.None?
      ensures s.cache.services[u].health == UNKNOWN {
      assert EntryOk(u, s.cache.services[u]);
    }
  }

  lemma {:induction false} LastWrite(history: seq<Event>, u: Uid) returns (j: nat)
    requires LastAfter(history, u).Some?
    ensures j < |history| && history[j].Wrote? && history[j].uid == u && Some(history[j].after) == LastAfter(history, u)
    ensures forall i :: j < i < |history| && history[i].Wrote? ==> history[i].uid != u
  {
    var e := history[|history| - 1];
    if e.Wrote? && e.uid == u {
      j := |history| - 1;
    } else {
      j := LastWrite(history[..|history| - 1], u);
    }
  }

  /** Between two recoveries of a service a probe stored an unhealthy status. */
  lemma RecoveriesAreSeparated(acts: seq<Action>, i: nat, k: nat) returns (j: nat)
    requires i < k < |Run(acts).history|
    requires IsRecovery(Run(acts).history[i]) && IsRecovery(Run(acts).history[k])
    requires Run(acts).history[i].uid == Run(acts).history[k].uid
    ensures i < j < k
    ensures var e := Run(acts).history[j]; e.Wrote? && e.uid == Run(acts).history[k].uid && e.after == "unhealthy"
  {
    RunInv(acts);
    hide Runs.Exec, FreshInv, PostsOk, Wellformed;
    var h := Run(acts).history;
    assert EventOk(h[k], h[..k]);
    hide EventOk;
    j := LastWrite(h[..k], h[k].uid);
    assert h[..k][j] == h[j] && h[..k][i] == h[i];
    assert "unhealthy" != "healthy" by { assert "unhealthy"[0] != "healthy"[0]; }
  }

  /**
   When no replaced or removed config comes back, a post reports a recovery that happened, and no
   recovery is reported twice.
   */
  lemma PostsReportRecoveries(acts: seq<Action>, j: nat)
    requires !Run(acts).returned
    requires j < |Run(acts).history| && Run(acts).history[j].Posted?
    ensures var h := Run(acts).history;
            && h[j].cause < j && IsRecovery(h[h[j].cause]) && h[h[j].cause].uid == h[j].uid
            && h[h[j].cause].measuredFor == h[j].config
            && (forall i :: 0 <= i < |h| && i != j && !h[i].Wrote? ==> h[i].cause != h[j].cause)
  {
    RunInv(acts);
    hide Runs.Exec, FreshInv, CacheInv;
    var h := Run(acts).history;
    assert AnswerOk(h[j], j, h);
  }

  /**
   When no config comes back, every recovery has been posted, is still to be
   posted by the loop that stored it, or found its service gone from the cache.
   */
  lemma RecoveriesArePosted(acts: seq<Action>, k: nat)
    requires !Run(acts).returned
    requires k < |Run(acts).history| && IsRecovery(Run(acts).history[k])
    ensures var s := Run(acts);
            || (exists j :: k < j < |s.history| && Answers(s.history[j], k) && s.history[j].uid == s.history[k].uid)
            || (exists t :: t in s.loops && s.loops[t].pc == Stored("unhealthy", "healthy", k))
  {
    RunInv(acts);
    hide Runs.Exec, FreshInv, CacheInv;
    var s := Run(acts);
    if Answered(s.history, k) {
      var j :| 0 <= j < |s.history| && Answers(s.history[j], k);
      assert AnswerOk(s.history[j], j, s.history);
    } else {
      var t :| t in s.loops && s.loops[t].pc.Stored? && s.loops[t].pc.at == k;
      assert PendingOk(s.loops[t], s.history);
      assert s.loops[t].pc == Stored("unhealthy", "healthy", k);
    }
  }
}
