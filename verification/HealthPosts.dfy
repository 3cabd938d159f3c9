/**
 "Back online" posts of one service. Nothing holds a lock between storing a recovery
 and posting it, so a loop whose config was replaced meanwhile can post late.
 */
module HealthPosts {
  import opened Wrappers
  import opened Domain
  import opened ServiceCaches
  import opened HealthCheckers
  import opened HealthProtocol
  import opened HealthHistory
  import opened HealthTheorems
  import Runs

  // ---- Configs in force ------------------------------------------------------

  /** The config an event shows to have been in force for its service. */
  function Stamp(e: Event): Option<HealthCheckConfig>
  {
    match e
    case Wrote(_, _, _, _, active) => Some(active)
    case Posted(_, _, config, onTime) => if onTime then Some(config) else None
    case Unposted(_, _) => None
  }

  predicate Stamps(e: Event, uid: Uid)
  {
    e.uid == uid && Stamp(e).Some?
  }

  /** A config once in force is in force still or retired. */
  predicate StampKnown(e: Event, services: map<Uid, ServiceInfo>, retired: set<Pair>)
  {
    Stamp(e).Some? ==> Known(services, retired, e.uid, Stamp(e).value)
  }

  /** Of two different configs the earlier one was retired. */
  predicate Superseded(a: Event, b: Event, retired: set<Pair>)
  {
    Stamps(a, b.uid) && Stamps(b, b.uid) && Stamp(a) != Stamp(b) ==> (a.uid, Stamp(a).value) in retired
  }

  predicate Between(a: Event, b: Event, c: Event)
  {
    Stamps(a, c.uid) && Stamps(b, c.uid) && Stamps(c, c.uid) && Stamp(a) == Stamp(c) ==> Stamp(b) == Stamp(a)
  }

  ghost predicate AllKnown(history: seq<Event>, services: map<Uid, ServiceInfo>, retired: set<Pair>)
  {
    forall j :: 0 <= j < |history| ==> StampKnown(history[j], services, retired)
  }

  ghost predicate AllSuperseded(history: seq<Event>, retired: set<Pair>)
  {
    forall i, j :: 0 <= i < j < |history| ==> Superseded(history[i], history[j], retired)
  }

  /** Between two events under one config of a service, that config was in force throughout. */
  ghost predicate NoReturns(history: seq<Event>)
  {
    forall i, j, k :: 0 <= i < j < k < |history| ==> Between(history[i], history[j], history[k])
  }

  /** A recovery is answered before its service is next written under the same config. */
  ghost predicate AnsweredFirst(history: seq<Event>, x: nat, y: nat)
  {
    x < y < |history| && history[x].Wrote? && IsRecovery(history[x]) && history[y].Wrote?
    && history[x].uid == history[y].uid && history[x].measuredFor == history[y].measuredFor
    ==> exists j :: x < j < y && Answers(history[j], x)
  }

  ghost predicate PromptAnswers(history: seq<Event>)
  {
    forall x, y :: 0 <= x < y < |history| ==> AnsweredFirst(history, x, y)
  }

  ghost predicate Kept(history: seq<Event>, services: map<Uid, ServiceInfo>, retired: set<Pair>)
  {
    && AllKnown(history, services, retired)
    && AllSuperseded(history, retired)
    && NoReturns(history)
    && PromptAnswers(history)
  }

  /** One more event; a stamp of its own is of a config in force, which is never a retired one. */
  lemma StampsExtend(history: seq<Event>, e: Event, services: map<Uid, ServiceInfo>, retired: set<Pair>)
    requires AllKnown(history, services, retired) && AllSuperseded(history, retired) && NoReturns(history)
    requires NoneRetired(services, retired)
    requires Stamp(e).Some? ==> Current(services, e.uid, Stamp(e).value)
    ensures var h := history + [e]; AllKnown(h, services, retired) && AllSuperseded(h, retired) && NoReturns(h)
  {
    var h := history + [e];
    var n := |history|;
    forall i | 0 <= i < n ensures StampKnown(h[i], services, retired) && Superseded(h[i], e, retired) {
      assert StampKnown(history[i], services, retired);
    }
    forall i, j | 0 <= i < j < n ensures Superseded(h[i], h[j], retired) {
      assert Superseded(history[i], history[j], retired);
    }
    forall i, j, k | 0 <= i < j < k <= n ensures Between(h[i], h[j], h[k]) {
      assert k < n ==> Between(history[i], history[j], history[k]);
      assert Superseded(history[i], history[j], retired);
    }
    hide StampKnown, Superseded, Between;
  }

  lemma AnswersKept(history: seq<Event>, e: Event, x: nat, y: nat)
    requires y < |history| && AnsweredFirst(history, x, y)
    ensures AnsweredFirst(history + [e], x, y)
  {
    var h := history + [e];
    assert h[y] == history[y] && (x < y ==> h[x] == history[x]);
    if j :| x < j < y && Answers(history[j], x) {
      assert Answers(h[j], x);
    }
    hide Answers, IsRecovery;
  }

  lemma AnswersExtend(history: seq<Event>, e: Event)
    requires PromptAnswers(history)
    requires e.Wrote? ==> forall x :: 0 <= x < |history| ==> AnsweredFirst(history + [e], x, |history|)
    ensures PromptAnswers(history + [e])
  {
    var h := history + [e];
    forall x, y | 0 <= x < y < |h| ensures AnsweredFirst(h, x, y) {
      if y < |history| {
        AnswersKept(history, e, x, y);
      }
    }
    hide AnsweredFirst;
  }

  /** The loop that writes serves its config alone, so no recovery under it can still be waiting for its answer. */
  lemma WriterAnswered(s: State, token: nat, e: Event, x: nat)
    requires PostsOk(s.history, s.loops) && OneServer(s.loops, s.cache.services)
    requires token in s.loops && s.loops[token].pc.Probing?
    requires Current(s.cache.services, s.loops[token].uid, s.loops[token].config)
    requires e.Wrote? && e.uid == s.loops[token].uid && e.measuredFor == s.loops[token].config
    requires x < |s.history|
    ensures AnsweredFirst(s.history + [e], x, |s.history|)
  {
    var h := s.history + [e];
    assert h[x] == s.history[x] && h[|s.history|] == e;
    if h[x].Wrote? && IsRecovery(h[x]) && h[x].uid == e.uid && h[x].measuredFor == e.measuredFor {
      forall t | t in s.loops && s.loops[t].pc.Stored? ensures s.loops[t].pc.at != x {
        assert PendingOk(s.loops[t], s.history);
        assert SameJob(s.loops[t], s.loops[token]) ==> t == token;
      }
      assert Answered(s.history, x);
      var j :| 0 <= j < |s.history| && Answers(s.history[j], x);
      assert AnswerOk(s.history[j], j, s.history);
      assert Answers(h[j], x);
    }
    hide OneServer, Current;
  }

  ghost predicate KeptInv(s: State)
  {
    HealthTheorems.Inv(s) && (s.returned || Kept(s.history, s.cache.services, s.retired))
  }

  lemma StartKept()
    ensures KeptInv(START)
  {
    HealthTheorems.StartInv();
    hide HealthTheorems.Inv;
  }

  lemma LoopKeeps(s: State, token: nat, result: HealthStatus, exit: bool)
    requires Fresh(s) && PostsOk(s.history, s.loops) && token in s.loops
    requires Kept(s.history, s.cache.services, s.retired)
    ensures var s' := StepLoop(s, token, result, exit); Kept(s'.history, s'.cache.services, s'.retired)
  {
    hide PostsOk, Forget, LoopsOk, OneServer, SnapshotKnown, NoneRetired, AllKnown, AllSuperseded, NoReturns,
         PromptAnswers;
    var Loop(uid, config, pc) := s.loops[token];
    match pc
    case Probing(prev) =>
      if Current(s.cache.services, uid, config) {
        var e := Wrote(uid, s.cache.services[uid].health.status, result.status, config, config);
        StampsExtend(s.history, e, s.cache.services, s.retired);
        forall x | 0 <= x < |s.history| ensures AnsweredFirst(s.history + [e], x, |s.history|) {
          WriterAnswered(s, token, e, x);
        }
        AnswersExtend(s.history, e);
        StoreKeepsKnown(s.history + [e], s.cache.services, s.retired, uid, result);
        hide StoreHealth, AnsweredFirst;
      }
    case Stored(prev, status, at) =>
      var e := Announcement(s.cache.services, uid, config, at);
      StampsExtend(s.history, e, s.cache.services, s.retired);
      AnswersExtend(s.history, e);
      hide Announcement;
    case _ =>
  }

  lemma StoreKeepsKnown(history: seq<Event>, services: map<Uid, ServiceInfo>, retired: set<Pair>, uid: Uid,
                        status: HealthStatus)
    requires AllKnown(history, services, retired) && uid in services
    ensures AllKnown(history, StoreHealth(services, uid, status), retired)
  {
    forall j | 0 <= j < |history| ensures StampKnown(history[j], StoreHealth(services, uid, status), retired) {
      assert StampKnown(history[j], services, retired);
    }
  }

  lemma UpdateKeeps(history: seq<Event>, services: map<Uid, ServiceInfo>, retired: set<Pair>,
                    services': map<Uid, ServiceInfo>, retired': set<Pair>)
    requires Kept(history, services, retired) && Updates(services, retired, services', retired')
    ensures Kept(history, services', retired')
  {
    forall j | 0 <= j < |history| ensures StampKnown(history[j], services', retired') {
      assert StampKnown(history[j], services, retired);
    }
    forall i, j | 0 <= i < j < |history| ensures Superseded(history[i], history[j], retired') {
      assert Superseded(history[i], history[j], retired);
    }
    hide NoReturns, PromptAnswers, Current, StampKnown, Superseded;
  }

  lemma StepKeeps(s: State, action: Action)
    requires KeptInv(s)
    ensures KeptInv(Step(s, action))
  {
    StepKeepsInv(s, action);
    if !Step(s, action).returned {
      StaysUnreturned(s, action);
      StepKeepsHistory(s, action);
    }
    hide Step, HealthTheorems.Inv, Kept;
  }

  lemma StaysUnreturned(s: State, action: Action)
    requires !Step(s, action).returned
    ensures !s.returned
  {
    hide StepLoop, Scan, SweepOut, CancelAll, AddApp, RemoveUid, Retire, Current, ConfigOf;
    if action.LoopStep? {
      LoopKeepsReturned(s, action);
    }
  }

  lemma StepKeepsHistory(s: State, action: Action)
    requires HealthTheorems.Inv(s) && !s.returned && !Step(s, action).returned
    requires Kept(s.history, s.cache.services, s.retired)
    ensures var s' := Step(s, action); Kept(s'.history, s'.cache.services, s'.retired)
  {
    hide Kept, PostsOk, CacheInv, RunningMatches, Updates;
    match action
    case Add(a) =>
      RemoveUpdates(s, a.uid);
      if Listed(a) { AddUpdates(s, a); }
      hide Fresh, AddApp, RemoveUid, Retire, Current, ConfigOf;
      UpdateKeeps(s.history, s.cache.services, s.retired, Step(s, action).cache.services, Step(s, action).retired);
    case Remove(uid) =>
      RemoveUpdates(s, uid);
      hide Fresh, RemoveUid, Retire;
      UpdateKeeps(s.history, s.cache.services, s.retired, Step(s, action).cache.services, Step(s, action).retired);
    case LoopStep(token, result, exit) =>
      hide StepLoop, Fresh;
      if token in s.loops { LoopKeeps(s, token, result, exit); }
    case ScanOne(uid) => hide Fresh, Scan;
    case _ => hide Fresh, SweepOut, CancelAll;
  }

  lemma RunKept(acts: seq<Action>)
    ensures KeptInv(Run(acts))
  {
    StartKept();
    hide Step, KeptInv, Runs.Exec;
    forall s, a | KeptInv(s) ensures KeptInv(Step(s, a)) { StepKeeps(s, a); }
    Runs.Invariance(Step, KeptInv, START, acts);
  }

  // ---- Which posts are separated ---------------------------------------------

  /** Nothing unhealthy was stored for `u` strictly between `lo` and `hi`. */
  ghost predicate Quiet(history: seq<Event>, u: Uid, lo: nat, hi: nat)
  {
    forall j :: lo < j < hi && j < |history| && history[j].Wrote? && history[j].uid == u ==>
        history[j].after != "unhealthy"
  }

  predicate TwoPosts(history: seq<Event>, i: nat, k: nat)
  {
    i < k < |history| && history[i].Posted? && history[k].Posted? && history[i].uid == history[k].uid
  }

  /** Each post has a recovery of its own behind it. */
  lemma CausesDiffer(s: State, i: nat, k: nat)
    requires KeptInv(s) && !s.returned && TwoPosts(s.history, i, k)
    ensures var h := s.history;
            && h[i].cause < i && h[k].cause < k && h[i].cause != h[k].cause
            && IsRecovery(h[h[i].cause]) && IsRecovery(h[h[k].cause])
            && h[h[i].cause].uid == h[h[k].cause].uid == h[k].uid
            && h[h[i].cause].measuredFor == h[i].config && h[h[k].cause].measuredFor == h[k].config
            && h[h[i].cause].active == h[i].config && h[h[k].cause].active == h[k].config
  {
    var h := s.history;
    assert AnswerOk(h[i], i, h) && AnswerOk(h[k], k, h);
    assert EventOk(h[h[i].cause], h[..h[i].cause]) && EventOk(h[h[k].cause], h[..h[k].cause]);
    hide FreshInv, Kept, Wellformed;
  }

  /** Before its next write under the same config, a recovery that is posted at `i` has been posted. */
  lemma PostedFirst(s: State, i: nat, y: nat)
    requires KeptInv(s) && !s.returned && i < |s.history| && y < |s.history|
    requires s.history[i].Posted? && s.history[y].Wrote? && s.history[i].cause < y
    requires s.history[y].uid == s.history[i].uid && s.history[y].measuredFor == s.history[i].config
    ensures i < y
  {
    var h := s.history;
    var x := h[i].cause;
    assert AnswerOk(h[i], i, h);
    assert AnsweredFirst(h, x, y);
    var j :| x < j < y && Answers(h[j], x);
    assert j == i;
    hide FreshInv, CacheInv, AllKnown, AllSuperseded, NoReturns;
  }

  /** `j` is the last write of the service before `x`. */
  ghost predicate Precedes(history: seq<Event>, j: int, x: nat)
  {
    && 0 <= j < x < |history| && history[j].Wrote? && history[j].uid == history[x].uid
    && forall i :: j < i < x && history[i].Wrote? ==> history[i].uid != history[x].uid
  }

  /** The drop a recovery recovers from: the write before it stored an unhealthy status. */
  lemma DropBefore(s: State, x: nat) returns (j: nat)
    requires KeptInv(s) && x < |s.history| && IsRecovery(s.history[x])
    ensures Precedes(s.history, j, x) && s.history[j].after == "unhealthy"
  {
    var h := s.history;
    assert EventOk(h[x], h[..x]);
    hide FreshInv, Kept, PostsOk, Wellformed, EventOk;
    j := LastWrite(h[..x], h[x].uid);
    assert forall i :: 0 <= i < x ==> h[..x][i] == h[i];
  }

  /** A post under the same config, or on time, comes before the drop of a recovery that was stored after its own. */
  lemma PostBeforeDrop(s: State, i: nat, x: nat, j: nat)
    requires KeptInv(s) && !s.returned && j < x < |s.history| && i < |s.history| && s.history[i].Posted?
    requires s.history[i].cause < j && s.history[j].Wrote? && s.history[j].uid == s.history[i].uid
    requires s.history[x].Wrote? && s.history[x].uid == s.history[i].uid
    requires s.history[x].measuredFor == s.history[i].config || s.history[i].onTime
    ensures i < j
  {
    var h := s.history;
    var c := h[i].cause;
    assert AnswerOk(h[i], i, h);
    assert EventOk(h[c], h[..c]) && EventOk(h[j], h[..j]) && EventOk(h[x], h[..x]);
    if h[x].measuredFor == h[i].config {
      assert Between(h[c], h[j], h[x]);
      PostedFirst(s, i, j);
    } else if j < i {
      assert Between(h[c], h[j], h[i]);
      PostedFirst(s, i, j);
    }
    hide FreshInv, Kept, PostsOk, Wellformed;
  }

  /**
   In every schedule in which no replaced or removed config comes back: two posts of one
   service have a stored unhealthy status between them if they report recoveries under
   the same config, or if each was made while its config was still in force.
   */
  lemma PostsAreSeparated(acts: seq<Action>, i: nat, k: nat)
    requires !Run(acts).returned && TwoPosts(Run(acts).history, i, k)
    requires var h := Run(acts).history; h[i].config == h[k].config || (h[i].onTime && h[k].onTime)
    ensures !Quiet(Run(acts).history, Run(acts).history[k].uid, i, k)
  {
    RunKept(acts);
    hide Run, KeptInv, Quiet;
    SeparatedIn(Run(acts), i, k);
  }

  lemma SeparatedIn(s: State, i: nat, k: nat)
    requires KeptInv(s) && !s.returned && TwoPosts(s.history, i, k)
    requires var h := s.history; h[i].config == h[k].config || (h[i].onTime && h[k].onTime)
    ensures !Quiet(s.history, s.history[k].uid, i, k)
  {
    var h := s.history;
    CausesDiffer(s, i, k);
    CausesInOrder(s, i, k);
    hide KeptInv;
    var j := DropBefore(s, h[k].cause);
    CauseBeforeDrop(h, h[i].cause, h[k].cause, j);
    PostBeforeDrop(s, i, h[k].cause, j);
  }

  /** When the recoveries are posted in the wrong order, the one posted last is late. */
  lemma EarlierCauseLater(s: State, i: nat, k: nat)
    requires KeptInv(s) && !s.returned && TwoPosts(s.history, i, k) && s.history[i].config != s.history[k].config
    requires s.history[k].cause < s.history[i].cause
    ensures !s.history[k].onTime
  {
    var h := s.history;
    CausesDiffer(s, i, k);
    assert Between(h[h[k].cause], h[h[i].cause], h[k]);
    hide HealthTheorems.Inv, AllKnown, AllSuperseded, PromptAnswers;
  }

  lemma CausesInOrder(s: State, i: nat, k: nat)
    requires KeptInv(s) && !s.returned && TwoPosts(s.history, i, k)
    requires var h := s.history; h[i].config == h[k].config || (h[i].onTime && h[k].onTime)
    ensures s.history[i].cause < s.history[k].cause
  {
    var h := s.history;
    CausesDiffer(s, i, k);
    hide KeptInv;
    if h[k].cause < h[i].cause {
      if h[i].config == h[k].config {
        PostedFirst(s, k, h[i].cause);
      } else {
        EarlierCauseLater(s, i, k);
      }
    }
  }

  /**
   Two posts of one service have no stored unhealthy status between them only if their
   configs differ. If the second post is on time, it is so exactly when the first one
   is late and after the drop before the second recovery: nothing is stored for the service
   between that recovery and its post. If the second one is late too, either can happen;
   see `LatePostsMeet` and `LatePostsApart`.
   */
  lemma UnseparatedExactly(acts: seq<Action>, i: nat, k: nat)
    requires !Run(acts).returned && TwoPosts(Run(acts).history, i, k)
    ensures var h := Run(acts).history;
            && (Quiet(h, h[k].uid, i, k) ==> h[i].config != h[k].config)
            && (h[k].onTime ==>
                  (Quiet(h, h[k].uid, i, k) <==>
                    h[i].config != h[k].config && !h[i].onTime && DropPassed(h, i, h[k].cause)))
  {
    RunKept(acts);
    var s := Run(acts);
    hide Run, KeptInv, Precedes, DropPassed;
    if s.history[i].config == s.history[k].config {
      SeparatedIn(s, i, k);
    } else if s.history[k].onTime {
      OnTimeExactly(s, i, k);
    }
    hide Quiet;
  }

  lemma OnTimeExactly(s: State, i: nat, k: nat)
    requires KeptInv(s) && !s.returned && TwoPosts(s.history, i, k) && s.history[i].config != s.history[k].config
    requires s.history[k].onTime
    ensures var h := s.history;
            Quiet(h, h[k].uid, i, k) <==> !h[i].onTime && DropPassed(h, i, h[k].cause)
  {
    var h := s.history;
    hide KeptInv, DropPassed;
    CausesDiffer(s, i, k);
    if h[k].cause < h[i].cause {
      EarlierCauseLater(s, i, k);
    }
    LateExactly(s, i, k);
    forall j | h[k].cause < j < k && h[j].Wrote? ensures h[j].uid != h[k].uid {
      NotWrittenBeforePost(s, k, j);
    }
  }

  /** Between a recovery and its post on time nothing is stored for the service. */
  lemma NotWrittenBeforePost(s: State, k: nat, j: nat)
    requires KeptInv(s) && !s.returned && j < k < |s.history| && s.history[k].Posted? && s.history[k].onTime
    requires s.history[k].cause < j && s.history[j].Wrote?
    ensures s.history[j].uid != s.history[k].uid
  {
    var h := s.history;
    var c := h[k].cause;
    if h[j].uid == h[k].uid {
      assert AnswerOk(h[k], k, h);
      assert EventOk(h[c], h[..c]) && EventOk(h[j], h[..j]);
      assert Between(h[c], h[j], h[k]);
      PostedFirst(s, k, j);
    }
    hide FreshInv, Kept, PostsOk, Wellformed;
  }

  /** The write before `x` was stored before the event `i`. */
  ghost predicate DropPassed(history: seq<Event>, i: nat, x: nat)
  {
    exists j :: j < i && Precedes(history, j, x)
  }

  /** Given the order of the recoveries, what is left to know is what was stored after the second one. */
  lemma LateExactly(s: State, i: nat, k: nat)
    requires KeptInv(s) && !s.returned && TwoPosts(s.history, i, k) && s.history[i].config != s.history[k].config
    ensures var h := s.history;
            var u, first, second := h[k].uid, h[i].cause, h[k].cause;
            Quiet(h, u, i, k) <==>
              if first < second then
                !h[i].onTime && DropPassed(h, i, second) && Quiet(h, u, if i < second then second else i, k)
              else
                !h[k].onTime && Quiet(h, u, i, k)
  {
    var h := s.history;
    CausesDiffer(s, i, k);
    hide KeptInv;
    if h[i].cause < h[k].cause {
      var drop := DropBefore(s, h[k].cause);
      DropSplits(h, i, k, h[k].cause, drop);
      if h[i].onTime {
        CauseBeforeDrop(h, h[i].cause, h[k].cause, drop);
        PostBeforeDrop(s, i, h[k].cause, drop);
      }
    } else {
      EarlierCauseLater(s, i, k);
    }
    hide Quiet, DropPassed;
  }

  /** With the drop before the recovery `x` known, what it takes for nothing unhealthy to lie between `i` and `k`. */
  lemma DropSplits(h: seq<Event>, i: nat, k: nat, x: nat, drop: nat)
    requires i < |h| && !h[i].Wrote? && x < k <= |h| && Precedes(h, drop, x)
    requires h[x].Wrote? && h[x].after == "healthy" && h[drop].after == "unhealthy"
    ensures DropPassed(h, i, x) <==> drop < i
    ensures Quiet(h, h[x].uid, i, k) <==> drop < i && Quiet(h, h[x].uid, if i < x then x else i, k)
  {
    assert "unhealthy" != "healthy" by { assert "unhealthy"[0] != "healthy"[0]; }
    assert forall j :: Precedes(h, j, x) ==> j == drop;
  }

  lemma CauseBeforeDrop(h: seq<Event>, cause: nat, x: nat, drop: nat)
    requires Precedes(h, drop, x) && cause < x && h[cause].Wrote? && h[cause].uid == h[x].uid
    requires h[drop].after == "unhealthy" && h[cause].after == "healthy"
    ensures cause < drop
  {
    assert "unhealthy" != "healthy" by { assert "unhealthy"[0] != "healthy"[0]; }
  }

  // ---- A schedule in which they are not --------------------------------------

  /** The app is added or updated, and `reconcile` starts a loop for it. */
  function Deployed(app: App): seq<Action>
  {
    [Add(app), BeginReconcile] + [ScanOne(app.uid), Sweep]
  }

  /** A loop stores unhealthy, then healthy, and is about to post. */
  function DroppedAndRecovered(token: nat, down: HealthStatus, up: HealthStatus): seq<Action>
  {
    var probe := (r: HealthStatus) => [LoopStep(token, r, false), LoopStep(token, r, false)];
    probe(down) + probe(down) + probe(up)
  }

  /** Loop 0 recovers under one config, loop 1 drops, recovers and posts under the next, and then loop 0 posts. */
  function LatePosts(before: App, after: App, down: HealthStatus, up: HealthStatus): seq<Action>
  {
    Served(before, 0, down, up) + Served(after, 1, down, up) + [LoopStep(1, up, false), LoopStep(0, up, false)]
  }

  lemma ExecTwo(s: State, a: Action, b: Action)
    ensures Runs.Exec(Step, s, [a, b]) == Step(Step(s, a), b)
  {
    hide Step;
    assert [a, b][..1] == [a] && [a][..0] == [];
    assert Runs.Exec(Step, s, []) == s;
    assert Runs.Exec(Step, s, [a]) == Step(s, a);
  }

  /** `s` with one loop moved, and what it stored. */
  function Moved(s: State, token: nat, pc: LoopPc, services: map<Uid, ServiceInfo>, history: seq<Event>): State
    requires token in s.loops
  {
    s.(cache := s.cache.(services := services), loops := s.loops[token := s.loops[token].(pc := pc)],
       history := history)
  }

  lemma ReadStep(s: State, token: nat, r: HealthStatus, services: map<Uid, ServiceInfo>, h: seq<Event>)
    requires token in s.loops && Current(services, s.loops[token].uid, s.loops[token].config)
    ensures var before := services[s.loops[token].uid].health.status;
            Step(Moved(s, token, Ready, services, h), LoopStep(token, r, false)) ==
                Moved(s, token, Probing(before), services, h)
  {
    var before := services[s.loops[token].uid].health.status;
    MovedAgain(s, token, Ready, Probing(before));
  }

  lemma MovedAgain(s: State, token: nat, pc: LoopPc, pc': LoopPc)
    requires token in s.loops
    ensures s.loops[token := s.loops[token].(pc := pc)][token := s.loops[token].(pc := pc')] ==
            s.loops[token := s.loops[token].(pc := pc')]
  {
  }

  lemma StoreStep(s: State, token: nat, prev: string, r: HealthStatus, services: map<Uid, ServiceInfo>, h: seq<Event>)
    requires token in s.loops && Current(services, s.loops[token].uid, s.loops[token].config)
    ensures var Loop(uid, config, _) := s.loops[token];
            Step(Moved(s, token, Probing(prev), services, h), LoopStep(token, r, false)) ==
            Moved(s, token, Stored(prev, r.status, |h|), StoreHealth(services, uid, r),
                  h + [Wrote(uid, services[uid].health.status, r.status, config, config)])
  {
    MovedAgain(s, token, Probing(prev), Stored(prev, r.status, |h|));
    hide StoreHealth;
  }

  lemma QuietStep(s: State, token: nat, pc: LoopPc, r: HealthStatus, services: map<Uid, ServiceInfo>, h: seq<Event>)
    requires token in s.loops && (pc.Waiting? || (pc.Stored? && pc.status == "unhealthy"))
    ensures Step(Moved(s, token, pc, services, h), LoopStep(token, r, false)) ==
            Moved(s, token, if pc.Waiting? then Ready else Waiting, services, h)
  {
    assert "unhealthy" != "healthy" by { assert "unhealthy"[0] != "healthy"[0]; }
    MovedAgain(s, token, pc, if pc.Waiting? then Ready else Waiting);
    hide Announcement;
  }

  lemma MovedNot(s: State, token: nat)
    requires token in s.loops
    ensures Moved(s, token, s.loops[token].pc, s.cache.services, s.history) == s
  {
    assert s.loops[token := s.loops[token].(pc := s.loops[token].pc)] == s.loops;
  }

  lemma StoredTwice(services: map<Uid, ServiceInfo>, uid: Uid, config: HealthCheckConfig, first: HealthStatus,
                    second: HealthStatus)
    requires Current(services, uid, config)
    ensures uid in services
    ensures var once := StoreHealth(services, uid, first);
            && Current(once, uid, config) && once[uid].health == first
            && StoreHealth(once, uid, second) == StoreHealth(services, uid, second)
  {
  }

  lemma Recovered(s: State, token: nat, down: HealthStatus, up: HealthStatus)
    requires token in s.loops && s.loops[token].pc.Ready?
    requires Current(s.cache.services, s.loops[token].uid, s.loops[token].config)
    requires down.status == "unhealthy" && up.status == "healthy"
    ensures var Loop(uid, config, _) := s.loops[token];
            var before := s.cache.services[uid].health.status;
            Runs.Exec(Step, s, DroppedAndRecovered(token, down, up)) ==
            Moved(s, token, Stored("unhealthy", "healthy", |s.history| + 1), StoreHealth(s.cache.services, uid, up),
                  s.history + [Wrote(uid, before, "unhealthy", config, config),
                               Wrote(uid, "unhealthy", "healthy", config, config)])
  {
    hide Step, Moved, StoreHealth, Current;
    var Loop(uid, config, _) := s.loops[token];
    var sv, h := s.cache.services, s.history;
    MovedNot(s, token);
    StoredTwice(sv, uid, config, down, up);
    var low := StoreHealth(sv, uid, down);
    var h1 := h + [Wrote(uid, sv[uid].health.status, "unhealthy", config, config)];
    ReadStep(s, token, down, sv, h);
    StoreStep(s, token, sv[uid].health.status, down, sv, h);
    QuietStep(s, token, Stored(sv[uid].health.status, "unhealthy", |h|), down, low, h1);
    QuietStep(s, token, Waiting, down, low, h1);
    ReadStep(s, token, up, low, h1);
    StoreStep(s, token, "unhealthy", up, low, h1);
    ExecSix(s, token, down, up);
    assert h1 + [Wrote(uid, "unhealthy", "healthy", config, config)] ==
           h + [Wrote(uid, sv[uid].health.status, "unhealthy", config, config),
                Wrote(uid, "unhealthy", "healthy", config, config)];
  }

  lemma ExecSix(s: State, token: nat, down: HealthStatus, up: HealthStatus)
    ensures var a, b := LoopStep(token, down, false), LoopStep(token, up, false);
            Runs.Exec(Step, s, DroppedAndRecovered(token, down, up)) ==
            Step(Step(Step(Step(Step(Step(s, a), a), a), a), b), b)
  {
    var probe := (r: HealthStatus) => [LoopStep(token, r, false), LoopStep(token, r, false)];
    var a, b := LoopStep(token, down, false), LoopStep(token, up, false);
    Runs.Concat(Step, s, probe(down), probe(down));
    Runs.Concat(Step, s, probe(down) + probe(down), probe(up));
    hide Runs.Exec, Step;
    ExecTwo(s, a, a);
    ExecTwo(Step(Step(s, a), a), a, a);
    ExecTwo(Step(Step(Step(Step(s, a), a), a), a), b, b);
  }

  /** Nothing but a loop for the new config is started, and the status stays what it was. */
  lemma DeployedEffect(s: State, app: App, config: HealthCheckConfig)
    requires s.rec.Idle? && s.cache.services.Keys <= {app.uid} && Listed(app) && ConfigOf(app) == Some(config)
    requires (app.uid, config) !in s.retired && !s.returned
    requires app.uid in s.ps.running ==> s.ps.running[app.uid].config != config
    ensures var s' := Runs.Exec(Step, s, Deployed(app));
            && s'.rec.Idle? && s'.cache.services.Keys == {app.uid} && Current(s'.cache.services, app.uid, config)
            && s'.loops == s.loops[s.ps.next := Loop(app.uid, config, Ready)] && s'.history == s.history
            && s'.ps.next == s.ps.next + 1 && !s'.returned && s'.retired == Retire(s, app.uid, Some(config))
            && app.uid in s'.ps.running && s'.ps.running[app.uid].config == config
  {
    var u := app.uid;
    Runs.Concat(Step, s, [Add(app), BeginReconcile], [ScanOne(u), Sweep]);
    ExecTwo(s, Add(app), BeginReconcile);
    var s1 := Step(s, Add(app));
    AddEffect(s, app, config);
    var s2 := Step(s1, BeginReconcile);
    ReconcileEffect(s1, u, config);
    ExecTwo(s2, ScanOne(u), Sweep);
    hide Runs.Exec, Step, Retire, Current;
  }

  lemma AddEffect(s: State, app: App, config: HealthCheckConfig)
    requires s.cache.services.Keys <= {app.uid} && Listed(app) && ConfigOf(app) == Some(config)
    requires (app.uid, config) !in s.retired && !s.returned
    ensures var s' := Step(s, Add(app));
            && s'.cache.services.Keys == {app.uid} && Current(s'.cache.services, app.uid, config)
            && s'.retired == Retire(s, app.uid, Some(config)) && !s'.returned
            && s' == s.(cache := s'.cache, retired := s'.retired, returned := s'.returned)
  {
    hide DropsAfterAdd, ConfigOf, Retire;
  }

  lemma ReconcileEffect(s: State, u: Uid, config: HealthCheckConfig)
    requires s.rec.Idle? && s.cache.services.Keys == {u} && Current(s.cache.services, u, config)
    requires u in s.ps.running ==> s.ps.running[u].config != config
    ensures var s' := Step(Step(Step(s, BeginReconcile), ScanOne(u)), Sweep);
            && s'.rec.Idle? && s'.loops == s.loops[s.ps.next := Loop(u, config, Ready)]
            && s'.ps.next == s.ps.next + 1 && u in s'.ps.running && s'.ps.running[u].config == config
            && s' == s.(ps := s'.ps, loops := s'.loops)
  {
    assert Configs(s.cache.services) == map[u := config];
    assert {u} - {u} == {};
    hide TokensOf, Configs;
  }

  lemma PostEffect(s: State, token: nat, r: HealthStatus)
    requires token in s.loops && s.loops[token].pc.Stored?
    requires s.loops[token].pc.prev == "unhealthy" && s.loops[token].pc.status == "healthy"
    ensures var s' := Step(s, LoopStep(token, r, false));
            var loop := s.loops[token];
            && s'.history == s.history + [Announcement(s.cache.services, loop.uid, loop.config, loop.pc.at)]
            && s'.loops == s.loops[token := loop.(pc := Waiting)] && s'.cache == s.cache && s'.returned == s.returned
  {
    hide Announcement;
  }

  lemma ServedEffect(s: State, token: nat, uid: Uid, config: HealthCheckConfig, down: HealthStatus, up: HealthStatus)
    requires token in s.loops && s.loops[token] == Loop(uid, config, Ready) && Current(s.cache.services, uid, config)
    requires s.cache.services.Keys == {uid} && down.status == "unhealthy" && up.status == "healthy"
    ensures var s' := Runs.Exec(Step, s, DroppedAndRecovered(token, down, up));
            && s'.loops == s.loops[token := Loop(uid, config, Stored("unhealthy", "healthy", |s.history| + 1))]
            && |s'.history| == |s.history| + 2 && s.history <= s'.history
            && s'.cache.services.Keys == {uid} && Current(s'.cache.services, uid, config)
            && s'.rec == s.rec && s'.ps == s.ps && s'.retired == s.retired && s'.returned == s.returned
  {
    Recovered(s, token, down, up);
    hide Runs.Exec, Step, DroppedAndRecovered;
  }

  function Served(app: App, token: nat, down: HealthStatus, up: HealthStatus): seq<Action>
  {
    Deployed(app) + DroppedAndRecovered(token, down, up)
  }

  lemma ServedRound(s: State, app: App, config: HealthCheckConfig, down: HealthStatus, up: HealthStatus)
    requires s.rec.Idle? && s.cache.services.Keys <= {app.uid} && Listed(app) && ConfigOf(app) == Some(config)
    requires (app.uid, config) !in s.retired && !s.returned
    requires app.uid in s.ps.running ==> s.ps.running[app.uid].config != config
    requires down.status == "unhealthy" && up.status == "healthy"
    ensures var s' := Runs.Exec(Step, s, Served(app, s.ps.next, down, up));
            && s'.loops == s.loops[s.ps.next := Loop(app.uid, config, Stored("unhealthy", "healthy", |s.history| + 1))]
            && |s'.history| == |s.history| + 2
            && s'.rec.Idle? && s'.cache.services.Keys == {app.uid} && Current(s'.cache.services, app.uid, config)
            && s'.ps.next == s.ps.next + 1 && app.uid in s'.ps.running && s'.ps.running[app.uid].config == config
            && s'.retired == Retire(s, app.uid, Some(config)) && !s'.returned
  {
    var token := s.ps.next;
    Runs.Concat(Step, s, Deployed(app), DroppedAndRecovered(token, down, up));
    hide Runs.Exec, Step, Deployed, DroppedAndRecovered, ConfigOf, Retire, Current;
    DeployedEffect(s, app, config);
    var s1 := Runs.Exec(Step, s, Deployed(app));
    ServedEffect(s1, token, app.uid, config, down, up);
    var ready := Loop(app.uid, config, Ready);
    var stored := Loop(app.uid, config, Stored("unhealthy", "healthy", |s.history| + 1));
    assert s.loops[token := ready][token := stored] == s.loops[token := stored];
  }

  /**
   Two posts with nothing between them although no config comes back: for any service
   whose config is replaced while a loop is between storing a recovery and posting it.
   */
  lemma LatePostsMeet(before: App, after: App, a: HealthCheckConfig, b: HealthCheckConfig, down: HealthStatus,
                      up: HealthStatus)
    requires Listed(before) && Listed(after) && before.uid == after.uid
    requires ConfigOf(before) == Some(a) && ConfigOf(after) == Some(b) && a != b
    requires down.status == "unhealthy" && up.status == "healthy"
    ensures var s := Run(LatePosts(before, after, down, up));
            && !s.returned && |s.history| == 6
            && s.history[4] == Posted(after.uid, 3, b, true) && s.history[5] == Posted(after.uid, 1, a, false)
  {
    hide Runs.Exec, Step, Served, ConfigOf;
    Runs.Concat(Step, START, Served(before, 0, down, up) + Served(after, 1, down, up),
                [LoopStep(1, up, false), LoopStep(0, up, false)]);
    ServedTwice(before, after, a, b, down, up);
    var s4 := Run(Served(before, 0, down, up) + Served(after, 1, down, up));
    ExecTwo(s4, LoopStep(1, up, false), LoopStep(0, up, false));
    BothPost(s4, after.uid, a, b, up);
  }

  /** The same two late posts with an unhealthy status between them: loop 1 stores one after its post. */
  function LatePostsWithDrop(before: App, after: App, down: HealthStatus, up: HealthStatus): seq<Action>
  {
    var drop := LoopStep(1, down, false);
    Served(before, 0, down, up) + Served(after, 1, down, up) +
        ([LoopStep(1, up, false), drop] + [drop, drop] + [LoopStep(0, up, false)])
  }

  lemma LatePostsApart(before: App, after: App, a: HealthCheckConfig, b: HealthCheckConfig, down: HealthStatus,
                       up: HealthStatus)
    requires Listed(before) && Listed(after) && before.uid == after.uid
    requires ConfigOf(before) == Some(a) && ConfigOf(after) == Some(b) && a != b
    requires down.status == "unhealthy" && up.status == "healthy"
    ensures var s := Run(LatePostsWithDrop(before, after, down, up));
            && !s.returned && |s.history| == 7
            && s.history[4] == Posted(after.uid, 3, b, true) && s.history[6] == Posted(after.uid, 1, a, false)
            && !Quiet(s.history, after.uid, 4, 6)
  {
    hide Runs.Exec, Step, Served, ConfigOf, Current;
    var post, drop, late := LoopStep(1, up, false), LoopStep(1, down, false), LoopStep(0, up, false);
    Runs.Concat(Step, START, Served(before, 0, down, up) + Served(after, 1, down, up),
                [post, drop] + [drop, drop] + [late]);
    ServedTwice(before, after, a, b, down, up);
    var s4 := Run(Served(before, 0, down, up) + Served(after, 1, down, up));
    ExecFive(s4, post, drop, late);
    DropBetweenPosts(s4, after.uid, a, b, down, up);
    var h := Run(LatePostsWithDrop(before, after, down, up)).history;
    assert h[5].Wrote? && h[5].after == "unhealthy";
  }

  lemma ExecFive(s: State, a: Action, b: Action, c: Action)
    ensures Runs.Exec(Step, s, [a, b] + [b, b] + [c]) == Step(Step(Step(Step(Step(s, a), b), b), b), c)
  {
    Runs.Concat(Step, s, [a, b], [b, b]);
    Runs.Concat(Step, s, [a, b] + [b, b], [c]);
    hide Step;
    ExecTwo(s, a, b);
    ExecTwo(Step(Step(s, a), b), b, b);
    var s' := Step(Step(Step(Step(s, a), b), b), b);
    assert [c][..0] == [];
    assert Runs.Exec(Step, s', []) == s';
  }

  lemma DropBetweenPosts(s: State, u: Uid, a: HealthCheckConfig, b: HealthCheckConfig, down: HealthStatus,
                         up: HealthStatus)
    requires s.loops.Keys == {0, 1} && |s.history| == 4
    requires s.loops[0] == Loop(u, a, Stored("unhealthy", "healthy", 1))
            && s.loops[1] == Loop(u, b, Stored("unhealthy", "healthy", 3))
    requires Current(s.cache.services, u, b) && a != b && down.status == "unhealthy"
    ensures var drop := LoopStep(1, down, false);
            var s' := Step(Step(Step(Step(Step(s, LoopStep(1, up, false)), drop), drop), drop), LoopStep(0, up, false));
            var before := s.cache.services[u].health.status;
            && s'.history == s.history + [Posted(u, 3, b, true)] + [Wrote(u, before, "unhealthy", b, b)]
                             + [Posted(u, 1, a, false)]
            && s'.returned == s.returned
  {
    hide Step, Moved, StoreHealth, Announcement;
    var s1 := Step(s, LoopStep(1, up, false));
    AnnouncedUnder(s.cache.services, u, a, b);
    PostEffect(s, 1, up);
    var sv, h := s1.cache.services, s1.history;
    var before := sv[u].health.status;
    MovedNot(s1, 1);
    QuietStep(s1, 1, Waiting, down, sv, h);
    ReadStep(s1, 1, down, sv, h);
    StoreStep(s1, 1, before, down, sv, h);
    StoredTwice(sv, u, b, down, down);
    var stored, h1 := Stored(before, "unhealthy", |h|), h + [Wrote(u, before, "unhealthy", b, b)];
    var s4 := Moved(s1, 1, stored, StoreHealth(sv, u, down), h1);
    MovedKeeps(s1, 1, stored, StoreHealth(sv, u, down), h1, 0);
    AnnouncedUnder(s4.cache.services, u, a, b);
    PostEffect(s4, 0, up);
  }

  lemma AnnouncedUnder(services: map<Uid, ServiceInfo>, u: Uid, a: HealthCheckConfig, b: HealthCheckConfig)
    requires Current(services, u, b) && a != b
    ensures forall at :: Announcement(services, u, b, at) == Posted(u, at, b, true)
    ensures forall at :: Announcement(services, u, a, at) == Posted(u, at, a, false)
  {
  }

  lemma MovedKeeps(s: State, token: nat, pc: LoopPc, services: map<Uid, ServiceInfo>, history: seq<Event>, other: nat)
    requires token in s.loops && other in s.loops && other != token
    ensures var s' := Moved(s, token, pc, services, history);
            && s'.loops.Keys == s.loops.Keys && s'.loops[other] == s.loops[other]
            && s'.cache.services == services && s'.history == history && s'.returned == s.returned
  {
  }

  lemma ServedTwice(before: App, after: App, a: HealthCheckConfig, b: HealthCheckConfig, down: HealthStatus,
                    up: HealthStatus)
    requires Listed(before) && Listed(after) && before.uid == after.uid
    requires ConfigOf(before) == Some(a) && ConfigOf(after) == Some(b) && a != b
    requires down.status == "unhealthy" && up.status == "healthy"
    ensures var s := Run(Served(before, 0, down, up) + Served(after, 1, down, up));
            && !s.returned && |s.history| == 4 && s.loops.Keys == {0, 1}
            && s.loops[0] == Loop(after.uid, a, Stored("unhealthy", "healthy", 1))
            && s.loops[1] == Loop(after.uid, b, Stored("unhealthy", "healthy", 3))
            && Current(s.cache.services, after.uid, b)
  {
    hide Runs.Exec, Step, Served, ConfigOf, Current;
    Runs.Concat(Step, START, Served(before, 0, down, up), Served(after, 1, down, up));
    ServedFirst(before, a, down, up);
    ServedRound(Run(Served(before, 0, down, up)), after, b, down, up);
  }

  lemma ServedFirst(app: App, config: HealthCheckConfig, down: HealthStatus, up: HealthStatus)
    requires Listed(app) && ConfigOf(app) == Some(config) && down.status == "unhealthy" && up.status == "healthy"
    ensures var s := Run(Served(app, 0, down, up));
            && s.loops == map[0 := Loop(app.uid, config, Stored("unhealthy", "healthy", 1))] && |s.history| == 2
            && s.cache.services.Keys == {app.uid} && s.rec.Idle? && s.ps.next == 1
            && app.uid in s.ps.running && s.ps.running[app.uid].config == config
            && s.retired == {} && !s.returned
  {
    assert Retire(START, app.uid, Some(config)) == {};
    hide Runs.Exec, Step, Served, ConfigOf, Current, Retire;
    ServedRound(START, app, config, down, up);
  }

  lemma BothPost(s: State, u: Uid, a: HealthCheckConfig, b: HealthCheckConfig, r: HealthStatus)
    requires s.loops.Keys == {0, 1} && |s.history| == 4
    requires s.loops[0] == Loop(u, a, Stored("unhealthy", "healthy", 1))
            && s.loops[1] == Loop(u, b, Stored("unhealthy", "healthy", 3))
    requires Current(s.cache.services, u, b) && a != b
    ensures var s' := Step(Step(s, LoopStep(1, r, false)), LoopStep(0, r, false));
            && s'.history == s.history + [Posted(u, 3, b, true)] + [Posted(u, 1, a, false)] && s'.returned == s.returned
  {
    hide Step;
    PostEffect(s, 1, r);
    PostEffect(Step(s, LoopStep(1, r, false)), 0, r);
  }
}
