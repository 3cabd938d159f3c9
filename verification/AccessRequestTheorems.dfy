/** What the access-request store guarantees in every schedule of `Create` and `UpdateStatus` calls. */
module AccessRequestTheorems {
  import opened Wrappers
  import opened AccessRequests
  import opened AccessStores
  import Runs

  predicate IsPending(t: Tables, id: Id)
  {
    id in t.records && t.records[id].status == Pending
  }

  /** In all runs, repeated resolves included: what each index lists, and under which score. */
  lemma IndexesAlwaysExact(acts: seq<Action>, id: Id, user: string)
    ensures var t := Runs.Exec(Step, START, acts).t;
            && t.all.Keys == t.records.Keys
            && (id in t.pending <==> IsPending(t, id))
            && (id in UserIndex(t, user) <==> id in t.records && t.records[id].userID == user)
            && (id in t.records ==> id in UserIndex(t, t.records[id].userID))
            && (id in t.all ==>
                  t.all[id] * 1_000_000 <= t.records[id].requestedAt < (t.all[id] + 1) * 1_000_000)
            && (id in t.pending ==> t.pending[id] == t.all[id])
            && (id in UserIndex(t, user) ==> UserIndex(t, user)[id] == t.all[id])
  {
    var t := Runs.Exec(Step, START, acts).t;
    RunInv(acts);
    hide Runs.Exec, UserIndex;
    forall i ensures i in t.all.Keys <==> i in t.records.Keys {
      assert IndexOk(t, i);
    }
    assert IndexOk(t, id) && UserIndexOk(t, user, id);
    assert id in t.records ==> UserIndexOk(t, t.records[id].userID, id);
  }

  /**
   In all runs: a held dedup key names a pending request or a `Create` between its steps, or was
   leaked by one that failed.
   */
  lemma HeldKeyIsJustified(acts: seq<Action>, pair: Pair)
    ensures var s := Runs.Exec(Step, START, acts);
            pair in s.t.dedup ==>
              var id := s.t.dedup[pair];
              || (IsPending(s.t, id) && PairOf(s.t.records[id]) == pair)
              || (id in s.creating && PairOf(s.creating[id]) == pair)
              || id in s.leaked
  {
    RunInv(acts);
    assert NameOk(pair, Runs.Exec(Step, START, acts));
    hide Runs.Exec, Step, IndexesExact;
  }

  /**
   No request was resolved when no longer pending or made pending again by a resent `Create`, and no
   key was deleted for a `Create` that had taken effect.
   */
  predicate Orderly(s: State)
  {
    !s.resolvedAgain && !s.undone && s.reopened == {}
  }

  /** In orderly runs a user has at most one pending request for a service. */
  lemma OnePendingPerPair(acts: seq<Action>, id1: Id, id2: Id)
    ensures var s := Runs.Exec(Step, START, acts);
            (Orderly(s) && IsPending(s.t, id1) && IsPending(s.t, id2)
             && PairOf(s.t.records[id1]) == PairOf(s.t.records[id2])) ==> id1 == id2
  {
    var s := Runs.Exec(Step, START, acts);
    RunInv(acts);
    if Orderly(s) && id1 in s.t.records {
      var pair := PairOf(s.t.records[id1]);
      assert HeldOk(id1, pair, s) && HeldOk(id2, pair, s);
    }
    hide Runs.Exec, Step, IndexesExact;
  }

  /** Then, too, a key is held exactly while its request is pending or being created (or it was leaked). */
  lemma KeyHeldExactly(acts: seq<Action>, pair: Pair)
    ensures var s := Runs.Exec(Step, START, acts);
            Orderly(s) ==>
              && (pair in s.t.dedup && s.t.dedup[pair] !in s.leaked <==>
                    exists id :: Holds(id, pair, s.t.records, s.creating))
              && (forall id :: Holds(id, pair, s.t.records, s.creating) ==> pair in s.t.dedup && s.t.dedup[pair] == id)
  {
    var s := Runs.Exec(Step, START, acts);
    RunInv(acts);
    hide Runs.Exec, Step, IndexesExact;
    assert NameOk(pair, s);
    if Orderly(s) {
      forall id | Holds(id, pair, s.t.records, s.creating)
        ensures pair in s.t.dedup && s.t.dedup[pair] == id && id !in s.leaked {
        assert HeldOk(id, pair, s);
        assert IdOk(id, s.creating, s.t.records, s.used, s.leaked);
      }
    }
  }

  /**
   A `Create` nobody interrupts changes no table when its pair's key is held, and else leaves its
   request pending under that key.
   */
  lemma CreateOutcome(acts: seq<Action>, r: Request)
    requires r.status == Pending
    ensures var s := Runs.Exec(Step, START, acts);
            var s1 := Step(s, BeginCreate(r));
            var s2 := Step(s1, FinishCreate(r.id));
            r.id !in s.used ==>
              if (r.userID, r.serviceUID) in s.t.dedup then s2.t == s.t
              else
                && IsPending(s2.t, r.id) && s2.t.records == s.t.records[r.id := r]
                && s2.t.dedup == s.t.dedup[(r.userID, r.serviceUID) := r.id]
  {
    var s := Runs.Exec(Step, START, acts);
    RunInv(acts);
    hide Runs.Exec, IndexesExact, LocksNamed, LocksHeld;
    assert IdOk(r.id, s.creating, s.t.records, s.used, s.leaked);
    hide Inv;
    BeginEffect(s, r);
    BeginTables(s, r);
    var s1 := Step(s, BeginCreate(r));
    FinishTables(s1, r.id);
    hide Step;
  }

  lemma BeginTables(s: State, r: Request)
    ensures PairOf(r) in s.t.dedup ==> Step(s, BeginCreate(r)).t == s.t
  {
    hide UserIndex, Score, PairOf;
  }

  lemma FinishTables(s: State, id: Id)
    ensures var s' := Step(s, FinishCreate(id));
            if id !in s.creating then s'.t == s.t
            else s'.t.records == s.t.records[s.creating[id].id := s.creating[id]] && s'.t.dedup == s.t.dedup
  {
    hide UserIndex, Score;
  }

  /**
   An `UpdateStatus` nobody interrupts gives the request its new status and resolution and changes
   nothing else about it or any other; it is no longer pending, and the key of its pair is free.
   */
  lemma UpdateOutcome(acts: seq<Action>, call: nat, id: Id, status: Status, resolution: Resolution)
    requires status != Pending
    requires call !in Runs.Exec(Step, START, acts).updating && id in Runs.Exec(Step, START, acts).t.records
    ensures var s := Runs.Exec(Step, START, acts);
            var s' := Step(Step(s, BeginUpdate(call, id, status)), FinishUpdate(call, resolution));
            var r := s.t.records[id];
            && id in s'.t.records && s'.t.records[id].status == status
            && s'.t.records[id].resolution == Some(resolution)
            && s'.t.records[id].(status := r.status, resolution := r.resolution) == r
            && s'.t.records.Keys == s.t.records.Keys
            && (forall other :: other in s.t.records && other != id ==> s'.t.records[other] == s.t.records[other])
            && s'.t.pending == s.t.pending - {id}
            && s'.t.all == s.t.all && s'.t.byUser == s.t.byUser
            && s'.t.dedup == s.t.dedup - {(r.userID, r.serviceUID)}
  {
    var s := Runs.Exec(Step, START, acts);
    RunInv(acts);
    assert IndexOk(s.t, id);
    hide Runs.Exec, Inv, IndexOk, UserIndex;
  }

  /** One that fails, with its pipeline not applied, changes nothing. */
  lemma FailedUpdate(s: State, call: nat, id: Id, status: Status)
    requires call !in s.updating
    ensures Step(Step(s, BeginUpdate(call, id, status)), FailUpdate(call)) == s
  {
    assert s.updating - {call} == s.updating;
    if id in s.t.records && status != Pending {
      assert s.updating[call := Update(s.t.records[id], status)] - {call} == s.updating;
    }
  }

  /** One request at a time: asked for, then resolved by the call `call`. */
  function Asked(r: Request): seq<Action>
  {
    [BeginCreate(r), FinishCreate(r.id)]
  }

  function Resolved(call: nat, id: Id): seq<Action>
  {
    [BeginUpdate(call, id, Approved), FinishUpdate(call, Resolution(0, "admin"))]
  }

  /** Resolving the first request again takes the second one's lock, so a third is let in. */
  function DoubleResolve(r1: Request, r2: Request, r3: Request): seq<Action>
  {
    Asked(r1) + Resolved(0, r1.id) + Asked(r2) + Resolved(1, r1.id) + Asked(r3)
  }

  lemma ExecTwo(s: State, acts: seq<Action>, a: Action, b: Action)
    ensures Runs.Exec(Step, s, acts + [a, b]) == Step(Step(Runs.Exec(Step, s, acts), a), b)
  {
    hide Step;
    assert (acts + [a, b])[..|acts| + 1] == acts + [a];
    assert (acts + [a])[..|acts|] == acts;
  }

  /** A `Create` that took effect, saw an error and deleted its key lets the next one in. */
  lemma UndoneCreateTwicePending(r1: Request, r2: Request)
    requires r1.id != r2.id && r1.status == Pending && r2.status == Pending && PairOf(r1) == PairOf(r2)
    ensures var s := Runs.Exec(Step, START, [BeginCreate(r1), FailCreate(r1.id, true, true)] + Asked(r2));
            && IsPending(s.t, r1.id) && IsPending(s.t, r2.id)
               && PairOf(s.t.records[r1.id]) == PairOf(s.t.records[r2.id])
            && !s.resolvedAgain && s.reopened == {}
  {
    var acts := [BeginCreate(r1), FailCreate(r1.id, true, true)];
    assert [] + acts == acts;
    assert Runs.Exec(Step, START, []) == START;
    ExecTwo(START, [], BeginCreate(r1), FailCreate(r1.id, true, true));
    ExecTwo(START, acts, BeginCreate(r2), FinishCreate(r2.id));
    hide Runs.Exec, UserIndex, Score, PairOf;
  }

  /** So does a `Create` that is sent again after its request was resolved. */
  lemma ResentCreateTwicePending(r1: Request, r2: Request)
    requires r1.id != r2.id && r1.status == Pending && r2.status == Pending && PairOf(r1) == PairOf(r2)
    ensures var s := Runs.Exec(Step, START, Asked(r1) + Resolved(0, r1.id) + Asked(r2) + [ResendCreate(r1.id)]);
            && IsPending(s.t, r1.id) && IsPending(s.t, r2.id)
               && PairOf(s.t.records[r1.id]) == PairOf(s.t.records[r2.id])
            && !s.resolvedAgain && !s.undone
  {
    assert [] + Asked(r1) == Asked(r1);
    assert Runs.Exec(Step, START, []) == START;
    var acts := Asked(r1) + Resolved(0, r1.id) + Asked(r2);
    assert (acts + [ResendCreate(r1.id)])[..|acts|] == acts;
    assert Runs.Exec(Step, START, acts + [ResendCreate(r1.id)]) ==
           Step(Runs.Exec(Step, START, acts), ResendCreate(r1.id));
    hide Runs.Exec, Step, Asked, Resolved;
    AskedEffect(START, [], r1);
    AskedAgainEffect(Runs.Exec(Step, START, Asked(r1)), Asked(r1), 0, r1.id, r2);
    ResentEffect(Runs.Exec(Step, START, acts), r1.id);
  }

  lemma ResentEffect(s: State, id: Id)
    requires id in s.t.records
    ensures var s' := Step(s, ResendCreate(id));
            && s'.t.records == s.t.records[id := s.t.records[id].(id := id, status := Pending)]
            && s'.resolvedAgain == s.resolvedAgain && s'.undone == s.undone
  {
    hide UserIndex, Score;
  }

  lemma AskedEffect(s: State, acts: seq<Action>, r: Request)
    requires s == Runs.Exec(Step, START, acts) && s.creating == map[]
    requires r.id !in s.used && r.status == Pending && PairOf(r) !in s.t.dedup
    ensures var s' := Runs.Exec(Step, START, acts + Asked(r));
            && s'.t.records == s.t.records[r.id := r] && s'.t.dedup == s.t.dedup[PairOf(r) := r.id]
            && s'.creating == map[] && s'.updating == s.updating && s'.used == s.used + {r.id}
            && s'.resolvedAgain == s.resolvedAgain && s'.undone == s.undone
  {
    ExecTwo(START, acts, BeginCreate(r), FinishCreate(r.id));
    hide Runs.Exec, UserIndex, Score, PairOf;
  }

  lemma ResolvedEffect(s: State, acts: seq<Action>, call: nat, id: Id)
    requires s == Runs.Exec(Step, START, acts) && call !in s.updating && id in s.t.records && s.t.records[id].id == id
    ensures var s' := Runs.Exec(Step, START, acts + Resolved(call, id));
            && s'.t.records == s.t.records[id := s.t.records[id].(status := Approved,
                                                                  resolution := Some(Resolution(0, "admin")))]
            && s'.t.dedup == s.t.dedup - {PairOf(s.t.records[id])}
            && s'.creating == s.creating && s'.updating == s.updating && s'.used == s.used
            && s'.resolvedAgain == (s.resolvedAgain || !IsPending(s.t, id)) && s'.undone == s.undone
  {
    ExecTwo(START, acts, BeginUpdate(call, id, Approved), FinishUpdate(call, Resolution(0, "admin")));
    hide Runs.Exec, UserIndex, Score, PairOf;
  }

  /** Resolving any earlier request lets its user ask for the service again. */
  lemma AskedAgainEffect(s: State, acts: seq<Action>, call: nat, id: Id, r: Request)
    requires s == Runs.Exec(Step, START, acts) && s.creating == map[]
    requires call !in s.updating && id in s.t.records && s.t.records[id].id == id
            && PairOf(s.t.records[id]) == PairOf(r)
    requires r.id !in s.used && r.id != id && r.status == Pending
    ensures var s' := Runs.Exec(Step, START, acts + Resolved(call, id) + Asked(r));
            && s'.creating == map[] && s'.updating == s.updating && s'.used == s.used + {r.id}
            && s'.resolvedAgain == (s.resolvedAgain || !IsPending(s.t, id)) && s'.undone == s.undone
            && s.t.records.Keys + {r.id} == s'.t.records.Keys && s'.t.records[r.id] == r
            && s'.t.records[id] == s.t.records[id].(status := Approved, resolution := Some(Resolution(0, "admin")))
            && (forall i :: i in s.t.records && i != id && i != r.id ==> s'.t.records[i] == s.t.records[i])
  {
    ResolvedEffect(s, acts, call, id);
    AskedEffect(Runs.Exec(Step, START, acts + Resolved(call, id)), acts + Resolved(call, id), r);
    hide Runs.Exec, Step, Asked, Resolved, PairOf;
  }

  lemma TwiceResolvedTwicePending(r1: Request, r2: Request, r3: Request)
    requires r1.id != r2.id && r1.id != r3.id && r2.id != r3.id
    requires r1.status == Pending && r2.status == Pending && r3.status == Pending
    requires PairOf(r1) == PairOf(r2) == PairOf(r3)
    ensures var s := Runs.Exec(Step, START, DoubleResolve(r1, r2, r3));
            IsPending(s.t, r2.id) && IsPending(s.t, r3.id) && PairOf(s.t.records[r2.id]) == PairOf(s.t.records[r3.id])
  {
    assert [] + Asked(r1) == Asked(r1);
    assert Runs.Exec(Step, START, []) == START;
    hide Runs.Exec, Step, Asked, Resolved;
    AskedEffect(START, [], r1);
    AskedAgainEffect(Runs.Exec(Step, START, Asked(r1)), Asked(r1), 0, r1.id, r2);
    var acts := Asked(r1) + Resolved(0, r1.id) + Asked(r2);
    AskedAgainEffect(Runs.Exec(Step, START, acts), acts, 1, r1.id, r3);
  }

  // ---- Lists read in two round trips ----------------------------------------

  /** What no later step changes about a record, and that a resolved one stays resolved unless it is reopened. */
  predicate Carried(id: Id, records: map<Id, Request>, later: map<Id, Request>, reopened: set<Id>)
  {
    id in records ==>
      && id in later
      && later[id].id == records[id].id && PairOf(later[id]) == PairOf(records[id])
      && later[id].requestedAt == records[id].requestedAt
      && (later[id].status == Pending ==> records[id].status == Pending || id in reopened)
  }

  lemma StepCarries(s: State, a: Action, id: Id)
    requires Inv(s)
    ensures var s' := Step(s, a); Carried(id, s.t.records, s'.t.records, s'.reopened) && s.reopened <= s'.reopened
  {
    hide IndexesExact, LocksNamed, LocksHeld, UserIndex, Score;
    match a
    case FinishCreate(created) => assert IdOk(created, s.creating, s.t.records, s.used, s.leaked);
    case FailCreate(created, _, _) => assert IdOk(created, s.creating, s.t.records, s.used, s.leaked);
    case FinishUpdate(call, _) => assert call in s.updating ==> UpdateOk(s.updating[call], s.t.records);
    case ResendCreate(resent) => ResendCarries(s, resent, id); hide Step, Inv, Carried;
    case _ =>
    hide CreatesOk, UpdatesOk, IdOk;
  }

  lemma ResendCarries(s: State, resent: Id, id: Id)
    requires Inv(s)
    ensures var s' := Step(s, ResendCreate(resent));
            Carried(id, s.t.records, s'.t.records, s'.reopened) && s.reopened <= s'.reopened
  {
    assert IndexOk(s.t, resent);
    hide IndexesExact, CreatesOk, LocksNamed, LocksHeld, UserIndex, Score, Release, Reserve;
  }

  lemma {:induction false} RunCarries(acts: seq<Action>, more: seq<Action>, id: Id)
    ensures var s, s' := Runs.Exec(Step, START, acts), Runs.Exec(Step, START, acts + more);
            Carried(id, s.t.records, s'.t.records, s'.reopened)
  {
    if more == [] {
      assert acts + more == acts;
    } else {
      var n := |more| - 1;
      assert (acts + more)[..|acts + more| - 1] == acts + more[..n];
      RunCarries(acts, more[..n], id);
      RunInv(acts + more[..n]);
      StepCarries(Runs.Exec(Step, START, acts + more[..n]), more[n], id);
    }
    hide Step, Inv;
  }

  /**
   `ListPending` when others get between its two round trips: the index is that after
   `acts`, the hashes those after `acts + more`. It holds exactly the requests that were
   pending at the first, newest first, as they are at the second; one resolved in
   between is among them, and one pending at the second is missing only if it was created
   or reopened in between.
   */
  lemma ListPendingAcrossSteps(acts: seq<Action>, more: seq<Action>, ids: seq<Id>)
    requires NewestFirst(ids, Runs.Exec(Step, START, acts).t.pending)
    ensures var t, later := Runs.Exec(Step, START, acts).t, Runs.Exec(Step, START, acts + more).t;
            var out := Fetched(later.records, ids);
            && (forall r :: r in out <==> IsPending(t, r.id) && r.id in later.records && later.records[r.id] == r)
            && ByTime(out)
            && (forall id :: IsPending(later, id) && id in t.records ==>
                  later.records[id] in out || id in Runs.Exec(Step, START, acts + more).reopened)
  {
    var t, later := Runs.Exec(Step, START, acts).t, Runs.Exec(Step, START, acts + more).t;
    var reopened := Runs.Exec(Step, START, acts + more).reopened;
    RunInv(acts);
    RunInv(acts + more);
    hide Runs.Exec, Step;
    forall id
      ensures IndexOk(t, id) && IndexOk(later, id) && Carried(id, t.records, later.records, reopened)
      ensures id in t.pending <==> IsPending(t, id)
      ensures id in t.pending ==>
                id in later.records && t.pending[id] == Score(later.records[id]) && later.records[id].id == id
      ensures IsPending(later, id) ==>
                later.records[id].id == id && (id in t.records ==> id in t.pending || id in reopened)
    {
      assert IndexOk(t, id) && IndexOk(later, id);
      RunCarries(acts, more, id);
    }
    hide Inv, NewestFirst, Fetched, ByTime, Score, Carried, IndexOk;
    ListExact(later, ids, t.pending);
  }
}
