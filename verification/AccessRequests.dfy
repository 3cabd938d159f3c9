/**
 The access-request store with its Redis keys seen as typed tables, and every
 interleaving of `Create` and `UpdateStatus` calls. Each Redis command or
 pipeline is one atomic step, so `Create` is two steps and so is `UpdateStatus`.
 */
module AccessRequests {
  import opened Wrappers
  import Runs

  type Id = string
  type Pair = (string, string)  // user id, service UID

  datatype Status = Pending | Approved | Denied

  datatype Resolution = Resolution(resolvedAt: int, resolvedBy: string)

  datatype Request = Request(
    id: Id,
    serviceUID: string,
    serviceName: string,
    userID: string,
    userEmail: string,
    message: string,
    status: Status,
    requestedAt: int,
    resolution: Option<Resolution>)

  function PairOf(r: Request): Pair
  {
    (r.userID, r.serviceUID)
  }

  /** `requestedAt` is in nanoseconds; the score of a request in a sorted set is in milliseconds. */
  function Score(r: Request): int
  {
    r.requestedAt / 1_000_000
  }

  /** A sorted set maps each member to its score. */
  datatype Tables = Tables(
    records: map<Id, Request>,
    all: map<Id, int>,
    pending: map<Id, int>,
    byUser: map<string, map<Id, int>>,
    dedup: map<Pair, Id>)

  const EMPTY := Tables(map[], map[], map[], map[], map[])

  function UserIndex(t: Tables, user: string): map<Id, int>
  {
    if user in t.byUser then t.byUser[user] else map[]
  }

  /** SET NX of the dedup key; it has no effect when the key is held. */
  function Reserve(t: Tables, pair: Pair, id: Id): Tables
  {
    if pair in t.dedup then t else t.(dedup := t.dedup[pair := id])
  }

  function Release(t: Tables, pair: Pair): Tables
  {
    t.(dedup := t.dedup - {pair})
  }

  /** The write pipeline of `Create`. */
  function Write(t: Tables, r: Request): Tables
  {
    t.(records := t.records[r.id := r],
       all := t.all[r.id := Score(r)],
       pending := t.pending[r.id := Score(r)],
       byUser := t.byUser[r.userID := UserIndex(t, r.userID)[r.id := Score(r)]])
  }

  /** The write pipeline of `Create` once more: HSET makes the request pending again and keeps its other fields. */
  function Rewrite(t: Tables, id: Id): Tables
    requires id in t.records
  {
    Write(t, t.records[id].(id := id, status := Pending))
  }

  /** The write pipeline of `UpdateStatus`; `pair` comes from the record read before. */
  function Resolve(t: Tables, id: Id, status: Status, resolution: Resolution, pair: Pair): Tables
    requires id in t.records
  {
    t.(records := t.records[id := t.records[id].(status := status, resolution := Some(resolution))],
       pending := t.pending - {id},
       dedup := t.dedup - {pair})
  }

  /** An `UpdateStatus` call between its read and its pipeline. */
  datatype Update = Update(read: Request, status: Status)

  datatype State = State(
    t: Tables,
    creating: map<Id, Request>,
    updating: map<nat, Update>,
    // History, read by no step: ids handed out; ids whose failed Create wrote
    // nothing and could not delete its dedup key; whether a request was resolved
    // more than once; whether a Create that took effect was cleaned up after; and
    // resolved requests that a resent Create made pending again.
    used: set<Id>,
    leaked: set<Id>,
    resolvedAgain: bool,
    undone: bool,
    reopened: set<Id>)

  datatype Action =
    | BeginCreate(r: Request)
    | FinishCreate(id: Id)
    | FailCreate(id: Id, applied: bool, cleaned: bool)
    | ResendCreate(id: Id)
    | BeginUpdate(call: nat, id: Id, status: Status)
    | FinishUpdate(call: nat, resolution: Resolution)
    | FailUpdate(call: nat)

  const START := State(EMPTY, map[], map[], {}, {}, false, false, {})

  /** A `Create` whose pipeline reported an error, `applied` or not, and whose cleanup deleted the key or did not. */
  function Failed(t: Tables, r: Request, applied: bool, cleaned: bool): Tables
  {
    var written := if applied then Write(t, r) else t;
    if cleaned then Release(written, PairOf(r)) else written
  }

  /**
   Ids are fresh UUIDs; a call is only ever made with status approved or denied. A
   SET NX whose reply is lost is a `Create` that fails with nothing applied or
   cleaned; a resolve whose reply is lost is a `FinishUpdate`. A client that sends a
   pipeline again because it saw no reply takes a `ResendCreate` step, at any time after
   the first; a resolve sent again is a second call with the same reading.
   */
  function Step(s: State, a: Action): State
  {
    match a
    case BeginCreate(r) =>
      if r.id in s.used || r.status != Pending then s
      else if PairOf(r) in s.t.dedup then s.(used := s.used + {r.id})
      else s.(t := Reserve(s.t, PairOf(r), r.id), creating := s.creating[r.id := r], used := s.used + {r.id})
    case FinishCreate(id) =>
      if id !in s.creating then s else s.(t := Write(s.t, s.creating[id]), creating := s.creating - {id})
    case FailCreate(id, applied, cleaned) =>
      if id !in s.creating then s
      else
        s.(t := Failed(s.t, s.creating[id], applied, cleaned),
           creating := s.creating - {id},
           leaked := if applied || cleaned then s.leaked else s.leaked + {id},
           undone := s.undone || (applied && cleaned))
    case ResendCreate(id) =>
      if id !in s.t.records then s
      else
        s.(t := Rewrite(s.t, id),
           reopened := if s.t.records[id].status == Pending then s.reopened else s.reopened + {id})
    case BeginUpdate(call, id, status) =>
      if call in s.updating || id !in s.t.records || status == Pending then s
      else s.(updating := s.updating[call := Update(s.t.records[id], status)])
    case FinishUpdate(call, resolution) =>
      if call !in s.updating || s.updating[call].read.id !in s.t.records then s
      else
        var u := s.updating[call];
        s.(t := Resolve(s.t, u.read.id, u.status, resolution, PairOf(u.read)),
           updating := s.updating - {call},
           resolvedAgain := s.resolvedAgain || s.t.records[u.read.id].status != Pending)
    case FailUpdate(call) => s.(updating := s.updating - {call})
  }

  // ---- In all runs ---------------------------------------------------------

  /** `index` lists `id` exactly if it is listed in principle, under its request time. */
  predicate Indexed(index: map<Id, int>, records: map<Id, Request>, id: Id, listed: bool)
  {
    && (id in index <==> id in records && listed)
    && (id in index && id in records ==> index[id] == Score(records[id]))
  }

  predicate IndexOk(t: Tables, id: Id)
  {
    && (id in t.records ==> t.records[id].id == id)
    && Indexed(t.all, t.records, id, true)
    && Indexed(t.pending, t.records, id, id in t.records && t.records[id].status == Pending)
  }

  predicate UserIndexOk(t: Tables, user: string, id: Id)
  {
    Indexed(UserIndex(t, user), t.records, id, id in t.records && t.records[id].userID == user)
  }

  /**
   The all index is every record, the pending index the pending ones, the user
   indexes split them by user, and all of them by request time.
   */
  ghost predicate IndexesExact(t: Tables)
  {
    && (forall id :: IndexOk(t, id))
    && (forall user, id :: UserIndexOk(t, user, id))
  }

  /** An id is a `Create` in progress, a record, leaked by a failed `Create`, or just handed out. */
  predicate IdOk(id: Id, creating: map<Id, Request>, records: map<Id, Request>, used: set<Id>, leaked: set<Id>)
  {
    && (id in creating ==> creating[id].id == id && creating[id].status == Pending)
    && (id in creating ==> id in used && id !in records && id !in leaked)
    && (id in records ==> id in used && id !in leaked)
    && (id in leaked ==> id in used)
  }

  ghost predicate CreatesOk(creating: map<Id, Request>, records: map<Id, Request>, used: set<Id>, leaked: set<Id>)
  {
    forall id :: IdOk(id, creating, records, used, leaked)
  }

  ghost predicate UpdatesOk(updating: map<nat, Update>, records: map<Id, Request>)
  {
    forall c :: c in updating ==> UpdateOk(updating[c], records)
  }

  ghost predicate CallsOk(s: State)
  {
    CreatesOk(s.creating, s.t.records, s.used, s.leaked) && UpdatesOk(s.updating, s.t.records)
  }

  ghost predicate UpdateOk(u: Update, records: map<Id, Request>)
  {
    u.status != Pending && u.read.id in records && PairOf(records[u.read.id]) == PairOf(u.read)
  }

  /** `id` is why the dedup key of `pair` may be held. */
  predicate Holds(id: Id, pair: Pair, records: map<Id, Request>, creating: map<Id, Request>)
  {
    || (id in records && records[id].status == Pending && PairOf(records[id]) == pair)
    || (id in creating && PairOf(creating[id]) == pair)
  }

  predicate NameOk(pair: Pair, s: State)
  {
    pair in s.t.dedup ==> Holds(s.t.dedup[pair], pair, s.t.records, s.creating) || s.t.dedup[pair] in s.leaked
  }

  /** A held dedup key names a pending request or a `Create` in progress, unless deleting it failed. */
  ghost predicate LocksNamed(s: State)
  {
    forall pair :: NameOk(pair, s)
  }

  predicate HeldOk(id: Id, pair: Pair, s: State)
  {
    Holds(id, pair, s.t.records, s.creating) ==> pair in s.t.dedup && s.t.dedup[pair] == id
  }

  /** Every pending request, and every `Create` between its steps, holds its dedup key. */
  ghost predicate LocksHeld(s: State)
  {
    forall id, pair :: HeldOk(id, pair, s)
  }

  ghost predicate Inv(s: State)
  {
    IndexesExact(s.t) && CallsOk(s) && LocksNamed(s)
    && (s.resolvedAgain || s.undone || s.reopened != {} || LocksHeld(s))
  }

  lemma WriteKeepsIndexes(t: Tables, r: Request)
    requires IndexesExact(t) && r.status == Pending && r.id !in t.records
    ensures IndexesExact(Write(t, r))
  {
    var t' := Write(t, r);
    forall id ensures IndexOk(t', id) {
      assert IndexOk(t, id);
    }
    forall user, id ensures UserIndexOk(t', user, id) {
      assert UserIndexOk(t, user, id);
    }
    hide IndexOk, UserIndexOk;
  }

  lemma ResolveKeepsIndexes(t: Tables, id: Id, status: Status, resolution: Resolution, pair: Pair)
    requires IndexesExact(t) && id in t.records && status != Pending
    ensures IndexesExact(Resolve(t, id, status, resolution, pair))
  {
    var t' := Resolve(t, id, status, resolution, pair);
    forall i ensures IndexOk(t', i) {
      assert IndexOk(t, i);
    }
    forall user, i ensures UserIndexOk(t', user, i) {
      assert UserIndexOk(t, user, i);
    }
    hide IndexOk, UserIndexOk;
  }

  lemma DedupKeepsIndexes(t: Tables, dedup: map<Pair, Id>)
    requires IndexesExact(t)
    ensures IndexesExact(t.(dedup := dedup))
  {
    var t' := t.(dedup := dedup);
    forall id ensures IndexOk(t', id) {
      assert IndexOk(t, id);
    }
    forall user, id ensures UserIndexOk(t', user, id) {
      assert UserIndexOk(t, user, id);
    }
    hide IndexOk, UserIndexOk;
  }

  lemma FailedKeepsIndexes(t: Tables, r: Request, applied: bool, cleaned: bool)
    requires IndexesExact(t) && r.status == Pending && r.id !in t.records
    ensures IndexesExact(Failed(t, r, applied, cleaned))
  {
    var written := if applied then Write(t, r) else t;
    WriteKeepsIndexes(t, r);
    DedupKeepsIndexes(written, written.dedup - {PairOf(r)});
    hide IndexesExact, Write;
  }

  lemma RewriteKeepsIndexes(t: Tables, id: Id)
    requires IndexesExact(t) && id in t.records
    ensures IndexesExact(Rewrite(t, id))
  {
    assert IndexOk(t, id);
    var t' := Rewrite(t, id);
    forall i ensures IndexOk(t', i) {
      assert IndexOk(t, i);
    }
    forall user, i ensures UserIndexOk(t', user, i) {
      assert UserIndexOk(t, user, i) && UserIndexOk(t, t.records[id].userID, id);
    }
    hide IndexOk, UserIndexOk;
  }

  /** Sending the pipeline again does nothing exactly while the request is pending. */
  lemma RewriteIdempotentIff(t: Tables, id: Id)
    requires IndexesExact(t) && id in t.records
    ensures Rewrite(t, id) == t <==> t.records[id].status == Pending
  {
    var r := t.records[id].(status := Pending);
    assert IndexOk(t, id) && UserIndexOk(t, r.userID, id);
    if t.records[id] == r {
      assert t.records[id := r] == t.records && t.all[id := Score(r)] == t.all;
      assert t.pending[id := Score(r)] == t.pending;
      assert t.byUser[r.userID][id := Score(r)] == t.byUser[r.userID];
      assert t.byUser[r.userID := t.byUser[r.userID]] == t.byUser;
    }
  }

  lemma StepKeepsIndexes(s: State, a: Action)
    requires IndexesExact(s.t) && CallsOk(s)
    ensures IndexesExact(Step(s, a).t)
  {
    hide IndexesExact;
    match a
    case FinishCreate(id) =>
      if id in s.creating {
        assert IdOk(id, s.creating, s.t.records, s.used, s.leaked);
        WriteKeepsIndexes(s.t, s.creating[id]);
      }
      hide Write;
    case FinishUpdate(call, resolution) =>
      if call in s.updating {
        var u := s.updating[call];
        ResolveKeepsIndexes(s.t, u.read.id, u.status, resolution, PairOf(u.read));
      }
      hide Resolve;
    case BeginCreate(r) => DedupKeepsIndexes(s.t, Reserve(s.t, PairOf(r), r.id).dedup);
    case FailCreate(id, applied, cleaned) =>
      if id in s.creating {
        assert IdOk(id, s.creating, s.t.records, s.used, s.leaked);
        FailedKeepsIndexes(s.t, s.creating[id], applied, cleaned);
      }
      hide Failed;
    case ResendCreate(id) =>
      if id in s.t.records { RewriteKeepsIndexes(s.t, id); }
      hide Rewrite;
    case _ =>
  }

  lemma StepKeepsCreates(s: State, a: Action)
    requires CreatesOk(s.creating, s.t.records, s.used, s.leaked)
    ensures var s' := Step(s, a); CreatesOk(s'.creating, s'.t.records, s'.used, s'.leaked)
  {
    var s' := Step(s, a);
    forall id ensures IdOk(id, s'.creating, s'.t.records, s'.used, s'.leaked) {
      StepKeepsId(s, a, id);
    }
    hide Step, IdOk;
  }

  lemma StepKeepsId(s: State, a: Action, id: Id)
    requires CreatesOk(s.creating, s.t.records, s.used, s.leaked)
    ensures var s' := Step(s, a); IdOk(id, s'.creating, s'.t.records, s'.used, s'.leaked)
  {
    assert IdOk(id, s.creating, s.t.records, s.used, s.leaked);
    match a
    case BeginCreate(r) =>
      assert IdOk(r.id, s.creating, s.t.records, s.used, s.leaked);
      BeginEffect(s, r);
      hide Step, CreatesOk;
    case FinishCreate(done) => FinishKeepsId(s, done, id); hide Step, IdOk;
    case FailCreate(failed, applied, cleaned) => FailKeepsId(s, failed, applied, cleaned, id); hide Step, IdOk;
    case ResendCreate(resent) => ResendKeepsId(s, resent, id); hide Step, IdOk;
    case _ =>
    hide CreatesOk, UserIndex, Failed, Rewrite, Score;
  }

  lemma FinishKeepsId(s: State, created: Id, id: Id)
    requires CreatesOk(s.creating, s.t.records, s.used, s.leaked)
    ensures var s' := Step(s, FinishCreate(created)); IdOk(id, s'.creating, s'.t.records, s'.used, s'.leaked)
  {
    assert IdOk(id, s.creating, s.t.records, s.used, s.leaked);
    assert IdOk(created, s.creating, s.t.records, s.used, s.leaked);
    hide CreatesOk, UserIndex, PairOf, Score;
  }

  lemma ResendKeepsId(s: State, resent: Id, id: Id)
    requires IdOk(id, s.creating, s.t.records, s.used, s.leaked)
    ensures var s' := Step(s, ResendCreate(resent)); IdOk(id, s'.creating, s'.t.records, s'.used, s'.leaked)
  {
    hide UserIndex, PairOf, Score;
  }

  lemma FailKeepsId(s: State, failed: Id, applied: bool, cleaned: bool, id: Id)
    requires CreatesOk(s.creating, s.t.records, s.used, s.leaked)
    ensures var s' := Step(s, FailCreate(failed, applied, cleaned));
            IdOk(id, s'.creating, s'.t.records, s'.used, s'.leaked)
  {
    assert IdOk(id, s.creating, s.t.records, s.used, s.leaked);
    assert IdOk(failed, s.creating, s.t.records, s.used, s.leaked);
    hide CreatesOk, UserIndex, PairOf, Score;
  }

  lemma StepKeepsUpdates(s: State, a: Action)
    requires IndexesExact(s.t) && CallsOk(s)
    ensures var s' := Step(s, a); UpdatesOk(s'.updating, s'.t.records)
  {
    var s' := Step(s, a);
    hide UserIndex, UpdateOk, Score;
    forall c | c in s'.updating ensures UpdateOk(s'.updating[c], s'.t.records) {
      match a
      case BeginUpdate(call, id, status) => NewUpdateOk(s, call, id, status, c);
      case FinishUpdate(call, resolution) => UpdateSurvives(s, s', c);
      case FinishCreate(id) =>
        assert IdOk(id, s.creating, s.t.records, s.used, s.leaked);
        UpdateSurvives(s, s', c);
      case FailCreate(id, applied, cleaned) =>
        assert IdOk(id, s.creating, s.t.records, s.used, s.leaked);
        UpdateSurvives(s, s', c);
      case ResendCreate(id) => UpdateSurvives(s, s', c);
      case _ =>
    }
  }

  lemma NewUpdateOk(s: State, call: nat, id: Id, status: Status, c: nat)
    requires IndexesExact(s.t) && CallsOk(s)
    requires var s' := Step(s, BeginUpdate(call, id, status)); c in s'.updating
    ensures var s' := Step(s, BeginUpdate(call, id, status)); UpdateOk(s'.updating[c], s'.t.records)
  {
    hide UserIndex, CreatesOk;
    assert IndexOk(s.t, id);
    assert c in s.updating ==> UpdateOk(s.updating[c], s.t.records);
  }

  /** An update's reading of who asked for what stays right: records are never deleted and keep both. */
  lemma UpdateSurvives(s: State, s': State, c: nat)
    requires CallsOk(s) && c in s.updating
    requires forall id :: id in s.t.records ==>
        id in s'.t.records && PairOf(s'.t.records[id]) == PairOf(s.t.records[id])
    ensures UpdateOk(s.updating[c], s'.t.records)
  {
    assert UpdateOk(s.updating[c], s.t.records);
  }

  lemma StepKeepsNames(s: State, a: Action)
    requires CallsOk(s) && LocksNamed(s)
    ensures LocksNamed(Step(s, a))
  {
    forall pair ensures NameOk(pair, Step(s, a)) {
      StepKeepsName(s, a, pair);
    }
    hide Step, NameOk;
  }

  lemma StepKeepsName(s: State, a: Action, pair: Pair)
    requires CallsOk(s) && LocksNamed(s)
    ensures NameOk(pair, Step(s, a))
  {
    hide NameOk, CreatesOk, UpdatesOk;
    match a
    case FinishUpdate(call, resolution) => ResolveKeepsName(s, call, resolution, pair); hide Step;
    case FinishCreate(id) => FinishKeepsName(s, id, pair); hide Step;
    case BeginCreate(r) => BeginKeepsName(s, r, pair); hide Step;
    case FailCreate(id, applied, cleaned) => FailKeepsName(s, id, applied, cleaned, pair); hide Step;
    case ResendCreate(id) => ResendKeepsName(s, id, pair); hide Step;
    case _ => ReadKeepsLocks(s, a); hide Step;
  }

  lemma BeginEffect(s: State, r: Request)
    ensures var s' := Step(s, BeginCreate(r));
            && s'.t.records == s.t.records && s'.leaked == s.leaked
            && (if r.id in s.used || r.status != Pending || PairOf(r) in s.t.dedup then
                  s'.t.dedup == s.t.dedup && s'.creating == s.creating
                else
                  s'.t.dedup == s.t.dedup[PairOf(r) := r.id] && s'.creating == s.creating[r.id := r])
  {
    hide PairOf, Failed, Write, Rewrite, Release, Resolve, UserIndex, Score;
    if r.id in s.used || r.status != Pending {
      assert Step(s, BeginCreate(r)) == s;
    } else if PairOf(r) in s.t.dedup {
      assert Step(s, BeginCreate(r)).t == s.t;
    }
  }

  lemma BeginKeepsName(s: State, r: Request, pair: Pair)
    requires CallsOk(s) && LocksNamed(s)
    ensures NameOk(pair, Step(s, BeginCreate(r)))
  {
    BeginEffect(s, r);
    hide Step;
    assert NameOk(pair, s);
    assert IdOk(r.id, s.creating, s.t.records, s.used, s.leaked);
    hide UserIndex, CreatesOk, UpdatesOk, LocksNamed, PairOf;
  }

  lemma FinishKeepsName(s: State, id: Id, pair: Pair)
    requires CallsOk(s) && LocksNamed(s)
    ensures NameOk(pair, Step(s, FinishCreate(id)))
  {
    assert NameOk(pair, s);
    assert IdOk(id, s.creating, s.t.records, s.used, s.leaked);
    hide UserIndex, CreatesOk, UpdatesOk, LocksNamed, Resolve, PairOf;
  }

  lemma FailKeepsName(s: State, id: Id, applied: bool, cleaned: bool, pair: Pair)
    requires CallsOk(s) && LocksNamed(s)
    ensures NameOk(pair, Step(s, FailCreate(id, applied, cleaned)))
  {
    assert NameOk(pair, s);
    assert IdOk(id, s.creating, s.t.records, s.used, s.leaked);
    hide UserIndex, CreatesOk, UpdatesOk, LocksNamed, Resolve, PairOf;
  }

  lemma ResendKeepsName(s: State, id: Id, pair: Pair)
    requires LocksNamed(s)
    ensures NameOk(pair, Step(s, ResendCreate(id)))
  {
    assert NameOk(pair, s);
    hide UserIndex, LocksNamed, Resolve, Score;
  }

  lemma ResolveKeepsName(s: State, call: nat, resolution: Resolution, pair: Pair)
    requires CallsOk(s) && LocksNamed(s)
    ensures NameOk(pair, Step(s, FinishUpdate(call, resolution)))
  {
    assert NameOk(pair, s);
    assert call in s.updating ==> UpdateOk(s.updating[call], s.t.records);
    hide UserIndex, CreatesOk, UpdatesOk, LocksNamed, Write, Release, Reserve;
  }

  lemma ReadKeepsLocks(s: State, a: Action)
    requires a.BeginUpdate? || a.FailUpdate?
    ensures LocksNamed(s) ==> LocksNamed(Step(s, a))
    ensures LocksHeld(s) ==> LocksHeld(Step(s, a))
  {
    forall pair ensures NameOk(pair, Step(s, a)) == NameOk(pair, s) {}
    forall id, pair ensures HeldOk(id, pair, Step(s, a)) == HeldOk(id, pair, s) {}
    hide NameOk, HeldOk;
  }

  lemma StepKeepsLocks(s: State, a: Action)
    requires CallsOk(s) && LocksHeld(s)
    requires a.FinishUpdate? && a.call in s.updating ==> Harmless(s, s.updating[a.call].read)
    requires a.FailCreate? && a.id in s.creating ==> !(a.applied && a.cleaned)
    requires a.ResendCreate? && a.id in s.t.records ==> s.t.records[a.id].status == Pending
    ensures LocksHeld(Step(s, a))
  {
    forall id, pair ensures HeldOk(id, pair, Step(s, a)) {
      StepKeepsLock(s, a, id, pair);
    }
    hide Step, HeldOk;
  }

  lemma StepKeepsLock(s: State, a: Action, id: Id, pair: Pair)
    requires CallsOk(s) && LocksHeld(s)
    requires a.FinishUpdate? && a.call in s.updating ==> Harmless(s, s.updating[a.call].read)
    requires a.FailCreate? && a.id in s.creating ==> !(a.applied && a.cleaned)
    requires a.ResendCreate? && a.id in s.t.records ==> s.t.records[a.id].status == Pending
    ensures HeldOk(id, pair, Step(s, a))
  {
    hide HeldOk, CreatesOk, UpdatesOk;
    match a
    case FinishUpdate(call, resolution) => ResolveKeepsLock(s, call, resolution, id, pair); hide Step, Harmless;
    case FinishCreate(done) => FinishKeepsLock(s, done, id, pair); hide Step;
    case BeginCreate(r) => BeginKeepsLock(s, r, id, pair); hide Step;
    case FailCreate(failed, applied, cleaned) => FailKeepsLock(s, failed, applied, cleaned, id, pair); hide Step;
    case ResendCreate(resent) => ResendKeepsLock(s, resent, id, pair); hide Step;
    case _ => ReadKeepsLocks(s, a); hide Step;
  }

  lemma BeginKeepsLock(s: State, r: Request, id: Id, pair: Pair)
    requires CallsOk(s) && LocksHeld(s)
    ensures HeldOk(id, pair, Step(s, BeginCreate(r)))
  {
    BeginEffect(s, r);
    hide Step;
    assert HeldOk(id, pair, s);
    assert IdOk(r.id, s.creating, s.t.records, s.used, s.leaked);
    assert r.id in s.creating ==> HeldOk(r.id, PairOf(s.creating[r.id]), s);
    hide UserIndex, CreatesOk, UpdatesOk, LocksHeld, PairOf;
  }

  lemma FinishKeepsLock(s: State, created: Id, id: Id, pair: Pair)
    requires CallsOk(s) && LocksHeld(s)
    ensures HeldOk(id, pair, Step(s, FinishCreate(created)))
  {
    assert HeldOk(id, pair, s);
    assert IdOk(created, s.creating, s.t.records, s.used, s.leaked);
    assert created in s.creating ==> HeldOk(created, PairOf(s.creating[created]), s);
    hide UserIndex, CreatesOk, UpdatesOk, LocksHeld, Resolve, Write, Score, PairOf;
  }

  lemma FailKeepsLock(s: State, created: Id, applied: bool, cleaned: bool, id: Id, pair: Pair)
    requires CallsOk(s) && LocksHeld(s) && (created in s.creating ==> !(applied && cleaned))
    ensures HeldOk(id, pair, Step(s, FailCreate(created, applied, cleaned)))
  {
    assert HeldOk(id, pair, s);
    assert IdOk(created, s.creating, s.t.records, s.used, s.leaked);
    assert created in s.creating ==> HeldOk(created, PairOf(s.creating[created]), s);
    hide UserIndex, CreatesOk, UpdatesOk, LocksHeld, Resolve, Write, Score, PairOf;
  }

  lemma ResendKeepsLock(s: State, resent: Id, id: Id, pair: Pair)
    requires LocksHeld(s) && (resent in s.t.records ==> s.t.records[resent].status == Pending)
    ensures HeldOk(id, pair, Step(s, ResendCreate(resent)))
  {
    assert HeldOk(id, pair, s);
    hide UserIndex, LocksHeld, Resolve, Score;
  }

  lemma ResolveKeepsLock(s: State, call: nat, resolution: Resolution, id: Id, pair: Pair)
    requires CallsOk(s) && LocksHeld(s)
    requires call in s.updating ==> Harmless(s, s.updating[call].read)
    ensures HeldOk(id, pair, Step(s, FinishUpdate(call, resolution)))
  {
    assert HeldOk(id, pair, s) && IdOk(id, s.creating, s.t.records, s.used, s.leaked);
    if call in s.updating {
      var read := s.updating[call].read;
      assert UpdateOk(s.updating[call], s.t.records);
      assert IdOk(read.id, s.creating, s.t.records, s.used, s.leaked);
      assert HeldOk(read.id, PairOf(read), s);
    }
    hide UserIndex, CreatesOk, UpdatesOk, LocksHeld, Write, Release, Reserve;
  }

  /** Resolving takes no lock from another request: it is the first resolve, or the key is free or stale. */
  predicate Harmless(s: State, read: Request)
  {
    || (read.id in s.t.records && s.t.records[read.id].status == Pending)
    || PairOf(read) !in s.t.dedup
    || s.t.dedup[PairOf(read)] in s.leaked
  }

  /** Exactly when an `UpdateStatus` pipeline leaves every pending request holding its key. */
  lemma ResolveKeepsLocksIff(s: State, call: nat, resolution: Resolution)
    requires CallsOk(s) && LocksNamed(s) && LocksHeld(s) && call in s.updating
    ensures LocksHeld(Step(s, FinishUpdate(call, resolution))) <==> Harmless(s, s.updating[call].read)
  {
    var s' := Step(s, FinishUpdate(call, resolution));
    var read := s.updating[call].read;
    if Harmless(s, read) {
      StepKeepsLocks(s, FinishUpdate(call, resolution));
    } else {
      var robbed := s.t.dedup[PairOf(read)];
      assert UpdateOk(s.updating[call], s.t.records);
      assert NameOk(PairOf(read), s);
      assert !HeldOk(robbed, PairOf(read), s');
    }
    hide UserIndex, CreatesOk, UpdatesOk, Write, Release, Reserve;
  }

  /** Exactly when a failed `Create` does: it must not delete the key of a request that it wrote after all. */
  lemma FailKeepsLocksIff(s: State, id: Id, applied: bool, cleaned: bool)
    requires CallsOk(s) && LocksHeld(s) && id in s.creating
    ensures LocksHeld(Step(s, FailCreate(id, applied, cleaned))) <==> !(applied && cleaned)
  {
    var s' := Step(s, FailCreate(id, applied, cleaned));
    if applied && cleaned {
      assert IdOk(id, s.creating, s.t.records, s.used, s.leaked);
      assert !HeldOk(id, PairOf(s.creating[id]), s');
    } else {
      StepKeepsLocks(s, FailCreate(id, applied, cleaned));
    }
    hide UserIndex, CreatesOk, UpdatesOk, Resolve, Reserve, Score;
  }

  /** Exactly when sending the pipeline of a `Create` again does: its request must not have been resolved meanwhile. */
  lemma ResendKeepsLocksIff(s: State, id: Id)
    requires CallsOk(s) && LocksNamed(s) && LocksHeld(s) && id in s.t.records
    ensures LocksHeld(Step(s, ResendCreate(id))) <==> s.t.records[id].status == Pending
  {
    var s' := Step(s, ResendCreate(id));
    if s.t.records[id].status == Pending {
      StepKeepsLocks(s, ResendCreate(id));
    } else {
      var pair := PairOf(s.t.records[id]);
      assert IdOk(id, s.creating, s.t.records, s.used, s.leaked);
      assert NameOk(pair, s);
      assert !HeldOk(id, pair, s');
    }
    hide UserIndex, CreatesOk, UpdatesOk, Resolve, Reserve, Score;
  }

  lemma StartInv()
    ensures Inv(START)
  {
    forall id ensures IndexOk(EMPTY, id) {}
    forall user, id ensures UserIndexOk(EMPTY, user, id) {}
  }

  lemma StepKeepsInv(s: State, a: Action)
    requires Inv(s)
    ensures Inv(Step(s, a))
  {
    StepKeepsIndexes(s, a);
    StepKeepsCreates(s, a);
    StepKeepsUpdates(s, a);
    StepKeepsNames(s, a);
    if !Step(s, a).resolvedAgain && !Step(s, a).undone && Step(s, a).reopened == {} {
      FirstResolve(s, a);
      NothingUndone(s, a);
      NothingReopened(s, a);
      StepKeepsLocks(s, a);
    }
    hide IndexesExact, CreatesOk, UpdatesOk, LocksNamed, LocksHeld, Harmless, Step;
  }

  lemma FirstResolve(s: State, a: Action)
    requires CallsOk(s) && !Step(s, a).resolvedAgain
    ensures !s.resolvedAgain
    ensures a.FinishUpdate? && a.call in s.updating ==> Harmless(s, s.updating[a.call].read)
  {
    if a.FinishUpdate? && a.call in s.updating {
      assert UpdateOk(s.updating[a.call], s.t.records);
    }
    hide CreatesOk, UpdatesOk, Write, Release, Reserve, Resolve;
  }

  lemma NothingUndone(s: State, a: Action)
    requires CallsOk(s) && !Step(s, a).undone
    ensures !s.undone
    ensures a.FailCreate? && a.id in s.creating ==> !(a.applied && a.cleaned)
  {
    hide CreatesOk, UpdatesOk, Write, Failed, Release, Reserve, Resolve;
  }

  lemma NothingReopened(s: State, a: Action)
    requires Step(s, a).reopened == {}
    ensures s.reopened == {}
    ensures a.ResendCreate? && a.id in s.t.records ==> s.t.records[a.id].status == Pending
  {
    hide Write, Failed, Release, Reserve, Resolve, Rewrite;
  }

  lemma RunInv(acts: seq<Action>)
    ensures Inv(Runs.Exec(Step, START, acts))
  {
    StartInv();
    forall s, a | Inv(s) ensures Inv(Step(s, a)) {
      StepKeepsInv(s, a);
    }
    hide Step, Inv, Runs.Exec;
    Runs.Invariance(Step, Inv, START, acts);
  }
}
