/**
 Redis has one keyspace of strings. Here are the keys the store builds in it,
 what its commands do there, and why the result is the typed tables of
 `AccessRequests`.
 */
module AccessKeys {
  import opened Wrappers
  import opened Text
  import opened AccessRequests

  const AR_HASH_PREFIX := "nebari:ar:"
  const AR_ALL_KEY := "nebari:ar:all"
  const AR_PENDING_KEY := "nebari:ar:pending"
  const AR_USER_PREFIX := "nebari:ar:user:"
  const AR_DEDUP_PREFIX := "nebari:ar:dedup:"

  function ARKey(id: Id): string
  {
    AR_HASH_PREFIX + id
  }

  function ARUserKey(user: string): string
  {
    AR_USER_PREFIX + user
  }

  function ARDedupKey(user: string, service: string): string
  {
    AR_DEDUP_PREFIX + user + ":" + service
  }

  datatype Key = RequestKey(id: Id) | AllKey | PendingKey | UserKey(user: string)
      | DedupKey(user: string, service: string)

  function Print(k: Key): string
  {
    match k
    case RequestKey(id) => ARKey(id)
    case AllKey => AR_ALL_KEY
    case PendingKey => AR_PENDING_KEY
    case UserKey(user) => ARUserKey(user)
    case DedupKey(user, service) => ARDedupKey(user, service)
  }

  /** What the argument needs of a UUID: its length, and that it has no colon. */
  predicate IsUuid(id: Id)
  {
    |id| == 36 && ':' !in id
  }

  /** Request ids are UUIDs and service UIDs have no colon; user names are arbitrary. */
  predicate Proper(k: Key)
  {
    match k
    case RequestKey(id) => IsUuid(id)
    case DedupKey(_, service) => ':' !in service
    case _ => true
  }

  /** The families of keys are disjoint and no builder gives the same key twice. */
  lemma PrintInjective(a: Key, b: Key)
    requires Proper(a) && Proper(b) && Print(a) == Print(b)
    ensures a == b
  {
    var n := |AR_HASH_PREFIX|;
    var s := Print(a)[n..];
    Suffix(a);
    Suffix(b);
    assert a.UserKey? || b.UserKey? ==> s[0] == 'u' && s[4] == ':';
    assert a.DedupKey? || b.DedupKey? ==> s[0] == 'd' && s[5] == ':';
    if a.UserKey? && b.UserKey? {
      assert s[5..] == a.user && s[5..] == b.user;
    } else if a.DedupKey? && b.DedupKey? {
      SplitAtLast(a, b);
    }
    hide Print;
  }

  lemma Suffix(k: Key)
    ensures |Print(k)| >= |AR_HASH_PREFIX|
    ensures var s := Print(k)[|AR_HASH_PREFIX|..];
            match k
            case RequestKey(id) => s == id
            case AllKey => s == "all"
            case PendingKey => s == "pending"
            case UserKey(user) => s == "user:" + user
            case DedupKey(user, service) => s == "dedup:" + user + ":" + service
  {
  }

  lemma SplitAtLast(a: Key, b: Key)
    requires Proper(a) && Proper(b) && Print(a) == Print(b) && a.DedupKey? && b.DedupKey?
    ensures a == b
  {
    var s := Print(a);
    var n := |AR_DEDUP_PREFIX|;
    LastIndexOfIs(s, ':', n + |a.user|);
    LastIndexOfIs(s, ':', n + |b.user|);
    assert s[n..n + |a.user|] == a.user && s[n + |a.user| + 1..] == a.service;
    assert s[n..n + |b.user|] == b.user && s[n + |b.user| + 1..] == b.service;
  }

  /** A piece of the service UID, up to one of its colons, has moved to the end of the user name. */
  ghost predicate Shifts(user: string, service: string, user': string, service': string)
  {
    exists piece :: user' == user + ":" + piece && service == piece + ":" + service'
  }

  /** Two dedup keys coincide exactly for one pair, or if a colon moves a piece of a service UID to the user name. */
  lemma DedupKeysCoincide(user: string, service: string, user': string, service': string)
    ensures ARDedupKey(user, service) == ARDedupKey(user', service') <==>
            || (user == user' && service == service')
            || Shifts(user, service, user', service')
            || Shifts(user', service', user, service)
  {
    if |user| == |user'| {
      SameUserLength(user, service, user', service');
    } else if |user| < |user'| {
      ShiftedKey(user, service, user', service');
    } else {
      ShiftedKey(user', service', user, service);
    }
  }

  lemma SameUserLength(user: string, service: string, user': string, service': string)
    requires |user| == |user'|
    ensures ARDedupKey(user, service) == ARDedupKey(user', service') <==> user == user' && service == service'
  {
    var n := |AR_DEDUP_PREFIX|;
    var a, b := ARDedupKey(user, service), ARDedupKey(user', service');
    assert a[n..n + |user|] == user && a[n + |user| + 1..] == service;
    assert b[n..n + |user'|] == user' && b[n + |user'| + 1..] == service';
  }

  lemma ShiftedKey(user: string, service: string, user': string, service': string)
    requires |user| < |user'|
    ensures ARDedupKey(user, service) == ARDedupKey(user', service') <==> Shifts(user, service, user', service')
  {
    var a, b := user + ":" + service, user' + ":" + service';
    assert ARDedupKey(user, service) == AR_DEDUP_PREFIX + a && ARDedupKey(user', service') == AR_DEDUP_PREFIX + b;
    assert (AR_DEDUP_PREFIX + a)[|AR_DEDUP_PREFIX|..] == a && (AR_DEDUP_PREFIX + b)[|AR_DEDUP_PREFIX|..] == b;
    hide ARDedupKey;
    if a == b {
      var piece := user'[|user| + 1..];
      assert a[..|user'|] == b[..|user'|] == user';
      assert user'[..|user|] == user && user'[|user|] == ':';
      assert user' == user + ":" + piece;
      assert a[|user| + 1..] == service && b[|user| + 1..] == piece + ":" + service';
      assert Shifts(user, service, user', service');
    }
    if Shifts(user, service, user', service') {
      var piece :| user' == user + ":" + piece && service == piece + ":" + service';
      assert a == user + ":" + piece + ":" + service' == b;
    }
  }

  // ---- The keyspace ---------------------------------------------------------

  datatype Value = Hash(request: Request) | SortedSet(scores: map<Id, int>) | Str(text: string)
  type Db = map<string, Value>

  function Lookup(db: Db, key: string): Option<Value>
  {
    if key in db then Some(db[key]) else None
  }

  function Assign(db: Db, key: string, value: Option<Value>): Db
  {
    if value.Some? then db[key := value.value] else db - {key}
  }

  /** Redis keeps no empty sorted set. */
  function NonEmpty(scores: map<Id, int>): Option<Value>
  {
    if scores == map[] then None else Some(SortedSet(scores))
  }

  /** A command that meets a value of another type changes nothing. */
  function HSet(db: Db, key: string, r: Request): Db
  {
    if key in db && !db[key].Hash? then db else db[key := Hash(r)]
  }

  function HSetStatus(db: Db, key: string, status: Status, resolution: Resolution): Db
    requires key in db && db[key].Hash?
  {
    db[key := Hash(db[key].request.(status := status, resolution := Some(resolution)))]
  }

  function ZAdd(db: Db, key: string, member: Id, score: int): Db
  {
    if key in db && !db[key].SortedSet? then db
    else db[key := SortedSet((if key in db then db[key].scores else map[])[member := score])]
  }

  function ZRem(db: Db, key: string, member: Id): Db
  {
    if key !in db || !db[key].SortedSet? then db else Assign(db, key, NonEmpty(db[key].scores - {member}))
  }

  function SetNX(db: Db, key: string, text: string): Db
  {
    if key in db then db else db[key := Str(text)]
  }

  function Del(db: Db, key: string): Db
  {
    db - {key}
  }

  // ---- Refinement -----------------------------------------------------------

  /** What the tables put under a key. */
  function At(t: Tables, k: Key): Option<Value>
  {
    match k
    case RequestKey(id) => if id in t.records then Some(Hash(t.records[id])) else None
    case AllKey => NonEmpty(t.all)
    case PendingKey => NonEmpty(t.pending)
    case UserKey(user) => NonEmpty(UserIndex(t, user))
    case DedupKey(user, service) => if (user, service) in t.dedup then Some(Str(t.dedup[(user, service)])) else None
  }

  ghost predicate IsKey(key: string)
  {
    exists k :: Proper(k) && Print(k) == key
  }

  /** The keyspace holds the tables and nothing else. */
  ghost predicate Represents(db: Db, t: Tables)
  {
    && (forall k :: Proper(k) ==> Lookup(db, Print(k)) == At(t, k))
    && (forall key :: key in db ==> IsKey(key))
  }

  lemma AssignRepresents(db: Db, t: Tables, k: Key, t': Tables)
    requires Represents(db, t) && Proper(k)
    requires forall other :: other != k ==> At(t', other) == At(t, other)
    ensures Represents(Assign(db, Print(k), At(t', k)), t')
  {
    var db' := Assign(db, Print(k), At(t', k));
    forall other | Proper(other) ensures Lookup(db', Print(other)) == At(t', other) {
      if Print(other) == Print(k) {
        PrintInjective(other, k);
      }
    }
    assert IsKey(Print(k));
    hide Print, At, IsKey, Proper;
  }

  lemma EmptyRepresents()
    ensures Represents(map[], EMPTY)
  {
    forall k | Proper(k) ensures Lookup(map[], Print(k)) == At(EMPTY, k) {}
  }
}

/** The store object, working on the string keyspace and proved against the typed tables. */
module AccessStores {
  import opened Wrappers
  import opened AccessRequests
  import opened AccessKeys

  datatype Error = DuplicatePending | NotFound | WrongType | WriteFailed

  /**
   How a command or pipeline ends: acknowledged, applied with its reply lost, or not applied; the
   caller sees an error for the last two.
   */
  datatype Answer = Acknowledged | ReplyLost | NotApplied

  ghost predicate ProperTables(t: Tables)
  {
    forall id :: id in t.records ==> IsUuid(id) && ':' !in t.records[id].serviceUID
  }

  lemma HSetRepresents(db: Db, t: Tables, r: Request)
    requires Represents(db, t) && IsUuid(r.id)
    ensures Represents(HSet(db, ARKey(r.id), r), t.(records := t.records[r.id := r]))
  {
    assert Lookup(db, Print(RequestKey(r.id))) == At(t, RequestKey(r.id));
    AssignRepresents(db, t, RequestKey(r.id), t.(records := t.records[r.id := r]));
    hide Represents;
  }

  lemma HSetStatusRepresents(db: Db, t: Tables, id: Id, status: Status, resolution: Resolution)
    requires Represents(db, t) && IsUuid(id) && id in t.records
    ensures ARKey(id) in db && db[ARKey(id)] == Hash(t.records[id])
    ensures Represents(HSetStatus(db, ARKey(id), status, resolution),
                       t.(records := t.records[id := t.records[id].(status := status, resolution := Some(resolution))]))
  {
    assert Lookup(db, Print(RequestKey(id))) == At(t, RequestKey(id));
    AssignRepresents(db, t, RequestKey(id),
                     t.(records := t.records[id := t.records[id].(status := status, resolution := Some(resolution))]));
    hide Represents;
  }

  lemma SortedSetCommands(db: Db, key: string, scores: map<Id, int>, id: Id, score: int)
    requires Lookup(db, key) == NonEmpty(scores)
    ensures ZAdd(db, key, id, score) == Assign(db, key, NonEmpty(scores[id := score]))
    ensures ZRem(db, key, id) == Assign(db, key, NonEmpty(scores - {id}))
  {
    assert id in scores[id := score];
    if scores == map[] {
      assert scores - {id} == map[];
      assert db - {key} == db;
    }
  }

  lemma ZAddAllRepresents(db: Db, t: Tables, id: Id, score: int)
    requires Represents(db, t)
    ensures Represents(ZAdd(db, AR_ALL_KEY, id, score), t.(all := t.all[id := score]))
  {
    assert Lookup(db, Print(AllKey)) == At(t, AllKey);
    SortedSetCommands(db, AR_ALL_KEY, t.all, id, score);
    AssignRepresents(db, t, AllKey, t.(all := t.all[id := score]));
    hide Represents, ZAdd, ZRem, Assign, NonEmpty, Lookup;
  }

  lemma ZAddPendingRepresents(db: Db, t: Tables, id: Id, score: int)
    requires Represents(db, t)
    ensures Represents(ZAdd(db, AR_PENDING_KEY, id, score), t.(pending := t.pending[id := score]))
  {
    assert Lookup(db, Print(PendingKey)) == At(t, PendingKey);
    SortedSetCommands(db, AR_PENDING_KEY, t.pending, id, score);
    AssignRepresents(db, t, PendingKey, t.(pending := t.pending[id := score]));
    hide Represents, ZAdd, ZRem, Assign, NonEmpty, Lookup;
  }

  lemma ZAddUserRepresents(db: Db, t: Tables, user: string, id: Id, score: int)
    requires Represents(db, t)
    ensures Represents(ZAdd(db, ARUserKey(user), id, score),
                       t.(byUser := t.byUser[user := UserIndex(t, user)[id := score]]))
  {
    assert Lookup(db, Print(UserKey(user))) == At(t, UserKey(user));
    SortedSetCommands(db, ARUserKey(user), UserIndex(t, user), id, score);
    AssignRepresents(db, t, UserKey(user), t.(byUser := t.byUser[user := UserIndex(t, user)[id := score]]));
    hide Represents, ZAdd, ZRem, Assign, NonEmpty, Lookup, ARUserKey;
  }

  lemma ZRemRepresents(db: Db, t: Tables, id: Id)
    requires Represents(db, t)
    ensures Represents(ZRem(db, AR_PENDING_KEY, id), t.(pending := t.pending - {id}))
  {
    assert Lookup(db, Print(PendingKey)) == At(t, PendingKey);
    SortedSetCommands(db, AR_PENDING_KEY, t.pending, id, 0);
    AssignRepresents(db, t, PendingKey, t.(pending := t.pending - {id}));
    hide Represents, ZAdd, ZRem, Assign, NonEmpty, Lookup;
  }

  lemma LockRepresents(db: Db, t: Tables, pair: Pair, id: Id)
    requires Represents(db, t) && ':' !in pair.1
    ensures ARDedupKey(pair.0, pair.1) in db <==> pair in t.dedup
    ensures Represents(SetNX(db, ARDedupKey(pair.0, pair.1), id), Reserve(t, pair, id))
  {
    var k := DedupKey(pair.0, pair.1);
    assert Lookup(db, Print(k)) == At(t, k);
    AssignRepresents(db, t, k, Reserve(t, pair, id));
    hide Represents, ARDedupKey;
  }

  lemma UnlockRepresents(db: Db, t: Tables, pair: Pair)
    requires Represents(db, t) && ':' !in pair.1
    ensures Represents(Del(db, ARDedupKey(pair.0, pair.1)), Release(t, pair))
  {
    AssignRepresents(db, t, DedupKey(pair.0, pair.1), Release(t, pair));
    hide Represents, ARDedupKey;
  }

  lemma OnlyUuids(k: Key, id: string)
    ensures Proper(k) && k.RequestKey? && Print(k) == ARKey(id) ==> IsUuid(id)
  {
    if k.RequestKey? {
      assert ARKey(id)[|AR_HASH_PREFIX|..] == id && ARKey(k.id)[|AR_HASH_PREFIX|..] == k.id;
    }
  }

  /** Whatever string is asked for, a hash is found exactly at the ids of requests. */
  lemma HashAt(db: Db, t: Tables, id: string)
    requires Represents(db, t) && ProperTables(t)
    ensures ARKey(id) in db && db[ARKey(id)].Hash? <==> id in t.records
    ensures id in t.records ==> db[ARKey(id)] == Hash(t.records[id])
    ensures ARKey(id) in db && !db[ARKey(id)].Hash? ==> !IsUuid(id)
  {
    if IsUuid(id) {
      assert Lookup(db, Print(RequestKey(id))) == At(t, RequestKey(id));
    } else if ARKey(id) in db {
      assert IsKey(ARKey(id));
      var k :| Proper(k) && Print(k) == ARKey(id);
      assert Lookup(db, Print(k)) == At(t, k);
      OnlyUuids(k, id);
    }
    hide Represents, ARKey, Print;
  }

  /** The records of `ids`, in order; ids without a record are skipped. */
  function Fetched(records: map<Id, Request>, ids: seq<Id>): seq<Request>
  {
    if ids == [] then []
    else
      var rest := Fetched(records, ids[..|ids| - 1]);
      var id := ids[|ids| - 1];
      if id in records then rest + [records[id]] else rest
  }

  /** The reply of ZRANGE with REV over the whole of a sorted set. */
  ghost predicate NewestFirst(ids: seq<Id>, scores: map<Id, int>)
  {
    && (forall id :: id in ids <==> id in scores)
    && (forall i, j :: 0 <= i < j < |ids| ==> ids[i] != ids[j] && scores[ids[i]] >= scores[ids[j]])
  }

  /** Each request once, newest first: none is a millisecond or more younger than one before it. */
  ghost predicate ByTime(requests: seq<Request>)
  {
    forall i, j :: 0 <= i < j < |requests| ==>
        requests[i].id != requests[j].id && requests[j].requestedAt - requests[i].requestedAt < 1_000_000
  }

  lemma ScoreOrder(newer: Request, older: Request)
    requires Score(newer) >= Score(older)
    ensures older.requestedAt - newer.requestedAt < 1_000_000
  {
  }

  lemma {:induction false} FetchedAll(records: map<Id, Request>, ids: seq<Id>)
    requires forall id :: id in ids ==> id in records
    ensures |Fetched(records, ids)| == |ids|
    ensures forall i :: 0 <= i < |ids| ==> Fetched(records, ids)[i] == records[ids[i]]
  {
    if ids != [] {
      FetchedAll(records, ids[..|ids| - 1]);
    }
  }

  lemma ListExact(t: Tables, ids: seq<Id>, index: map<Id, int>)
    requires forall id :: id in index ==> id in t.records && index[id] == Score(t.records[id]) && t.records[id].id == id
    requires NewestFirst(ids, index)
    ensures var out := Fetched(t.records, ids);
            && (forall r :: r in out <==> r.id in index && t.records[r.id] == r)
            && ByTime(out)
  {
    var out := Fetched(t.records, ids);
    FetchedAll(t.records, ids);
    hide Score, Fetched;
    assert forall i :: 0 <= i < |ids| ==> ids[i] in ids;
    forall i, j | 0 <= i < j < |out|
      ensures out[i].id != out[j].id && out[j].requestedAt - out[i].requestedAt < 1_000_000 {
      ScoreOrder(out[i], out[j]);
    }
    forall r: Request | r.id in index && t.records[r.id] == r ensures r in out {
      var i :| 0 <= i < |ids| && ids[i] == r.id;
      assert out[i] == r;
    }
  }

  /** `ListAll`: every request, each once, newest first. */
  lemma ListAllExact(t: Tables, ids: seq<Id>)
    requires IndexesExact(t) && NewestFirst(ids, t.all)
    ensures var out := Fetched(t.records, ids);
            && (forall r :: r in out <==> r.id in t.records && t.records[r.id] == r)
            && ByTime(out)
  {
    forall id
      ensures id in t.all <==> id in t.records
      ensures id in t.all ==> t.records[id].id == id && t.all[id] == Score(t.records[id])
    {
      assert IndexOk(t, id);
    }
    hide NewestFirst, Fetched, IndexesExact, ByTime, Score;
    ListExact(t, ids, t.all);
  }

  /** `ListPending`: exactly the pending requests. */
  lemma ListPendingExact(t: Tables, ids: seq<Id>)
    requires IndexesExact(t) && NewestFirst(ids, t.pending)
    ensures var out := Fetched(t.records, ids);
            && (forall r :: r in out <==> r.id in t.records && t.records[r.id] == r && r.status == Pending)
            && ByTime(out)
  {
    forall id
      ensures id in t.pending <==> id in t.records && t.records[id].status == Pending
      ensures id in t.pending ==> t.records[id].id == id && t.pending[id] == Score(t.records[id])
    {
      assert IndexOk(t, id);
    }
    hide NewestFirst, Fetched, IndexesExact, ByTime, Score;
    ListExact(t, ids, t.pending);
  }

  /** `ListForUser`: exactly the requests of that user. */
  lemma ListForUserExact(t: Tables, ids: seq<Id>, user: string)
    requires IndexesExact(t) && NewestFirst(ids, UserIndex(t, user))
    ensures var out := Fetched(t.records, ids);
            && (forall r :: r in out <==> r.id in t.records && t.records[r.id] == r && r.userID == user)
            && ByTime(out)
  {
    forall id
      ensures id in UserIndex(t, user) <==> id in t.records && t.records[id].userID == user
      ensures id in UserIndex(t, user) ==> t.records[id].id == id && UserIndex(t, user)[id] == Score(t.records[id])
    {
      assert IndexOk(t, id) && UserIndexOk(t, user, id);
    }
    hide NewestFirst, Fetched, IndexesExact, ByTime, Score, UserIndex;
    ListExact(t, ids, UserIndex(t, user));
  }

  class Store {
    var db: Db
    ghost var tables: Tables

    ghost predicate Valid()
      reads this
    {
      Represents(db, tables) && ProperTables(tables)
    }

    constructor ()
      ensures Valid() && tables == EMPTY
    {
      db, tables := map[], EMPTY;
      EmptyRepresents();
    }

    /** SET NX of the dedup key. */
    method TakeLock(user: string, service: string, id: Id) returns (taken: bool)
      requires Valid() && ':' !in service
      modifies this
      ensures Valid() && tables == Reserve(old(tables), (user, service), id)
      ensures taken == ((user, service) !in old(tables).dedup)
    {
      LockRepresents(db, tables, (user, service), id);
      var key := ARDedupKey(user, service);
      taken := key !in db;
      db := SetNX(db, key, id);
      tables := Reserve(tables, (user, service), id);
      hide Represents;
    }

    method DropLock(user: string, service: string)
      requires Valid() && ':' !in service
      modifies this
      ensures Valid() && tables == Release(old(tables), (user, service))
    {
      UnlockRepresents(db, tables, (user, service));
      db := Del(db, ARDedupKey(user, service));
      tables := Release(tables, (user, service));
      hide Represents;
    }

    /** The write pipeline of `Create`, its commands in order. */
    method WriteRequest(r: Request)
      requires Valid() && IsUuid(r.id) && ':' !in r.serviceUID
      modifies this
      ensures Valid() && tables == Write(old(tables), r)
    {
      hide Represents;
      HSetRepresents(db, tables, r);
      db := HSet(db, ARKey(r.id), r);
      tables := tables.(records := tables.records[r.id := r]);
      ZAddAllRepresents(db, tables, r.id, Score(r));
      db := ZAdd(db, AR_ALL_KEY, r.id, Score(r));
      tables := tables.(all := tables.all[r.id := Score(r)]);
      ZAddPendingRepresents(db, tables, r.id, Score(r));
      db := ZAdd(db, AR_PENDING_KEY, r.id, Score(r));
      tables := tables.(pending := tables.pending[r.id := Score(r)]);
      ZAddUserRepresents(db, tables, r.userID, r.id, Score(r));
      db := ZAdd(db, ARUserKey(r.userID), r.id, Score(r));
      tables := tables.(byUser := tables.byUser[r.userID := UserIndex(tables, r.userID)[r.id := Score(r)]]);
    }

    /**
     `id` is the new UUID; `lock` and `write` are how SET NX and the pipeline end, and `cleaned`
     whether the cleanup takes effect.
     */
    method Create(id: Id, serviceUID: string, serviceName: string, userID: string, userEmail: string, message: string,
                  now: int, lock: Answer, write: Answer, cleaned: bool)
      returns (result: Result<Request, Error>)
      requires Valid() && IsUuid(id) && ':' !in serviceUID
      modifies this
      ensures Valid()
      ensures var r := Request(id, serviceUID, serviceName, userID, userEmail, message, Pending, now, None);
              var held := PairOf(r) in old(tables).dedup;
              var reserved := Reserve(old(tables), PairOf(r), id);
              && result == (if !lock.Acknowledged? then Err(WriteFailed)
                            else if held then Err(DuplicatePending)
                            else if write.Acknowledged? then Ok(r)
                            else Err(WriteFailed))
              && tables == (if lock.NotApplied? then old(tables)
                            else if lock.ReplyLost? || held then reserved
                            else if write.Acknowledged? then Write(reserved, r)
                            else Failed(reserved, r, write.ReplyLost?, cleaned))
    {
      hide Represents, ProperTables, Write;
      var r := Request(id, serviceUID, serviceName, userID, userEmail, message, Pending, now, None);
      if lock.NotApplied? {
        return Err(WriteFailed);
      }
      var taken := TakeLock(userID, serviceUID, r.id);
      if lock.ReplyLost? {
        return Err(WriteFailed);
      }
      if !taken {
        return Err(DuplicatePending);
      }
      if !write.NotApplied? {
        WriteRequest(r);
      }
      if !write.Acknowledged? {
        if cleaned {
          DropLock(userID, serviceUID);
        }
        return Err(WriteFailed);
      }
      return Ok(r);
    }

    /** `id` is whatever the caller sent. */
    method Get(id: string) returns (result: Result<Request, Error>)
      requires Valid()
      ensures result.Ok? <==> id in tables.records
      ensures result.Ok? ==> result.value == tables.records[id]
      ensures result == Err(WrongType) ==> !IsUuid(id)
      ensures result.Err? ==> result.error == NotFound || result.error == WrongType
    {
      HashAt(db, tables, id);
      hide Represents;
      var key := ARKey(id);
      if key !in db {
        return Err(NotFound);
      }
      if !db[key].Hash? {
        return Err(WrongType);
      }
      return Ok(db[key].request);
    }

    /** One `UpdateStatus` that nobody interrupts between its read and its pipeline. */
    method UpdateStatus(id: string, status: Status, resolution: Resolution, write: Answer)
      returns (result: Result<Request, Error>)
      requires Valid()
      modifies this
      ensures Valid()
      ensures result.Ok? <==> id in old(tables).records && write.Acknowledged?
      ensures tables == if id in old(tables).records && !write.NotApplied?
                        then Resolve(old(tables), id, status, resolution, PairOf(old(tables).records[id]))
                        else old(tables)
      ensures result.Ok? ==> result.value == tables.records[id]
      ensures result == Err(WrongType) ==> !IsUuid(id)
    {
      hide Represents;
      result := Get(id);
      if result.Err? {
        return;
      }
      var r := result.value;
      if !write.NotApplied? {
        WriteResolution(id, status, resolution, r.userID, r.serviceUID);
      }
      if !write.Acknowledged? {
        return Err(WriteFailed);
      }
      result := Ok(r.(status := status, resolution := Some(resolution)));
    }

    /** The write pipeline of `UpdateStatus`. */
    method WriteResolution(id: Id, status: Status, resolution: Resolution, user: string, service: string)
      requires Valid() && id in tables.records && ':' !in service
      modifies this
      ensures Valid() && tables == Resolve(old(tables), id, status, resolution, (user, service))
    {
      hide Represents;
      HSetStatusRepresents(db, tables, id, status, resolution);
      db := HSetStatus(db, ARKey(id), status, resolution);
      ghost var resolved := tables.records[id].(status := status, resolution := Some(resolution));
      tables := tables.(records := tables.records[id := resolved]);
      ZRemRepresents(db, tables, id);
      db := ZRem(db, AR_PENDING_KEY, id);
      tables := tables.(pending := tables.pending - {id});
      DropLock(user, service);
    }

    /** `ids` is the reply to the range query on the index. */
    method ListFromIndex(ids: seq<Id>) returns (out: seq<Request>)
      requires Valid()
      ensures out == Fetched(tables.records, ids)
    {
      hide Represents;
      out := [];
      for i := 0 to |ids|
        invariant out == Fetched(tables.records, ids[..i])
      {
        assert ids[..i + 1][..i] == ids[..i];
        HashAt(db, tables, ids[i]);
        var key := ARKey(ids[i]);
        if key in db && db[key].Hash? {
          out := out + [db[key].request];
        }
      }
      assert ids[..|ids|] == ids;
    }
  }
}
