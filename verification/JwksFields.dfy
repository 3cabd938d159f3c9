/**
 The fields of the JWT validator that goroutines share, and what each critical
 section does to them. The class `JwtValidators.JwtValidator` is proved against
 these functions; `JwksProtocol` interleaves them.
 */
module JwksFields {
  import opened Wrappers

  type Time = int  // nanoseconds on the process clock

  const SECOND: Time := 1_000_000_000
  const RETRY_MAX_ATTEMPTS := 5
  const JWKS_STALE_REFRESH_INTERVAL: Time := 3600 * SECOND
  const JWKS_REFRESH_MIN_INTERVAL: Time := 60 * SECOND
  const UNKNOWN_KID_CACHE_TTL: Time := 300 * SECOND
  const UNKNOWN_KID_CACHE_MAX_ENTRIES := 1024

  type Kid = string
  datatype Key = Key(n: nat, e: nat)
  type KeySet = map<Kid, Key>

  datatype FetchResult = Fetched | Failed

  /** One refresh: how often its `done` channel was closed, and its result once known. */
  datatype Call = Call(closes: nat, err: Option<FetchResult>)

  datatype Fields = Fields(
    publicKeys: KeySet,
    lastFetch: Option<Time>,
    lastRefreshAttempt: Option<Time>,
    refreshCall: Option<nat>,  // index into calls
    calls: seq<Call>,
    unknownKIDs: map<Kid, Time>,
    ready: bool,
    attempts: nat,
    successes: nat,
    failures: nat,
    skipped: nat,
    coalesced: nat,
    unknownTotal: nat,
    unknownHits: nat)

  const INITIAL := Fields(map[], None, None, None, [], map[], false, 0, 0, 0, 0, 0, 0, 0)

  datatype StartOutcome = Joined(call: nat) | Skipped | Started(call: nat)

  predicate InCooldown(now: Time, last: Option<Time>)
  {
    last.Some? && now - last.value < JWKS_REFRESH_MIN_INTERVAL
  }

  /** The section of `startPublicKeysRefresh` under refreshMu; `now` and `lastFetch` were read before. */
  function StartRefresh(f: Fields, now: Time, lastFetch: Option<Time>): (Fields, StartOutcome)
  {
    if f.refreshCall.Some? then
      (f.(coalesced := f.coalesced + 1), Joined(f.refreshCall.value))
    else if InCooldown(now, f.lastRefreshAttempt) || InCooldown(now, lastFetch) then
      (f.(skipped := f.skipped + 1), Skipped)
    else
      var call := |f.calls|;
      (f.(lastRefreshAttempt := Some(now), refreshCall := Some(call), calls := f.calls + [Call(0, None)]),
       Started(call))
  }

  /** The last section of the refresh goroutine: publish the result and close `done`. */
  function FinishRefresh(f: Fields, call: nat, result: FetchResult): Fields
    requires call < |f.calls|
  {
    f.(calls := f.calls[call := Call(f.calls[call].closes + 1, Some(result))], refreshCall := None)
  }

  function InstallKeys(f: Fields, keys: KeySet, now: Time): Fields
  {
    f.(publicKeys := keys, lastFetch := Some(now))
  }

  function ClearUnknown(f: Fields): Fields
  {
    f.(unknownKIDs := map[])
  }

  /** `unknownKIDCached`: an expired entry is deleted and counts as absent. */
  function LookupUnknown(f: Fields, kid: Kid, now: Time): (Fields, bool)
  {
    if kid !in f.unknownKIDs then (f, false)
    else if now > f.unknownKIDs[kid] then (f.(unknownKIDs := f.unknownKIDs - {kid}), false)
    else (f.(unknownHits := f.unknownHits + 1), true)
  }

  function Pruned(unknown: map<Kid, Time>, now: Time): map<Kid, Time>
  {
    map kid | kid in unknown && !(now > unknown[kid]) :: unknown[kid]
  }

  predicate EvictionChoice(unknown: map<Kid, Time>, now: Time, victim: Kid)
  {
    |Pruned(unknown, now)| >= UNKNOWN_KID_CACHE_MAX_ENTRIES ==> victim in Pruned(unknown, now)
  }

  /** `rememberUnknownKID`: prune, make room by evicting `victim` when full, insert. */
  function Remembered(unknown: map<Kid, Time>, kid: Kid, now: Time, victim: Kid): map<Kid, Time>
  {
    var pruned := Pruned(unknown, now);
    var room := if |pruned| >= UNKNOWN_KID_CACHE_MAX_ENTRIES then pruned - {victim} else pruned;
    room[kid := now + UNKNOWN_KID_CACHE_TTL]
  }

  lemma SubmapSize<K, V, W>(small: map<K, V>, big: map<K, W>)
    requires small.Keys <= big.Keys
    ensures |small| <= |big|
  {
    SubsetSize(small.Keys, big.Keys);
  }

  lemma SubsetSize<T>(small: set<T>, big: set<T>)
    requires small <= big
    ensures |small| <= |big|
  {
    assert big == small + (big - small);
  }

  lemma MakeRoom<T>(before: set<T>, kept: set<T>, victim: T, added: T, max: nat)
    requires kept <= before && |before| <= max && 0 < max
    requires |kept| >= max ==> victim in kept
    ensures |(if |kept| >= max then kept - {victim} else kept) + {added}| <= max
  {
    SubsetSize(kept, before);
    var room := if |kept| >= max then kept - {victim} else kept;
    assert |room| < max;
  }

  lemma RememberedKeys(unknown: map<Kid, Time>, kid: Kid, now: Time, victim: Kid)
    ensures Pruned(unknown, now).Keys <= unknown.Keys
    ensures Remembered(unknown, kid, now, victim).Keys ==
            (if |Pruned(unknown, now).Keys| >= UNKNOWN_KID_CACHE_MAX_ENTRIES then Pruned(unknown, now).Keys - {victim}
             else Pruned(unknown, now).Keys) + {kid}
  {
    var pruned := Pruned(unknown, now);
    assert pruned.Keys <= unknown.Keys;
    hide Pruned;
    assert |pruned| == |pruned.Keys|;
    assert (pruned - {victim}).Keys == pruned.Keys - {victim};
  }

  /** The negative cache never grows past its maximum, whichever entry is evicted. */
  lemma RememberedBound(unknown: map<Kid, Time>, kid: Kid, now: Time, victim: Kid)
    requires |unknown| <= UNKNOWN_KID_CACHE_MAX_ENTRIES
    requires EvictionChoice(unknown, now, victim)
    ensures |Remembered(unknown, kid, now, victim)| <= 1024
    ensures kid in Remembered(unknown, kid, now, victim)
    ensures Remembered(unknown, kid, now, victim).Keys <= unknown.Keys + {kid}
  {
    hide Pruned, Remembered;
    var pruned := Pruned(unknown, now);
    var after := Remembered(unknown, kid, now, victim);
    RememberedKeys(unknown, kid, now, victim);
    MakeRoom(unknown.Keys, pruned.Keys, victim, kid, UNKNOWN_KID_CACHE_MAX_ENTRIES);
    assert |unknown| == |unknown.Keys| && |pruned| == |pruned.Keys| && |after| == |after.Keys|;
  }

  /**
   After remembering a kid it is cached for five minutes from now; every other entry is kept as it
   was, but for the expired ones and, only in a cache full of live ones, the evicted one.
   */
  lemma RememberedExactly(unknown: map<Kid, Time>, kid: Kid, now: Time, victim: Kid, other: Kid)
    ensures var after := Remembered(unknown, kid, now, victim);
            var full := |Pruned(unknown, now)| >= UNKNOWN_KID_CACHE_MAX_ENTRIES;
            && kid in after && after[kid] == now + 300 * SECOND
            && (other != kid ==>
                  && (other in after <==> other in unknown && now <= unknown[other] && !(full && other == victim))
                  && (other in after ==> after[other] == unknown[other]))
  {
  }
}
