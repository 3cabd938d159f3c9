/** The JWT validator object: each method is one critical section, proved against `JwksFields`. */
module JwtValidators {
  import opened Wrappers
  import opened JwksFields
  import opened JwksProtocol

  predicate Usable(response: Option<KeySet>)
  {
    response.Some? && response.value != map[]
  }

  /** The steps of one fetch run back to back. */
  function Fetching(f: Fields, response: Option<KeySet>, now: Time): Fields
  {
    var (f1, pc1) := FetchStep(f, Begin, response, now);
    var (f2, pc2) := FetchStep(f1, pc1, response, now);
    var (f3, pc3) := FetchStep(f2, pc2, response, now);
    var (f4, pc4) := FetchStep(f3, pc3, response, now);
    FetchStep(f4, pc4, response, now).0
  }

  /** The number of responses before the first usable one. */
  function FailedBefore(responses: seq<Option<KeySet>>): (n: nat)
    ensures n <= |responses|
    ensures n < |responses| ==> Usable(responses[n])
    ensures forall i :: 0 <= i < n ==> !Usable(responses[i])
  {
    if responses == [] || Usable(responses[0]) then 0 else 1 + FailedBefore(responses[1..])
  }

  lemma FetchingEffect(f: Fields, response: Option<KeySet>, now: Time)
    ensures Fetching(f, response, now) ==
            if Usable(response) then
              f.(attempts := f.attempts + 1, publicKeys := response.value, lastFetch := Some(now), unknownKIDs := map[],
                 successes := f.successes + 1)
            else f.(attempts := f.attempts + 1, failures := f.failures + 1)
  {
  }

  /** One turn of the init loop: whether it sees the stop signal, and else the answer it gets and when. */
  datatype Round = Round(stopped: bool, response: Option<KeySet>, now: Time)

  /** What the turns so far leave: fetches back to back until one succeeds or the stop signal is seen. */
  function Initialised(f: Fields, rounds: seq<Round>): Fields
    decreases rounds
  {
    if rounds == [] || rounds[0].stopped then f
    else
      var fetched := Fetching(f, rounds[0].response, rounds[0].now);
      if Usable(rounds[0].response) then fetched.(ready := true) else Initialised(fetched, rounds[1..])
  }

  function UntilStop(rounds: seq<Round>): seq<Option<KeySet>>
  {
    if rounds == [] || rounds[0].stopped then [] else [rounds[0].response] + UntilStop(rounds[1..])
  }

  predicate Succeeds(rounds: seq<Round>)
  {
    FailedBefore(UntilStop(rounds)) < |UntilStop(rounds)|
  }

  lemma FirstAnswer(rounds: seq<Round>)
    requires rounds != [] && !rounds[0].stopped
    ensures var answers, rest := UntilStop(rounds), UntilStop(rounds[1..]);
            && answers == [rounds[0].response] + rest
            && FailedBefore(answers) == if Usable(rounds[0].response) then 0 else 1 + FailedBefore(rest)
  {
    assert UntilStop(rounds)[1..] == UntilStop(rounds[1..]);
  }

  lemma NoSuccess(rounds: seq<Round>)
    ensures forall i :: 0 <= i <= |rounds| && (i == |rounds| || rounds[i].stopped) ==> !Succeeds(rounds[i..])
  {
  }

  lemma NextAnswer(rounds: seq<Round>)
    requires rounds != [] && !rounds[0].stopped
    ensures Succeeds(rounds) <==> Usable(rounds[0].response) || Succeeds(rounds[1..])
  {
    assert UntilStop(rounds)[1..] == UntilStop(rounds[1..]);
  }

  /**
   The validator becomes ready, with the keys of the first usable answer before a stop, exactly if
   there is one; every other answer until then is a failure.
   */
  lemma {:induction false} InitialisedExactly(f: Fields, rounds: seq<Round>)
    ensures var answers := UntilStop(rounds);
            var n := FailedBefore(answers);
            var done := n < |answers|;
            var r := Initialised(f, rounds);
            && r.ready == (f.ready || done)
            && r.failures == f.failures + n
            && r.successes == f.successes + (if done then 1 else 0)
            && r.attempts == f.attempts + n + (if done then 1 else 0)
            && r.publicKeys == (if done then answers[n].value else f.publicKeys)
            && r.unknownKIDs == (if done then map[] else f.unknownKIDs)
            && (done ==> n < |rounds| && r.lastFetch == Some(rounds[n].now))
            && (!done ==> r.lastFetch == f.lastFetch)
    decreases rounds
  {
    if rounds != [] && !rounds[0].stopped {
      FetchingEffect(f, rounds[0].response, rounds[0].now);
      FirstAnswer(rounds);
      hide Fetching, UntilStop, FailedBefore;
      if !Usable(rounds[0].response) {
        InitialisedExactly(Fetching(f, rounds[0].response, rounds[0].now), rounds[1..]);
      }
    }
  }

  class JwtValidator {
    var publicKeys: KeySet
    var lastFetch: Option<Time>
    var lastRefreshAttempt: Option<Time>
    var refreshCall: Option<nat>
    var calls: seq<Call>
    var unknownKIDs: map<Kid, Time>
    var ready: bool
    var attempts: nat
    var successes: nat
    var failures: nat
    var skipped: nat
    var coalesced: nat
    var unknownTotal: nat
    var unknownHits: nat

    function View(): Fields
      reads this
    {
      Fields(publicKeys, lastFetch, lastRefreshAttempt, refreshCall, calls, unknownKIDs, ready,
             attempts, successes, failures, skipped, coalesced, unknownTotal, unknownHits)
    }

    constructor ()
      ensures View() == INITIAL
    {
      publicKeys, lastFetch, lastRefreshAttempt, refreshCall := map[], None, None, None;
      calls, unknownKIDs, ready := [], map[], false;
      attempts, successes, failures, skipped, coalesced, unknownTotal, unknownHits := 0, 0, 0, 0, 0, 0, 0;
    }

    /** One `fetchPublicKeys` that nobody interrupts. */
    method FetchPublicKeys(response: Option<KeySet>, now: Time) returns (result: FetchResult)
      modifies this
      ensures result == if Usable(response) then Fetched else Failed
      ensures View() == Fetching(old(View()), response, now)
    {
      FetchingEffect(View(), response, now);
      hide Fetching;
      attempts := attempts + 1;
      if response.None? || response.value == map[] {
        failures := failures + 1;
        return Failed;
      }
      SwapKeys(response.value, now);
      ClearUnknownKIDs();
      successes := successes + 1;
      return Fetched;
    }

    /** The section of `fetchPublicKeysOnce` under keysMu. */
    method SwapKeys(keys: KeySet, now: Time)
      modifies this`publicKeys, this`lastFetch
      ensures View() == InstallKeys(old(View()), keys, now)
    {
      publicKeys := keys;
      lastFetch := Some(now);
    }

    /** The section of `fetchPublicKeysOnce` under unknownKIDMu. */
    method ClearUnknownKIDs()
      modifies this`unknownKIDs
      ensures View() == ClearUnknown(old(View()))
    {
      unknownKIDs := map[];
    }

    /** `initLoop` as far as `rounds` goes: the active attempts, then the slow poll. */
    method InitLoop(rounds: seq<Round>) returns (done: bool)
      modifies this
      ensures View() == Initialised(old(View()), rounds)
      ensures done == Succeeds(rounds)
    {
      hide Fetching, Usable, Succeeds;
      NoSuccess(rounds);
      ghost var before := View();
      var i := 0;
      done := false;
      while i < |rounds| && i < RETRY_MAX_ATTEMPTS
        invariant 0 <= i <= |rounds|
        invariant Initialised(before, rounds) == Initialised(View(), rounds[i..])
        invariant Succeeds(rounds) == Succeeds(rounds[i..])
      {
        if rounds[i].stopped {
          return false;
        }
        assert rounds[i..][1..] == rounds[i + 1..];
        NextAnswer(rounds[i..]);
        done := Attempt(rounds[i].response, rounds[i].now);
        if done {
          return;
        }
        i := i + 1;
      }
      while i < |rounds|
        invariant 0 <= i <= |rounds|
        invariant Initialised(before, rounds) == Initialised(View(), rounds[i..])
        invariant Succeeds(rounds) == Succeeds(rounds[i..])
      {
        if rounds[i].stopped {
          return false;
        }
        assert rounds[i..][1..] == rounds[i + 1..];
        NextAnswer(rounds[i..]);
        done := Attempt(rounds[i].response, rounds[i].now);
        if done {
          return;
        }
        i := i + 1;
      }
      return false;
    }

    /** One fetch of the init loop; a success makes the validator ready. */
    method Attempt(response: Option<KeySet>, now: Time) returns (done: bool)
      modifies this
      ensures done == Usable(response)
      ensures View() == if done then Fetching(old(View()), response, now).(ready := true)
          else Fetching(old(View()), response, now)
    {
      hide Fetching;
      var result := FetchPublicKeys(response, now);
      done := result == Fetched;
      if done {
        ready := true;
      }
    }

    /** The section under refreshMu; the caller read the clock and `lastFetch` before it. */
    method StartPublicKeysRefresh(now: Time, lastFetchRead: Option<Time>) returns (outcome: StartOutcome)
      modifies this
      ensures (View(), outcome) == StartRefresh(old(View()), now, lastFetchRead)
      ensures outcome.Joined? <==> old(refreshCall).Some?
      ensures outcome.Skipped? <==>
              old(refreshCall).None?
              && ((old(lastRefreshAttempt).Some? && now - old(lastRefreshAttempt).value < 60 * SECOND)
                  || (lastFetchRead.Some? && now - lastFetchRead.value < 60 * SECOND))
    {
      if refreshCall.Some? {
        coalesced := coalesced + 1;
        return Joined(refreshCall.value);
      }
      if lastRefreshAttempt.Some? && now - lastRefreshAttempt.value < JWKS_REFRESH_MIN_INTERVAL {
        skipped := skipped + 1;
        return Skipped;
      }
      if lastFetchRead.Some? && now - lastFetchRead.value < JWKS_REFRESH_MIN_INTERVAL {
        skipped := skipped + 1;
        return Skipped;
      }
      lastRefreshAttempt := Some(now);
      refreshCall := Some(|calls|);
      calls := calls + [Call(0, None)];
      return Started(|calls| - 1);
    }

    method FinishPublicKeysRefresh(call: nat, result: FetchResult)
      requires call < |calls|
      modifies this
      ensures View() == FinishRefresh(old(View()), call, result)
    {
      calls := calls[call := calls[call].(err := Some(result))];
      refreshCall := None;
      calls := calls[call := calls[call].(closes := calls[call].closes + 1)];
    }

    method UnknownKIDCached(kid: Kid, now: Time) returns (hit: bool)
      modifies this
      ensures (View(), hit) == LookupUnknown(old(View()), kid, now)
      ensures hit <==> kid in old(unknownKIDs) && now <= old(unknownKIDs)[kid]
      ensures unknownKIDs == if hit then old(unknownKIDs) else old(unknownKIDs) - {kid}
    {
      assert kid !in unknownKIDs ==> unknownKIDs - {kid} == unknownKIDs;
      if kid !in unknownKIDs {
        return false;
      }
      if now > unknownKIDs[kid] {
        unknownKIDs := unknownKIDs - {kid};
        return false;
      }
      unknownHits := unknownHits + 1;
      return true;
    }

    method PruneUnknownKIDsLocked(now: Time)
      modifies this`unknownKIDs
      ensures unknownKIDs == Pruned(old(unknownKIDs), now)
    {
      var todo := unknownKIDs.Keys;
      while todo != {}
        invariant todo <= unknownKIDs.Keys <= old(unknownKIDs).Keys
        invariant forall kid :: kid in unknownKIDs ==> unknownKIDs[kid] == old(unknownKIDs)[kid]
        invariant forall kid :: kid in old(unknownKIDs) && kid !in todo ==>
                    (kid in unknownKIDs <==> !(now > old(unknownKIDs)[kid]))
        decreases todo
      {
        var kid :| kid in todo;
        todo := todo - {kid};
        if now > unknownKIDs[kid] {
          unknownKIDs := unknownKIDs - {kid};
        }
      }
      assert unknownKIDs.Keys == Pruned(old(unknownKIDs), now).Keys;
    }

    /** The evicted entry, if any, is the first one the map iteration happens to yield. */
    method RememberUnknownKID(kid: Kid, now: Time) returns (ghost victim: Kid)
      modifies this`unknownKIDs
      ensures EvictionChoice(old(unknownKIDs), now, victim)
      ensures unknownKIDs == Remembered(old(unknownKIDs), kid, now, victim)
    {
      PruneUnknownKIDsLocked(now);
      victim := kid;
      if |unknownKIDs| >= UNKNOWN_KID_CACHE_MAX_ENTRIES {
        assert unknownKIDs.Keys != {} by {
          assert |unknownKIDs| == |unknownKIDs.Keys|;
        }
        var cached :| cached in unknownKIDs.Keys;
        victim := cached;
        unknownKIDs := unknownKIDs - {cached};
      }
      unknownKIDs := unknownKIDs[kid := now + UNKNOWN_KID_CACHE_TTL];
    }
  }
}
