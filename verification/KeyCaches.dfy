/**
 The cache of the issuer's signing keys (oidc.rs).

 Calls hold the cache's lock while they fetch, so they take turns; each reads
 the clock several times as it goes. The lemmas bound, over any sequence of
 calls and whatever the fetches return, how often keys are fetched and how old
 a key can be that is used. Times are nanoseconds of the monotonic clock.
 */
module KeyCaches {
  import opened Wrappers

  type Key = nat
  type KeySet = map<string, Key>

  /** How long a fetched key set is used as it is: an hour. */
  const TTL: nat := 3_600_000_000_000
  /** How old it may get while it cannot be fetched again: a day. */
  const MAX_STALE: nat := 86_400_000_000_000
  /** The least time between fetches: a minute. */
  const MIN_REFETCH: nat := 60_000_000_000

  datatype Error = Unavailable | Invalid

  datatype Cache = Cache(keys: KeySet, fetched: Option<nat>, attempted: Option<nat>)

  const EMPTY := Cache(map[], None, None)

  /**
   A call for a key: the clock at each of its readings, in order, and what a
   fetch would return if it makes one.
   */
  datatype Call = Call(kid: string, begun: nat, decided: nat, started: nat, returned: nat, ended: nat, response: Option<KeySet>)

  predicate InOrder(c: Call) {
    c.begun <= c.decided <= c.started <= c.returned <= c.ended
  }

  function Elapsed(since: nat, now: nat): nat {
    if since <= now then now - since else 0
  }

  predicate Fresh(cache: Cache, now: nat) {
    cache.fetched.Some? && Elapsed(cache.fetched.value, now) < TTL
  }

  predicate Hits(cache: Cache, c: Call) {
    Fresh(cache, c.begun) && c.kid in cache.keys
  }

  /** The call fetches the key set. */
  predicate Fetches(cache: Cache, c: Call) {
    !Hits(cache, c) && (cache.attempted.None? || Elapsed(cache.attempted.value, c.decided) >= MIN_REFETCH)
  }

  function Refetched(cache: Cache, c: Call): Cache {
    if !Fetches(cache, c) then cache
    else if c.response.Some? then Cache(c.response.value, Some(c.returned), Some(c.started))
    else cache.(attempted := Some(c.started))
  }

  function Answered(cache: Cache, c: Call): Result<Key, Error> {
    var after := Refetched(cache, c);
    if Hits(cache, c) then Ok(cache.keys[c.kid])
    else if after.fetched.None? || Elapsed(after.fetched.value, c.ended) >= MAX_STALE then Err(Unavailable)
    else if c.kid in after.keys then Ok(after.keys[c.kid])
    else Err(Invalid)
  }

  /** The cache as the source updates it, in place under its lock. */
  class KeyCache {
    var keys: KeySet
    var fetched: Option<nat>
    var attempted: Option<nat>

    constructor ()
      ensures View() == EMPTY
    {
      keys, fetched, attempted := map[], None, None;
    }

    ghost function View(): Cache
      reads this
    {
      Cache(keys, fetched, attempted)
    }

    method Key(c: Call) returns (result: Result<Key, Error>)
      modifies this
      ensures View() == Refetched(old(View()), c) && result == Answered(old(View()), c)
    {
      var recent := fetched.Some? && Elapsed(fetched.value, c.begun) < TTL;
      if recent && c.kid in keys {
        return Ok(keys[c.kid]);
      }
      if attempted.None? || Elapsed(attempted.value, c.decided) >= MIN_REFETCH {
        attempted := Some(c.started);
        if c.response.Some? {
          keys := c.response.value;
          fetched := Some(c.returned);
        }
      }
      if fetched.None? || Elapsed(fetched.value, c.ended) >= MAX_STALE {
        return Err(Unavailable);
      }
      result := if c.kid in keys then Ok(keys[c.kid]) else Err(Invalid);
    }
  }

  // ---------------------------------------------------------------------
  // Sequences of calls.

  /** Each call reads the clock in order, after the ones before it. */
  predicate TakeTurns(calls: seq<Call>) {
    && (forall i :: 0 <= i < |calls| ==> InOrder(calls[i]))
    && (forall i, j :: 0 <= i < j < |calls| ==> calls[i].ended <= calls[j].begun)
  }

  function After(calls: seq<Call>): Cache {
    if calls == [] then EMPTY else Refetched(After(calls[..|calls| - 1]), calls[|calls| - 1])
  }

  predicate FetchedAt(calls: seq<Call>, i: int) {
    0 <= i < |calls| && Fetches(After(calls[..i]), calls[i])
  }

  /** The `i`-th call fetched a key set, and no later call has since. */
  predicate LatestSuccess(calls: seq<Call>, i: int) {
    && FetchedAt(calls, i) && calls[i].response.Some?
    && forall j :: i < j < |calls| && FetchedAt(calls, j) ==> calls[j].response.None?
  }

  predicate LatestAttempt(calls: seq<Call>, i: int) {
    FetchedAt(calls, i) && forall j :: i < j < |calls| ==> !FetchedAt(calls, j)
  }

  lemma FetchedBefore(calls: seq<Call>, i: int)
    requires calls != [] && i < |calls| - 1
    ensures FetchedAt(calls, i) <==> FetchedAt(calls[..|calls| - 1], i)
  {
    if 0 <= i {
      assert calls[..|calls| - 1][..i] == calls[..i];
    }
  }

  /** The cache remembers when the latest fetch began, if there was one. */
  lemma {:induction false} RemembersAttempt(calls: seq<Call>)
    ensures var cache := After(calls);
            if cache.attempted.Some?
            then exists i :: LatestAttempt(calls, i) && cache.attempted.value == calls[i].started
            else forall i :: !FetchedAt(calls, i)
  {
    if calls != [] {
      var n := |calls| - 1;
      var before := calls[..n];
      RemembersAttempt(before);
      forall i | i < n {
        FetchedBefore(calls, i);
      }
      if FetchedAt(calls, n) {
        assert LatestAttempt(calls, n);
      } else if After(before).attempted.Some? {
        var i :| LatestAttempt(before, i) && After(before).attempted.value == before[i].started;
        assert LatestAttempt(calls, i);
      }
    }
  }

  /** The cache holds the latest key set fetched, and when it came, if one ever did. */
  lemma {:induction false} HoldsLatestSuccess(calls: seq<Call>)
    ensures var cache := After(calls);
            if cache.fetched.Some?
            then exists i :: LatestSuccess(calls, i) && cache.fetched.value == calls[i].returned && cache.keys == calls[i].response.value
            else cache.keys == map[] && forall i :: FetchedAt(calls, i) ==> calls[i].response.None?
  {
    if calls != [] {
      var n := |calls| - 1;
      var before := calls[..n];
      HoldsLatestSuccess(before);
      forall i | i < n {
        FetchedBefore(calls, i);
      }
      if FetchedAt(calls, n) && calls[n].response.Some? {
        assert LatestSuccess(calls, n);
      } else if After(before).fetched.Some? {
        var i :| LatestSuccess(before, i) && After(before).fetched.value == before[i].returned &&
                 After(before).keys == before[i].response.value;
        StillLatest(calls, i);
      }
    }
  }

  /** A success stays the latest through a call that fetches nothing. */
  lemma StillLatest(calls: seq<Call>, i: int)
    requires calls != [] && LatestSuccess(calls[..|calls| - 1], i)
    requires FetchedAt(calls, |calls| - 1) ==> calls[|calls| - 1].response.None?
    ensures LatestSuccess(calls, i)
  {
    forall j | j < |calls| - 1 {
      FetchedBefore(calls, j);
    }
  }

  /** Fetches begin at least a minute apart. */
  lemma FetchesAreApart(calls: seq<Call>, i: nat, j: nat)
    requires TakeTurns(calls) && i < j && FetchedAt(calls, i) && FetchedAt(calls, j)
    ensures calls[j].started >= calls[i].started + MIN_REFETCH
  {
    var before := calls[..j];
    RemembersAttempt(before);
    assert before[..i] == calls[..i];
    assert FetchedAt(before, i);
    var k :| LatestAttempt(before, k) && After(before).attempted.value == before[k].started;
    assert k >= i;
    if k > i {
      assert calls[i].ended <= calls[k].begun;
    }
    assert calls[k].ended <= calls[j].begun;
  }

  /** When the call answers with the key of a fetch, how old that key set is. */
  predicate Young(c: Call, returned: nat) {
    Elapsed(returned, c.begun) < TTL || Elapsed(returned, c.ended) < MAX_STALE
  }

  /**
   A key that is returned is from the latest key set that was fetched, which
   came less than a day ago (or less than an hour ago, when the call began).
   */
  lemma ReturnedKeysAreYoung(calls: seq<Call>)
    requires TakeTurns(calls) && calls != []
    requires Answered(After(calls[..|calls| - 1]), calls[|calls| - 1]).Ok?
    ensures var c := calls[|calls| - 1];
            exists i :: LatestSuccess(calls, i) && c.kid in calls[i].response.value && Young(c, calls[i].returned) &&
                        Answered(After(calls[..|calls| - 1]), c) == Ok(calls[i].response.value[c.kid])
  {
    HoldsLatestSuccess(calls);
    var i :| LatestSuccess(calls, i) && After(calls).fetched.value == calls[i].returned && After(calls).keys == calls[i].response.value;
  }

  /** A fetch failed lately: during the call, or in an earlier one begun less than a minute before it decided. */
  ghost predicate FailedLately(calls: seq<Call>, since: int) {
    var n := |calls| - 1;
    exists k :: since < k < |calls| && LatestAttempt(calls, k) && calls[k].response.None? &&
                (k == n || Elapsed(calls[k].started, calls[n].decided) < MIN_REFETCH)
  }

  /** The cache a call finds when the `i`-th call fetched the latest key set. */
  lemma FoundStale(calls: seq<Call>, i: int)
    requires calls != [] && LatestSuccess(calls, i) && i < |calls| - 1
    ensures After(calls[..|calls| - 1]).fetched == Some(calls[i].returned)
  {
    var before := calls[..|calls| - 1];
    HoldsLatestSuccess(before);
    forall j | j < |calls| - 1 {
      FetchedBefore(calls, j);
    }
    assert LatestSuccess(before, i);
    var s :| LatestSuccess(before, s) && After(before).fetched.value == before[s].returned;
    SameSuccess(before, i, s);
  }

  /** A call that neither finds its key nor fetches is held back by the latest attempt. */
  lemma HeldBack(calls: seq<Call>) returns (k: int)
    requires calls != [] && !FetchedAt(calls, |calls| - 1) && !Hits(After(calls[..|calls| - 1]), calls[|calls| - 1])
    ensures k < |calls| - 1 && LatestAttempt(calls, k) && Elapsed(calls[k].started, calls[|calls| - 1].decided) < MIN_REFETCH
  {
    var before := calls[..|calls| - 1];
    RemembersAttempt(before);
    k :| LatestAttempt(before, k) && After(before).attempted.value == before[k].started;
    forall j | j < |calls| - 1 {
      FetchedBefore(calls, j);
    }
  }

  /** A key set over an hour old is used only when a fetch failed lately. */
  lemma OldKeysMeanAFailedFetch(calls: seq<Call>, i: int)
    requires TakeTurns(calls) && calls != [] && LatestSuccess(calls, i)
    requires Elapsed(calls[i].returned, calls[|calls| - 1].begun) >= TTL
    ensures FailedLately(calls, i)
  {
    var n := |calls| - 1;
    assert i < n;
    FoundStale(calls, i);
    if FetchedAt(calls, n) {
      assert LatestAttempt(calls, n);
    } else {
      var k := HeldBack(calls);
      AttemptIsLater(calls, i, k);
    }
  }

  lemma SameSuccess(calls: seq<Call>, i: int, s: int)
    requires LatestSuccess(calls, i) && LatestSuccess(calls, s)
    ensures i == s
  {
  }

  /** An attempt less than a minute old is later than a success over an hour old, and so it failed. */
  lemma AttemptIsLater(calls: seq<Call>, i: int, k: int)
    requires TakeTurns(calls) && calls != [] && LatestSuccess(calls, i) && LatestAttempt(calls, k) && k < |calls| - 1
    requires Elapsed(calls[i].returned, calls[|calls| - 1].begun) >= TTL
    requires Elapsed(calls[k].started, calls[|calls| - 1].decided) < MIN_REFETCH
    ensures i < k && calls[k].response.None?
  {
    assert calls[i].ended <= calls[|calls| - 1].begun;
    assert k >= i;
  }

  // ---------------------------------------------------------------------
  // Exactly when a call fetches, and what it answers.

  /** The latest key set fetched before the last call has its key, and was under an hour old when that call began. */
  predicate InUse(calls: seq<Call>, i: int)
    requires calls != []
  {
    var c := calls[|calls| - 1];
    && 0 <= i < |calls| - 1 && LatestSuccess(calls[..|calls| - 1], i)
    && c.kid in calls[i].response.value && c.begun < calls[i].returned + 3_600_000_000_000
  }

  lemma FoundSuccess(calls: seq<Call>, i: int)
    requires TakeTurns(calls) && calls != [] && LatestSuccess(calls[..|calls| - 1], i)
    ensures var cache := After(calls[..|calls| - 1]);
            cache.fetched == Some(calls[i].returned) && cache.keys == calls[i].response.value
    ensures calls[i].returned <= calls[|calls| - 1].begun
  {
    var before := calls[..|calls| - 1];
    HoldsLatestSuccess(before);
    var s :| LatestSuccess(before, s) && After(before).fetched.value == before[s].returned && After(before).keys == before[s].response.value;
    SameSuccess(before, i, s);
    assert InOrder(calls[i]) && calls[i].ended <= calls[|calls| - 1].begun;
  }

  lemma HitsExactly(calls: seq<Call>)
    requires TakeTurns(calls) && calls != []
    ensures Hits(After(calls[..|calls| - 1]), calls[|calls| - 1]) <==> exists i :: InUse(calls, i)
  {
    var before, c := calls[..|calls| - 1], calls[|calls| - 1];
    HoldsLatestSuccess(before);
    if i :| InUse(calls, i) {
      FoundSuccess(calls, i);
    }
    if Hits(After(before), c) {
      var i :| LatestSuccess(before, i) && After(before).fetched.value == before[i].returned && After(before).keys == before[i].response.value;
      FoundSuccess(calls, i);
      assert InUse(calls, i);
    }
  }

  /** Every fetch before the last call began at least a minute before that decided. */
  predicate LongSince(calls: seq<Call>)
    requires calls != []
  {
    var n := |calls| - 1;
    forall i :: 0 <= i < n && FetchedAt(calls[..n], i) ==> calls[n].decided >= calls[i].started + 60_000_000_000
  }

  lemma StartedBefore(calls: seq<Call>, i: int, k: int)
    requires TakeTurns(calls) && 0 <= i <= k < |calls| - 1
    ensures calls[i].started <= calls[k].started <= calls[|calls| - 1].decided
  {
    assert InOrder(calls[i]) && InOrder(calls[k]) && InOrder(calls[|calls| - 1]);
    assert i < k ==> calls[i].ended <= calls[k].begun;
    assert calls[k].ended <= calls[|calls| - 1].begun;
  }

  lemma MayFetchExactly(calls: seq<Call>)
    requires TakeTurns(calls) && calls != []
    ensures var attempted := After(calls[..|calls| - 1]).attempted;
            attempted.None? || Elapsed(attempted.value, calls[|calls| - 1].decided) >= MIN_REFETCH <==> LongSince(calls)
  {
    var before := calls[..|calls| - 1];
    RemembersAttempt(before);
    if After(before).attempted.Some? {
      var k :| LatestAttempt(before, k) && After(before).attempted.value == before[k].started;
      StartedBefore(calls, k, k);
      forall i | FetchedAt(before, i)
        ensures calls[i].started <= calls[k].started
      {
        StartedBefore(calls, i, k);
      }
    }
  }

  /** A call fetches exactly if no key set in use has its key and every fetch before it began at least a minute ago. */
  lemma FetchesExactly(calls: seq<Call>)
    requires TakeTurns(calls) && calls != []
    ensures FetchedAt(calls, |calls| - 1) <==> (!exists i :: InUse(calls, i)) && LongSince(calls)
  {
    HitsExactly(calls);
    MayFetchExactly(calls);
  }

  /** The last call may be answered from the latest key set fetched: in use when it began, or under a day old when it ends. */
  predicate Serves(calls: seq<Call>, i: int)
    requires calls != []
  {
    var n := |calls| - 1;
    && LatestSuccess(calls, i)
    && ((i < n && calls[n].begun < calls[i].returned + 3_600_000_000_000) || calls[n].ended < calls[i].returned + 86_400_000_000_000)
  }

  /** The latest key set fetched does not have the key, and is under a day old when the call ends. */
  predicate Lacks(calls: seq<Call>, i: int)
    requires calls != []
  {
    var n := |calls| - 1;
    LatestSuccess(calls, i) && calls[n].kid !in calls[i].response.value && calls[n].ended < calls[i].returned + 86_400_000_000_000
  }

  lemma SuccessIsBefore(calls: seq<Call>, i: int)
    requires calls != [] && LatestSuccess(calls, i) && i < |calls| - 1
    ensures LatestSuccess(calls[..|calls| - 1], i)
  {
    forall j | j < |calls| - 1 {
      FetchedBefore(calls, j);
    }
  }

  lemma LatestIsInUse(calls: seq<Call>, i: int)
    requires TakeTurns(calls) && calls != [] && LatestSuccess(calls, i) && calls[|calls| - 1].kid in calls[i].response.value
    requires i < |calls| - 1 && calls[|calls| - 1].begun < calls[i].returned + 3_600_000_000_000
    ensures Hits(After(calls[..|calls| - 1]), calls[|calls| - 1])
  {
    SuccessIsBefore(calls, i);
    HitsExactly(calls);
    assert InUse(calls, i);
  }

  lemma HitIsServed(calls: seq<Call>, i: int)
    requires TakeTurns(calls) && calls != [] && LatestSuccess(calls, i)
    requires Hits(After(calls[..|calls| - 1]), calls[|calls| - 1])
    ensures Serves(calls, i) && calls[|calls| - 1].kid in calls[i].response.value
  {
    var n := |calls| - 1;
    assert !FetchedAt(calls, n);
    SuccessIsBefore(calls, i);
    FoundSuccess(calls, i);
  }

  /**
   A call answers with a key exactly if the latest key set fetched by its end
   has that key and may serve it; that there is no such key if the set is young
   enough but lacks it; and that none is available otherwise.
   */
  lemma AnswersExactly(calls: seq<Call>)
    requires TakeTurns(calls) && calls != []
    ensures var c, answer := calls[|calls| - 1], Answered(After(calls[..|calls| - 1]), calls[|calls| - 1]);
            && (answer.Ok? <==> exists i :: Serves(calls, i) && c.kid in calls[i].response.value)
            && (answer == Err(Invalid) <==> exists i :: Lacks(calls, i))
            && (forall i :: LatestSuccess(calls, i) && answer.Ok? ==> c.kid in calls[i].response.value && answer.value == calls[i].response.value[c.kid])
  {
    HoldsLatestSuccess(calls);
    if s :| LatestSuccess(calls, s) {
      AnswersFrom(calls, s);
      forall i | LatestSuccess(calls, i)
        ensures i == s
      {
        SameSuccess(calls, i, s);
      }
    }
  }

  lemma AnswersFrom(calls: seq<Call>, s: int)
    requires TakeTurns(calls) && calls != [] && LatestSuccess(calls, s)
    ensures var c, answer := calls[|calls| - 1], Answered(After(calls[..|calls| - 1]), calls[|calls| - 1]);
            && (answer.Ok? <==> Serves(calls, s) && c.kid in calls[s].response.value)
            && (answer.Ok? ==> answer.value == calls[s].response.value[c.kid])
            && (answer == Err(Invalid) <==> Lacks(calls, s))
  {
    var n := |calls| - 1;
    HoldsLatestSuccess(calls);
    var i :| LatestSuccess(calls, i) && After(calls).fetched.value == calls[i].returned && After(calls).keys == calls[i].response.value;
    SameSuccess(calls, i, s);
    ReturnsInTime(calls, s);
    if Hits(After(calls[..n]), calls[n]) {
      HitIsServed(calls, s);
    } else if Serves(calls, s) && calls[n].kid in calls[s].response.value && calls[n].ended >= calls[s].returned + 86_400_000_000_000 {
      LatestIsInUse(calls, s);
    }
  }

  lemma ReturnsInTime(calls: seq<Call>, i: int)
    requires TakeTurns(calls) && 0 <= i < |calls|
    ensures calls[i].returned <= calls[|calls| - 1].ended
  {
    assert InOrder(calls[i]) && InOrder(calls[|calls| - 1]);
    assert i < |calls| - 1 ==> calls[i].ended <= calls[|calls| - 1].begun;
  }
}
