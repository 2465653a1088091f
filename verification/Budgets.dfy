/**
 The budget policy and the grants it makes (budget.rs).

 The policy gives each consumer a share of each pool; a grant says how much of
 it the consumer has used, and whether to hold. The main lemma spans parsing,
 attribution and grants: while neither consumer is held on a window, the whole
 account is within what the two shares allow together, and so within 100
 percent.
 */
module Budgets {
  import opened Wrappers
  import opened Numbers
  import opened Registry
  import opened Allowances
  import A = Attribution
  import S = WindowState
  import F = StateFiles
  import W = StateWriter
  import Weeks
  import WriterRuns
  import Spending
  import U = Usages

  type Shares = map<Consumer, map<U.Provider, real>>

  datatype Budget = Budget(shares: Shares, mistralCap: Option<real>)

  datatype PolicyError = ShareOutOfRange(pool: U.Provider) | MoreThanWhole(pool: U.Provider) | BadCap | NoCap

  // ---------------------------------------------------------------------
  // The policy.

  predicate HasShare(shares: Shares, consumer: Consumer, pool: U.Provider) {
    consumer in shares && pool in shares[consumer]
  }

  function ShareOf(shares: Shares, consumer: Consumer, pool: U.Provider): real {
    if HasShare(shares, consumer, pool) then shares[consumer][pool] else 0.0
  }

  ghost predicate InRange(pools: map<U.Provider, real>) {
    forall pool :: pool in pools ==> 0.0 <= pools[pool] <= 100.0
  }

  /** What a policy must meet: each share is a percentage, and each pool is shared out once at most. */
  ghost predicate Acceptable(shares: Shares, cap: Option<real>) {
    && (forall consumer :: consumer in shares ==> InRange(shares[consumer]))
    && (forall pool :: ShareOf(shares, Public, pool) + ShareOf(shares, Private, pool) <= 100.0)
    && (cap.Some? ==> cap.value > 0.0)
    && (HasShare(shares, Public, U.Mistral) || HasShare(shares, Private, U.Mistral) ==> cap.Some?)
  }

  type Totals = map<U.Provider, real>

  function TotalIn(totals: Totals, pool: U.Provider): real {
    if pool in totals then totals[pool] else 0.0
  }

  /** Add one consumer's shares to the pools' totals. */
  method AddShares(pools: map<U.Provider, real>, totals: Totals) returns (result: Result<Totals, PolicyError>)
    ensures result.Ok? <==> InRange(pools)
    ensures result.Ok? ==>
              && result.value.Keys == totals.Keys + pools.Keys
              && forall pool :: TotalIn(result.value, pool) == TotalIn(totals, pool) + if pool in pools then pools[pool] else 0.0
    ensures result.Err? ==>
              && result.error.ShareOutOfRange? && result.error.pool in pools
              && !(0.0 <= pools[result.error.pool] <= 100.0)
  {
    var sums, rest := totals, pools.Keys;
    while rest != {}
      invariant rest <= pools.Keys && sums.Keys == totals.Keys + (pools.Keys - rest)
      invariant forall pool :: pool in pools && pool !in rest ==> 0.0 <= pools[pool] <= 100.0
      invariant forall pool :: TotalIn(sums, pool) ==
                               TotalIn(totals, pool) + if pool in pools && pool !in rest then pools[pool] else 0.0
      decreases rest
    {
      var pool :| pool in rest;
      if !(0.0 <= pools[pool] <= 100.0) {
        return Err(ShareOutOfRange(pool));
      }
      sums := sums[pool := (if pool in sums then sums[pool] else 0.0) + pools[pool]];
      rest := rest - {pool};
    }
    return Ok(sums);
  }

  /** A file's policy is taken exactly when it is acceptable. */
  method Parse(shares: Shares, cap: Option<real>) returns (result: Result<Budget, PolicyError>)
    ensures result.Ok? <==> Acceptable(shares, cap)
    ensures result.Ok? ==> result.value == Budget(shares, cap)
  {
    var totals: Totals := map[];
    if Public in shares {
      var added := AddShares(shares[Public], totals);
      if added.Err? {
        return Err(added.error);
      }
      totals := added.value;
    }
    if Private in shares {
      var added := AddShares(shares[Private], totals);
      if added.Err? {
        return Err(added.error);
      }
      totals := added.value;
    }
    assert forall pool :: TotalIn(totals, pool) == ShareOf(shares, Public, pool) + ShareOf(shares, Private, pool);
    var rest := totals.Keys;
    while rest != {}
      invariant forall pool :: pool in totals && pool !in rest ==> TotalIn(totals, pool) <= 100.0
      decreases rest
    {
      var pool :| pool in rest;
      if totals[pool] > 100.0 {
        assert TotalIn(totals, pool) > 100.0;
        return Err(MoreThanWhole(pool));
      }
      rest := rest - {pool};
    }
    forall pool
      ensures ShareOf(shares, Public, pool) + ShareOf(shares, Private, pool) <= 100.0
    {
      assert TotalIn(totals, pool) <= 100.0;
    }
    if cap.Some? && !(cap.value > 0.0) {
      return Err(BadCap);
    }
    if U.Mistral in totals && cap.None? {
      return Err(NoCap);
    }
    forall consumer | consumer in shares
      ensures InRange(shares[consumer])
    {
      assert consumer == Public || consumer == Private;
    }
    return Ok(Budget(shares, cap));
  }

  // ---------------------------------------------------------------------
  // A window's grant.

  datatype Window = Window(used: real, start: nat, secs: nat, resetsAt: Option<u64>, stale: bool)

  datatype WindowGrant = WindowGrant(
    sharePercent: real, allowedPercent: real, usedPercent: real, resetsAt: Option<u64>, hold: bool)

  datatype PoolGrant = PoolGrant(hold: bool, stale: bool, windows: map<string, WindowGrant>)

  datatype Grant = Grant(consumer: Consumer, observedAt: nat, hold: bool, pools: map<U.Provider, PoolGrant>)

  const LEAD: real := 0.1
  const MISTRAL_WINDOW: string := "spend_7d"

  function Minus(a: nat, b: nat): nat {
    if a > b then a - b else 0
  }

  /** The fraction of its share a consumer may have used: paced, if longer than the short windows. */
  function Pace(start: nat, secs: nat, now: nat): real {
    if secs > S.FIVE_HOURS then
      var paced := Minus(now, start) as real / secs as real + LEAD;
      if paced < 1.0 then paced else 1.0
    else 1.0
  }

  /** To two decimals, for people. */
  function Rounded(n: real): real {
    (n * 100.0 + 0.5).Floor as real / 100.0
  }

  predicate Over(w: Window, share: real, now: nat) {
    w.used > share * Pace(w.start, w.secs, now)
  }

  function Granted(w: Window, share: real, now: nat): WindowGrant {
    WindowGrant(share, Rounded(share * Pace(w.start, w.secs, now)), Rounded(w.used), w.resetsAt,
                w.stale || Over(w, share, now))
  }

  // ---------------------------------------------------------------------
  // A consumer's grant.

  datatype MistralSpend = MistralSpend(micros: u64, since: nat)

  datatype Observed = Observed(pool: U.Provider, name: string, window: Option<A.Attributed>)

  datatype Read = Read(name: string, window: Window)

  /** After its stored reset a restored window is no reading. */
  predicate Readable(a: A.Attributed, now: nat) {
    !(a.restored && now >= a.reading.resetsAt)
  }

  function WindowOf(a: A.Attributed, consumer: Consumer, now: nat): Window {
    var aged := Minus(now, Max(a.observedAt, a.loadedAt)) > S.FIVE_HOURS;
    Window(a.used.At(consumer), Minus(a.reading.resetsAt, a.reading.secs), a.reading.secs, Some(a.reading.resetsAt),
           a.partWay || aged)
  }

  predicate IsRead(known: Observed, pool: U.Provider, now: nat) {
    known.pool == pool && known.window.Some? && Readable(known.window.value, now)
  }

  function ReadsOf(observed: seq<Observed>, consumer: Consumer, pool: U.Provider, now: nat): seq<Read> {
    if observed == [] then []
    else
      var rest, last := ReadsOf(observed[..|observed| - 1], consumer, pool, now), observed[|observed| - 1];
      if IsRead(last, pool, now) then rest + [Read(last.name, WindowOf(last.window.value, consumer, now))] else rest
  }

  /** The trailing week has no reset: it is paced from when metering began. */
  function MistralReads(cap: Option<real>, mistral: Option<MistralSpend>, pool: U.Provider): seq<Read>
    requires cap.Some? ==> cap.value > 0.0
  {
    if pool == U.Mistral && cap.Some? && mistral.Some? then
      var spent := mistral.value.micros as real / (cap.value * 1_000_000.0) * 100.0;
      [Read(MISTRAL_WINDOW, Window(spent, mistral.value.since, S.WEEK, None, false))]
    else []
  }

  function AllReads(cap: Option<real>, mistral: Option<MistralSpend>, observed: seq<Observed>, consumer: Consumer,
                    pool: U.Provider, now: nat): seq<Read>
    requires cap.Some? ==> cap.value > 0.0
  {
    MistralReads(cap, mistral, pool) + ReadsOf(observed, consumer, pool, now)
  }

  function Table(seen: seq<Read>, share: real, now: nat): map<string, WindowGrant> {
    if seen == [] then map[]
    else
      var last := seen[|seen| - 1];
      Table(seen[..|seen| - 1], share, now)[last.name := Granted(last.window, share, now)]
  }

  predicate AnyStale(seen: seq<Read>) {
    exists i :: 0 <= i < |seen| && seen[i].window.stale
  }

  predicate AnyHeld(seen: seq<Read>, share: real, now: nat) {
    exists i :: 0 <= i < |seen| && Granted(seen[i].window, share, now).hold
  }

  /** Some fresh window is over its allowance: a stale one must not stop all work. */
  predicate AnyFreshOver(seen: seq<Read>, share: real, now: nat) {
    exists i :: 0 <= i < |seen| && !seen[i].window.stale && Over(seen[i].window, share, now)
  }

  /** A pool nothing is read of is stale and holds. */
  function PoolOf(seen: seq<Read>, share: real, now: nat): PoolGrant {
    PoolGrant(seen == [] || AnyHeld(seen, share, now), seen == [] || AnyStale(seen), Table(seen, share, now))
  }

  /** What a policy's cap must be for Mistral's spend to be a percentage of it. */
  predicate CapIsPositive(b: Budget) {
    b.mistralCap.Some? ==> b.mistralCap.value > 0.0
  }

  function PoolFor(b: Budget, consumer: Consumer, observed: seq<Observed>, mistral: Option<MistralSpend>,
                   pool: U.Provider, now: nat): PoolGrant
    requires CapIsPositive(b) && HasShare(b.shares, consumer, pool)
  {
    PoolOf(AllReads(b.mistralCap, mistral, observed, consumer, pool, now), b.shares[consumer][pool], now)
  }

  predicate HeldOn(b: Budget, consumer: Consumer, observed: seq<Observed>, mistral: Option<MistralSpend>,
                   pool: U.Provider, now: nat)
    requires CapIsPositive(b) && HasShare(b.shares, consumer, pool)
  {
    AnyFreshOver(AllReads(b.mistralCap, mistral, observed, consumer, pool, now), b.shares[consumer][pool], now)
  }

  /** The consumer is over its allowance on a fresh window of one of `pools`. */
  ghost predicate AnyHeldOn(b: Budget, consumer: Consumer, observed: seq<Observed>, mistral: Option<MistralSpend>,
                            pools: set<U.Provider>, now: nat)
    requires CapIsPositive(b) && consumer in b.shares && pools <= b.shares[consumer].Keys
  {
    exists pool :: pool in pools && HeldOn(b, consumer, observed, mistral, pool, now)
  }

  /** A consumer with no shares is held; another, if it is over its allowance on a fresh window. */
  ghost function GrantOf(b: Budget, consumer: Consumer, observed: seq<Observed>, mistral: Option<MistralSpend>, now: nat): Grant
    requires CapIsPositive(b)
  {
    if consumer !in b.shares then Grant(consumer, now, true, map[])
    else
      Grant(consumer, now,
            AnyHeldOn(b, consumer, observed, mistral, b.shares[consumer].Keys, now),
            map pool | pool in b.shares[consumer] :: PoolFor(b, consumer, observed, mistral, pool, now))
  }

  method CollectReads(cap: Option<real>, mistral: Option<MistralSpend>, observed: seq<Observed>, consumer: Consumer,
                      pool: U.Provider, now: nat) returns (seen: seq<Read>)
    requires cap.Some? ==> cap.value > 0.0
    ensures seen == AllReads(cap, mistral, observed, consumer, pool, now)
  {
    seen := [];
    if pool == U.Mistral && cap.Some? && mistral.Some? {
      var spent := mistral.value.micros as real / (cap.value * 1_000_000.0) * 100.0;
      seen := [Read(MISTRAL_WINDOW, Window(spent, mistral.value.since, S.WEEK, None, false))];
    }
    ghost var first := seen;
    for i := 0 to |observed|
      invariant seen == first + ReadsOf(observed[..i], consumer, pool, now)
    {
      assert observed[..i + 1][..i] == observed[..i];
      if observed[i].pool != pool || observed[i].window.None? {
        continue;
      }
      var a := observed[i].window.value;
      if a.restored && now >= a.reading.resetsAt {
        continue;
      }
      seen := seen + [Read(observed[i].name, WindowOf(a, consumer, now))];
    }
    assert observed[..|observed|] == observed;
  }

  /** One pool's grant, and whether it holds the consumer altogether. */
  method GrantPool(seen: seq<Read>, share: real, now: nat) returns (pool: PoolGrant, hold: bool)
    ensures pool == PoolOf(seen, share, now) && hold == AnyFreshOver(seen, share, now)
  {
    if seen == [] {
      return PoolGrant(true, true, map[]), false;
    }
    pool, hold := PoolGrant(false, false, map[]), false;
    for i := 0 to |seen|
      invariant pool.hold == AnyHeld(seen[..i], share, now)
      invariant pool.stale == AnyStale(seen[..i])
      invariant pool.windows == Table(seen[..i], share, now)
      invariant hold == AnyFreshOver(seen[..i], share, now)
    {
      OneMoreRead(seen, i, share, now);
      var window := seen[i].window;
      var grant := Granted(window, share, now);
      pool := PoolGrant(pool.hold || grant.hold, pool.stale || window.stale, pool.windows[seen[i].name := grant]);
      hold := hold || (grant.hold && !window.stale);
    }
    assert seen[..|seen|] == seen;
  }

  lemma OneMoreRead(seen: seq<Read>, i: nat, share: real, now: nat)
    requires i < |seen|
    ensures AnyHeld(seen[..i + 1], share, now) == (AnyHeld(seen[..i], share, now) || Granted(seen[i].window, share, now).hold)
    ensures AnyStale(seen[..i + 1]) == (AnyStale(seen[..i]) || seen[i].window.stale)
    ensures AnyFreshOver(seen[..i + 1], share, now) ==
            (AnyFreshOver(seen[..i], share, now) || (!seen[i].window.stale && Over(seen[i].window, share, now)))
    ensures Table(seen[..i + 1], share, now) ==
            Table(seen[..i], share, now)[seen[i].name := Granted(seen[i].window, share, now)]
  {
    var longer, shorter := seen[..i + 1], seen[..i];
    assert longer[..i] == shorter && longer[i] == seen[i];
    assert forall j :: 0 <= j < i ==> longer[j] == shorter[j];
  }

  method GrantFor(b: Budget, consumer: Consumer, observed: seq<Observed>, mistral: Option<MistralSpend>,
                  pool: U.Provider, now: nat) returns (grant: PoolGrant, over: bool)
    requires CapIsPositive(b) && HasShare(b.shares, consumer, pool)
    ensures grant == PoolFor(b, consumer, observed, mistral, pool, now)
    ensures over == HeldOn(b, consumer, observed, mistral, pool, now)
  {
    var seen := CollectReads(b.mistralCap, mistral, observed, consumer, pool, now);
    grant, over := GrantPool(seen, b.shares[consumer][pool], now);
  }

  /** `pools` has the grants of the pools in `done`. */
  ghost predicate Granting(b: Budget, consumer: Consumer, observed: seq<Observed>, mistral: Option<MistralSpend>,
                           pools: map<U.Provider, PoolGrant>, done: set<U.Provider>, now: nat)
    requires CapIsPositive(b) && consumer in b.shares && done <= b.shares[consumer].Keys
  {
    pools.Keys == done && forall pool :: pool in done ==> pools[pool] == PoolFor(b, consumer, observed, mistral, pool, now)
  }

  lemma OneMorePool(b: Budget, consumer: Consumer, observed: seq<Observed>, mistral: Option<MistralSpend>,
                    done: set<U.Provider>, pool: U.Provider, now: nat)
    requires CapIsPositive(b) && consumer in b.shares && done + {pool} <= b.shares[consumer].Keys
    ensures AnyHeldOn(b, consumer, observed, mistral, done + {pool}, now) ==
            (AnyHeldOn(b, consumer, observed, mistral, done, now) || HeldOn(b, consumer, observed, mistral, pool, now))
  {
  }

  /** The grants of all the pools the consumer has a share of, and whether some pool holds it. */
  method GrantPools(b: Budget, consumer: Consumer, observed: seq<Observed>, mistral: Option<MistralSpend>, now: nat)
    returns (pools: map<U.Provider, PoolGrant>, hold: bool)
    requires CapIsPositive(b) && consumer in b.shares
    ensures Granting(b, consumer, observed, mistral, pools, b.shares[consumer].Keys, now)
    ensures hold == AnyHeldOn(b, consumer, observed, mistral, b.shares[consumer].Keys, now)
  {
    pools, hold := map[], false;
    var rest := b.shares[consumer].Keys;
    ghost var done: set<U.Provider> := {};
    while rest != {}
      invariant done + rest == b.shares[consumer].Keys
      invariant Granting(b, consumer, observed, mistral, pools, done, now)
      invariant hold == AnyHeldOn(b, consumer, observed, mistral, done, now)
      decreases rest
    {
      var pool :| pool in rest;
      var one, held := GrantFor(b, consumer, observed, mistral, pool, now);
      OneMorePool(b, consumer, observed, mistral, done, pool, now);
      pools, hold, rest, done := pools[pool := one], hold || held, rest - {pool}, done + {pool};
    }
    assert done == b.shares[consumer].Keys;
  }

  /** The grant as the source builds it, pool by pool. */
  method MakeGrant(b: Budget, consumer: Consumer, observed: seq<Observed>, mistral: Option<MistralSpend>, now: nat)
    returns (grant: Grant)
    requires CapIsPositive(b)
    ensures grant == GrantOf(b, consumer, observed, mistral, now)
  {
    if consumer !in b.shares {
      return Grant(consumer, now, true, map[]);
    }
    var pools, hold := GrantPools(b, consumer, observed, mistral, now);
    grant := Grant(consumer, now, hold, pools);
  }

  // ---------------------------------------------------------------------
  // From policy to account: two grants bound the whole window.

  /** The charges of a window come to at least the account's reading. */
  predicate Covered(window: Option<A.Attributed>) {
    window.Some? ==>
      var used := window.value.used;
      used.public >= 0.0 && used.private >= 0.0 && used.public + used.private >= window.value.reading.used
  }

  lemma AttributingCovers(window: Option<A.Attributed>, said: S.Said, consumer: Consumer, now: u64)
    requires Covered(window) && (said.Reads? ==> said.reading.used >= 0.0)
    ensures Covered(S.Attributing(window, said, consumer, now))
  {
  }

  lemma CapturingCovers(w: S.Windows, h: S.Headers, consumer: Consumer, now: u64, i: nat)
    requires i < 4 && Covered(w.attributed[i])
    ensures Covered(S.Captured(w, h, consumer, now).attributed[i])
  {
    match h {
      case Anthropic(h5, h7) =>
        AttributingCovers(w.attributed[i], S.AnthropicSays(S.AnthropicWindowOf(h5, now), S.FIVE_HOURS), consumer, now);
        AttributingCovers(w.attributed[i], S.AnthropicSays(S.AnthropicWindowOf(h7, now), S.WEEK), consumer, now);
      case Codex(h1, h2) =>
        AttributingCovers(w.attributed[i], S.CodexSays(S.CodexWindowOf(h1, now), now), consumer, now);
        AttributingCovers(w.attributed[i], S.CodexSays(S.CodexWindowOf(h2, now), now), consumer, now);
      case Mistral =>
    }
  }

  lemma RestartingCovers(w: S.Windows, now: u64, i: nat)
    requires i < 4 && Covered(w.attributed[i]) && S.Invalid(w).None?
    ensures Covered(S.Restarted(w, now).attributed[i])
  {
  }

  function CoversAt(i: nat): F.Property
    requires i < 4
  {
    (w: S.Windows) => Covered(w.attributed[i])
  }

  /**
   Whatever was captured, and however often the gateway restarted or crashed,
   no use of a window is charged to nobody, in any registry.
   */
  lemma EveryRunCovers(lives: seq<F.Life>, name: F.Name, i: nat)
    requires i < 4 && name in F.Reached(lives).windows
    ensures Covered(F.Reached(lives).windows[name].attributed[i])
  {
    forall w, h, consumer, now | CoversAt(i)(w)
      ensures CoversAt(i)(S.Captured(w, h, consumer, now))
    {
      CapturingCovers(w, h, consumer, now, i);
    }
    forall w, now | CoversAt(i)(w) && S.Invalid(w).None?
      ensures CoversAt(i)(S.Restarted(w, now))
    {
      RestartingCovers(w, now, i);
    }
    F.HoldsEverywhere(lives, CoversAt(i), F.AnyReport());
    assert CoversAt(i)(F.Reached(lives).windows[name]);
  }

  function PoolAt(i: nat): U.Provider {
    if i < 2 then U.Anthropic else U.Codex
  }

  function NameAt(i: nat): string {
    if i == 0 then "unified_5h" else if i == 1 then "unified_7d" else if i == 2 then "primary" else "secondary"
  }

  /** The windows a grant is made from. */
  function ObservedOf(w: S.Windows): seq<Observed> {
    seq(4, i requires 0 <= i < 4 => Observed(PoolAt(i), NameAt(i), w.attributed[i]))
  }

  lemma {:induction false} InTable(seen: seq<Read>, share: real, now: nat, name: string)
    ensures name in Table(seen, share, now) <==> exists i :: 0 <= i < |seen| && seen[i].name == name
    ensures name in Table(seen, share, now) ==>
              exists i :: 0 <= i < |seen| && seen[i].name == name && Table(seen, share, now)[name] == Granted(seen[i].window, share, now)
  {
    if seen != [] {
      var n := |seen| - 1;
      InTable(seen[..n], share, now, name);
      assert forall i :: 0 <= i < n ==> seen[..n][i] == seen[i];
    }
  }

  lemma {:induction false} ReadsComeFromObserved(observed: seq<Observed>, consumer: Consumer, pool: U.Provider, now: nat, i: nat)
    requires i < |ReadsOf(observed, consumer, pool, now)|
    ensures exists j :: 0 <= j < |observed| && IsRead(observed[j], pool, now) &&
                        ReadsOf(observed, consumer, pool, now)[i] == Read(observed[j].name, WindowOf(observed[j].window.value, consumer, now))
  {
    var n := |observed| - 1;
    var rest := ReadsOf(observed[..n], consumer, pool, now);
    if i < |rest| {
      ReadsComeFromObserved(observed[..n], consumer, pool, now, i);
      var j :| 0 <= j < n && IsRead(observed[..n][j], pool, now) &&
               rest[i] == Read(observed[..n][j].name, WindowOf(observed[..n][j].window.value, consumer, now));
      assert observed[..n][j] == observed[j];
    }
  }

  lemma NamesDiffer(i: nat, j: nat)
    requires i < 4 && j < 4 && NameAt(i) == NameAt(j)
    ensures i == j
  {
    assert NameAt(0)[8] == '5' && NameAt(1)[8] == '7';
    assert |NameAt(0)| == |NameAt(1)| == 10 && |NameAt(2)| == 7 && |NameAt(3)| == 9;
  }

  lemma ReadIsOnlyWindow(w: S.Windows, consumer: Consumer, now: nat, i: nat, k: nat)
    requires i < 4
    requires var seen := ReadsOf(ObservedOf(w), consumer, PoolAt(i), now); k < |seen| && seen[k].name == NameAt(i)
    ensures w.attributed[i].Some?
    ensures ReadsOf(ObservedOf(w), consumer, PoolAt(i), now)[k].window == WindowOf(w.attributed[i].value, consumer, now)
  {
    var all := ObservedOf(w);
    var seen := ReadsOf(all, consumer, PoolAt(i), now);
    ReadsComeFromObserved(all, consumer, PoolAt(i), now, k);
    var j :| 0 <= j < |all| && IsRead(all[j], PoolAt(i), now) &&
             seen[k] == Read(all[j].name, WindowOf(all[j].window.value, consumer, now));
    NamesDiffer(i, j);
  }

  lemma ReadsAreObserved(b: Budget, w: S.Windows, consumer: Consumer, mistral: Option<MistralSpend>, now: nat, i: nat)
    requires i < 4 && CapIsPositive(b)
    ensures AllReads(b.mistralCap, mistral, ObservedOf(w), consumer, PoolAt(i), now) ==
            ReadsOf(ObservedOf(w), consumer, PoolAt(i), now)
  {
    assert MistralReads(b.mistralCap, mistral, PoolAt(i)) == [];
  }

  /** A grant's entry for one of the four windows is that window's. */
  lemma GrantsWindow(b: Budget, w: S.Windows, consumer: Consumer, mistral: Option<MistralSpend>, now: nat, i: nat)
    requires i < 4 && CapIsPositive(b) && HasShare(b.shares, consumer, PoolAt(i))
    requires NameAt(i) in PoolFor(b, consumer, ObservedOf(w), mistral, PoolAt(i), now).windows
    ensures w.attributed[i].Some?
    ensures PoolFor(b, consumer, ObservedOf(w), mistral, PoolAt(i), now).windows[NameAt(i)] ==
            Granted(WindowOf(w.attributed[i].value, consumer, now), b.shares[consumer][PoolAt(i)], now)
  {
    var seen, share := ReadsOf(ObservedOf(w), consumer, PoolAt(i), now), b.shares[consumer][PoolAt(i)];
    ReadsAreObserved(b, w, consumer, mistral, now, i);
    InTable(seen, share, now, NameAt(i));
    var k :| 0 <= k < |seen| && seen[k].name == NameAt(i) &&
             Table(seen, share, now)[NameAt(i)] == Granted(seen[k].window, share, now);
    ReadIsOnlyWindow(w, consumer, now, i, k);
  }

  // ---------------------------------------------------------------------
  // What a grant holds for, without its own terms.

  /** A window holds exactly if it is stale or over what the paced share allows. */
  lemma HoldsExactly(w: Window, share: real, now: nat)
    requires share >= 0.0
    ensures !Over(w, share, now) <==> WithinPace(w.used, share, ElapsedSince(w.start, now), w.secs)
    ensures !Granted(w, share, now).hold <==> !w.stale && WithinPace(w.used, share, ElapsedSince(w.start, now), w.secs)
  {
    if w.secs > S.FIVE_HOURS {
      var elapsed := ElapsedSince(w.start, now);
      PacedExactly(w.used, share, elapsed, w.secs, elapsed as real / w.secs as real + 0.1);
    }
  }

  lemma RoundedIsNear(n: real)
    ensures n - 0.005 < Rounded(n) <= n + 0.005
  {
    var hundredths := (n * 100.0 + 0.5).Floor;
    assert hundredths as real <= n * 100.0 + 0.5 < hundredths as real + 1.0;
  }

  /** The figures are the share, the use and what is allowed, the latter two to the nearest hundredth. */
  predicate Figures(grant: WindowGrant, share: real, used: real, elapsed: nat, secs: nat, resetsAt: Option<u64>) {
    && grant.sharePercent == share && grant.resetsAt == resetsAt
    && used - 0.005 < grant.usedPercent <= used + 0.005
    && AllowedOf(share, elapsed, secs) - 0.005 < grant.allowedPercent <= AllowedOf(share, elapsed, secs) + 0.005
  }

  lemma FiguresAreNear(w: Window, share: real, now: nat)
    ensures Figures(Granted(w, share, now), share, w.used, ElapsedSince(w.start, now), w.secs, w.resetsAt)
  {
    RoundedIsNear(w.used);
    RoundedIsNear(share * Pace(w.start, w.secs, now));
    if w.secs > S.FIVE_HOURS {
      var elapsed := ElapsedSince(w.start, now);
      AllowedExactly(share, elapsed, w.secs, elapsed as real / w.secs as real + 0.1);
    }
  }

  /** How much of a window has passed: it started its length before its reset. */
  function Passed(a: A.Attributed, now: nat): nat {
    ElapsedSince(if a.reading.resetsAt >= a.reading.secs then a.reading.resetsAt - a.reading.secs else 0, now)
  }

  /** The window has a reading: one that was restored counts until its reset. */
  predicate HasReading(a: A.Attributed, now: nat) {
    a.restored ==> now < a.reading.resetsAt
  }

  /** It was first read part-way, or was last read, or restored, over five hours ago. */
  predicate IsOld(a: A.Attributed, now: nat) {
    a.partWay || (now > a.observedAt + 18_000 && now > a.loadedAt + 18_000)
  }

  function UseOf(a: A.Attributed, consumer: Consumer): real {
    if consumer == Public then a.used.public else a.used.private
  }

  /** The consumer may go on using the window. */
  predicate MayUse(a: A.Attributed, consumer: Consumer, share: real, now: nat) {
    WithinPace(UseOf(a, consumer), share, Passed(a, now), a.reading.secs)
  }

  lemma WindowOfExactly(a: A.Attributed, consumer: Consumer, share: real, now: nat)
    requires share >= 0.0
    ensures Readable(a, now) <==> HasReading(a, now)
    ensures WindowOf(a, consumer, now).stale <==> IsOld(a, now)
    ensures !Over(WindowOf(a, consumer, now), share, now) <==> MayUse(a, consumer, share, now)
    ensures !Granted(WindowOf(a, consumer, now), share, now).hold <==> !IsOld(a, now) && MayUse(a, consumer, share, now)
  {
    HoldsExactly(WindowOf(a, consumer, now), share, now);
  }

  /** The entry is of this window: it holds exactly if the reading is old or may not be used, and shows the window's figures. */
  predicate IsEntryOf(grant: WindowGrant, a: A.Attributed, consumer: Consumer, share: real, now: nat) {
    && (!grant.hold <==> !IsOld(a, now) && MayUse(a, consumer, share, now))
    && Figures(grant, share, UseOf(a, consumer), Passed(a, now), a.reading.secs, Some(a.reading.resetsAt))
  }

  lemma GrantedIsEntry(a: A.Attributed, consumer: Consumer, share: real, now: nat)
    requires share >= 0.0
    ensures IsEntryOf(Granted(WindowOf(a, consumer, now), share, now), a, consumer, share, now)
  {
    WindowOfExactly(a, consumer, share, now);
    FiguresAreNear(WindowOf(a, consumer, now), share, now);
  }

  /** The grant has an entry for a window exactly if it has a reading, and the entry is of that window. */
  lemma EntryHoldsExactly(b: Budget, w: S.Windows, consumer: Consumer, mistral: Option<MistralSpend>, now: nat, i: nat)
    requires i < 4 && Acceptable(b.shares, b.mistralCap) && HasShare(b.shares, consumer, PoolAt(i))
    ensures var entries := GrantOf(b, consumer, ObservedOf(w), mistral, now).pools[PoolAt(i)].windows;
            && (NameAt(i) in entries <==> w.attributed[i].Some? && HasReading(w.attributed[i].value, now))
            && (NameAt(i) in entries ==>
                  IsEntryOf(entries[NameAt(i)], w.attributed[i].value, consumer, b.shares[consumer][PoolAt(i)], now))
  {
    assert InRange(b.shares[consumer]);
    EntryExactly(b, w, consumer, mistral, now, i);
    if w.attributed[i].Some? {
      GrantedIsEntry(w.attributed[i].value, consumer, b.shares[consumer][PoolAt(i)], now);
    }
    if NameAt(i) in PoolFor(b, consumer, ObservedOf(w), mistral, PoolAt(i), now).windows {
      GrantsWindow(b, w, consumer, mistral, now, i);
    }
  }

  /** The window `i` is of this pool and has a reading. */
  predicate HasWindow(w: S.Windows, pool: U.Provider, now: nat, i: nat) {
    i < 4 && PoolAt(i) == pool && w.attributed[i].Some? && HasReading(w.attributed[i].value, now)
  }

  predicate HasOldWindow(w: S.Windows, pool: U.Provider, now: nat, i: nat) {
    HasWindow(w, pool, now, i) && IsOld(w.attributed[i].value, now)
  }

  /** The consumer is held on the window `i` of the pool. */
  predicate HasHeldWindow(w: S.Windows, consumer: Consumer, share: real, pool: U.Provider, now: nat, i: nat) {
    && HasWindow(w, pool, now, i)
    && (IsOld(w.attributed[i].value, now) || !MayUse(w.attributed[i].value, consumer, share, now))
  }

  /**
   A pool of Anthropic or Codex is stale exactly if none of its windows has a
   reading or one's is old, and holds exactly if none has a reading or one's
   is old or may not be used.
   */
  lemma PoolHoldsExactly(b: Budget, w: S.Windows, consumer: Consumer, mistral: Option<MistralSpend>, pool: U.Provider, now: nat)
    requires Acceptable(b.shares, b.mistralCap) && HasShare(b.shares, consumer, pool) && pool != U.Mistral
    ensures var grant, share := GrantOf(b, consumer, ObservedOf(w), mistral, now).pools[pool], b.shares[consumer][pool];
            && (grant.stale <==> (!exists i: nat :: HasWindow(w, pool, now, i)) || exists i: nat :: HasOldWindow(w, pool, now, i))
            && (grant.hold <==> (!exists i: nat :: HasWindow(w, pool, now, i)) ||
                                exists i: nat :: HasHeldWindow(w, consumer, share, pool, now, i))
  {
    assert InRange(b.shares[consumer]);
    assert AllReads(b.mistralCap, mistral, ObservedOf(w), consumer, pool, now) == ReadsOf(ObservedOf(w), consumer, pool, now);
    SomeRead(w, consumer, pool, now);
    StaleRead(w, consumer, pool, now);
    HeldRead(w, consumer, b.shares[consumer][pool], pool, now);
  }

  lemma SomeRead(w: S.Windows, consumer: Consumer, pool: U.Provider, now: nat)
    ensures ReadsOf(ObservedOf(w), consumer, pool, now) != [] <==> exists i: nat :: HasWindow(w, pool, now, i)
  {
    if ReadsOf(ObservedOf(w), consumer, pool, now) != [] {
      var i := ReadIsOfWindow(w, consumer, pool, now, 0);
    }
    if i: nat :| HasWindow(w, pool, now, i) {
      var k := ObservedIsRead(ObservedOf(w), consumer, pool, now, i);
    }
  }

  lemma StaleRead(w: S.Windows, consumer: Consumer, pool: U.Provider, now: nat)
    ensures AnyStale(ReadsOf(ObservedOf(w), consumer, pool, now)) <==> exists i: nat :: HasOldWindow(w, pool, now, i)
  {
    var seen := ReadsOf(ObservedOf(w), consumer, pool, now);
    if k: nat :| k < |seen| && seen[k].window.stale {
      var i := ReadIsOfWindow(w, consumer, pool, now, k);
      WindowOfExactly(w.attributed[i].value, consumer, 0.0, now);
      assert HasOldWindow(w, pool, now, i);
    }
    if i: nat :| HasOldWindow(w, pool, now, i) {
      WindowOfExactly(w.attributed[i].value, consumer, 0.0, now);
      var k := ObservedIsRead(ObservedOf(w), consumer, pool, now, i);
      assert seen[k].window.stale;
    }
  }

  lemma HeldRead(w: S.Windows, consumer: Consumer, share: real, pool: U.Provider, now: nat)
    requires share >= 0.0
    ensures AnyHeld(ReadsOf(ObservedOf(w), consumer, pool, now), share, now) <==>
            exists i: nat :: HasHeldWindow(w, consumer, share, pool, now, i)
  {
    var seen := ReadsOf(ObservedOf(w), consumer, pool, now);
    if k: nat :| k < |seen| && Granted(seen[k].window, share, now).hold {
      var i := ReadIsOfWindow(w, consumer, pool, now, k);
      WindowOfExactly(w.attributed[i].value, consumer, share, now);
      assert HasHeldWindow(w, consumer, share, pool, now, i);
    }
    if i: nat :| HasHeldWindow(w, consumer, share, pool, now, i) {
      WindowOfExactly(w.attributed[i].value, consumer, share, now);
      var k := ObservedIsRead(ObservedOf(w), consumer, pool, now, i);
      assert Granted(seen[k].window, share, now).hold;
    }
  }

  lemma ReadIsOfWindow(w: S.Windows, consumer: Consumer, pool: U.Provider, now: nat, k: nat) returns (i: nat)
    requires k < |ReadsOf(ObservedOf(w), consumer, pool, now)|
    ensures HasWindow(w, pool, now, i)
    ensures ReadsOf(ObservedOf(w), consumer, pool, now)[k].window == WindowOf(w.attributed[i].value, consumer, now)
  {
    ReadsComeFromObserved(ObservedOf(w), consumer, pool, now, k);
    i :| i < 4 && IsRead(ObservedOf(w)[i], pool, now) &&
         ReadsOf(ObservedOf(w), consumer, pool, now)[k] ==
         Read(ObservedOf(w)[i].name, WindowOf(ObservedOf(w)[i].window.value, consumer, now));
  }

  lemma EntryExactly(b: Budget, w: S.Windows, consumer: Consumer, mistral: Option<MistralSpend>, now: nat, i: nat)
    requires i < 4 && CapIsPositive(b) && HasShare(b.shares, consumer, PoolAt(i))
    ensures NameAt(i) in PoolFor(b, consumer, ObservedOf(w), mistral, PoolAt(i), now).windows
            <==> w.attributed[i].Some? && Readable(w.attributed[i].value, now)
  {
    var seen := ReadsOf(ObservedOf(w), consumer, PoolAt(i), now);
    ReadsAreObserved(b, w, consumer, mistral, now, i);
    InTable(seen, b.shares[consumer][PoolAt(i)], now, NameAt(i));
    if k :| 0 <= k < |seen| && seen[k].name == NameAt(i) {
      ReadsComeFromObserved(ObservedOf(w), consumer, PoolAt(i), now, k);
      var j :| 0 <= j < 4 && IsRead(ObservedOf(w)[j], PoolAt(i), now) && seen[k].name == ObservedOf(w)[j].name;
      NamesDiffer(i, j);
    }
    if w.attributed[i].Some? && Readable(w.attributed[i].value, now) {
      var k := ObservedIsRead(ObservedOf(w), consumer, PoolAt(i), now, i);
    }
  }

  lemma {:induction false} ObservedIsRead(observed: seq<Observed>, consumer: Consumer, pool: U.Provider, now: nat, j: nat) returns (k: nat)
    requires j < |observed| && IsRead(observed[j], pool, now)
    ensures k < |ReadsOf(observed, consumer, pool, now)|
    ensures ReadsOf(observed, consumer, pool, now)[k] == Read(observed[j].name, WindowOf(observed[j].window.value, consumer, now))
  {
    var n := |observed| - 1;
    if j == n {
      k := |ReadsOf(observed[..n], consumer, pool, now)|;
    } else {
      k := ObservedIsRead(observed[..n], consumer, pool, now, j);
    }
  }

  /** The consumer is over what its share of Mistral's week allows of the cap. */
  predicate OverMistral(b: Budget, consumer: Consumer, mistral: Option<MistralSpend>, now: nat)
    requires CapIsPositive(b)
  {
    && HasShare(b.shares, consumer, U.Mistral) && b.mistralCap.Some? && mistral.Some?
    && !WithinPace(PercentOf(mistral.value.micros, MicrosOf(b.mistralCap.value)), b.shares[consumer][U.Mistral],
                   ElapsedSince(mistral.value.since, now), 604_800)
  }

  /** The consumer is over what its share of the window `i` allows, by a reading that is not old. */
  predicate OverWindow(b: Budget, w: S.Windows, consumer: Consumer, now: nat, i: nat)
    requires i < 4
  {
    && HasShare(b.shares, consumer, PoolAt(i)) && w.attributed[i].Some?
    && HasReading(w.attributed[i].value, now) && !IsOld(w.attributed[i].value, now)
    && !MayUse(w.attributed[i].value, consumer, b.shares[consumer][PoolAt(i)], now)
  }

  function MicrosOf(cap: real): real {
    cap * 1_000_000.0
  }

  function PercentOf(micros: nat, whole: real): real
    requires whole > 0.0
  {
    micros as real / whole * 100.0
  }

  lemma WindowHolds(b: Budget, w: S.Windows, consumer: Consumer, mistral: Option<MistralSpend>, now: nat, i: nat)
    requires i < 4 && Acceptable(b.shares, b.mistralCap) && OverWindow(b, w, consumer, now, i)
    ensures HeldOn(b, consumer, ObservedOf(w), mistral, PoolAt(i), now)
  {
    assert InRange(b.shares[consumer]);
    ReadsAreObserved(b, w, consumer, mistral, now, i);
    var a, share := w.attributed[i].value, b.shares[consumer][PoolAt(i)];
    WindowOfExactly(a, consumer, share, now);
    var k := ObservedIsRead(ObservedOf(w), consumer, PoolAt(i), now, i);
  }

  lemma HoldIsOfAWindow(b: Budget, w: S.Windows, consumer: Consumer, mistral: Option<MistralSpend>, pool: U.Provider, now: nat)
    requires Acceptable(b.shares, b.mistralCap) && HasShare(b.shares, consumer, pool) && pool != U.Mistral
    requires HeldOn(b, consumer, ObservedOf(w), mistral, pool, now)
    ensures exists i: nat :: i < 4 && OverWindow(b, w, consumer, now, i)
  {
    assert InRange(b.shares[consumer]);
    var share := b.shares[consumer][pool];
    var seen := ReadsOf(ObservedOf(w), consumer, pool, now);
    assert MistralReads(b.mistralCap, mistral, pool) == [];
    assert AllReads(b.mistralCap, mistral, ObservedOf(w), consumer, pool, now) == seen;
    var k :| 0 <= k < |seen| && !seen[k].window.stale && Over(seen[k].window, share, now);
    ReadsComeFromObserved(ObservedOf(w), consumer, pool, now, k);
    var j: nat :| j < 4 && IsRead(ObservedOf(w)[j], pool, now) &&
                  seen[k] == Read(ObservedOf(w)[j].name, WindowOf(ObservedOf(w)[j].window.value, consumer, now));
    WindowOfExactly(w.attributed[j].value, consumer, share, now);
    assert OverWindow(b, w, consumer, now, j);
  }

  lemma MistralHolds(b: Budget, w: S.Windows, consumer: Consumer, mistral: Option<MistralSpend>, now: nat)
    requires Acceptable(b.shares, b.mistralCap) && HasShare(b.shares, consumer, U.Mistral)
    ensures HeldOn(b, consumer, ObservedOf(w), mistral, U.Mistral, now) <==> OverMistral(b, consumer, mistral, now)
  {
    assert InRange(b.shares[consumer]);
    NoOtherOfMistral(ObservedOf(w), consumer, now);
    var seen := AllReads(b.mistralCap, mistral, ObservedOf(w), consumer, U.Mistral, now);
    if mistral.Some? {
      var window := MistralWindow(b.mistralCap.value, mistral.value);
      assert seen == [Read(MISTRAL_WINDOW, window)];
      assert seen[0].window == window;
      HoldsExactly(window, b.shares[consumer][U.Mistral], now);
    } else {
      assert seen == [];
    }
  }

  /**
   A grant holds the consumer exactly if it has no shares, or is over what a
   share of it allows: of Mistral's week, or of one of the four windows by a
   reading that is not old. It names the consumer, the time and the pools the
   consumer has a share of.
   */
  lemma GrantHoldsExactly(b: Budget, w: S.Windows, consumer: Consumer, mistral: Option<MistralSpend>, now: nat)
    requires Acceptable(b.shares, b.mistralCap)
    ensures GrantOf(b, consumer, ObservedOf(w), mistral, now).hold <==>
            consumer !in b.shares || OverMistral(b, consumer, mistral, now) ||
            exists i: nat :: i < 4 && OverWindow(b, w, consumer, now, i)
    ensures var grant := GrantOf(b, consumer, ObservedOf(w), mistral, now);
            && grant.consumer == consumer && grant.observedAt == now
            && forall pool :: pool in grant.pools <==> HasShare(b.shares, consumer, pool)
  {
    if consumer in b.shares {
      if HasShare(b.shares, consumer, U.Mistral) {
        MistralHolds(b, w, consumer, mistral, now);
      }
      forall i: nat | i < 4 && OverWindow(b, w, consumer, now, i)
        ensures AnyHeldOn(b, consumer, ObservedOf(w), mistral, b.shares[consumer].Keys, now)
      {
        WindowHolds(b, w, consumer, mistral, now, i);
      }
      if AnyHeldOn(b, consumer, ObservedOf(w), mistral, b.shares[consumer].Keys, now) {
        var pool :| pool in b.shares[consumer] && HeldOn(b, consumer, ObservedOf(w), mistral, pool, now);
        if pool != U.Mistral {
          HoldIsOfAWindow(b, w, consumer, mistral, pool, now);
        }
      }
    }
  }

  // ---------------------------------------------------------------------
  // Two grants bound the account.

  /** The grant has the window `i`, and the consumer is not held on it. */
  predicate NotHeld(grant: Grant, i: nat)
    requires i < 4
  {
    && PoolAt(i) in grant.pools
    && NameAt(i) in grant.pools[PoolAt(i)].windows
    && !grant.pools[PoolAt(i)].windows[NameAt(i)].hold
  }

  lemma NotHeldIsWithin(b: Budget, w: S.Windows, consumer: Consumer, mistral: Option<MistralSpend>, now: nat, i: nat)
    requires i < 4 && CapIsPositive(b) && HasShare(b.shares, consumer, PoolAt(i))
    requires NotHeld(GrantOf(b, consumer, ObservedOf(w), mistral, now), i)
    ensures w.attributed[i].Some?
    ensures !Granted(WindowOf(w.attributed[i].value, consumer, now), b.shares[consumer][PoolAt(i)], now).hold
  {
    GrantsWindow(b, w, consumer, mistral, now, i);
  }

  lemma TwoGrantsBoundWindow(b: Budget, w: S.Windows, mistral: Option<MistralSpend>, other: Option<MistralSpend>, now: nat, i: nat)
    requires i < 4 && Acceptable(b.shares, b.mistralCap) && Covered(w.attributed[i])
    requires HasShare(b.shares, Public, PoolAt(i)) && HasShare(b.shares, Private, PoolAt(i))
    requires NotHeld(GrantOf(b, Public, ObservedOf(w), mistral, now), i)
    requires NotHeld(GrantOf(b, Private, ObservedOf(w), other, now), i)
    ensures w.attributed[i].Some? && WithinBoth(b, w.attributed[i].value, now, i)
  {
    NotHeldIsWithin(b, w, Public, mistral, now, i);
    NotHeldIsWithin(b, w, Private, other, now, i);
    SharesBoundWindow(b, w.attributed[i].value, now, i);
  }

  /** The account's reading of the window `i` is within both consumers' shares together, and so within 100 percent. */
  predicate WithinBoth(b: Budget, a: A.Attributed, now: nat, i: nat)
    requires i < 4 && HasShare(b.shares, Public, PoolAt(i)) && HasShare(b.shares, Private, PoolAt(i))
  {
    && WithinPace(a.reading.used, b.shares[Public][PoolAt(i)] + b.shares[Private][PoolAt(i)], Passed(a, now), a.reading.secs)
    && a.reading.used <= 100.0
  }

  lemma SharesBoundWindow(b: Budget, a: A.Attributed, now: nat, i: nat)
    requires i < 4 && Acceptable(b.shares, b.mistralCap) && Covered(Some(a))
    requires HasShare(b.shares, Public, PoolAt(i)) && HasShare(b.shares, Private, PoolAt(i))
    requires !Granted(WindowOf(a, Public, now), b.shares[Public][PoolAt(i)], now).hold
    requires !Granted(WindowOf(a, Private, now), b.shares[Private][PoolAt(i)], now).hold
    ensures WithinBoth(b, a, now, i)
  {
    var p, q := b.shares[Public][PoolAt(i)], b.shares[Private][PoolAt(i)];
    SharesFit(b, PoolAt(i));
    WindowOfExactly(a, Public, p, now);
    WindowOfExactly(a, Private, q, now);
    WithinTogether(a.used.public, a.used.private, a.reading.used, p, q, Passed(a, now), a.reading.secs);
  }

  /**
   Under any acceptable policy, for any registry, after any captures, restarts
   and crashes: if both consumers have a share of a pool, and neither is held
   on one of its windows, then the account's whole reading is within the sum
   of their shares, paced as the window passes, and so within 100 percent.
   */
  lemma TwoGrantsBoundAccount(b: Budget, lives: seq<F.Life>, name: F.Name, mistral: Option<MistralSpend>, other: Option<MistralSpend>, now: nat, i: nat)
    requires i < 4 && Acceptable(b.shares, b.mistralCap) && name in F.Reached(lives).windows
    requires HasShare(b.shares, Public, PoolAt(i)) && HasShare(b.shares, Private, PoolAt(i))
    requires NotHeld(GrantOf(b, Public, ObservedOf(F.Reached(lives).windows[name]), mistral, now), i)
    requires NotHeld(GrantOf(b, Private, ObservedOf(F.Reached(lives).windows[name]), other, now), i)
    ensures var window := F.Reached(lives).windows[name].attributed[i];
            window.Some? && WithinBoth(b, window.value, now, i)
  {
    EveryRunCovers(lives, name, i);
    TwoGrantsBoundWindow(b, F.Reached(lives).windows[name], mistral, other, now, i);
  }

  lemma SharesFit(b: Budget, pool: U.Provider)
    requires Acceptable(b.shares, b.mistralCap) && HasShare(b.shares, Public, pool) && HasShare(b.shares, Private, pool)
    ensures 0.0 <= b.shares[Public][pool] && 0.0 <= b.shares[Private][pool]
    ensures b.shares[Public][pool] + b.shares[Private][pool] <= 100.0
  {
    assert InRange(b.shares[Public]) && InRange(b.shares[Private]);
    assert ShareOf(b.shares, Public, pool) + ShareOf(b.shares, Private, pool) <= 100.0;
  }

  /** Nothing is read of the pool: no window of it has a reading, and it is not Mistral's with spend metered. */
  predicate Unread(b: Budget, observed: seq<Observed>, mistral: Option<MistralSpend>, pool: U.Provider, now: nat) {
    && (forall i :: 0 <= i < |observed| ==> !IsRead(observed[i], pool, now))
    && !(pool == U.Mistral && b.mistralCap.Some? && mistral.Some?)
  }

  lemma {:induction false} NothingObserved(observed: seq<Observed>, consumer: Consumer, pool: U.Provider, now: nat)
    requires forall i :: 0 <= i < |observed| ==> !IsRead(observed[i], pool, now)
    ensures ReadsOf(observed, consumer, pool, now) == []
  {
    if observed != [] {
      NothingObserved(observed[..|observed| - 1], consumer, pool, now);
    }
  }

  /**
   A pool nothing is read of holds at its own level and is stale, and has no
   part in holding the consumer altogether, whatever is read of other pools:
   so a consumer can start the work that brings a reading.
   */
  lemma NothingReadHoldsNoWork(b: Budget, consumer: Consumer, observed: seq<Observed>, mistral: Option<MistralSpend>, pool: U.Provider, now: nat)
    requires CapIsPositive(b) && HasShare(b.shares, consumer, pool) && Unread(b, observed, mistral, pool, now)
    ensures var grant := GrantOf(b, consumer, observed, mistral, now);
            && grant.pools[pool] == PoolGrant(true, true, map[])
            && grant.hold == AnyHeldOn(b, consumer, observed, mistral, b.shares[consumer].Keys - {pool}, now)
  {
    NothingObserved(observed, consumer, pool, now);
    assert AllReads(b.mistralCap, mistral, observed, consumer, pool, now) == [];
    assert !HeldOn(b, consumer, observed, mistral, pool, now);
    OneMorePool(b, consumer, observed, mistral, b.shares[consumer].Keys - {pool}, pool, now);
    assert b.shares[consumer].Keys - {pool} + {pool} == b.shares[consumer].Keys;
  }

  // ---------------------------------------------------------------------
  // The bound is reached: neither consumer is held, and the account is used up.

  function OnlyFiveHour(utilization: real): S.Headers {
    S.Anthropic(S.AnthropicHeaders(Some(utilization), Some(18_000), None), S.AnthropicHeaders(None, None, None))
  }

  /** A registry is named; the public consumer's response reads 60 percent used, and then a private one's the whole. */
  function WholeUse(): seq<W.Step> {
    [W.NameRegistry("a")] + WriterRuns.Capturing("a", OnlyFiveHour(0.0), Public, 0) +
    WriterRuns.Capturing("a", OnlyFiveHour(0.6), Public, 1) + WriterRuns.Capturing("a", OnlyFiveHour(1.0), Private, 2)
  }

  function SixtyForty(): Budget {
    Budget(map[Public := map[U.Anthropic := 60.0], Private := map[U.Anthropic := 40.0]], None)
  }

  lemma FiveHourCaptured(w: S.Windows, utilization: real, consumer: Consumer, now: u64)
    requires 0.0 <= utilization <= 1.0
    ensures var reading := A.Reading(utilization * 100.0, 18_000, S.FIVE_HOURS);
            S.Captured(w, OnlyFiveHour(utilization), consumer, now).attributed ==
            w.attributed[0 := Some(A.Charged(w.attributed[0], reading, consumer, now))]
  {
  }

  lemma ReadNext(s: W.System, before: Option<A.Attributed>, utilization: real, consumer: Consumer, now: u64)
    requires "a" in s.windows && s.threads == map[] && s.writer == W.Testing
    requires s.windows["a"].attributed == [before, None, None, None] && 0.0 <= utilization <= 1.0
    ensures var t := WriterRuns.Ran(s, WriterRuns.Capturing("a", OnlyFiveHour(utilization), consumer, now));
            var reading := A.Reading(utilization * 100.0, 18_000, S.FIVE_HOURS);
            && "a" in t.windows && t.threads == map[] && t.writer == W.Testing
            && t.windows["a"].attributed == [Some(A.Charged(before, reading, consumer, now)), None, None, None]
  {
    WriterRuns.CapturingIsFlagged(s, "a", OnlyFiveHour(utilization), consumer, now);
    FiveHourCaptured(s.windows["a"], utilization, consumer, now);
  }

  /** The window after each of the three responses. */
  function Used(n: nat): A.Attributed
    requires n < 3
  {
    if n == 0 then A.Attributed(A.Reading(0.0, 18_000, S.FIVE_HOURS), 0, false, false, 0, A.PerConsumer(0.0, 0.0))
    else if n == 1 then A.Attributed(A.Reading(60.0, 18_000, S.FIVE_HOURS), 1, false, false, 0, A.PerConsumer(60.0, 0.0))
    else A.Attributed(A.Reading(100.0, 18_000, S.FIVE_HOURS), 2, false, false, 0, A.PerConsumer(60.0, 40.0))
  }

  lemma ChargesOfWholeUse()
    ensures A.Charged(None, A.Reading(0.0 * 100.0, 18_000, S.FIVE_HOURS), Public, 0) == Used(0)
    ensures A.Charged(Some(Used(0)), A.Reading(0.6 * 100.0, 18_000, S.FIVE_HOURS), Public, 1) == Used(1)
    ensures A.Charged(Some(Used(1)), A.Reading(1.0 * 100.0, 18_000, S.FIVE_HOURS), Private, 2) == Used(2)
  {
  }

  /** A first life in which the account is wholly used. */
  function WholeLife(): seq<F.Life> {
    [F.Life(0, WholeUse())]
  }

  lemma WholeIsUsed()
    ensures "a" in F.Reached(WholeLife()).windows
    ensures F.Reached(WholeLife()).windows["a"].attributed == [Some(Used(2)), None, None, None]
  {
    var start := W.Start(map[], map[]);
    var name, x, y, z := [W.NameRegistry("a")], WriterRuns.Capturing("a", OnlyFiveHour(0.0), Public, 0),
      WriterRuns.Capturing("a", OnlyFiveHour(0.6), Public, 1), WriterRuns.Capturing("a", OnlyFiveHour(1.0), Private, 2);
    ChargesOfWholeUse();
    WriterRuns.Names(start, "a");
    var one := WriterRuns.Ran(start, name);
    ReadNext(one, None, 0.0, Public, 0);
    var two := WriterRuns.Ran(one, x);
    ReadNext(two, Some(Used(0)), 0.6, Public, 1);
    var three := WriterRuns.Ran(two, y);
    ReadNext(three, Some(Used(1)), 1.0, Private, 2);
    WriterRuns.RanInTwo(start, name, x);
    WriterRuns.RanInTwo(start, name + x, y);
    WriterRuns.RanInTwo(start, name + x + y, z);
    FirstLifeIsRan();
  }

  lemma FirstLifeIsRan()
    ensures F.Reached(WholeLife()) == WriterRuns.Ran(W.Start(map[], map[]), WholeUse())
  {
    assert WholeLife()[..0] == [];
    assert F.Loaded(map[], 0) == map[];
    WriterRuns.AfterIsRan(map[], map[], WholeUse());
  }

  lemma ReadsNext(observed: seq<Observed>, n: nat, consumer: Consumer, pool: U.Provider, now: nat)
    requires n < |observed|
    ensures ReadsOf(observed[..n + 1], consumer, pool, now) ==
            ReadsOf(observed[..n], consumer, pool, now) +
            if IsRead(observed[n], pool, now) then [Read(observed[n].name, WindowOf(observed[n].window.value, consumer, now))] else []
  {
    assert observed[..n + 1][..n] == observed[..n];
  }

  lemma OnlyOneRead(a: A.Attributed, w: S.Windows, consumer: Consumer, now: nat)
    requires w.attributed == [Some(a), None, None, None] && Readable(a, now)
    ensures ReadsOf(ObservedOf(w), consumer, U.Anthropic, now) == [Read(NameAt(0), WindowOf(a, consumer, now))]
  {
    var o := ObservedOf(w);
    ReadsNext(o, 0, consumer, U.Anthropic, now);
    ReadsNext(o, 1, consumer, U.Anthropic, now);
    ReadsNext(o, 2, consumer, U.Anthropic, now);
    ReadsNext(o, 3, consumer, U.Anthropic, now);
    assert o[..4] == o;
  }

  lemma NotHeldOnOnly(b: Budget, a: A.Attributed, w: S.Windows, consumer: Consumer, now: nat)
    requires w.attributed == [Some(a), None, None, None] && Readable(a, now)
    requires CapIsPositive(b) && HasShare(b.shares, consumer, U.Anthropic)
    requires !Granted(WindowOf(a, consumer, now), b.shares[consumer][U.Anthropic], now).hold
    ensures NotHeld(GrantOf(b, consumer, ObservedOf(w), None, now), 0)
  {
    OnlyOneRead(a, w, consumer, now);
    var read := Read(NameAt(0), WindowOf(a, consumer, now));
    assert [read][..0] == [];
  }

  lemma NeitherIsOver(consumer: Consumer)
    ensures var b := SixtyForty();
            && Acceptable(b.shares, b.mistralCap) && HasShare(b.shares, consumer, U.Anthropic)
            && !Granted(WindowOf(Used(2), consumer, 2), b.shares[consumer][U.Anthropic], 2).hold
  {
  }

  /** The bound of `TwoGrantsBoundAccount` cannot be made smaller: here the account is wholly used, and neither is held. */
  lemma BoundIsReached()
    ensures "a" in F.Reached(WholeLife()).windows
    ensures var b, w := SixtyForty(), F.Reached(WholeLife()).windows["a"];
            && Acceptable(b.shares, b.mistralCap)
            && NotHeld(GrantOf(b, Public, ObservedOf(w), None, 2), 0)
            && NotHeld(GrantOf(b, Private, ObservedOf(w), None, 2), 0)
            && w.attributed[0].Some?
            && w.attributed[0].value.reading.used == b.shares[Public][U.Anthropic] + b.shares[Private][U.Anthropic] == 100.0
  {
    WholeIsUsed();
    NeitherIsOver(Public);
    NeitherIsOver(Private);
    NotHeldOnOnly(SixtyForty(), Used(2), F.Reached(WholeLife()).windows["a"], Public, 2);
    NotHeldOnOnly(SixtyForty(), Used(2), F.Reached(WholeLife()).windows["a"], Private, 2);
  }

  // ---------------------------------------------------------------------
  // Mistral's spend.

  /** A consumer's Mistral spend, as the gateway hands it to the grant. */
  function SpentOn(s: U.Spend, consumer: Consumer, now: nat): MistralSpend {
    MistralSpend(Weeks.SumOf(s.mistral.At(consumer), now / 3600).Clip().micros, s.since)
  }

  /** The grant has Mistral's window, and the consumer is not held on it. */
  predicate MistralNotHeld(grant: Grant) {
    && U.Mistral in grant.pools
    && MISTRAL_WINDOW in grant.pools[U.Mistral].windows
    && !grant.pools[U.Mistral].windows[MISTRAL_WINDOW].hold
  }

  function MistralWindow(cap: real, spent: MistralSpend): Window
    requires cap > 0.0
  {
    Window(spent.micros as real / (cap * 1_000_000.0) * 100.0, spent.since, S.WEEK, None, false)
  }

  lemma {:induction false} NoOtherOfMistral(observed: seq<Observed>, consumer: Consumer, now: nat)
    requires forall i :: 0 <= i < |observed| ==> observed[i].pool != U.Mistral
    ensures ReadsOf(observed, consumer, U.Mistral, now) == []
  {
    if observed != [] {
      NoOtherOfMistral(observed[..|observed| - 1], consumer, now);
    }
  }

  lemma GrantsMistral(b: Budget, w: S.Windows, consumer: Consumer, spent: MistralSpend, now: nat)
    requires CapIsPositive(b) && b.mistralCap.Some? && HasShare(b.shares, consumer, U.Mistral)
    ensures PoolFor(b, consumer, ObservedOf(w), Some(spent), U.Mistral, now) ==
            PoolOf([Read(MISTRAL_WINDOW, MistralWindow(b.mistralCap.value, spent))], b.shares[consumer][U.Mistral], now)
  {
    NoOtherOfMistral(ObservedOf(w), consumer, now);
    assert AllReads(b.mistralCap, Some(spent), ObservedOf(w), consumer, U.Mistral, now) ==
           [Read(MISTRAL_WINDOW, MistralWindow(b.mistralCap.value, spent))];
  }

  /** The pool has the week's entry alone, which holds as the pool does and shows the week's figures with no reset. */
  predicate IsMistralPool(pool: PoolGrant, used: real, share: real, since: nat, now: nat) {
    && !pool.stale && pool.windows.Keys == {"spend_7d"}
    && pool.windows["spend_7d"].hold == pool.hold
    && (!pool.hold <==> WithinPace(used, share, ElapsedSince(since, now), 604_800))
    && Figures(pool.windows["spend_7d"], share, used, ElapsedSince(since, now), 604_800, None)
  }

  lemma PoolOfGrant(b: Budget, observed: seq<Observed>, consumer: Consumer, mistral: Option<MistralSpend>, pool: U.Provider, now: nat)
    requires CapIsPositive(b) && HasShare(b.shares, consumer, pool)
    ensures pool in GrantOf(b, consumer, observed, mistral, now).pools
    ensures GrantOf(b, consumer, observed, mistral, now).pools[pool] == PoolFor(b, consumer, observed, mistral, pool, now)
  {
  }

  lemma UnmeteredPool(b: Budget, w: S.Windows, consumer: Consumer, now: nat)
    requires CapIsPositive(b) && HasShare(b.shares, consumer, U.Mistral)
    ensures PoolFor(b, consumer, ObservedOf(w), None, U.Mistral, now) == PoolGrant(true, true, map[])
  {
    NoOtherOfMistral(ObservedOf(w), consumer, now);
    assert AllReads(b.mistralCap, None, ObservedOf(w), consumer, U.Mistral, now) == [];
  }

  predicate SharesMistral(b: Budget, consumer: Consumer) {
    CapIsPositive(b) && b.mistralCap.Some? && HasShare(b.shares, consumer, U.Mistral) && b.shares[consumer][U.Mistral] >= 0.0
  }

  lemma AcceptableShares(b: Budget, consumer: Consumer)
    requires Acceptable(b.shares, b.mistralCap) && HasShare(b.shares, consumer, U.Mistral)
    ensures SharesMistral(b, consumer)
  {
    assert InRange(b.shares[consumer]);
  }

  lemma MeteredPool(b: Budget, w: S.Windows, consumer: Consumer, spent: MistralSpend, now: nat)
    requires SharesMistral(b, consumer)
    ensures IsMistralPool(PoolFor(b, consumer, ObservedOf(w), Some(spent), U.Mistral, now),
                          PercentOf(spent.micros, MicrosOf(b.mistralCap.value)), b.shares[consumer][U.Mistral], spent.since, now)
  {
    GrantsMistral(b, w, consumer, spent, now);
    OneReadPool(MistralWindow(b.mistralCap.value, spent), b.shares[consumer][U.Mistral], now);
  }

  /** Mistral's pool holds the consumer as its week's spend of the cap may or may not be; with no spend metered it is stale and holds. */
  lemma MistralPoolExactly(b: Budget, w: S.Windows, consumer: Consumer, mistral: Option<MistralSpend>, now: nat)
    requires Acceptable(b.shares, b.mistralCap) && HasShare(b.shares, consumer, U.Mistral)
    ensures SharesMistral(b, consumer) && U.Mistral in GrantOf(b, consumer, ObservedOf(w), mistral, now).pools
    ensures var pool := GrantOf(b, consumer, ObservedOf(w), mistral, now).pools[U.Mistral];
            if mistral.None? then pool == PoolGrant(true, true, map[])
            else IsMistralPool(pool, PercentOf(mistral.value.micros, MicrosOf(b.mistralCap.value)), b.shares[consumer][U.Mistral],
                               mistral.value.since, now)
  {
    AcceptableShares(b, consumer);
    PoolOfGrant(b, ObservedOf(w), consumer, mistral, U.Mistral, now);
    if mistral.Some? {
      MeteredPool(b, w, consumer, mistral.value, now);
    } else {
      UnmeteredPool(b, w, consumer, now);
    }
  }

  lemma OneReadPool(window: Window, share: real, now: nat)
    requires share >= 0.0 && window.secs == S.WEEK && !window.stale && window.resetsAt.None?
    ensures IsMistralPool(PoolOf([Read(MISTRAL_WINDOW, window)], share, now), window.used, share, window.start, now)
  {
    var seen := [Read(MISTRAL_WINDOW, window)];
    TableOfOne(seen[0], share, now);
    HoldsExactly(window, share, now);
    FiguresAreNear(window, share, now);
    assert AnyHeld(seen, share, now) <==> Granted(seen[0].window, share, now).hold;
  }

  lemma TableOfOne(read: Read, share: real, now: nat)
    ensures Table([read], share, now) == map[read.name := Granted(read.window, share, now)]
  {
    assert [read][..0] == [];
    var none: map<string, WindowGrant> := Table([], share, now);
    assert none == map[];
  }

  lemma MistralIsGranted(b: Budget, w: S.Windows, consumer: Consumer, spent: MistralSpend, now: nat)
    requires CapIsPositive(b) && b.mistralCap.Some? && HasShare(b.shares, consumer, U.Mistral)
    requires MistralNotHeld(GrantOf(b, consumer, ObservedOf(w), Some(spent), now))
    ensures !Over(MistralWindow(b.mistralCap.value, spent), b.shares[consumer][U.Mistral], now)
  {
    GrantsMistral(b, w, consumer, spent, now);
    var pool := PoolFor(b, consumer, ObservedOf(w), Some(spent), U.Mistral, now);
    assert GrantOf(b, consumer, ObservedOf(w), Some(spent), now).pools[U.Mistral] == pool;
    TableOfOne(Read(MISTRAL_WINDOW, MistralWindow(b.mistralCap.value, spent)), b.shares[consumer][U.Mistral], now);
    assert !pool.windows[MISTRAL_WINDOW].hold;
  }

  /** Both spends together are within the shares of the cap, as the week since metering began passes. */
  predicate MistralWithin(b: Budget, x: MistralSpend, y: MistralSpend, now: nat)
    requires CapIsPositive(b) && b.mistralCap.Some? && HasShare(b.shares, Public, U.Mistral) && HasShare(b.shares, Private, U.Mistral)
  {
    WithinShares(b, x.micros + y.micros, x.since, now)
  }

  lemma SpendsTogether(b: Budget, x: MistralSpend, y: MistralSpend, now: nat)
    requires Acceptable(b.shares, b.mistralCap) && b.mistralCap.Some? && x.since == y.since
    requires HasShare(b.shares, Public, U.Mistral) && HasShare(b.shares, Private, U.Mistral)
    requires !Over(MistralWindow(b.mistralCap.value, x), b.shares[Public][U.Mistral], now)
    requires !Over(MistralWindow(b.mistralCap.value, y), b.shares[Private][U.Mistral], now)
    ensures MistralWithin(b, x, y, now)
  {
    var whole := MicrosOf(b.mistralCap.value);
    SharesFit(b, U.Mistral);
    HoldsExactly(MistralWindow(b.mistralCap.value, x), b.shares[Public][U.Mistral], now);
    HoldsExactly(MistralWindow(b.mistralCap.value, y), b.shares[Private][U.Mistral], now);
    PercentsAddUp(x.micros, y.micros, whole);
    WithinTogether(PercentOf(x.micros, whole), PercentOf(y.micros, whole), PercentOf(x.micros + y.micros, whole),
                   b.shares[Public][U.Mistral], b.shares[Private][U.Mistral], ElapsedSince(x.since, now), 604_800);
  }

  lemma PercentsAddUp(x: nat, y: nat, whole: real)
    requires whole > 0.0
    ensures PercentOf(x + y, whole) == PercentOf(x, whole) + PercentOf(y, whole)
  {
  }

  /**
   If neither consumer is held on Mistral's week, the two consumers' Mistral
   weeks together are within the sum of their shares of the cap, paced, and so
   within the cap.
   */
  lemma TwoGrantsBoundMistral(b: Budget, s: U.Spend, w: S.Windows, now: nat)
    requires Acceptable(b.shares, b.mistralCap)
    requires HasShare(b.shares, Public, U.Mistral) && HasShare(b.shares, Private, U.Mistral)
    requires MistralNotHeld(GrantOf(b, Public, ObservedOf(w), Some(SpentOn(s, Public, now)), now))
    requires MistralNotHeld(GrantOf(b, Private, ObservedOf(w), Some(SpentOn(s, Private, now)), now))
    ensures b.mistralCap.Some? && MistralWithin(b, SpentOn(s, Public, now), SpentOn(s, Private, now), now)
  {
    MistralIsGranted(b, w, Public, SpentOn(s, Public, now), now);
    MistralIsGranted(b, w, Private, SpentOn(s, Private, now), now);
    SpendsTogether(b, SpentOn(s, Public, now), SpentOn(s, Private, now), now);
  }

  /** What was charged to Mistral in the week, by the hours of the settlements themselves. */
  function ChargedToMistral(price: Spending.Price, es: seq<Spending.Event>, part: Spending.Part, now: nat): nat {
    Spending.Owed(Spending.Ledger(price, es), part, now / 3600).micros
  }

  /** Under a safe clock a consumer's Mistral week is what was charged to it, as far as its counter goes. */
  lemma SpentIsCharged(price: Spending.Price, es: seq<Spending.Event>, s: U.Spend, consumer: Consumer, now: nat)
    requires Spending.Exec(price, es).spend == Some(s) && Weeks.Safe(Spending.Clock(es), now / 3600)
    ensures SpentOn(s, consumer, now).micros == Sat(ChargedToMistral(price, es, Spending.OfMistral(consumer), now))
  {
    Spending.EveryRunKeepsBooks(price, es);
    Spending.SafeClockPlacesLines(price, es, now / 3600);
    Spending.WeekSumsToOwed(Spending.Ledger(price, es), Spending.OfMistral(consumer), now / 3600);
  }

  lemma MistralInParts(price: Spending.Price, es: seq<Spending.Event>, now: nat)
    ensures ChargedToMistral(price, es, Spending.OfAllMistral, now) ==
            ChargedToMistral(price, es, Spending.OfMistral(Public), now) + ChargedToMistral(price, es, Spending.OfMistral(Private), now)
  {
    Spending.OwedInParts(Spending.OfAllMistral, Spending.OfMistral(Public), Spending.OfMistral(Private),
                         Spending.Ledger(price, es), now / 3600);
  }

  lemma PercentWithin(micros: nat, whole: real)
    requires whole > 0.0 && PercentOf(micros, whole) <= 100.0
    ensures micros as real <= whole
  {
    assert PercentOf(micros, whole) == micros as real / whole * 100.0;
    assert micros as real / whole * whole == micros as real;
    Scaled(micros as real / whole, 1.0, whole);
  }

  /** Spends within a cap that 64 bits can hold were not clipped. */
  lemma ClippedIsExact(x: nat, y: nat, whole: real)
    requires 0.0 < whole < U64_MAX as real && PercentOf(Sat(x) + Sat(y), whole) <= 100.0
    ensures Sat(x) == x && Sat(y) == y
  {
    PercentWithin(Sat(x) + Sat(y), whole);
    assert Sat(x) + Sat(y) < U64_MAX;
  }

  /** `micros` are within both consumers' shares of the cap, as the week since then passes, and so within the cap. */
  predicate WithinShares(b: Budget, micros: nat, since: nat, now: nat)
    requires CapIsPositive(b) && b.mistralCap.Some?
    requires HasShare(b.shares, Public, U.Mistral) && HasShare(b.shares, Private, U.Mistral)
  {
    && WithinPace(PercentOf(micros, MicrosOf(b.mistralCap.value)), b.shares[Public][U.Mistral] + b.shares[Private][U.Mistral],
                  ElapsedSince(since, now), 604_800)
    && PercentOf(micros, MicrosOf(b.mistralCap.value)) <= 100.0
  }

  lemma UnclippedWithin(b: Budget, x: nat, y: nat, since: nat, now: nat)
    requires CapIsPositive(b) && b.mistralCap.Some? && HasShare(b.shares, Public, U.Mistral) && HasShare(b.shares, Private, U.Mistral)
    requires MicrosOf(b.mistralCap.value) < U64_MAX as real && WithinShares(b, Sat(x) + Sat(y), since, now)
    ensures WithinShares(b, x + y, since, now)
  {
    ClippedIsExact(x, y, MicrosOf(b.mistralCap.value));
  }

  /**
   With a clock that misplaces no charge, and a cap that 64 bits can hold: if
   neither consumer is held on Mistral's week, all that was charged to Mistral
   in the week is within the paced shares of the cap, and so within the cap.
   */
  lemma TwoGrantsBoundCharges(b: Budget, price: Spending.Price, es: seq<Spending.Event>, s: U.Spend, w: S.Windows, now: nat)
    requires Spending.Exec(price, es).spend == Some(s) && Weeks.Safe(Spending.Clock(es), now / 3600)
    requires Acceptable(b.shares, b.mistralCap) && b.mistralCap.Some? && MicrosOf(b.mistralCap.value) < U64_MAX as real
    requires HasShare(b.shares, Public, U.Mistral) && HasShare(b.shares, Private, U.Mistral)
    requires MistralNotHeld(GrantOf(b, Public, ObservedOf(w), Some(SpentOn(s, Public, now)), now))
    requires MistralNotHeld(GrantOf(b, Private, ObservedOf(w), Some(SpentOn(s, Private, now)), now))
    ensures WithinShares(b, ChargedToMistral(price, es, Spending.OfAllMistral, now), s.since, now)
  {
    TwoGrantsBoundMistral(b, s, w, now);
    ChargesAreSpends(b, price, es, s, now);
  }

  lemma ChargesAreSpends(b: Budget, price: Spending.Price, es: seq<Spending.Event>, s: U.Spend, now: nat)
    requires Spending.Exec(price, es).spend == Some(s) && Weeks.Safe(Spending.Clock(es), now / 3600)
    requires HasShare(b.shares, Public, U.Mistral) && HasShare(b.shares, Private, U.Mistral)
    requires CapIsPositive(b) && b.mistralCap.Some? && MicrosOf(b.mistralCap.value) < U64_MAX as real
    requires MistralWithin(b, SpentOn(s, Public, now), SpentOn(s, Private, now), now)
    ensures WithinShares(b, ChargedToMistral(price, es, Spending.OfAllMistral, now), s.since, now)
  {
    SpentIsCharged(price, es, s, Public, now);
    SpentIsCharged(price, es, s, Private, now);
    MistralInParts(price, es, now);
    UnclippedWithin(b, ChargedToMistral(price, es, Spending.OfMistral(Public), now),
                    ChargedToMistral(price, es, Spending.OfMistral(Private), now), s.since, now);
  }
}
