/**
 A run's usage record and how responses add up in it (runs.rs).

 The record saturates each counter on every addition and keeps totals for at
 most `MAX_MODELS` models. The lemmas say what that leaves in terms of the
 responses alone: exact sums, clipped once, whatever order they came in.
 */
module Records {
  import opened Wrappers
  import opened Numbers

  /** Models a record keeps totals for. */
  const MAX_MODELS: nat := 16

  datatype Tokens = Tokens(input: u64, cacheRead: u64, output: u64, reasoning: u64, total: u64)

  const NO_TOKENS := Tokens(0, 0, 0, 0, 0)

  datatype Usage = Usage(tokens: Tokens, model: Option<string>, cacheWrite: u64)

  function AddTokens(a: Tokens, b: Tokens): Tokens {
    Tokens(SatAdd(a.input, b.input), SatAdd(a.cacheRead, b.cacheRead), SatAdd(a.output, b.output),
           SatAdd(a.reasoning, b.reasoning), SatAdd(a.total, b.total))
  }

  datatype RunState = Active | Finished | Expired

  /** The part of a record that counts responses. */
  datatype Tallies = Tallies(requests: nat, unmetered: nat, tokens: Tokens, models: map<string, Tokens>)

  const NOTHING_USED := Tallies(0, 0, NO_TOKENS, map[])

  /** Count one metered response. */
  function Add(t: Tallies, usage: Usage): Tallies {
    var counted := t.(requests := t.requests + 1, tokens := AddTokens(t.tokens, usage.tokens));
    match usage.model
    case None => counted
    case Some(model) =>
      if model in t.models then
        counted.(models := t.models[model := AddTokens(t.models[model], usage.tokens)])
      else if |t.models| < MAX_MODELS then
        counted.(models := t.models[model := usage.tokens])
      else
        counted
  }

  /** How an admitted request's response ended. */
  datatype Outcome = Metered(usage: Usage) | Unmetered | Failed

  function Tallied(used: Tallies, outcome: Outcome): Tallies {
    match outcome
    case Metered(usage) => Add(used, usage)
    case Unmetered => used.(unmetered := used.unmetered + 1)
    case Failed => used
  }

  /** The tallies after `usages`, oldest first. */
  function AddAll(t: Tallies, usages: seq<Usage>): Tallies {
    if usages == [] then t else Add(AddAll(t, usages[..|usages| - 1]), usages[|usages| - 1])
  }

  // ---------------------------------------------------------------------
  // What the tallies mean: exact sums over the responses.

  /** Token counts without a limit. */
  datatype Exact = Exact(input: nat, cacheRead: nat, output: nat, reasoning: nat, total: nat)

  function Plus(a: Exact, b: Tokens): Exact {
    Exact(a.input + b.input, a.cacheRead + b.cacheRead, a.output + b.output,
          a.reasoning + b.reasoning, a.total + b.total)
  }

  function Clip(e: Exact): Tokens {
    Tokens(Sat(e.input), Sat(e.cacheRead), Sat(e.output), Sat(e.reasoning), Sat(e.total))
  }

  /** Which responses a sum is over. */
  datatype Selection = All | Naming(model: string) {
    predicate Selects(u: Usage) {
      match this
      case All => true
      case Naming(m) => u.model == Some(m)
    }
  }

  function SumOf(usages: seq<Usage>, sel: Selection): Exact {
    if usages == [] then Exact(0, 0, 0, 0, 0)
    else
      var rest := SumOf(usages[..|usages| - 1], sel);
      var last := usages[|usages| - 1];
      if sel.Selects(last) then Plus(rest, last.tokens) else rest
  }

  /** Some response names `model`. */
  ghost predicate Named(usages: seq<Usage>, model: string) {
    exists i :: 0 <= i < |usages| && usages[i].model == Some(model)
  }

  lemma ClipAfterEachAddition(e: Exact, t: Tokens)
    ensures AddTokens(Clip(e), t) == Clip(Plus(e, t))
  {
  }

  lemma {:induction false} UnnamedSumsToNothing(usages: seq<Usage>, model: string)
    requires !Named(usages, model)
    ensures SumOf(usages, Naming(model)) == Exact(0, 0, 0, 0, 0)
  {
    if usages != [] {
      var rest := usages[..|usages| - 1];
      assert forall i :: 0 <= i < |rest| ==> rest[i] == usages[i];
      UnnamedSumsToNothing(rest, model);
    }
  }

  lemma {:induction false} TotalsAreExact(usages: seq<Usage>)
    ensures var t := AddAll(NOTHING_USED, usages);
            t.requests == |usages| && t.unmetered == 0 && t.tokens == Clip(SumOf(usages, All))
  {
    if usages != [] {
      var rest, last := usages[..|usages| - 1], usages[|usages| - 1];
      TotalsAreExact(rest);
      ClipAfterEachAddition(SumOf(rest, All), last.tokens);
    }
  }

  /** A record that left `model` out is full. */
  ghost predicate KeepsOrIsFull(t: Tallies, usages: seq<Usage>, model: string) {
    && |t.models| <= 16
    && (model in t.models ==> Named(usages, model) && t.models[model] == Clip(SumOf(usages, Naming(model))))
    && (Named(usages, model) && model !in t.models ==> |t.models| == 16)
  }

  lemma {:induction false} ModelIsExact(usages: seq<Usage>, model: string)
    ensures KeepsOrIsFull(AddAll(NOTHING_USED, usages), usages, model)
  {
    if usages != [] {
      var rest, last := usages[..|usages| - 1], usages[|usages| - 1];
      ModelIsExact(rest, model);
      NamedAtTheEnd(rest, last, model);
      assert rest + [last] == usages;
      ClipAfterEachAddition(SumOf(rest, Naming(model)), last.tokens);
      if !Named(rest, model) {
        UnnamedSumsToNothing(rest, model);
      }
    }
  }

  /**
   A record's totals are the exact sums of its metered responses, clipped
   once. It keeps at most `MAX_MODELS` models, all of them named by a
   response; a named model is left out only when the record is full; and a
   kept model's entry covers every response that named it, never only some.
   */
  lemma RecordIsExact(usages: seq<Usage>)
    ensures var t := AddAll(NOTHING_USED, usages);
            && t.requests == |usages|
            && t.unmetered == 0
            && t.tokens == Clip(SumOf(usages, All))
            && (forall m :: KeepsOrIsFull(t, usages, m))
  {
    TotalsAreExact(usages);
    forall m
      ensures KeepsOrIsFull(AddAll(NOTHING_USED, usages), usages, m)
    {
      ModelIsExact(usages, m);
    }
  }

  lemma NamedAtTheEnd(rest: seq<Usage>, last: Usage, m: string)
    ensures Named(rest + [last], m) <==> Named(rest, m) || last.model == Some(m)
  {
    var all := rest + [last];
    if Named(rest, m) {
      var i :| 0 <= i < |rest| && rest[i].model == Some(m);
      assert all[i].model == Some(m);
    }
    assert all[|rest|] == last;
  }

  lemma {:induction false} SumWithout(usages: seq<Usage>, i: nat, sel: Selection)
    requires i < |usages|
    ensures var without := SumOf(usages[..i] + usages[i + 1..], sel);
            SumOf(usages, sel) == if sel.Selects(usages[i]) then Plus(without, usages[i].tokens) else without
  {
    var n := |usages| - 1;
    if i == n {
      assert usages[..i] + usages[i + 1..] == usages[..n];
    } else {
      var shorter, without := usages[..n], usages[..i] + usages[i + 1..];
      SumWithout(shorter, i, sel);
      LastStays(usages, i);
      SumOfLast(without, sel);
      SumOfLast(usages, sel);
      PlusInEitherOrder(SumOf(without[..n - 1], sel), usages[i].tokens, usages[n].tokens);
    }
  }

  lemma LastStays(usages: seq<Usage>, i: nat)
    requires i < |usages| - 1
    ensures var n, shorter, without := |usages| - 1, usages[..|usages| - 1], usages[..i] + usages[i + 1..];
            without[..n - 1] == shorter[..i] + shorter[i + 1..] && without[n - 1] == usages[n] && shorter[i] == usages[i]
  {
  }

  lemma PlusInEitherOrder(e: Exact, a: Tokens, b: Tokens)
    ensures Plus(Plus(e, a), b) == Plus(Plus(e, b), a)
  {
  }

  lemma SumOfLast(usages: seq<Usage>, sel: Selection)
    requires usages != []
    ensures var rest, last := SumOf(usages[..|usages| - 1], sel), usages[|usages| - 1];
            SumOf(usages, sel) == if sel.Selects(last) then Plus(rest, last.tokens) else rest
  {
  }

  lemma RemoveOne(s: seq<Usage>, i: nat)
    requires i < |s|
    ensures multiset(s[..i] + s[i + 1..]) == multiset(s) - multiset{s[i]}
  {
    assert s == s[..i] + ([s[i]] + s[i + 1..]);
  }

  /** Sums do not depend on the order of the responses. */
  lemma {:induction false} SumIsOrderless(a: seq<Usage>, b: seq<Usage>, sel: Selection)
    requires multiset(a) == multiset(b)
    ensures SumOf(a, sel) == SumOf(b, sel)
  {
    if a == [] {
      assert |multiset(b)| == 0;
    } else {
      var n := |a| - 1;
      assert a[n] in multiset(b);
      var i :| 0 <= i < |b| && b[i] == a[n];
      var rest := b[..i] + b[i + 1..];
      RemoveOne(a, n);
      RemoveOne(b, i);
      assert a[..n] + a[n + 1..] == a[..n];
      SumIsOrderless(a[..n], rest, sel);
      SumWithout(b, i, sel);
    }
  }

  lemma MeteredInAnyOrder(a: seq<Usage>, b: seq<Usage>)
    requires multiset(a) == multiset(b)
    ensures SameRecord(AddAll(NOTHING_USED, a), AddAll(NOTHING_USED, b))
  {
    RecordIsExact(a);
    RecordIsExact(b);
    var ta, tb := AddAll(NOTHING_USED, a), AddAll(NOTHING_USED, b);
    assert |multiset(a)| == |a| && |multiset(b)| == |b|;
    SumIsOrderless(a, b, All);
    forall m
      ensures m in ta.models && m in tb.models ==> ta.models[m] == tb.models[m]
      ensures |ta.models| < MAX_MODELS && m in tb.models ==> m in ta.models
      ensures |ta.models| < MAX_MODELS && |tb.models| < MAX_MODELS && m in ta.models ==> m in tb.models
    {
      assert KeepsOrIsFull(ta, a, m) && KeepsOrIsFull(tb, b, m);
      SumIsOrderless(a, b, Naming(m));
      SameNames(a, b, m);
      SameNames(b, a, m);
    }
    if |ta.models| < MAX_MODELS {
      FewerKeys(tb.models, ta.models);
    }
  }

  lemma FewerKeys(small: map<string, Tokens>, large: map<string, Tokens>)
    requires small.Keys <= large.Keys
    ensures |small| <= |large|
  {
    assert large.Keys == small.Keys + (large.Keys - small.Keys);
  }

  lemma SameNames(a: seq<Usage>, b: seq<Usage>, m: string)
    requires multiset(a) == multiset(b)
    ensures Named(a, m) ==> Named(b, m)
  {
    if Named(a, m) {
      var i :| 0 <= i < |a| && a[i].model == Some(m);
      assert a[i] in multiset(b);
    }
  }

  // ---------------------------------------------------------------------
  // Every outcome, metered or not.

  /** The tallies after `outcomes`, oldest first. */
  function TallyAll(outcomes: seq<Outcome>): Tallies {
    if outcomes == [] then NOTHING_USED else Tallied(TallyAll(outcomes[..|outcomes| - 1]), outcomes[|outcomes| - 1])
  }

  function MeteredOf(outcomes: seq<Outcome>): seq<Usage> {
    if outcomes == [] then []
    else
      MeteredOf(outcomes[..|outcomes| - 1]) +
      if outcomes[|outcomes| - 1].Metered? then [outcomes[|outcomes| - 1].usage] else []
  }

  lemma AddNext(t: Tallies, usages: seq<Usage>, u: Usage)
    ensures AddAll(t, usages + [u]) == Add(AddAll(t, usages), u)
  {
    assert (usages + [u])[..|usages|] == usages;
  }

  lemma UnmeteredStays(t: Tallies, u: Usage, unmetered: nat)
    ensures Add(t, u).(unmetered := unmetered) == Add(t.(unmetered := unmetered), u)
  {
  }

  lemma OneMore(outcomes: seq<Outcome>)
    requires outcomes != []
    ensures multiset(outcomes) == multiset(outcomes[..|outcomes| - 1]) + multiset{outcomes[|outcomes| - 1]}
  {
    assert outcomes == outcomes[..|outcomes| - 1] + [outcomes[|outcomes| - 1]];
  }

  /** The record counts the metered outcomes as if alone, and the unmetered ones by their number. */
  lemma {:induction false} OutcomesAreExact(outcomes: seq<Outcome>)
    ensures TallyAll(outcomes) == AddAll(NOTHING_USED, MeteredOf(outcomes)).(unmetered := multiset(outcomes)[Unmetered])
  {
    if outcomes != [] {
      var rest, last := outcomes[..|outcomes| - 1], outcomes[|outcomes| - 1];
      OutcomesAreExact(rest);
      OneMore(outcomes);
      if last.Metered? {
        AddNext(NOTHING_USED, MeteredOf(rest), last.usage);
        UnmeteredStays(AddAll(NOTHING_USED, MeteredOf(rest)), last.usage, multiset(rest)[Unmetered]);
      } else {
        assert MeteredOf(rest) + [] == MeteredOf(rest);
      }
    }
  }

  lemma {:induction false} MeteredCounts(outcomes: seq<Outcome>, u: Usage)
    ensures multiset(MeteredOf(outcomes))[u] == multiset(outcomes)[Metered(u)]
  {
    if outcomes != [] {
      MeteredCounts(outcomes[..|outcomes| - 1], u);
      OneMore(outcomes);
    }
  }

  lemma SameMetered(a: seq<Outcome>, b: seq<Outcome>)
    requires multiset(a) == multiset(b)
    ensures multiset(MeteredOf(a)) == multiset(MeteredOf(b))
  {
    forall u
      ensures multiset(MeteredOf(a))[u] == multiset(MeteredOf(b))[u]
    {
      MeteredCounts(a, u);
      MeteredCounts(b, u);
    }
  }

  /** The two are the same but for which models a full record kept. */
  ghost predicate SameRecord(a: Tallies, b: Tallies) {
    && a.requests == b.requests && a.unmetered == b.unmetered && a.tokens == b.tokens
    && (forall m :: m in a.models && m in b.models ==> a.models[m] == b.models[m])
    && (|a.models| < MAX_MODELS ==> a.models == b.models)
  }

  /**
   In whatever order the same outcomes settle, metered or not, the record's
   totals are the same, and so is the entry of every model both orders keep.
   */
  lemma SettlementOrderDoesNotMatter(a: seq<Outcome>, b: seq<Outcome>)
    requires multiset(a) == multiset(b)
    ensures SameRecord(TallyAll(a), TallyAll(b))
  {
    OutcomesAreExact(a);
    OutcomesAreExact(b);
    SameMetered(a, b);
    MeteredInAnyOrder(MeteredOf(a), MeteredOf(b));
  }
}
