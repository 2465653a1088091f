/**
 The broker's counts and list-price spend (usage.rs).

 Spend is kept per payer: the runs by consumer, each listed operator, and
 Mistral's part again by consumer. The lemmas relate these weeks to one log of
 every charge, and the operators spend is kept for to those the counts list.
 */
module Usages {
  import opened Wrappers
  import opened Numbers
  import opened Records
  import opened Registry
  import W = Weeks

  datatype Provider = Anthropic | Codex | Mistral

  /** Operators a snapshot lists. */
  const MAX_LISTED_OPERATORS: nat := 64

  datatype Counts = Counts(requests: u64, unmetered: u64, tokens: Tokens)

  const NO_COUNTS := Counts(0, 0, NO_TOKENS)

  function Counted(c: Counts, usage: Option<Usage>, success: bool): Counts {
    if usage.Some? then
      c.(requests := SatAdd(c.requests, 1), tokens := AddTokens(c.tokens, usage.value.tokens))
    else if success then
      c.(unmetered := SatAdd(c.unmetered, 1))
    else
      c
  }

  type Buckets = seq<W.Bucket>

  /** A week for each consumer. */
  datatype PerConsumer = PerConsumer(public: Buckets, private: Buckets) {
    function At(consumer: Consumer): Buckets {
      if consumer == Public then public else private
    }

    function With(consumer: Consumer, week: Buckets): PerConsumer {
      if consumer == Public then PerConsumer(week, private) else PerConsumer(public, week)
    }
  }

  datatype Spend = Spend(
    since: nat, runs: PerConsumer, operators: map<string, Buckets>, mistral: PerConsumer)

  datatype Payer = Payer(operator: Option<string>, consumer: Consumer, provider: Option<Provider>)

  datatype Broker = Broker(
    anthropic: Counts, codex: Counts, mistral: Counts, unproven: Option<Counts>,
    operators: map<string, Counts>, publicOperators: set<string>, spend: Option<Spend>)

  const UNUSED := Broker(NO_COUNTS, NO_COUNTS, NO_COUNTS, None, map[], {}, None)

  // ---------------------------------------------------------------------
  // Steps.

  function Metering(b: Broker, now: nat): Broker {
    if b.spend.Some? then b
    else
      var weeks := map name | name in b.operators :: [];
      b.(spend := Some(Spend(now, PerConsumer([], []), weeks, PerConsumer([], []))))
  }

  function Listed(b: Broker, operator: string): Broker {
    var spend := match b.spend
                 case None => None
                 case Some(s) => Some(s.(operators := s.operators[operator := []]));
    b.(operators := b.operators[operator := NO_COUNTS], spend := spend)
  }

  function Declared(b: Broker, operator: string, consumer: Consumer): Broker {
    if operator !in b.operators && |b.operators| >= MAX_LISTED_OPERATORS then b
    else
      var listed := if operator in b.operators then b else Listed(b, operator);
      listed.(publicOperators := if consumer == Public then b.publicOperators + {operator} else b.publicOperators - {operator})
  }

  /** Spend is metered and kept for this payer. */
  predicate Charges(b: Broker, payer: Payer) {
    b.spend.Some? && (payer.operator.Some? ==> payer.operator.value in b.spend.value.operators)
  }

  function ChargedTo(s: Spend, payer: Payer, hour: nat, charge: W.Charge): Spend
    requires payer.operator.Some? ==> payer.operator.value in s.operators
  {
    var paid :=
      match payer.operator
      case None => s.(runs := s.runs.With(payer.consumer, W.Added(s.runs.At(payer.consumer), hour, charge)))
      case Some(name) => s.(operators := s.operators[name := W.Added(s.operators[name], hour, charge)]);
    if payer.provider == Some(Mistral)
    then paid.(mistral := s.mistral.With(payer.consumer, W.Added(s.mistral.At(payer.consumer), hour, charge)))
    else paid
  }

  function Spent(b: Broker, payer: Payer, charge: W.Charge, hour: nat): Broker {
    if Charges(b, payer) then b.(spend := Some(ChargedTo(b.spend.value, payer, hour, charge))) else b
  }

  /** What a response is charged, if anything; `price` is the price table. */
  function ChargeOf(price: Usage -> Option<u64>, usage: Option<Usage>, success: bool): Option<W.Charge> {
    match usage
    case Some(u) => Some(if price(u).Some? then W.Priced(price(u).value) else W.Unpriced)
    case None => if success then Some(W.Unmetered) else None
  }

  function SettledSpend(b: Broker, price: Usage -> Option<u64>, payer: Payer, usage: Option<Usage>, success: bool, now: nat): Broker {
    match ChargeOf(price, usage, success)
    case None => b
    case Some(charge) => Spent(b, payer, charge, now / 3600)
  }

  function SettledProvider(b: Broker, provider: Provider, usage: Option<Usage>, success: bool): Broker {
    match provider
    case Anthropic => b.(anthropic := Counted(b.anthropic, usage, success))
    case Codex => b.(codex := Counted(b.codex, usage, success))
    case Mistral => b.(mistral := Counted(b.mistral, usage, success))
  }

  function SettledOperator(b: Broker, operator: string, usage: Option<Usage>, success: bool): Broker {
    if operator !in b.operators then b
    else b.(operators := b.operators[operator := Counted(b.operators[operator], usage, success)])
  }

  function SettledUnproven(b: Broker, usage: Option<Usage>, success: bool): Broker {
    var counts := if b.unproven.Some? then b.unproven.value else NO_COUNTS;
    b.(unproven := Some(Counted(counts, usage, success)))
  }

  // ---------------------------------------------------------------------
  // The view of the week's spend.

  /** All the operators' sums together. */
  ghost function TotalOver(weeks: map<string, Buckets>, names: set<string>, hour: nat): W.Exact
    requires names <= weeks.Keys
  {
    if names == {} then W.Zero()
    else
      var name :| name in names;
      W.SumOf(weeks[name], hour).Plus(TotalOver(weeks, names - {name}, hour))
  }

  /** The sum does not depend on the order the operators are taken in. */
  lemma {:induction false} TakeAny(weeks: map<string, Buckets>, names: set<string>, name: string, hour: nat)
    requires name in names && names <= weeks.Keys
    ensures TotalOver(weeks, names, hour) == W.SumOf(weeks[name], hour).Plus(TotalOver(weeks, names - {name}, hour))
    decreases |names|
  {
    var first :| first in names && TotalOver(weeks, names, hour) ==
                 W.SumOf(weeks[first], hour).Plus(TotalOver(weeks, names - {first}, hour));
    if first != name {
      TakeAny(weeks, names - {first}, name, hour);
      TakeAny(weeks, names - {name}, first, hour);
      assert names - {first} - {name} == names - {name} - {first};
      Swapped(W.SumOf(weeks[first], hour), W.SumOf(weeks[name], hour), TotalOver(weeks, names - {name} - {first}, hour));
    }
  }

  lemma Swapped(a: W.Exact, b: W.Exact, rest: W.Exact)
    ensures a.Plus(b.Plus(rest)) == b.Plus(a.Plus(rest))
  {
  }

  datatype SpendView = SpendView(all: W.Tally, runs: W.Tally, byOperator: map<string, W.Tally>)

  /** The operators a view shows: all of them, or the public consumer's. */
  function Shown(s: Spend, publicOnly: Option<set<string>>): set<string> {
    match publicOnly
    case None => s.operators.Keys
    case Some(public) => set name | name in s.operators && name in public
  }

  function RunsTotal(s: Spend, publicOnly: Option<set<string>>, hour: nat): W.Exact {
    var public := W.SumOf(s.runs.public, hour);
    if publicOnly.None? then public.Plus(W.SumOf(s.runs.private, hour)) else public
  }

  /** `start` and the sums of the operators in `order`, saturating at each. */
  function AddEach(start: W.Tally, weeks: map<string, Buckets>, order: seq<string>, hour: nat): W.Tally
    requires SetOf(order) <= weeks.Keys
  {
    if order == [] then start
    else
      assert SetOf(order[..|order| - 1]) <= SetOf(order);
      W.AddTallies(AddEach(start, weeks, order[..|order| - 1], hour), W.SumOf(weeks[order[|order| - 1]], hour).Clip())
  }

  function SetOf(order: seq<string>): set<string> {
    set name | name in order
  }

  ghost predicate Distinct(order: seq<string>) {
    forall i, j :: 0 <= i < j < |order| ==> order[i] != order[j]
  }

  lemma WithoutLast(order: seq<string>)
    requires Distinct(order) && order != []
    ensures var n := |order| - 1;
            && Distinct(order[..n])
            && order[n] in SetOf(order)
            && SetOf(order[..n]) == SetOf(order) - {order[n]}
  {
  }

  lemma WithOneMore(order: seq<string>, name: string)
    requires Distinct(order) && name !in SetOf(order)
    ensures var longer := order + [name];
            Distinct(longer) && SetOf(longer) == SetOf(order) + {name} && longer[..|longer| - 1] == order
  {
  }

  lemma {:induction false} AddEachIsExact(base: W.Exact, weeks: map<string, Buckets>, order: seq<string>, hour: nat)
    requires Distinct(order) && SetOf(order) <= weeks.Keys
    ensures AddEach(base.Clip(), weeks, order, hour) == base.Plus(TotalOver(weeks, SetOf(order), hour)).Clip()
  {
    if order == [] {
      W.PlusNothing(base);
    } else {
      WithoutLast(order);
      AddEachIsExact(base, weeks, order[..|order| - 1], hour);
      AddOneMore(base, weeks, SetOf(order), order[|order| - 1], hour);
    }
  }

  lemma AddOneMore(base: W.Exact, weeks: map<string, Buckets>, names: set<string>, name: string, hour: nat)
    requires name in names && names <= weeks.Keys
    ensures W.AddTallies(base.Plus(TotalOver(weeks, names - {name}, hour)).Clip(), W.SumOf(weeks[name], hour).Clip())
            == base.Plus(TotalOver(weeks, names, hour)).Clip()
  {
    TakeAny(weeks, names, name, hour);
    W.ClipTwice(base.Plus(TotalOver(weeks, names - {name}, hour)), W.SumOf(weeks[name], hour));
    Regrouped(base, TotalOver(weeks, names - {name}, hour), W.SumOf(weeks[name], hour));
  }

  lemma Regrouped(a: W.Exact, b: W.Exact, c: W.Exact)
    ensures a.Plus(b).Plus(c) == a.Plus(c.Plus(b))
  {
  }

  /** All that a view shows, clipped once. */
  ghost function ShownTotal(s: Spend, publicOnly: Option<set<string>>, hour: nat): W.Tally {
    RunsTotal(s, publicOnly, hour).Plus(TotalOver(s.operators, Shown(s, publicOnly), hour)).Clip()
  }

  /** The spend of the week ending with `hour`: exact sums, each clipped once. */
  method View(s: Spend, hour: nat, publicOnly: Option<set<string>>) returns (view: SpendView)
    ensures view.runs == RunsTotal(s, publicOnly, hour).Clip()
    ensures view.all == ShownTotal(s, publicOnly, hour)
    ensures view.byOperator == map name | name in Shown(s, publicOnly) :: W.SumOf(s.operators[name], hour).Clip()
  {
    var runs := W.SumOf(s.runs.public, hour).Clip();
    if publicOnly.None? {
      W.ClipTwice(W.SumOf(s.runs.public, hour), W.SumOf(s.runs.private, hour));
      runs := W.AddTallies(runs, W.SumOf(s.runs.private, hour).Clip());
    }
    var all, byOperator, order := AddOperators(s, hour, publicOnly, runs);
    AddEachIsExact(RunsTotal(s, publicOnly, hour), s.operators, order, hour);
    view := SpendView(all, runs, byOperator);
  }

  /** The operators in `order` have been added to `runs`. */
  ghost predicate Totalled(weeks: map<string, Buckets>, hour: nat, runs: W.Tally, all: W.Tally, order: seq<string>) {
    Distinct(order) && SetOf(order) <= weeks.Keys && all == AddEach(runs, weeks, order, hour)
  }

  predicate Tabled(weeks: map<string, Buckets>, hour: nat, table: map<string, W.Tally>) {
    table.Keys <= weeks.Keys && forall name :: name in table ==> table[name] == W.SumOf(weeks[name], hour).Clip()
  }

  lemma AddsOne(start: W.Tally, weeks: map<string, Buckets>, order: seq<string>, name: string, hour: nat)
    requires SetOf(order) <= weeks.Keys && name in weeks && SetOf(order + [name]) <= weeks.Keys
    ensures AddEach(start, weeks, order + [name], hour) ==
            W.AddTallies(AddEach(start, weeks, order, hour), W.SumOf(weeks[name], hour).Clip())
  {
    assert (order + [name])[..|order|] == order;
  }

  lemma TotalsNext(weeks: map<string, Buckets>, hour: nat, runs: W.Tally, all: W.Tally, order: seq<string>, name: string)
    requires Totalled(weeks, hour, runs, all, order) && name in weeks && name !in SetOf(order)
    ensures Totalled(weeks, hour, runs, W.AddTallies(all, W.SumOf(weeks[name], hour).Clip()), order + [name])
  {
    WithOneMore(order, name);
    AddsOne(runs, weeks, order, name, hour);
  }

  lemma TablesNext(weeks: map<string, Buckets>, hour: nat, table: map<string, W.Tally>, name: string)
    requires Tabled(weeks, hour, table) && name in weeks
    ensures var next := table[name := W.SumOf(weeks[name], hour).Clip()];
            Tabled(weeks, hour, next) && next.Keys == table.Keys + {name}
  {
  }

  lemma TakenOut(shown: set<string>, rest: set<string>, name: string)
    requires name in rest
    ensures shown - (rest - {name}) == shown - rest + if name in shown then {name} else {}
  {
  }

  /** Each shown operator is added once, in whatever order they are kept. */
  method AddOperators(s: Spend, hour: nat, publicOnly: Option<set<string>>, runs: W.Tally)
    returns (all: W.Tally, byOperator: map<string, W.Tally>, ghost order: seq<string>)
    ensures Distinct(order) && SetOf(order) == Shown(s, publicOnly) == byOperator.Keys
    ensures all == AddEach(runs, s.operators, order, hour)
    ensures byOperator == map name | name in Shown(s, publicOnly) :: W.SumOf(s.operators[name], hour).Clip()
  {
    all, byOperator, order := runs, map[], [];
    var rest := s.operators.Keys;
    while rest != {}
      invariant rest <= s.operators.Keys
      invariant byOperator.Keys == Shown(s, publicOnly) - rest
      invariant SetOf(order) == byOperator.Keys
      invariant Totalled(s.operators, hour, runs, all, order) && Tabled(s.operators, hour, byOperator)
      decreases rest
    {
      var name :| name in rest;
      TakenOut(Shown(s, publicOnly), rest, name);
      rest := rest - {name};
      if publicOnly.Some? && name !in publicOnly.value {
        continue;
      }
      var sum := W.SumOf(s.operators[name], hour).Clip();
      WithOneMore(order, name);
      TotalsNext(s.operators, hour, runs, all, order, name);
      TablesNext(s.operators, hour, byOperator, name);
      all, byOperator, order := W.AddTallies(all, sum), byOperator[name := sum], order + [name];
    }
  }
}
