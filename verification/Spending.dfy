/**
 The week's spend over whole runs of the broker (usage.rs).

 Metering may begin before or after operators are declared, and responses
 settle in between. The lemmas relate every week the broker keeps to one
 ledger of all charges: what the view totals is exactly what was charged in
 the week, and Mistral's weeks are a part of it.
 */
module Spending {
  import opened Wrappers
  import opened Numbers
  import opened Records
  import opened Registry
  import opened Usages
  import W = Weeks

  type Price = Usage -> Option<u64>

  datatype Event =
    | Meter(now: nat)
    | Declare(operator: string, consumer: Consumer)
    | Settle(payer: Payer, usage: Option<Usage>, success: bool, now: nat)

  function Step(b: Broker, price: Price, e: Event): Broker {
    match e
    case Meter(now) => Metering(b, now)
    case Declare(operator, consumer) => Declared(b, operator, consumer)
    case Settle(payer, usage, success, now) => SettledSpend(b, price, payer, usage, success, now)
  }

  function Exec(price: Price, es: seq<Event>): Broker {
    if es == [] then UNUSED else Step(Exec(price, es[..|es| - 1]), price, es[|es| - 1])
  }

  // ---------------------------------------------------------------------
  // The ledger.

  datatype Line = Line(payer: Payer, hour: nat, charge: W.Charge)

  /** What the step `e` charges in state `b`. */
  function NewLines(b: Broker, price: Price, e: Event): seq<Line> {
    if e.Settle? && Charges(b, e.payer) && ChargeOf(price, e.usage, e.success).Some?
    then [Line(e.payer, e.now / 3600, ChargeOf(price, e.usage, e.success).value)]
    else []
  }

  function Ledger(price: Price, es: seq<Event>): seq<Line> {
    if es == [] then []
    else Ledger(price, es[..|es| - 1]) + NewLines(Exec(price, es[..|es| - 1]), price, es[|es| - 1])
  }

  /** Which lines a sum is over. */
  datatype Part =
    | Everything
    | PublicOnly(operators: set<string>)
    | OfAllRuns
    | OfRuns(consumer: Consumer)
    | OfOperators(names: set<string>)
    | OfAllMistral
    | OfMistral(consumer: Consumer)
  {
    predicate Has(p: Payer) {
      match this
      case Everything => true
      case PublicOnly(names) => if p.operator.None? then p.consumer == Public else p.operator.value in names
      case OfAllRuns => p.operator.None?
      case OfAllMistral => p.provider == Some(Mistral)
      case OfRuns(c) => p.operator.None? && p.consumer == c
      case OfOperators(names) => p.operator.Some? && p.operator.value in names
      case OfMistral(c) => p.provider == Some(Mistral) && p.consumer == c
    }
  }

  function EntriesOf(ledger: seq<Line>, part: Part): seq<W.Entry> {
    if ledger == [] then []
    else
      var n := |ledger| - 1;
      EntriesOf(ledger[..n], part) + if part.Has(ledger[n].payer) then [W.Entry(ledger[n].hour, ledger[n].charge)] else []
  }

  predicate CountsIn(line: Line, part: Part, hour: nat) {
    part.Has(line.payer) && W.InWeek(line.hour, hour)
  }

  /** What the lines of `part` with an hour in the week ending with `hour` come to. */
  function Owed(ledger: seq<Line>, part: Part, hour: nat): W.Exact {
    if ledger == [] then W.Zero()
    else
      var rest, last := Owed(ledger[..|ledger| - 1], part, hour), ledger[|ledger| - 1];
      if CountsIn(last, part, hour) then rest.Plus(W.Cost(last.charge)) else rest
  }

  // ---------------------------------------------------------------------
  // The spend's operators are the listed ones.

  predicate OperatorsAgree(b: Broker) {
    |b.operators| <= MAX_LISTED_OPERATORS && b.publicOperators <= b.operators.Keys &&
    (b.spend.Some? ==> b.spend.value.operators.Keys == b.operators.Keys)
  }

  lemma ListingGrows(operators: map<string, Counts>, name: string, counts: Counts)
    requires name !in operators
    ensures |operators[name := counts]| == |operators| + 1
  {
    assert operators[name := counts].Keys == operators.Keys + {name};
  }

  lemma StepKeepsOperators(b: Broker, price: Price, e: Event)
    requires OperatorsAgree(b)
    ensures OperatorsAgree(Step(b, price, e))
    ensures b.operators.Keys <= Step(b, price, e).operators.Keys
  {
    if e.Declare? && e.operator !in b.operators {
      ListingGrows(b.operators, e.operator, NO_COUNTS);
    }
  }

  /**
   In whichever order metering and declarations came, spend is kept for
   exactly the listed operators, and they are bounded.
   */
  lemma {:induction false} SpendIsKeptForListedOperators(price: Price, es: seq<Event>)
    ensures OperatorsAgree(Exec(price, es))
  {
    if es != [] {
      SpendIsKeptForListedOperators(price, es[..|es| - 1]);
      StepKeepsOperators(Exec(price, es[..|es| - 1]), price, es[|es| - 1]);
    }
  }

  // ---------------------------------------------------------------------
  // Every week is the counter of its part of the ledger.

  ghost predicate WeeksAgree(s: Spend, ledger: seq<Line>) {
    && (forall c :: s.runs.At(c) == W.Counter(EntriesOf(ledger, OfRuns(c))))
    && (forall c :: s.mistral.At(c) == W.Counter(EntriesOf(ledger, OfMistral(c))))
    && (forall name :: name in s.operators ==> s.operators[name] == W.Counter(EntriesOf(ledger, OfOperators({name}))))
  }

  /** Every operator charged is listed. */
  ghost predicate ChargedAreListed(b: Broker, ledger: seq<Line>) {
    forall i :: 0 <= i < |ledger| && ledger[i].payer.operator.Some? ==> ledger[i].payer.operator.value in b.operators
  }

  ghost predicate Books(b: Broker, ledger: seq<Line>) {
    && OperatorsAgree(b)
    && ChargedAreListed(b, ledger)
    && (b.spend.None? ==> ledger == [])
    && (b.spend.Some? ==> WeeksAgree(b.spend.value, ledger))
  }

  lemma EntriesAfter(ledger: seq<Line>, line: Line, part: Part)
    ensures EntriesOf(ledger + [line], part) ==
            EntriesOf(ledger, part) + if part.Has(line.payer) then [W.Entry(line.hour, line.charge)] else []
  {
    assert (ledger + [line])[..|ledger|] == ledger;
  }

  lemma CounterAfter(entries: seq<W.Entry>, entry: W.Entry)
    ensures W.Counter(entries + [entry]) == W.Added(W.Counter(entries), entry.hour, entry.charge)
  {
    assert (entries + [entry])[..|entries|] == entries;
  }

  /** One week's part in a charge. */
  lemma WeekAfter(ledger: seq<Line>, line: Line, part: Part)
    ensures var before := W.Counter(EntriesOf(ledger, part));
            W.Counter(EntriesOf(ledger + [line], part)) ==
            if part.Has(line.payer) then W.Added(before, line.hour, line.charge) else before
  {
    EntriesAfter(ledger, line, part);
    CounterAfter(EntriesOf(ledger, part), W.Entry(line.hour, line.charge));
    assert EntriesOf(ledger, part) + [] == EntriesOf(ledger, part);
  }

  lemma ChargingKeepsRuns(s: Spend, ledger: seq<Line>, line: Line, c: Consumer)
    requires s.runs.At(c) == W.Counter(EntriesOf(ledger, OfRuns(c)))
    requires line.payer.operator.Some? ==> line.payer.operator.value in s.operators
    ensures ChargedTo(s, line.payer, line.hour, line.charge).runs.At(c) == W.Counter(EntriesOf(ledger + [line], OfRuns(c)))
  {
    WeekAfter(ledger, line, OfRuns(c));
  }

  lemma ChargingKeepsMistral(s: Spend, ledger: seq<Line>, line: Line, c: Consumer)
    requires s.mistral.At(c) == W.Counter(EntriesOf(ledger, OfMistral(c)))
    requires line.payer.operator.Some? ==> line.payer.operator.value in s.operators
    ensures ChargedTo(s, line.payer, line.hour, line.charge).mistral.At(c) ==
            W.Counter(EntriesOf(ledger + [line], OfMistral(c)))
  {
    WeekAfter(ledger, line, OfMistral(c));
    MistralCharged(s, line.payer, line.hour, line.charge, c);
  }

  lemma MistralCharged(s: Spend, payer: Payer, hour: nat, charge: W.Charge, c: Consumer)
    requires payer.operator.Some? ==> payer.operator.value in s.operators
    ensures ChargedTo(s, payer, hour, charge).mistral.At(c) ==
            if OfMistral(c).Has(payer) then W.Added(s.mistral.At(c), hour, charge) else s.mistral.At(c)
  {
  }

  lemma ChargingKeepsOperator(s: Spend, ledger: seq<Line>, line: Line, name: string)
    requires name in s.operators && s.operators[name] == W.Counter(EntriesOf(ledger, OfOperators({name})))
    requires line.payer.operator.Some? ==> line.payer.operator.value in s.operators
    ensures var t := ChargedTo(s, line.payer, line.hour, line.charge);
            && t.operators.Keys == s.operators.Keys
            && t.operators[name] == W.Counter(EntriesOf(ledger + [line], OfOperators({name})))
  {
    WeekAfter(ledger, line, OfOperators({name}));
  }

  lemma ChargingKeepsWeeks(s: Spend, ledger: seq<Line>, line: Line)
    requires WeeksAgree(s, ledger)
    requires line.payer.operator.Some? ==> line.payer.operator.value in s.operators
    ensures WeeksAgree(ChargedTo(s, line.payer, line.hour, line.charge), ledger + [line])
  {
    forall c {
      ChargingKeepsRuns(s, ledger, line, c);
    }
    forall c {
      ChargingKeepsMistral(s, ledger, line, c);
    }
    forall name | name in s.operators {
      ChargingKeepsOperator(s, ledger, line, name);
    }
  }

  lemma {:induction false} UnchargedHasNoEntries(ledger: seq<Line>, name: string)
    requires forall i :: 0 <= i < |ledger| ==> ledger[i].payer.operator != Some(name)
    ensures EntriesOf(ledger, OfOperators({name})) == []
  {
    if ledger != [] {
      UnchargedHasNoEntries(ledger[..|ledger| - 1], name);
    }
  }

  lemma DeclaringKeepsBooks(b: Broker, ledger: seq<Line>, operator: string, consumer: Consumer)
    requires Books(b, ledger)
    ensures Books(Declared(b, operator, consumer), ledger)
  {
    StepKeepsOperators(b, _ => None, Declare(operator, consumer));
    if operator !in b.operators {
      UnchargedHasNoEntries(ledger, operator);
    }
  }

  lemma MeteringKeepsBooks(b: Broker, ledger: seq<Line>, now: nat)
    requires Books(b, ledger)
    ensures Books(Metering(b, now), ledger)
  {
    StepKeepsOperators(b, _ => None, Meter(now));
  }

  lemma StepKeepsBooks(b: Broker, price: Price, ledger: seq<Line>, e: Event)
    requires Books(b, ledger)
    ensures Books(Step(b, price, e), ledger + NewLines(b, price, e))
  {
    StepKeepsOperators(b, price, e);
    assert ledger + [] == ledger;
    match e {
      case Meter(now) => MeteringKeepsBooks(b, ledger, now);
      case Declare(operator, consumer) => DeclaringKeepsBooks(b, ledger, operator, consumer);
      case Settle(payer, usage, success, now) =>
        SettlingKeepsBooks(b, price, ledger, e);
    }
  }

  lemma SettlingKeepsBooks(b: Broker, price: Price, ledger: seq<Line>, e: Event)
    requires Books(b, ledger) && e.Settle?
    ensures Books(Step(b, price, e), ledger + NewLines(b, price, e))
  {
    StepKeepsOperators(b, price, e);
    assert ledger + [] == ledger;
    if NewLines(b, price, e) != [] {
      ChargingKeepsWeeks(b.spend.value, ledger, NewLines(b, price, e)[0]);
    }
  }

  lemma {:induction false} EveryRunKeepsBooks(price: Price, es: seq<Event>)
    ensures Books(Exec(price, es), Ledger(price, es))
  {
    if es != [] {
      EveryRunKeepsBooks(price, es[..|es| - 1]);
      StepKeepsBooks(Exec(price, es[..|es| - 1]), price, Ledger(price, es[..|es| - 1]), es[|es| - 1]);
    }
  }

  // ---------------------------------------------------------------------
  // Totals, under a clock that puts no charge in the wrong week.

  predicate Placed(ledger: seq<Line>, ending: nat) {
    forall i, j :: 0 <= i < j < |ledger| ==> !W.Misplaces(ledger[i].hour, ledger[j].hour, ending)
  }

  /** No charge in `entries` and a charge at `next` after them put each other in the wrong week. */
  predicate Clear(entries: seq<W.Entry>, next: nat, ending: nat) {
    forall i :: 0 <= i < |entries| ==> !W.Misplaces(entries[i].hour, next, ending)
  }

  predicate LinesClear(ledger: seq<Line>, next: nat, ending: nat) {
    forall i :: 0 <= i < |ledger| ==> !W.Misplaces(ledger[i].hour, next, ending)
  }

  lemma ClearAfter(entries: seq<W.Entry>, entry: W.Entry, next: nat, ending: nat)
    requires Clear(entries, next, ending) && !W.Misplaces(entry.hour, next, ending)
    ensures Clear(entries + [entry], next, ending)
  {
  }

  lemma PlacedAfter(entries: seq<W.Entry>, entry: W.Entry, ending: nat)
    requires W.Placed(entries, ending) && Clear(entries, entry.hour, ending)
    ensures W.Placed(entries + [entry], ending)
  {
  }

  lemma {:induction false} EntriesBefore(ledger: seq<Line>, part: Part, next: nat, ending: nat)
    requires LinesClear(ledger, next, ending)
    ensures Clear(EntriesOf(ledger, part), next, ending)
  {
    if ledger != [] {
      var n := |ledger| - 1;
      EntriesBefore(ledger[..n], part, next, ending);
      ClearAfter(EntriesOf(ledger[..n], part), W.Entry(ledger[n].hour, ledger[n].charge), next, ending);
      assert EntriesOf(ledger[..n], part) + [] == EntriesOf(ledger[..n], part);
    }
  }

  lemma {:induction false} EntriesArePlaced(ledger: seq<Line>, part: Part, ending: nat)
    requires Placed(ledger, ending)
    ensures W.Placed(EntriesOf(ledger, part), ending)
  {
    if ledger != [] {
      var n := |ledger| - 1;
      EntriesArePlaced(ledger[..n], part, ending);
      EntriesBefore(ledger[..n], part, ledger[n].hour, ending);
      PlacedAfter(EntriesOf(ledger[..n], part), W.Entry(ledger[n].hour, ledger[n].charge), ending);
      assert EntriesOf(ledger[..n], part) + [] == EntriesOf(ledger[..n], part);
    }
  }

  lemma {:induction false} EntriesOwe(ledger: seq<Line>, part: Part, ending: nat)
    ensures W.Owed(EntriesOf(ledger, part), ending) == Owed(ledger, part, ending)
  {
    if ledger != [] {
      var n := |ledger| - 1;
      EntriesOwe(ledger[..n], part, ending);
      if part.Has(ledger[n].payer) {
        OneMoreOwed(EntriesOf(ledger[..n], part), W.Entry(ledger[n].hour, ledger[n].charge), ending);
      } else {
        assert EntriesOf(ledger, part) == EntriesOf(ledger[..n], part);
      }
    }
  }

  lemma OneMoreOwed(entries: seq<W.Entry>, entry: W.Entry, ending: nat)
    ensures W.Owed(entries + [entry], ending) ==
            if W.InWeek(entry.hour, ending) then W.Owed(entries, ending).Plus(W.Cost(entry.charge)) else W.Owed(entries, ending)
  {
    assert (entries + [entry])[..|entries|] == entries;
    W.PlusNothing(W.Owed(entries, ending));
  }

  /** A week sums to what its part of the ledger comes to. */
  lemma WeekSumsToOwed(ledger: seq<Line>, part: Part, hour: nat)
    requires Placed(ledger, hour)
    ensures W.Alike(W.SumOf(W.Counter(EntriesOf(ledger, part)), hour), Owed(ledger, part, hour))
  {
    EntriesArePlaced(ledger, part, hour);
    W.PlacedWeekIsOwed(EntriesOf(ledger, part), hour);
    EntriesOwe(ledger, part, hour);
  }

  lemma AlikeSums(a: W.Exact, b: W.Exact, c: W.Exact, d: W.Exact)
    requires W.Alike(a, c) && W.Alike(b, d)
    ensures W.Alike(a.Plus(b), c.Plus(d))
  {
    W.ClipTwice(a, b);
    W.ClipTwice(c, d);
  }

  /** `whole` has the payers of `a` and of `b`, which share none. */
  predicate Splits(whole: Part, a: Part, b: Part, p: Payer) {
    (whole.Has(p) <==> a.Has(p) || b.Has(p)) && !(a.Has(p) && b.Has(p))
  }

  lemma PlusLater(a: W.Exact, b: W.Exact, c: W.Exact)
    ensures a.Plus(b).Plus(c) == a.Plus(c).Plus(b) == a.Plus(b.Plus(c))
  {
  }

  lemma {:induction false} OwedInParts(whole: Part, a: Part, b: Part, ledger: seq<Line>, hour: nat)
    requires forall i :: 0 <= i < |ledger| ==> Splits(whole, a, b, ledger[i].payer)
    ensures Owed(ledger, whole, hour) == Owed(ledger, a, hour).Plus(Owed(ledger, b, hour))
  {
    if ledger != [] {
      var before, last := ledger[..|ledger| - 1], ledger[|ledger| - 1];
      OwedInParts(whole, a, b, before, hour);
      assert Splits(whole, a, b, last.payer);
      PlusLater(Owed(before, a, hour), Owed(before, b, hour), W.Cost(last.charge));
    }
  }

  lemma OperatorSplits(names: set<string>, name: string, p: Payer)
    requires name in names
    ensures Splits(OfOperators(names), OfOperators({name}), OfOperators(names - {name}), p)
  {
  }

  lemma OneOperatorMore(ledger: seq<Line>, names: set<string>, name: string, hour: nat)
    requires name in names
    ensures Owed(ledger, OfOperators(names), hour) ==
            Owed(ledger, OfOperators({name}), hour).Plus(Owed(ledger, OfOperators(names - {name}), hour))
  {
    forall i | 0 <= i < |ledger| {
      OperatorSplits(names, name, ledger[i].payer);
    }
    OwedInParts(OfOperators(names), OfOperators({name}), OfOperators(names - {name}), ledger, hour);
  }

  lemma {:induction false} OperatorsSumToOwed(s: Spend, names: set<string>, ledger: seq<Line>, hour: nat)
    requires WeeksAgree(s, ledger) && names <= s.operators.Keys && Placed(ledger, hour)
    ensures W.Alike(TotalOver(s.operators, names, hour), Owed(ledger, OfOperators(names), hour))
    decreases |names|
  {
    if names == {} {
      NoOperatorsOweNothing(ledger, hour);
    } else {
      var name :| name in names;
      OperatorsSumToOwed(s, names - {name}, ledger, hour);
      OperatorSumsToOwed(s, names, name, ledger, hour);
    }
  }

  lemma OperatorSumsToOwed(s: Spend, names: set<string>, name: string, ledger: seq<Line>, hour: nat)
    requires WeeksAgree(s, ledger) && name in names && names <= s.operators.Keys && Placed(ledger, hour)
    requires W.Alike(TotalOver(s.operators, names - {name}, hour), Owed(ledger, OfOperators(names - {name}), hour))
    ensures W.Alike(TotalOver(s.operators, names, hour), Owed(ledger, OfOperators(names), hour))
  {
    TakeAny(s.operators, names, name, hour);
    WeekSumsToOwed(ledger, OfOperators({name}), hour);
    OneOperatorMore(ledger, names, name, hour);
    AlikeSums(W.SumOf(s.operators[name], hour), TotalOver(s.operators, names - {name}, hour),
              Owed(ledger, OfOperators({name}), hour), Owed(ledger, OfOperators(names - {name}), hour));
  }

  lemma {:induction false} NoOperatorsOweNothing(ledger: seq<Line>, hour: nat)
    ensures Owed(ledger, OfOperators({}), hour) == W.Zero()
  {
    if ledger != [] {
      NoOperatorsOweNothing(ledger[..|ledger| - 1], hour);
    }
  }

  /** The part of the ledger a view is of. */
  function ViewOf(publicOnly: Option<set<string>>): Part {
    if publicOnly.None? then Everything else PublicOnly(publicOnly.value)
  }

  function RunsPart(publicOnly: Option<set<string>>): Part {
    if publicOnly.None? then OfAllRuns else OfRuns(Public)
  }

  lemma RunsOweTheirTotal(s: Spend, ledger: seq<Line>, publicOnly: Option<set<string>>, hour: nat)
    requires WeeksAgree(s, ledger) && Placed(ledger, hour)
    ensures W.Alike(RunsTotal(s, publicOnly, hour),
                    Owed(ledger, RunsPart(publicOnly), hour))
  {
    WeekSumsToOwed(ledger, OfRuns(Public), hour);
    if publicOnly.None? {
      WeekSumsToOwed(ledger, OfRuns(Private), hour);
      OwedInParts(OfAllRuns, OfRuns(Public), OfRuns(Private), ledger, hour);
      AlikeSums(W.SumOf(s.runs.public, hour), W.SumOf(s.runs.private, hour),
                Owed(ledger, OfRuns(Public), hour), Owed(ledger, OfRuns(Private), hour));
    }
  }

  lemma ViewSplits(s: Spend, publicOnly: Option<set<string>>, p: Payer)
    requires p.operator.Some? ==> p.operator.value in s.operators
    ensures Splits(ViewOf(publicOnly), RunsPart(publicOnly), OfOperators(Shown(s, publicOnly)), p)
  {
  }

  lemma ViewInParts(b: Broker, ledger: seq<Line>, publicOnly: Option<set<string>>, hour: nat)
    requires Books(b, ledger) && b.spend.Some?
    ensures Owed(ledger, ViewOf(publicOnly), hour) ==
            Owed(ledger, RunsPart(publicOnly), hour).Plus(
              Owed(ledger, OfOperators(Shown(b.spend.value, publicOnly)), hour))
  {
    forall i | 0 <= i < |ledger| {
      ViewSplits(b.spend.value, publicOnly, ledger[i].payer);
    }
    OwedInParts(ViewOf(publicOnly), RunsPart(publicOnly), OfOperators(Shown(b.spend.value, publicOnly)), ledger, hour);
  }

  lemma BooksShowLedger(b: Broker, ledger: seq<Line>, publicOnly: Option<set<string>>, hour: nat)
    requires Books(b, ledger) && b.spend.Some? && Placed(ledger, hour)
    ensures ShownTotal(b.spend.value, publicOnly, hour) == Owed(ledger, ViewOf(publicOnly), hour).Clip()
  {
    var s := b.spend.value;
    RunsOweTheirTotal(s, ledger, publicOnly, hour);
    OperatorsSumToOwed(s, Shown(s, publicOnly), ledger, hour);
    ViewInParts(b, ledger, publicOnly, hour);
    AlikeSums(RunsTotal(s, publicOnly, hour), TotalOver(s.operators, Shown(s, publicOnly), hour),
              Owed(ledger, RunsPart(publicOnly), hour),
              Owed(ledger, OfOperators(Shown(s, publicOnly)), hour));
  }

  /** The hours the settlements read, in order. */
  function Clock(es: seq<Event>): seq<nat> {
    if es == [] then []
    else Clock(es[..|es| - 1]) + if es[|es| - 1].Settle? then [es[|es| - 1].now / 3600] else []
  }

  predicate HoursClear(hours: seq<nat>, next: nat, ending: nat) {
    forall i :: 0 <= i < |hours| ==> !W.Misplaces(hours[i], next, ending)
  }

  lemma SafeBefore(hours: seq<nat>, next: nat, ending: nat)
    requires W.Safe(hours + [next], ending)
    ensures W.Safe(hours, ending) && HoursClear(hours, next, ending)
  {
    var longer := hours + [next];
    forall i, j | 0 <= i < j < |hours|
      ensures !W.Misplaces(hours[i], hours[j], ending)
    {
      assert !W.Misplaces(longer[i], longer[j], ending);
    }
    forall i | 0 <= i < |hours|
      ensures !W.Misplaces(hours[i], next, ending)
    {
      assert !W.Misplaces(longer[i], longer[|hours|], ending);
    }
  }

  lemma ClearBefore(hours: seq<nat>, hour: nat, next: nat, ending: nat)
    requires HoursClear(hours + [hour], next, ending)
    ensures HoursClear(hours, next, ending) && !W.Misplaces(hour, next, ending)
  {
    var longer := hours + [hour];
    forall i | 0 <= i < |hours|
      ensures !W.Misplaces(hours[i], next, ending)
    {
      assert !W.Misplaces(longer[i], next, ending);
    }
    assert !W.Misplaces(longer[|hours|], next, ending);
  }

  lemma {:induction false} LinesBefore(price: Price, es: seq<Event>, next: nat, ending: nat)
    requires HoursClear(Clock(es), next, ending)
    ensures LinesClear(Ledger(price, es), next, ending)
  {
    if es != [] {
      var before, last := es[..|es| - 1], es[|es| - 1];
      if last.Settle? {
        ClearBefore(Clock(before), last.now / 3600, next, ending);
      } else {
        assert Clock(before) + [] == Clock(before);
      }
      LinesBefore(price, before, next, ending);
      LinesClearAfter(Ledger(price, before), NewLines(Exec(price, before), price, last), next, ending);
    }
  }

  lemma LinesClearAfter(ledger: seq<Line>, more: seq<Line>, next: nat, ending: nat)
    requires LinesClear(ledger, next, ending) && LinesClear(more, next, ending)
    ensures LinesClear(ledger + more, next, ending)
  {
  }

  lemma {:induction false} SafeClockPlacesLines(price: Price, es: seq<Event>, ending: nat)
    requires W.Safe(Clock(es), ending)
    ensures Placed(Ledger(price, es), ending)
  {
    if es != [] {
      var before, last := es[..|es| - 1], es[|es| - 1];
      if last.Settle? {
        SafeBefore(Clock(before), last.now / 3600, ending);
        LinesBefore(price, before, last.now / 3600, ending);
      } else {
        assert Clock(before) + [] == Clock(before);
      }
      SafeClockPlacesLines(price, before, ending);
      OneLineMore(Ledger(price, before), NewLines(Exec(price, before), price, last), ending);
    }
  }

  lemma OneLineMore(ledger: seq<Line>, more: seq<Line>, ending: nat)
    requires Placed(ledger, ending) && |more| <= 1 && (more != [] ==> LinesClear(ledger, more[0].hour, ending))
    ensures Placed(ledger + more, ending)
  {
  }

  /** The view totals exactly what was charged in the week to the payers it shows, clipped once. */
  ghost predicate ViewIsExact(price: Price, es: seq<Event>, hour: nat) {
    Exec(price, es).spend.Some? ==>
      forall publicOnly: Option<set<string>> {:trigger ViewOf(publicOnly)} ::
        ShownTotal(Exec(price, es).spend.value, publicOnly, hour) == Owed(Ledger(price, es), ViewOf(publicOnly), hour).Clip()
  }

  /**
   In whichever order metering, declarations and settlements came, as long as
   the clock misplaced no charge, the view is exact.
   */
  lemma ViewIsWhatWasCharged(price: Price, es: seq<Event>, hour: nat)
    requires W.Safe(Clock(es), hour)
    ensures ViewIsExact(price, es, hour)
  {
    EveryRunKeepsBooks(price, es);
    SafeClockPlacesLines(price, es, hour);
    if Exec(price, es).spend.Some? {
      forall publicOnly: Option<set<string>> {
        BooksShowLedger(Exec(price, es), Ledger(price, es), publicOnly, hour);
      }
    }
  }

  /** So are its parts: the sum over the runs, and each operator's that is listed, and public if only those are shown. */
  lemma ViewPartsAreWhatWasCharged(price: Price, es: seq<Event>, publicOnly: Option<set<string>>, hour: nat, name: string)
    requires W.Safe(Clock(es), hour) && Exec(price, es).spend.Some?
    ensures var s, ledger := Exec(price, es).spend.value, Ledger(price, es);
            && RunsTotal(s, publicOnly, hour).Clip() ==
               Owed(ledger, if publicOnly.None? then OfAllRuns else OfRuns(Public), hour).Clip()
            && (name in Shown(s, publicOnly) <==> name in Exec(price, es).operators && (publicOnly.Some? ==> name in publicOnly.value))
            && (name in Shown(s, publicOnly) ==> W.SumOf(s.operators[name], hour).Clip() == Owed(ledger, OfOperators({name}), hour).Clip())
  {
    EveryRunKeepsBooks(price, es);
    SafeClockPlacesLines(price, es, hour);
    RunsOweTheirTotal(Exec(price, es).spend.value, Ledger(price, es), publicOnly, hour);
    WeekSumsToOwed(Ledger(price, es), OfOperators({name}), hour);
  }

  // ---------------------------------------------------------------------
  // Mistral's weeks are a part of the total.

  function MistralTotal(s: Spend, hour: nat): W.Exact {
    W.SumOf(s.mistral.public, hour).Plus(W.SumOf(s.mistral.private, hour))
  }

  predicate TallyAtMost(a: W.Tally, b: W.Tally) {
    a.micros <= b.micros && a.unpriced <= b.unpriced && a.unmetered <= b.unmetered
  }

  lemma {:induction false} MistralOwesAtMostAll(ledger: seq<Line>, hour: nat)
    ensures Owed(ledger, OfAllMistral, hour).AtMost(Owed(ledger, Everything, hour))
  {
    if ledger != [] {
      MistralOwesAtMostAll(ledger[..|ledger| - 1], hour);
    }
  }

  lemma ClipKeepsOrder(a: W.Exact, b: W.Exact)
    requires a.AtMost(b)
    ensures TallyAtMost(a.Clip(), b.Clip())
  {
  }

  lemma MistralOwesItsTotal(s: Spend, ledger: seq<Line>, hour: nat)
    requires WeeksAgree(s, ledger) && Placed(ledger, hour)
    ensures W.Alike(MistralTotal(s, hour), Owed(ledger, OfAllMistral, hour))
  {
    WeekSumsToOwed(ledger, OfMistral(Public), hour);
    WeekSumsToOwed(ledger, OfMistral(Private), hour);
    OwedInParts(OfAllMistral, OfMistral(Public), OfMistral(Private), ledger, hour);
    AlikeSums(W.SumOf(s.mistral.public, hour), W.SumOf(s.mistral.private, hour),
              Owed(ledger, OfMistral(Public), hour), Owed(ledger, OfMistral(Private), hour));
  }

  /** The two Mistral weeks are within the view's total. */
  ghost predicate MistralIsWithin(price: Price, es: seq<Event>, hour: nat) {
    Exec(price, es).spend.Some? ==>
      var s := Exec(price, es).spend.value;
      TallyAtMost(MistralTotal(s, hour).Clip(), ShownTotal(s, None, hour))
  }

  lemma MistralWithinTotal(price: Price, es: seq<Event>, hour: nat)
    requires W.Safe(Clock(es), hour)
    ensures MistralIsWithin(price, es, hour)
  {
    if Exec(price, es).spend.Some? {
      var s, ledger := Exec(price, es).spend.value, Ledger(price, es);
      EveryRunKeepsBooks(price, es);
      SafeClockPlacesLines(price, es, hour);
      MistralOwesItsTotal(s, ledger, hour);
      MistralOwesAtMostAll(ledger, hour);
      ClipKeepsOrder(Owed(ledger, OfAllMistral, hour), Owed(ledger, Everything, hour));
      ViewIsWhatWasCharged(price, es, hour);
      assert ViewOf(None) == Everything;
    }
  }
}
