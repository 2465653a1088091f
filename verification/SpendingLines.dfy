/**
 What the broker's steps come to, by the steps alone (usage.rs).

 Module `Spending` measures the weeks by a ledger of charges. Here that ledger,
 the operators listed, which of them are public and since when spend is metered
 are told from the sequence of events, with nothing of the broker's state.
 */
module SpendingLines {
  import R = Registry
  import opened Usages
  import opened Spending
  import W = Weeks

  // ---------------------------------------------------------------------
  // Metering.

  ghost predicate Meters(es: seq<Event>) {
    exists i :: 0 <= i < |es| && es[i].Meter?
  }

  predicate MetersFirst(es: seq<Event>, i: nat) {
    i < |es| && es[i].Meter? && forall j :: 0 <= j < i ==> !es[j].Meter?
  }

  lemma StepKeepsSince(b: Broker, price: Price, e: Event)
    ensures var t := Step(b, price, e);
            && (t.spend.Some? <==> b.spend.Some? || e.Meter?)
            && (t.spend.Some? ==> t.spend.value.since == if b.spend.Some? then b.spend.value.since else e.now)
  {
  }

  /** Spend is metered since the first time that it was turned on. */
  lemma {:induction false} MeteredSinceFirst(price: Price, es: seq<Event>)
    ensures Exec(price, es).spend.Some? <==> Meters(es)
    ensures forall i: nat :: MetersFirst(es, i) ==> Exec(price, es).spend.Some? && Exec(price, es).spend.value.since == es[i].now
  {
    if es != [] {
      var n := |es| - 1;
      var before := es[..n];
      MeteredSinceFirst(price, before);
      StepKeepsSince(Exec(price, before), price, es[n]);
      forall i: nat | MetersFirst(es, i)
        ensures i < n ==> MetersFirst(before, i)
        ensures i == n ==> !Meters(before)
      {
      }
      assert forall i :: 0 <= i < n ==> before[i] == es[i];
    }
  }

  // ---------------------------------------------------------------------
  // The operators listed.

  function Names(es: seq<Event>): set<string> {
    if es == [] then {}
    else Names(es[..|es| - 1]) + if es[|es| - 1].Declare? then {es[|es| - 1].operator} else {}
  }

  predicate DeclaredAt(es: seq<Event>, i: int, name: string) {
    0 <= i < |es| && es[i].Declare? && es[i].operator == name
  }

  /** The operator was declared while there were fewer than 64 names. */
  ghost predicate Lists(es: seq<Event>, name: string) {
    exists i :: DeclaredAt(es, i, name) && |Names(es[..i])| < 64
  }

  ghost predicate LastDeclaredAt(es: seq<Event>, i: int, name: string) {
    DeclaredAt(es, i, name) && forall j :: i < j < |es| ==> !DeclaredAt(es, j, name)
  }

  ghost predicate PublicLast(es: seq<Event>, name: string) {
    exists i :: LastDeclaredAt(es, i, name) && es[i].consumer == R.Public
  }

  /** Up to 64 names, all are listed; of more, 64. */
  predicate Fills(operators: set<string>, names: set<string>) {
    operators <= names && |operators| <= 64 && (|names| < 64 ==> operators == names) && (|names| >= 64 ==> |operators| == 64)
  }

  lemma OneNameMore(names: set<string>, name: string)
    ensures |names + {name}| == |names| + if name in names then 0 else 1
  {
    if name in names {
      assert names + {name} == names;
    }
  }

  lemma DeclaringLists(b: Broker, operator: string, consumer: R.Consumer)
    ensures var t := Declared(b, operator, consumer);
            && t.operators.Keys == b.operators.Keys + (if |b.operators| < 64 then {operator} else {})
            && (forall name :: name in t.publicOperators <==>
                  if name == operator && operator in t.operators then consumer == R.Public else name in b.publicOperators)
  {
    OneNameMore(b.operators.Keys, operator);
  }

  lemma SizeOfKeys(b: Broker)
    ensures |b.operators.Keys| == |b.operators|
  {
  }

  lemma DeclaringFills(b: Broker, operator: string, consumer: R.Consumer, names: set<string>)
    requires Fills(b.operators.Keys, names)
    ensures Fills(Declared(b, operator, consumer).operators.Keys, names + {operator})
    ensures |b.operators| < 64 <==> |names| < 64
  {
    DeclaringLists(b, operator, consumer);
    OneNameMore(names, operator);
    OneNameMore(b.operators.Keys, operator);
    SizeOfKeys(b);
  }

  lemma StepFills(b: Broker, price: Price, e: Event, names: set<string>)
    requires Fills(b.operators.Keys, names)
    ensures Fills(Step(b, price, e).operators.Keys, names + if e.Declare? then {e.operator} else {})
  {
    if e.Declare? {
      DeclaringFills(b, e.operator, e.consumer, names);
    } else {
      assert names + {} == names;
    }
  }

  lemma StepLists(b: Broker, price: Price, e: Event, names: set<string>, name: string)
    requires Fills(b.operators.Keys, names)
    ensures name in Step(b, price, e).operators <==> name in b.operators || (e.Declare? && e.operator == name && |names| < 64)
  {
    if e.Declare? {
      DeclaringFills(b, e.operator, e.consumer, names);
      DeclaringLists(b, e.operator, e.consumer);
      InKeys(b, name);
      InKeys(Step(b, price, e), name);
    }
  }

  lemma InKeys(b: Broker, name: string)
    ensures name in b.operators <==> name in b.operators.Keys
  {
  }

  lemma {:induction false} EveryRunFills(price: Price, es: seq<Event>)
    ensures Fills(Exec(price, es).operators.Keys, Names(es))
  {
    if es != [] {
      EveryRunFills(price, es[..|es| - 1]);
      StepFills(Exec(price, es[..|es| - 1]), price, es[|es| - 1], Names(es[..|es| - 1]));
    }
  }

  lemma DeclaredBefore(es: seq<Event>, i: int, name: string)
    requires es != [] && i < |es| - 1
    ensures DeclaredAt(es, i, name) <==> DeclaredAt(es[..|es| - 1], i, name)
    ensures 0 <= i ==> es[..|es| - 1][..i] == es[..i]
  {
  }

  lemma ListsAfter(es: seq<Event>, name: string)
    requires es != []
    ensures var n := |es| - 1;
            Lists(es, name) <==> Lists(es[..n], name) || (DeclaredAt(es, n, name) && |Names(es[..n])| < 64)
  {
    var n := |es| - 1;
    forall i | i < n {
      DeclaredBefore(es, i, name);
    }
    if i :| DeclaredAt(es[..n], i, name) && |Names(es[..n][..i])| < 64 {
      assert DeclaredAt(es, i, name);
    }
    if i :| DeclaredAt(es, i, name) && |Names(es[..i])| < 64 && i < n {
      assert DeclaredAt(es[..n], i, name);
    }
  }

  /** The operators listed are those declared while there were fewer than 64 names. */
  lemma {:induction false} ListedExactly(price: Price, es: seq<Event>, name: string)
    ensures name in Exec(price, es).operators <==> Lists(es, name)
  {
    if es != [] {
      var n := |es| - 1;
      ListedExactly(price, es[..n], name);
      EveryRunFills(price, es[..n]);
      ListsAfter(es, name);
      StepLists(Exec(price, es[..n]), price, es[n], Names(es[..n]), name);
    }
  }

  lemma LastBefore(es: seq<Event>, i: int, name: string)
    requires es != [] && 0 <= i < |es| - 1
    ensures LastDeclaredAt(es, i, name) <==> LastDeclaredAt(es[..|es| - 1], i, name) && !DeclaredAt(es, |es| - 1, name)
  {
    var n := |es| - 1;
    DeclaredBefore(es, i, name);
    if LastDeclaredAt(es, i, name) {
      forall j | i < j < n
        ensures !DeclaredAt(es[..n], j, name)
      {
        DeclaredBefore(es, j, name);
      }
    }
    if LastDeclaredAt(es[..n], i, name) && !DeclaredAt(es, n, name) {
      forall j | i < j < |es|
        ensures !DeclaredAt(es, j, name)
      {
        if j < n {
          DeclaredBefore(es, j, name);
        }
      }
    }
  }

  lemma PublicAfter(es: seq<Event>, name: string)
    requires es != []
    ensures var n := |es| - 1;
            PublicLast(es, name) <==> if DeclaredAt(es, n, name) then es[n].consumer == R.Public else PublicLast(es[..n], name)
  {
    var n := |es| - 1;
    if DeclaredAt(es, n, name) {
      assert LastDeclaredAt(es, n, name);
    } else {
      if i :| LastDeclaredAt(es[..n], i, name) && es[..n][i].consumer == R.Public {
        LastBefore(es, i, name);
      }
      if i :| LastDeclaredAt(es, i, name) && es[i].consumer == R.Public {
        LastBefore(es, i, name);
        assert es[..n][i] == es[i];
      }
    }
  }

  /** The public operators are those listed that were last declared so. */
  lemma {:induction false} PublicExactly(price: Price, es: seq<Event>, name: string)
    ensures name in Exec(price, es).publicOperators <==> Lists(es, name) && PublicLast(es, name)
  {
    ListedExactly(price, es, name);
    SpendIsKeptForListedOperators(price, es);
    if es != [] {
      var n := |es| - 1;
      PublicExactly(price, es[..n], name);
      ListedExactly(price, es[..n], name);
      PublicAfter(es, name);
      if es[n].Declare? {
        DeclaringLists(Exec(price, es[..n]), es[n].operator, es[n].consumer);
      }
    }
  }

  // ---------------------------------------------------------------------
  // The ledger's lines.

  /** What a settlement after the events `before` is charged: its price, or one response without a price or without usage. */
  ghost function LineOf(price: Price, before: seq<Event>, e: Event): seq<Line> {
    if !e.Settle? || !Meters(before) || (e.payer.operator.Some? && !Lists(before, e.payer.operator.value)) then []
    else if e.usage.Some? then
      match price(e.usage.value)
      case Some(micros) => [Line(e.payer, e.now / 3600, W.Priced(micros))]
      case None => [Line(e.payer, e.now / 3600, W.Unpriced)]
    else if e.success then [Line(e.payer, e.now / 3600, W.Unmetered)]
    else []
  }

  ghost function LinesOf(price: Price, es: seq<Event>): seq<Line> {
    if es == [] then [] else LinesOf(price, es[..|es| - 1]) + LineOf(price, es[..|es| - 1], es[|es| - 1])
  }

  lemma SettlingAddsLine(price: Price, before: seq<Event>, e: Event)
    ensures NewLines(Exec(price, before), price, e) == LineOf(price, before, e)
  {
    MeteredSinceFirst(price, before);
    SpendIsKeptForListedOperators(price, before);
    if e.Settle? && e.payer.operator.Some? {
      ListedExactly(price, before, e.payer.operator.value);
    }
  }

  /** The ledger has a line for each settlement while spend was metered, of the runs or a listed operator, that had usage or succeeded. */
  lemma {:induction false} LedgerIsOfTheEvents(price: Price, es: seq<Event>)
    ensures Ledger(price, es) == LinesOf(price, es)
  {
    if es != [] {
      LedgerIsOfTheEvents(price, es[..|es| - 1]);
      SettlingAddsLine(price, es[..|es| - 1], es[|es| - 1]);
    }
  }

  // ---------------------------------------------------------------------
  // What lines come to.

  predicate InPart(line: Line, part: Part, ending: nat) {
    part.Has(line.payer) && line.hour + 168 > ending
  }

  function MicrosIn(ledger: seq<Line>, part: Part, ending: nat): nat {
    if ledger == [] then 0
    else
      var last := ledger[|ledger| - 1];
      MicrosIn(ledger[..|ledger| - 1], part, ending) + if InPart(last, part, ending) && last.charge.Priced? then last.charge.micros else 0
  }

  function HowMany(ledger: seq<Line>, part: Part, ending: nat, charge: W.Charge): nat {
    if ledger == [] then 0
    else
      var last := ledger[|ledger| - 1];
      HowMany(ledger[..|ledger| - 1], part, ending, charge) + if InPart(last, part, ending) && last.charge == charge then 1 else 0
  }

  /** A part of the ledger owes the sum of its prices in the week, and how many of its responses had no price or no usage. */
  lemma {:induction false} OwedExactly(ledger: seq<Line>, part: Part, ending: nat)
    ensures Owed(ledger, part, ending) ==
            W.Exact(MicrosIn(ledger, part, ending), HowMany(ledger, part, ending, W.Unpriced), HowMany(ledger, part, ending, W.Unmetered))
  {
    if ledger != [] {
      OwedExactly(ledger[..|ledger| - 1], part, ending);
    }
  }
}
