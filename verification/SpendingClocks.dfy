/**
 Exactly which clocks the week's spend is true under (usage.rs).

 The wall clock may step back, or a view be asked for an hour already past. The
 lemmas show that the hours the settlements read decide alone whether the view
 is exact, and Mistral's weeks a part of it, whoever paid for what: for every
 clock that is not safe, some responses make both false.
 */
module SpendingClocks {
  import opened Wrappers
  import opened Records
  import R = Registry
  import opened Usages
  import opened Spending
  import W = Weeks

  /** Of a clock's settlements only these two charge anything: the first an unmetered response, the second `reported`. */
  datatype Two = Two(i: nat, first: Payer, j: nat, second: Payer, reported: Option<Usage>)

  predicate PaysListed(p: Payer) {
    p.operator.Some? ==> p.operator.value == "a"
  }

  predicate Fits(two: Two, hours: seq<nat>) {
    two.i < two.j < |hours| && PaysListed(two.first) && PaysListed(two.second)
  }

  function Settlement(hours: seq<nat>, two: Two, k: nat): Event
    requires k < |hours|
  {
    Settle(if k == two.j then two.second else two.first,
           if k == two.j then two.reported else None,
           k == two.i || k == two.j,
           hours[k] * 3600)
  }

  /** Spend is metered, one operator declared, and the first `n` hours of the clock settled. */
  function Schedule(hours: seq<nat>, two: Two, n: nat): seq<Event>
    requires n <= |hours|
  {
    if n == 0 then [Meter(0), Declare("a", R.Private)] else Schedule(hours, two, n - 1) + [Settlement(hours, two, n - 1)]
  }

  lemma {:induction false} ScheduleReadsClock(hours: seq<nat>, two: Two, n: nat)
    requires n <= |hours|
    ensures Clock(Schedule(hours, two, n)) == hours[..n]
  {
    if n == 0 {
      var es := Schedule(hours, two, 0);
      assert es[..1][..0] == [] && es[..1] == [es[0]];
      assert Clock(es[..1]) == [];
    } else {
      ScheduleReadsClock(hours, two, n - 1);
      var es := Schedule(hours, two, n);
      assert es[..|es| - 1] == Schedule(hours, two, n - 1);
      assert hours[..n] == hours[..n - 1] + [hours[n - 1]];
    }
  }

  function LaterCharge(price: Price, two: Two): W.Charge {
    ChargeOf(price, two.reported, true).value
  }

  /** The lines the first `n` settlements put in the ledger. */
  function Lines(price: Price, hours: seq<nat>, two: Two, n: nat): seq<Line>
    requires Fits(two, hours) && n <= |hours|
  {
    (if n > two.i then [Line(two.first, hours[two.i], W.Unmetered)] else []) +
    (if n > two.j then [Line(two.second, hours[two.j], LaterCharge(price, two))] else [])
  }

  ghost predicate Ready(b: Broker) {
    b.spend.Some? && b.operators.Keys == {"a"} && OperatorsAgree(b)
  }

  lemma SettlingStaysReady(b: Broker, price: Price, e: Event)
    requires Ready(b) && e.Settle?
    ensures Ready(Step(b, price, e))
  {
    StepKeepsOperators(b, price, e);
  }

  lemma SettlementsLine(b: Broker, price: Price, hours: seq<nat>, two: Two, k: nat)
    requires Ready(b) && Fits(two, hours) && k < |hours|
    ensures NewLines(b, price, Settlement(hours, two, k)) ==
            if k == two.i then [Line(two.first, hours[k], W.Unmetered)]
            else if k == two.j then [Line(two.second, hours[k], LaterCharge(price, two))]
            else []
  {
  }

  lemma ExecNext(price: Price, es: seq<Event>, e: Event)
    ensures Exec(price, es + [e]) == Step(Exec(price, es), price, e)
  {
    assert (es + [e])[..|es|] == es;
  }

  lemma LedgerNext(price: Price, es: seq<Event>, e: Event)
    ensures Ledger(price, es + [e]) == Ledger(price, es) + NewLines(Exec(price, es), price, e)
  {
    assert (es + [e])[..|es|] == es;
  }

  lemma StartIsReady(price: Price, hours: seq<nat>, two: Two)
    ensures Ready(Exec(price, Schedule(hours, two, 0))) && Ledger(price, Schedule(hours, two, 0)) == []
  {
    var es := Schedule(hours, two, 0);
    ExecNext(price, [], es[0]);
    ExecNext(price, [es[0]], es[1]);
    assert [] + [es[0]] == [es[0]] && [es[0]] + [es[1]] == es;
    assert es[..1] == [es[0]] && es[..1][..0] == [];
    assert Ledger(price, es[..1]) == [];
    SpendIsKeptForListedOperators(price, es);
  }

  lemma LinesNext(price: Price, hours: seq<nat>, two: Two, k: nat)
    requires Fits(two, hours) && k < |hours|
    ensures Lines(price, hours, two, k + 1) == Lines(price, hours, two, k) +
            if k == two.i then [Line(two.first, hours[k], W.Unmetered)]
            else if k == two.j then [Line(two.second, hours[k], LaterCharge(price, two))]
            else []
  {
  }

  lemma {:induction false} StaysReady(price: Price, hours: seq<nat>, two: Two, n: nat)
    requires n <= |hours|
    ensures Ready(Exec(price, Schedule(hours, two, n)))
  {
    if n == 0 {
      StartIsReady(price, hours, two);
    } else {
      var before, e := Schedule(hours, two, n - 1), Settlement(hours, two, n - 1);
      StaysReady(price, hours, two, n - 1);
      ExecNext(price, before, e);
      SettlingStaysReady(Exec(price, before), price, e);
    }
  }

  lemma {:induction false} ScheduleCharges(price: Price, hours: seq<nat>, two: Two, n: nat)
    requires Fits(two, hours) && n <= |hours|
    ensures Ledger(price, Schedule(hours, two, n)) == Lines(price, hours, two, n)
  {
    if n == 0 {
      NoCharges(price, hours, two);
    } else {
      ScheduleCharges(price, hours, two, n - 1);
      NextCharge(price, hours, two, n - 1);
    }
  }

  lemma NoCharges(price: Price, hours: seq<nat>, two: Two)
    requires Fits(two, hours)
    ensures Ledger(price, Schedule(hours, two, 0)) == Lines(price, hours, two, 0)
  {
    StartIsReady(price, hours, two);
  }

  lemma NextCharge(price: Price, hours: seq<nat>, two: Two, k: nat)
    requires Fits(two, hours) && k < |hours| && Ledger(price, Schedule(hours, two, k)) == Lines(price, hours, two, k)
    ensures Ledger(price, Schedule(hours, two, k + 1)) == Lines(price, hours, two, k + 1)
  {
    var before, e := Schedule(hours, two, k), Settlement(hours, two, k);
    StaysReady(price, hours, two, k);
    LedgerNext(price, before, e);
    SettlementsLine(Exec(price, before), price, hours, two, k);
    LinesNext(price, hours, two, k);
  }

  // ---------------------------------------------------------------------
  // What the two charges leave in each week.

  /** The unmetered responses a week counts. */
  function Unmetered(week: Buckets, hour: nat): nat {
    W.SumOf(week, hour).unmetered
  }

  lemma EntriesOfTwo(a: Line, b: Line, part: Part)
    ensures EntriesOf([a, b], part) ==
            (if part.Has(a.payer) then [W.Entry(a.hour, a.charge)] else []) +
            (if part.Has(b.payer) then [W.Entry(b.hour, b.charge)] else [])
  {
    assert [a, b][..1] == [a] && [a][..0] == [];
    assert EntriesOf([a], part) == [] + if part.Has(a.payer) then [W.Entry(a.hour, a.charge)] else [];
  }

  function One(counts: bool): nat {
    if counts then 1 else 0
  }

  function NewBucket(e: W.Entry): W.Bucket {
    W.Raised(W.Bucket(e.hour, W.NO_TALLY), e.charge)
  }

  lemma CounterOfOne(e: W.Entry)
    ensures W.Counter([e]) == [NewBucket(e)]
  {
    assert [e][..0] == [];
    assert W.Counter([]) == [];
    assert [] + [NewBucket(e)] == [NewBucket(e)];
  }

  /** A later charge is put in the open hour, or empties the week first. */
  lemma AddedToOne(b: W.Bucket, hour: nat, charge: W.Charge)
    ensures hour <= b.hour ==> W.Added([b], hour, charge) == [W.Raised(b, charge)]
    ensures !W.InWeek(b.hour, hour) ==> W.Added([b], hour, charge) == [W.Raised(W.Bucket(hour, W.NO_TALLY), charge)]
  {
    var raised, fresher := W.Raised(b, charge), W.Raised(W.Bucket(hour, W.NO_TALLY), charge);
    assert [b][1..] == [] && [b][..0] == [];
    assert [] + [raised] == [raised] && [] + [fresher] == [fresher];
    assert !W.InWeek(b.hour, hour) ==> W.Expired([b], hour) == [];
  }

  lemma CounterOfTwo(x: W.Entry, y: W.Entry)
    ensures W.Counter([x, y]) == W.Added([NewBucket(x)], y.hour, y.charge)
  {
    CounterOfOne(x);
    assert [x, y][..1] == [x];
  }

  lemma UnmeteredOfOne(b: W.Bucket, hour: nat)
    ensures Unmetered([b], hour) == if W.InWeek(b.hour, hour) then b.tally.unmetered else 0
  {
    assert [b][..0] == [];
    assert W.SumOf([], hour) == W.Zero();
  }

  lemma WeekOfOne(e: W.Entry, hour: nat)
    ensures Unmetered(W.Counter([e]), hour) == One(e.charge.Unmetered? && W.InWeek(e.hour, hour))
  {
    CounterOfOne(e);
    UnmeteredOfOne(NewBucket(e), hour);
  }

  lemma WeekOfTwo(x: W.Entry, y: W.Entry, hour: nat)
    requires x.charge.Unmetered? && W.InWeek(x.hour, hour)
    ensures y.charge.Unmetered? && !W.InWeek(y.hour, hour) ==> Unmetered(W.Counter([x, y]), hour) == 2
    ensures !y.charge.Unmetered? && !W.InWeek(x.hour, y.hour) ==> Unmetered(W.Counter([x, y]), hour) == 0
  {
    CounterOfTwo(x, y);
    AddedToOne(NewBucket(x), y.hour, y.charge);
    if !W.InWeek(x.hour, y.hour) {
      UnmeteredOfOne(NewBucket(y), hour);
    } else if y.hour <= x.hour {
      UnmeteredOfOne(W.Raised(NewBucket(x), y.charge), hour);
    }
  }

  /**
   The week of an hour has the first line's; the second's is out of it, or
   leaves the first's out and is no unmetered response.
   */
  predicate Misplaced(a: Line, b: Line, hour: nat) {
    && a.charge.Unmetered? && W.InWeek(a.hour, hour)
    && if b.charge.Unmetered? then !W.InWeek(b.hour, hour) else !W.InWeek(a.hour, b.hour)
  }

  /** What a part's week then counts: both as one's, neither, or the first alone. */
  function Miscounted(a: Line, b: Line, part: Part): nat {
    if !part.Has(a.payer) then 0 else if !part.Has(b.payer) then 1 else if b.charge.Unmetered? then 2 else 0
  }

  lemma Joined(x: W.Entry, y: W.Entry)
    ensures [x] + [y] == [x, y] && [x] + [] == [x] && [] + [y] == [y]
  {
  }

  lemma PartMiscounts(a: Line, b: Line, part: Part, hour: nat)
    requires Misplaced(a, b, hour)
    ensures Unmetered(W.Counter(EntriesOf([a, b], part)), hour) == Miscounted(a, b, part)
  {
    var x, y := W.Entry(a.hour, a.charge), W.Entry(b.hour, b.charge);
    EntriesOfTwo(a, b, part);
    Joined(x, y);
    if part.Has(a.payer) && part.Has(b.payer) {
      WeekOfTwo(x, y, hour);
    } else if part.Has(a.payer) {
      WeekOfOne(x, hour);
    } else if part.Has(b.payer) {
      WeekOfOne(y, hour);
    } else {
      assert EntriesOf([a, b], part) == [];
    }
  }

  lemma OnlyOperator(s: Spend, hour: nat)
    requires s.operators.Keys == {"a"}
    ensures TotalOver(s.operators, Shown(s, None), hour) == W.SumOf(s.operators["a"], hour)
  {
    assert Shown(s, None) == {"a"} && {"a"} - {"a"} == {};
    TakeAny(s.operators, {"a"}, "a", hour);
    W.PlusNothing(W.SumOf(s.operators["a"], hour));
  }

  function ViewMiscounts(a: Line, b: Line): nat {
    Miscounted(a, b, OfRuns(R.Public)) + Miscounted(a, b, OfRuns(R.Private)) + Miscounted(a, b, OfOperators({"a"}))
  }

  function MistralMiscounts(a: Line, b: Line): nat {
    Miscounted(a, b, OfMistral(R.Public)) + Miscounted(a, b, OfMistral(R.Private))
  }

  lemma FewShown(s: Spend, hour: nat)
    requires s.operators.Keys == {"a"}
    requires Unmetered(s.runs.public, hour) <= 2 && Unmetered(s.runs.private, hour) <= 2 && Unmetered(s.operators["a"], hour) <= 2
    ensures ShownTotal(s, None, hour).unmetered ==
            Unmetered(s.runs.public, hour) + Unmetered(s.runs.private, hour) + Unmetered(s.operators["a"], hour)
  {
    OnlyOperator(s, hour);
  }

  /** What the view counts after two such charges. */
  lemma ViewCounts(s: Spend, a: Line, b: Line, hour: nat)
    requires WeeksAgree(s, [a, b]) && s.operators.Keys == {"a"} && Misplaced(a, b, hour)
    ensures ShownTotal(s, None, hour).unmetered == ViewMiscounts(a, b)
  {
    PartMiscounts(a, b, OfRuns(R.Public), hour);
    PartMiscounts(a, b, OfRuns(R.Private), hour);
    PartMiscounts(a, b, OfOperators({"a"}), hour);
    assert s.runs.At(R.Public) == s.runs.public && s.runs.At(R.Private) == s.runs.private;
    FewShown(s, hour);
  }

  lemma FewMistral(s: Spend, hour: nat)
    requires Unmetered(s.mistral.public, hour) <= 2 && Unmetered(s.mistral.private, hour) <= 2
    ensures MistralTotal(s, hour).Clip().unmetered == Unmetered(s.mistral.public, hour) + Unmetered(s.mistral.private, hour)
  {
  }

  lemma MistralCounts(s: Spend, a: Line, b: Line, hour: nat)
    requires WeeksAgree(s, [a, b]) && Misplaced(a, b, hour)
    ensures MistralTotal(s, hour).Clip().unmetered == MistralMiscounts(a, b)
  {
    PartMiscounts(a, b, OfMistral(R.Public), hour);
    PartMiscounts(a, b, OfMistral(R.Private), hour);
    assert s.mistral.At(R.Public) == s.mistral.public && s.mistral.At(R.Private) == s.mistral.private;
    FewMistral(s, hour);
  }

  /** The spend once the schedule is settled, and the two lines of its ledger. */
  lemma Settled(price: Price, hours: seq<nat>, two: Two) returns (s: Spend, a: Line, b: Line)
    requires Fits(two, hours)
    ensures a == Line(two.first, hours[two.i], W.Unmetered) && b == Line(two.second, hours[two.j], LaterCharge(price, two))
    ensures var es := Schedule(hours, two, |hours|);
            Exec(price, es).spend == Some(s) && s.operators.Keys == {"a"} && Ledger(price, es) == [a, b] && WeeksAgree(s, [a, b])
  {
    var es := Schedule(hours, two, |hours|);
    a, b := Line(two.first, hours[two.i], W.Unmetered), Line(two.second, hours[two.j], LaterCharge(price, two));
    ScheduleCharges(price, hours, two, |hours|);
    StaysReady(price, hours, two, |hours|);
    assert [a] + [b] == [a, b];
    EveryRunKeepsBooks(price, es);
    s := Exec(price, es).spend.value;
  }

  // ---------------------------------------------------------------------
  // An unsafe clock makes both false.

  /** The later settlement is before the week, or else a week after the earlier, and the query of a past hour. */
  predicate StepsBack(hours: seq<nat>, j: nat, hour: nat)
    requires j < |hours|
  {
    !W.InWeek(hours[j], hour)
  }

  /**
   A Mistral response, and then a run's: if the clock stepped back, it is
   counted under the former's hour for Mistral alone; if not, it drops the
   former from the runs' week alone.
   */
  function Exceeding(hours: seq<nat>, i: nat, j: nat, hour: nat): Two
    requires j < |hours|
  {
    if StepsBack(hours, j, hour)
    then Two(i, Payer(Some("a"), R.Private, Some(Mistral)), j, Payer(None, R.Private, Some(Mistral)), None)
    else Two(i, Payer(None, R.Private, Some(Mistral)), j, Payer(None, R.Private, None), Some(Usage(NO_TOKENS, None, 0)))
  }

  lemma UnsafeClockExceeds(price: Price, hours: seq<nat>, i: nat, j: nat, hour: nat)
    requires i < j < |hours| && W.Misplaces(hours[i], hours[j], hour)
    ensures !MistralIsWithin(price, Schedule(hours, Exceeding(hours, i, j, hour), |hours|), hour)
  {
    var two := Exceeding(hours, i, j, hour);
    var s, a, b := Settled(price, hours, two);
    ExceedingMiscounts(price, hours, i, j, hour, a, b);
    ViewCounts(s, a, b, hour);
    MistralCounts(s, a, b, hour);
  }

  lemma ExceedingMiscounts(price: Price, hours: seq<nat>, i: nat, j: nat, hour: nat, a: Line, b: Line)
    requires i < j < |hours| && W.Misplaces(hours[i], hours[j], hour)
    requires var two := Exceeding(hours, i, j, hour);
             a == Line(two.first, hours[i], W.Unmetered) && b == Line(two.second, hours[j], LaterCharge(price, two))
    ensures Misplaced(a, b, hour) && ViewMiscounts(a, b) < MistralMiscounts(a, b)
  {
  }

  /** Two responses of runs, the second as above. */
  function Misshowing(hours: seq<nat>, i: nat, j: nat, hour: nat): Two
    requires j < |hours|
  {
    var run := Payer(None, R.Private, None);
    Two(i, run, j, run, if StepsBack(hours, j, hour) then None else Some(Usage(NO_TOKENS, None, 0)))
  }

  lemma LastOwed(ledger: seq<Line>, n: nat, hour: nat)
    requires |ledger| == n + 1
    ensures Owed(ledger, Everything, hour).unmetered ==
            Owed(ledger[..n], Everything, hour).unmetered + One(ledger[n].charge.Unmetered? && W.InWeek(ledger[n].hour, hour))
  {
  }

  lemma OwedOfTwo(a: Line, b: Line, hour: nat)
    requires Misplaced(a, b, hour)
    ensures Owed([a, b], Everything, hour).unmetered == 1
  {
    assert [a, b][..1] == [a] && [a][..0] == [];
    LastOwed([a, b], 1, hour);
    LastOwed([a], 0, hour);
  }

  lemma UnsafeClockMisshows(price: Price, hours: seq<nat>, i: nat, j: nat, hour: nat)
    requires i < j < |hours| && W.Misplaces(hours[i], hours[j], hour)
    ensures !ViewIsExact(price, Schedule(hours, Misshowing(hours, i, j, hour), |hours|), hour)
  {
    var two := Misshowing(hours, i, j, hour);
    var s, a, b := Settled(price, hours, two);
    MisshowingMiscounts(price, hours, i, j, hour, a, b);
    ViewCounts(s, a, b, hour);
    OwedOfTwo(a, b, hour);
    Misshows(price, Schedule(hours, two, |hours|), hour);
  }

  lemma Misshows(price: Price, es: seq<Event>, hour: nat)
    requires Exec(price, es).spend.Some?
    requires ShownTotal(Exec(price, es).spend.value, None, hour).unmetered != Owed(Ledger(price, es), Everything, hour).unmetered == 1
    ensures !ViewIsExact(price, es, hour)
  {
    assert ViewOf(None) == Everything;
  }

  lemma MisshowingMiscounts(price: Price, hours: seq<nat>, i: nat, j: nat, hour: nat, a: Line, b: Line)
    requires i < j < |hours| && W.Misplaces(hours[i], hours[j], hour)
    requires var two := Misshowing(hours, i, j, hour);
             a == Line(two.first, hours[i], W.Unmetered) && b == Line(two.second, hours[j], LaterCharge(price, two))
    ensures Misplaced(a, b, hour) && ViewMiscounts(a, b) != 1
  {
  }

  // ---------------------------------------------------------------------
  // The exact conditions.

  /**
   For every clock and hour: the Mistral weeks are within the view's total,
   whatever was settled for whom, if and only if the clock is safe.
   */
  lemma MistralWithinExactlyWhenSafe(price: Price, hours: seq<nat>, hour: nat)
    ensures (forall es :: Clock(es) == hours ==> MistralIsWithin(price, es, hour)) <==> W.Safe(hours, hour)
  {
    if W.Safe(hours, hour) {
      forall es | Clock(es) == hours {
        MistralWithinTotal(price, es, hour);
      }
    } else {
      var i, j :| 0 <= i < j < |hours| && W.Misplaces(hours[i], hours[j], hour);
      var two := Exceeding(hours, i, j, hour);
      ScheduleReadsClock(hours, two, |hours|);
      assert Clock(Schedule(hours, two, |hours|)) == hours;
      UnsafeClockExceeds(price, hours, i, j, hour);
    }
  }

  /** The clock steps back from the hour 1000, asked for, to the hour 500, and Mistral's week exceeds the total. */
  lemma MistralCanExceedTotal(price: Price)
    ensures var hours := [1000, 500];
            var es := Schedule(hours, Exceeding(hours, 0, 1, 1000), 2);
            Clock(es) == hours && !MistralIsWithin(price, es, 1000)
  {
    var hours := [1000, 500];
    ScheduleReadsClock(hours, Exceeding(hours, 0, 1, 1000), 2);
    UnsafeClockExceeds(price, hours, 0, 1, 1000);
  }

  /** And so for the view being exactly what was charged in the week. */
  lemma ViewExactExactlyWhenSafe(price: Price, hours: seq<nat>, hour: nat)
    ensures (forall es :: Clock(es) == hours ==> ViewIsExact(price, es, hour)) <==> W.Safe(hours, hour)
  {
    if W.Safe(hours, hour) {
      forall es | Clock(es) == hours {
        ViewIsWhatWasCharged(price, es, hour);
      }
    } else {
      var i, j :| 0 <= i < j < |hours| && W.Misplaces(hours[i], hours[j], hour);
      var two := Misshowing(hours, i, j, hour);
      ScheduleReadsClock(hours, two, |hours|);
      assert Clock(Schedule(hours, two, |hours|)) == hours;
      UnsafeClockMisshows(price, hours, i, j, hour);
    }
  }

  /** A clock that never steps back is safe at any hour it has not yet passed. */
  lemma MonotonicIsSafe(hours: seq<nat>, hour: nat)
    requires forall i, j :: 0 <= i < j < |hours| ==> hours[i] <= hours[j]
    requires forall i :: 0 <= i < |hours| ==> hours[i] <= hour
    ensures W.Safe(hours, hour)
  {
  }
}
