/**
 A payer's spend over the trailing week, hour by hour (usage.rs).

 The counter keeps one bucket per hour and drops the old ones as it goes. The
 lemmas compare it with a plain log of every charge, under any clock.
 */
module Weeks {
  import opened Numbers

  /** Hours of spend kept. */
  const SPEND_HOURS: nat := 168

  datatype Charge =
    /** Millionths of a USD. */
    | Priced(micros: u64)
    /** A response with usage whose model has no price. */
    | Unpriced
    /** A successful response whose usage never arrived. */
    | Unmetered

  datatype Tally = Tally(micros: u64, unpriced: u64, unmetered: u64)

  const NO_TALLY := Tally(0, 0, 0)

  datatype Bucket = Bucket(hour: nat, tally: Tally)

  function Charged(t: Tally, charge: Charge): Tally {
    match charge
    case Priced(micros) => t.(micros := SatAdd(t.micros, micros))
    case Unpriced => t.(unpriced := SatAdd(t.unpriced, 1))
    case Unmetered => t.(unmetered := SatAdd(t.unmetered, 1))
  }

  predicate InWeek(hour: nat, ending: nat) {
    hour + SPEND_HOURS > ending
  }

  /** Drop the hours that are no longer in the week ending with `hour`. */
  function Expired(buckets: seq<Bucket>, hour: nat): seq<Bucket> {
    if buckets != [] && !InWeek(buckets[0].hour, hour) then Expired(buckets[1..], hour) else buckets
  }

  function Raised(bucket: Bucket, charge: Charge): Bucket {
    bucket.(tally := Charged(bucket.tally, charge))
  }

  /** Charge the latest hour if it is `hour` or later, and else `hour`. */
  function Posted(buckets: seq<Bucket>, hour: nat, charge: Charge): seq<Bucket> {
    if buckets != [] && buckets[|buckets| - 1].hour >= hour
    then buckets[..|buckets| - 1] + [Raised(buckets[|buckets| - 1], charge)]
    else buckets + [Raised(Bucket(hour, NO_TALLY), charge)]
  }

  function Added(buckets: seq<Bucket>, hour: nat, charge: Charge): seq<Bucket> {
    Posted(Expired(buckets, hour), hour, charge)
  }

  // ---------------------------------------------------------------------
  // Sums without a limit.

  datatype Exact = Exact(micros: nat, unpriced: nat, unmetered: nat) {
    function Plus(other: Exact): Exact {
      Exact(micros + other.micros, unpriced + other.unpriced, unmetered + other.unmetered)
    }

    function Clip(): Tally {
      Tally(Sat(micros), Sat(unpriced), Sat(unmetered))
    }

    predicate AtMost(other: Exact) {
      micros <= other.micros && unpriced <= other.unpriced && unmetered <= other.unmetered
    }
  }

  function Zero(): Exact {
    Exact(0, 0, 0)
  }

  function Of(t: Tally): Exact {
    Exact(t.micros, t.unpriced, t.unmetered)
  }

  function Cost(charge: Charge): Exact {
    match charge
    case Priced(micros) => Exact(micros, 0, 0)
    case Unpriced => Exact(0, 1, 0)
    case Unmetered => Exact(0, 0, 1)
  }

  /** A bucket's part in the week ending with `hour`. */
  function Part(bucket: Bucket, hour: nat): Exact {
    if InWeek(bucket.hour, hour) then Of(bucket.tally) else Zero()
  }

  /** What the buckets in the week ending with `hour` hold together. */
  function SumOf(buckets: seq<Bucket>, hour: nat): Exact {
    if buckets == [] then Zero()
    else SumOf(buckets[..|buckets| - 1], hour).Plus(Part(buckets[|buckets| - 1], hour))
  }

  lemma SumOfNext(buckets: seq<Bucket>, i: nat, hour: nat)
    requires i < |buckets|
    ensures SumOf(buckets[..i + 1], hour) == SumOf(buckets[..i], hour).Plus(Part(buckets[i], hour))
  {
    assert buckets[..i + 1][..i] == buckets[..i];
  }

  function AddTallies(a: Tally, b: Tally): Tally {
    Tally(SatAdd(a.micros, b.micros), SatAdd(a.unpriced, b.unpriced), SatAdd(a.unmetered, b.unmetered))
  }

  lemma SaturatingOnce(a: nat, b: nat, c: nat, x: nat, y: nat, z: nat)
    ensures AddTallies(Tally(Sat(a), Sat(b), Sat(c)), Tally(Sat(x), Sat(y), Sat(z)))
            == Tally(Sat(a + x), Sat(b + y), Sat(c + z))
  {
    SatTwice(a, x);
    SatTwice(b, y);
    SatTwice(c, z);
  }

  /** Saturating at every addition or once at the end comes to the same. */
  lemma ClipTwice(a: Exact, b: Exact)
    ensures AddTallies(a.Clip(), b.Clip()) == a.Plus(b).Clip()
  {
    var Exact(x, y, z) := a;
    var Exact(u, v, w) := b;
    assert a.Clip() == Tally(Sat(x), Sat(y), Sat(z));
    assert b.Clip() == Tally(Sat(u), Sat(v), Sat(w));
    assert a.Plus(b).Clip() == Tally(Sat(x + u), Sat(y + v), Sat(z + w));
    SaturatingOnce(x, y, z, u, v, w);
  }

  /** The counter as the source updates it, in place. */
  class Week {
    var buckets: seq<Bucket>

    constructor ()
      ensures buckets == []
    {
      buckets := [];
    }

    method Expire(hour: nat)
      modifies this
      ensures buckets == Expired(old(buckets), hour)
    {
      while buckets != [] && buckets[0].hour + SPEND_HOURS <= hour
        invariant Expired(buckets, hour) == Expired(old(buckets), hour)
        decreases |buckets|
      {
        buckets := buckets[1..];
      }
    }

    method Add(hour: nat, charge: Charge)
      modifies this
      ensures buckets == Added(old(buckets), hour, charge)
    {
      Expire(hour);
      if buckets == [] || buckets[|buckets| - 1].hour < hour {
        buckets := buckets + [Bucket(hour, NO_TALLY)];
      }
      var front, last := buckets[..|buckets| - 1], buckets[|buckets| - 1];
      var tally := last.tally;
      match charge {
        case Priced(micros) => tally := tally.(micros := SatAdd(tally.micros, micros));
        case Unpriced => tally := tally.(unpriced := SatAdd(tally.unpriced, 1));
        case Unmetered => tally := tally.(unmetered := SatAdd(tally.unmetered, 1));
      }
      buckets := front + [last.(tally := tally)];
    }

    /** What was settled in the week ending with `hour`: the exact sum, clipped once. */
    method Sum(hour: nat) returns (sum: Tally)
      ensures sum == SumOf(buckets, hour).Clip()
    {
      sum := NO_TALLY;
      for i := 0 to |buckets|
        invariant sum == SumOf(buckets[..i], hour).Clip()
      {
        SumOfNext(buckets, i, hour);
        if buckets[i].hour + SPEND_HOURS > hour {
          sum := AddTallies(sum, buckets[i].tally);
        }
      }
      assert buckets[..|buckets|] == buckets;
    }
  }

  // ---------------------------------------------------------------------
  // The plain log.

  datatype Entry = Entry(hour: nat, charge: Charge)

  /** The latest hour so far, which a clock that steps back charges. */
  function Latest(log: seq<Entry>): nat {
    if log == [] then 0 else Max(Latest(log[..|log| - 1]), log[|log| - 1].hour)
  }

  /** The exact total of the charges whose latest hour, when charged, is in the week ending with `hour`. */
  function Total(log: seq<Entry>, hour: nat): Exact {
    if log == [] then Zero()
    else
      var n := |log| - 1;
      Total(log[..n], hour).Plus(if InWeek(Latest(log), hour) then Cost(log[n].charge) else Zero())
  }

  /** The buckets once the log has been added, in order. */
  function Counter(log: seq<Entry>): seq<Bucket> {
    if log == [] then [] else Added(Counter(log[..|log| - 1]), log[|log| - 1].hour, log[|log| - 1].charge)
  }

  // ---------------------------------------------------------------------
  // Shape.

  /** Hours strictly increase, and all are in the week that ends with `latest`. */
  ghost predicate Shaped(buckets: seq<Bucket>, latest: nat) {
    && (forall i, j :: 0 <= i < j < |buckets| ==> buckets[i].hour < buckets[j].hour)
    && (forall i :: 0 <= i < |buckets| ==> InWeek(buckets[i].hour, latest) && buckets[i].hour <= latest)
  }

  lemma {:induction false} ExpiredKeepsShape(buckets: seq<Bucket>, latest: nat, hour: nat)
    requires Shaped(buckets, latest)
    ensures Shaped(Expired(buckets, hour), Max(latest, hour))
    ensures var e := Expired(buckets, hour);
            |e| <= |buckets| && e == buckets[|buckets| - |e|..]
  {
    if buckets != [] && !InWeek(buckets[0].hour, hour) {
      ExpiredKeepsShape(buckets[1..], latest, hour);
    }
  }

  lemma AddingKeepsShape(buckets: seq<Bucket>, latest: nat, hour: nat, charge: Charge)
    requires Shaped(buckets, latest) && (buckets != [] ==> buckets[|buckets| - 1].hour == latest)
    requires buckets == [] ==> latest == 0
    ensures var after := Added(buckets, hour, charge);
            Shaped(after, Max(latest, hour)) && after != [] && after[|after| - 1].hour == Max(latest, hour)
  {
    ExpiredKeepsShape(buckets, latest, hour);
    if buckets != [] && latest >= hour {
      ExpiredOnlyWhenOld(buckets, hour);
    }
    PostingKeepsShape(Expired(buckets, hour), latest, hour, charge);
  }

  lemma PostingKeepsShape(buckets: seq<Bucket>, latest: nat, hour: nat, charge: Charge)
    requires Shaped(buckets, Max(latest, hour))
    requires if buckets == [] then latest <= hour else buckets[|buckets| - 1].hour == latest
    ensures var after := Posted(buckets, hour, charge);
            Shaped(after, Max(latest, hour)) && after != [] && after[|after| - 1].hour == Max(latest, hour)
  {
  }

  /** The last bucket is dropped only when its hour is over a week old. */
  lemma {:induction false} ExpiredOnlyWhenOld(buckets: seq<Bucket>, hour: nat)
    requires buckets != [] ==> InWeek(buckets[|buckets| - 1].hour, hour)
    ensures buckets != [] ==> Expired(buckets, hour) != []
  {
    if buckets != [] && !InWeek(buckets[0].hour, hour) {
      ExpiredOnlyWhenOld(buckets[1..], hour);
    }
  }

  lemma {:induction false} HoursAdvance(buckets: seq<Bucket>, latest: nat, i: nat)
    requires Shaped(buckets, latest) && i < |buckets|
    ensures buckets[i].hour >= buckets[0].hour + i
  {
    if i > 0 {
      HoursAdvance(buckets, latest, i - 1);
    }
  }

  /** The buckets are in order, in one week, and never more than the hours of it. */
  lemma {:induction false} CounterIsAWeek(log: seq<Entry>)
    ensures var buckets := Counter(log);
            && Shaped(buckets, Latest(log))
            && |buckets| <= SPEND_HOURS
            && (log == [] <==> buckets == [])
            && (log != [] ==> buckets[|buckets| - 1].hour == Latest(log))
  {
    if log != [] {
      var n := |log| - 1;
      CounterIsAWeek(log[..n]);
      AddingKeepsShape(Counter(log[..n]), Latest(log[..n]), log[n].hour, log[n].charge);
      var buckets := Counter(log);
      HoursAdvance(buckets, Latest(log), |buckets| - 1);
    }
  }

  // ---------------------------------------------------------------------
  // Agreement with the log.

  lemma {:induction false} SumFromFront(buckets: seq<Bucket>, hour: nat)
    requires buckets != []
    ensures SumOf(buckets, hour) == SumOf(buckets[1..], hour).Plus(Part(buckets[0], hour))
  {
    var n := |buckets| - 1;
    if n > 0 {
      var rest := buckets[1..];
      SumFromFront(buckets[..n], hour);
      assert buckets[..n][1..] == rest[..n - 1];
      assert SumOf(rest, hour) == SumOf(rest[..n - 1], hour).Plus(Part(buckets[n], hour));
    } else {
      assert buckets[..0] == [] && buckets[1..] == [];
    }
  }

  lemma PlusNothing(e: Exact)
    ensures e.Plus(Zero()) == e
  {
  }

  /** What expires is out of every later week. */
  lemma {:induction false} ExpiringKeepsSums(buckets: seq<Bucket>, hour: nat, ending: nat)
    requires hour <= ending
    ensures SumOf(Expired(buckets, hour), ending) == SumOf(buckets, ending)
  {
    if buckets != [] && !InWeek(buckets[0].hour, hour) {
      SumFromFront(buckets, ending);
      PlusNothing(SumOf(buckets[1..], ending));
      ExpiringKeepsSums(buckets[1..], hour, ending);
    }
  }

  /** Two exact sums that a counter cannot tell apart. */
  predicate Alike(a: Exact, b: Exact) {
    a.Clip() == b.Clip()
  }

  /** The tally that a charge at `hour` is added to. */
  function Open(buckets: seq<Bucket>, hour: nat): Tally {
    if buckets != [] && buckets[|buckets| - 1].hour >= hour then buckets[|buckets| - 1].tally else NO_TALLY
  }

  function OpenHour(buckets: seq<Bucket>, hour: nat): nat {
    if buckets != [] && buckets[|buckets| - 1].hour >= hour then buckets[|buckets| - 1].hour else hour
  }

  lemma LastPart(buckets: seq<Bucket>, last: Bucket, ending: nat)
    ensures SumOf(buckets + [last], ending) == SumOf(buckets, ending).Plus(Part(last, ending))
  {
    assert (buckets + [last])[..|buckets|] == buckets;
  }

  /** `after` is `before` and one charge, up to what the one tally can hold. */
  predicate ChargedOnce(before: Exact, after: Exact, open: Tally, charge: Charge) {
    Of(open).AtMost(before) && after.Plus(Of(open)) == before.Plus(Of(Charged(open, charge)))
  }

  lemma LastTallyCharged(e: Exact, t: Tally, charge: Charge)
    ensures ChargedOnce(e.Plus(Of(t)), e.Plus(Of(Charged(t, charge))), t, charge)
  {
  }

  lemma NewTallyCharged(e: Exact, charge: Charge)
    ensures ChargedOnce(e, e.Plus(Of(Charged(NO_TALLY, charge))), NO_TALLY, charge)
  {
    PlusNothing(e.Plus(Of(Charged(NO_TALLY, charge))));
  }

  lemma RaisingLast(front: seq<Bucket>, last: Bucket, charge: Charge, ending: nat)
    ensures var before, after := SumOf(front + [last], ending), SumOf(front + [Raised(last, charge)], ending);
            if InWeek(last.hour, ending) then ChargedOnce(before, after, last.tally, charge) else after == before
  {
    LastPart(front, last, ending);
    LastPart(front, Raised(last, charge), ending);
    LastTallyCharged(SumOf(front, ending), last.tally, charge);
  }

  lemma RaisingNew(buckets: seq<Bucket>, hour: nat, charge: Charge, ending: nat)
    ensures var before, after := SumOf(buckets, ending), SumOf(buckets + [Raised(Bucket(hour, NO_TALLY), charge)], ending);
            if InWeek(hour, ending) then ChargedOnce(before, after, NO_TALLY, charge) else after == before
  {
    LastPart(buckets, Raised(Bucket(hour, NO_TALLY), charge), ending);
    NewTallyCharged(SumOf(buckets, ending), charge);
    PlusNothing(SumOf(buckets, ending));
  }

  /** A charge changes the sum of a week that its hour is in, and no other. */
  lemma PostingAddsToSum(buckets: seq<Bucket>, hour: nat, charge: Charge, ending: nat)
    ensures var before, after := SumOf(buckets, ending), SumOf(Posted(buckets, hour, charge), ending);
            if InWeek(OpenHour(buckets, hour), ending)
            then ChargedOnce(before, after, Open(buckets, hour), charge)
            else after == before
  {
    if buckets != [] && buckets[|buckets| - 1].hour >= hour {
      RaisingLast(buckets[..|buckets| - 1], buckets[|buckets| - 1], charge, ending);
      assert buckets == buckets[..|buckets| - 1] + [buckets[|buckets| - 1]];
    } else {
      RaisingNew(buckets, hour, charge, ending);
    }
  }

  /** A saturated part of a sum does not show in the sum's clipped value. */
  lemma SaturationIsHidden(sum: Exact, total: Exact, open: Tally, charge: Charge, after: Exact)
    requires Alike(sum, total) && ChargedOnce(sum, after, open, charge)
    ensures Alike(after, total.Plus(Cost(charge)))
  {
  }

  /** What one charge does to the sum of a later week. */
  lemma AddingChargesOnce(buckets: seq<Bucket>, latest: nat, hour: nat, charge: Charge, ending: nat)
    requires Shaped(buckets, latest) && (buckets != [] ==> buckets[|buckets| - 1].hour == latest)
    requires buckets == [] ==> latest <= hour
    requires ending >= Max(latest, hour)
    ensures var before, after := SumOf(buckets, ending), SumOf(Added(buckets, hour, charge), ending);
            if InWeek(Max(latest, hour), ending)
            then ChargedOnce(before, after, Open(Expired(buckets, hour), hour), charge)
            else after == before
  {
    var kept := Expired(buckets, hour);
    ExpiringKeepsSums(buckets, hour, ending);
    ExpiredKeepsShape(buckets, latest, hour);
    if buckets != [] && latest >= hour {
      ExpiredOnlyWhenOld(buckets, hour);
    }
    assert OpenHour(kept, hour) == Max(latest, hour);
    PostingAddsToSum(kept, hour, charge, ending);
  }

  lemma {:induction false} LaterSumsAgree(log: seq<Entry>, ending: nat)
    requires ending >= Latest(log)
    ensures Alike(SumOf(Counter(log), ending), Total(log, ending))
  {
    if log != [] {
      var n := |log| - 1;
      LaterSumsAgree(log[..n], ending);
      CounterIsAWeek(log[..n]);
      var before, hour, charge := Counter(log[..n]), log[n].hour, log[n].charge;
      AddingChargesOnce(before, Latest(log[..n]), hour, charge, ending);
      if InWeek(Latest(log), ending) {
        SaturationIsHidden(SumOf(before, ending), Total(log[..n], ending), Open(Expired(before, hour), hour), charge,
                           SumOf(Counter(log), ending));
      }
    }
  }

  lemma {:induction false} EarlierSumsAreTheSame(buckets: seq<Bucket>, latest: nat, ending: nat)
    requires Shaped(buckets, latest) && ending <= latest
    ensures SumOf(buckets, ending) == SumOf(buckets, latest)
  {
    if buckets != [] {
      EarlierSumsAreTheSame(buckets[..|buckets| - 1], latest, ending);
    }
  }

  /**
   Whatever the clock did, the week ending with `hour` sums to the saturated
   total of the charges still in the week that ends with `hour` or with the
   latest hour charged, whichever is later. A charge counts under the latest
   hour there was when it was made.
   */
  lemma WeekAgreesWithLog(log: seq<Entry>, hour: nat)
    ensures SumOf(Counter(log), hour).Clip() == Total(log, Max(hour, Latest(log))).Clip()
  {
    LaterSumsAgree(log, Max(hour, Latest(log)));
    if hour <= Latest(log) {
      CounterIsAWeek(log);
      EarlierSumsAreTheSame(Counter(log), Latest(log), hour);
    }
  }

  // ---------------------------------------------------------------------
  // Clocks under which a week holds exactly its own charges.

  /**
   A charge at `later` after one at `earlier` puts some charge in the wrong
   week for `ending`: the later one's under the earlier one's hour, or the
   earlier one out of it altogether.
   */
  predicate Misplaces(earlier: nat, later: nat, ending: nat) {
    InWeek(earlier, ending) && (!InWeek(later, ending) || !InWeek(earlier, later))
  }

  predicate Safe(hours: seq<nat>, ending: nat) {
    forall i, j :: 0 <= i < j < |hours| ==> !Misplaces(hours[i], hours[j], ending)
  }

  /** A query no earlier than any charge is spoilt only by a step back from an hour in its week to one before it. */
  lemma SafeUnlessSteppedBack(hours: seq<nat>, ending: nat)
    requires forall i :: 0 <= i < |hours| ==> hours[i] <= ending
    ensures Safe(hours, ending) <==> forall i, j :: 0 <= i < j < |hours| && InWeek(hours[i], ending) ==> InWeek(hours[j], ending)
  {
    if i, j :| 0 <= i < j < |hours| && InWeek(hours[i], ending) && !InWeek(hours[j], ending) {
      assert Misplaces(hours[i], hours[j], ending);
    }
  }

  predicate Placed(log: seq<Entry>, ending: nat) {
    forall i, j :: 0 <= i < j < |log| ==> !Misplaces(log[i].hour, log[j].hour, ending)
  }

  /** The exact total of the charges whose own hour is in the week ending with `hour`. */
  function Owed(log: seq<Entry>, hour: nat): Exact {
    if log == [] then Zero()
    else
      var n := |log| - 1;
      Owed(log[..n], hour).Plus(if InWeek(log[n].hour, hour) then Cost(log[n].charge) else Zero())
  }

  /** When the latest hour is in a week that some hour is. */
  lemma {:induction false} LatestIsSomeHour(log: seq<Entry>, ending: nat)
    requires log != [] && InWeek(Latest(log), ending)
    ensures exists i :: 0 <= i < |log| && InWeek(log[i].hour, ending)
  {
    var n := |log| - 1;
    if log[n].hour >= Latest(log[..n]) {
      assert InWeek(log[n].hour, ending);
    } else {
      LatestIsSomeHour(log[..n], ending);
      var i :| 0 <= i < n && InWeek(log[..n][i].hour, ending);
      assert InWeek(log[i].hour, ending);
    }
  }

  lemma {:induction false} LatestIsNoLess(log: seq<Entry>, i: nat)
    requires i < |log|
    ensures Latest(log) >= log[i].hour
  {
    if i < |log| - 1 {
      LatestIsNoLess(log[..|log| - 1], i);
    }
  }

  /** What was charged in the week stays in it, whatever is charged later. */
  lemma {:induction false} LatestLasts(log: seq<Entry>, i: nat, ending: nat)
    requires Placed(log, ending) && i < |log| && InWeek(log[i].hour, ending)
    ensures InWeek(Latest(log[..i + 1]), Max(ending, Latest(log)))
  {
    LatestIsNoLess(log[..i + 1], i);
    var n := |log| - 1;
    if i == n {
      assert log[..i + 1] == log;
    } else {
      assert log[..n][..i + 1] == log[..i + 1];
      LatestLasts(log[..n], i, ending);
      assert !Misplaces(log[i].hour, log[n].hour, ending);
    }
  }

  /** Charges in the week last until `until`. */
  ghost predicate Last(log: seq<Entry>, ending: nat, until: nat) {
    forall i :: 0 <= i < |log| && InWeek(log[i].hour, ending) ==> InWeek(Latest(log[..i + 1]), until)
  }

  lemma {:induction false} PlacedTotal(log: seq<Entry>, ending: nat, until: nat)
    requires Placed(log, ending) && ending <= until && Last(log, ending, until)
    ensures Total(log, until) == Owed(log, ending)
  {
    if log != [] {
      var n := |log| - 1;
      forall i | 0 <= i < n && InWeek(log[..n][i].hour, ending)
        ensures InWeek(Latest(log[..n][..i + 1]), until)
      {
        assert log[..n][..i + 1] == log[..i + 1];
        assert InWeek(log[i].hour, ending);
      }
      PlacedTotal(log[..n], ending, until);
      assert log[..n + 1] == log;
      if !InWeek(log[n].hour, ending) && InWeek(Latest(log), ending) {
        LatestIsSomeHour(log, ending);
        var i :| 0 <= i < |log| && InWeek(log[i].hour, ending);
        assert Misplaces(log[i].hour, log[n].hour, ending);
      }
    }
  }

  /** Then the week holds exactly the charges whose own hours are in it. */
  lemma PlacedWeekIsOwed(log: seq<Entry>, ending: nat)
    requires Placed(log, ending)
    ensures Alike(SumOf(Counter(log), ending), Owed(log, ending))
  {
    forall i | 0 <= i < |log| && InWeek(log[i].hour, ending)
      ensures InWeek(Latest(log[..i + 1]), Max(ending, Latest(log)))
    {
      LatestLasts(log, i, ending);
    }
    PlacedTotal(log, ending, Max(ending, Latest(log)));
    WeekAgreesWithLog(log, ending);
  }
}
