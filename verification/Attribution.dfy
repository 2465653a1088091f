/**
 Whose use of an account's window is whose (budget.rs).

 A provider reports each window for the whole account. The rise since the
 previous reading is charged to the consumer whose response carried it. The
 lemmas say what the charges add up to over any sequence of readings.
 Percentages are exact numbers here.
 */
module Attribution {
  import opened Wrappers
  import opened Numbers
  import opened Registry

  /** What one response said of one window, for the whole account. */
  datatype Reading = Reading(used: real, resetsAt: u64, secs: u64)

  datatype PerConsumer = PerConsumer(public: real, private: real) {
    function At(consumer: Consumer): real {
      if consumer == Public then public else private
    }

    function Raised(consumer: Consumer, rise: real): PerConsumer {
      if consumer == Public then PerConsumer(public + rise, private) else PerConsumer(public, private + rise)
    }

    function Sum(): real {
      public + private
    }
  }

  const NONE_USED := PerConsumer(0.0, 0.0)

  datatype Attributed = Attributed(
    reading: Reading, observedAt: u64, partWay: bool, restored: bool, loadedAt: u64, used: PerConsumer)

  function Rise(from: real, to: real): real {
    if to > from then to - from else 0.0
  }

  function Charged(previous: Option<Attributed>, reading: Reading, consumer: Consumer, now: u64): Attributed {
    match previous
    case Some(p) =>
      if now < p.reading.resetsAt then
        Attributed(reading, now, p.partWay, false, 0, p.used.Raised(consumer, Rise(p.reading.used, reading.used)))
      else
        Attributed(reading, now, false, false, 0, NONE_USED.Raised(consumer, reading.used))
    case None =>
      Attributed(reading, now, reading.used > 0.0, false, 0, PerConsumer(reading.used, reading.used))
  }

  /** The charge as the source makes it, to one of two counters. */
  method Charge(previous: Option<Attributed>, reading: Reading, consumer: Consumer, now: u64) returns (next: Attributed)
    ensures next == Charged(previous, reading, consumer, now)
  {
    var used, partWay := NONE_USED, false;
    if previous.Some? && now < previous.value.reading.resetsAt {
      used := previous.value.used;
      var rise := reading.used - previous.value.reading.used;
      used := used.Raised(consumer, if rise > 0.0 then rise else 0.0);
      partWay := previous.value.partWay;
    } else if previous.Some? {
      used := used.Raised(consumer, reading.used);
    } else {
      used := PerConsumer(reading.used, reading.used);
      partWay := reading.used > 0.0;
    }
    next := Attributed(reading, now, partWay, false, 0, used);
  }

  // ---------------------------------------------------------------------
  // Sequences of readings of one window.

  /** A response's reading, or none if it says the plan has no such window. */
  datatype Observation = Observation(reading: Option<Reading>, consumer: Consumer, now: u64)

  function Watched(obs: seq<Observation>): Option<Attributed> {
    if obs == [] || obs[|obs| - 1].reading.None? then None
    else
      var last := obs[|obs| - 1];
      Some(Charged(Watched(obs[..|obs| - 1]), last.reading.value, last.consumer, last.now))
  }

  /** The last reading is of the same window as the one before it, which has not reset. */
  predicate Continues(obs: seq<Observation>)
    requires obs != []
  {
    var before := Watched(obs[..|obs| - 1]);
    before.Some? && obs[|obs| - 1].now < before.value.reading.resetsAt
  }

  /** How far below the previous reading the last one is, if it continues its window. */
  function Fall(obs: seq<Observation>): real
    requires obs != [] && Continues(obs) && obs[|obs| - 1].reading.Some?
  {
    Rise(obs[|obs| - 1].reading.value.used, Watched(obs[..|obs| - 1]).value.reading.used)
  }

  /**
   What is charged beyond the last reading: every fall since the reset, and
   the first reading once more if it found the window part-way used.
   */
  function Overcharge(obs: seq<Observation>): real {
    if obs == [] || obs[|obs| - 1].reading.None? then 0.0
    else if Continues(obs) then Overcharge(obs[..|obs| - 1]) + Fall(obs)
    else if Watched(obs[..|obs| - 1]).None? then obs[|obs| - 1].reading.value.used
    else 0.0
  }

  /** The charges come to the whole account's reading and the overcharge, exactly. */
  lemma {:induction false} ChargesAddUp(obs: seq<Observation>)
    requires Watched(obs).Some?
    ensures Watched(obs).value.used.Sum() == Watched(obs).value.reading.used + Overcharge(obs)
  {
    if Continues(obs) {
      ChargesAddUp(obs[..|obs| - 1]);
    }
  }

  predicate NonNegative(obs: seq<Observation>) {
    forall i :: 0 <= i < |obs| && obs[i].reading.Some? ==> obs[i].reading.value.used >= 0.0
  }

  /** The readings since the last reset never fall. */
  predicate NeverFalls(obs: seq<Observation>) {
    obs == [] || obs[|obs| - 1].reading.None? || !Continues(obs) ||
    (Fall(obs) == 0.0 && NeverFalls(obs[..|obs| - 1]))
  }

  predicate PartWay(obs: seq<Observation>) {
    Watched(obs).Some? && Watched(obs).value.partWay
  }

  /** Charges are never short of the reading, and exact exactly when the readings never fell and their start was seen. */
  lemma {:induction false} NeverUndercharged(obs: seq<Observation>)
    requires NonNegative(obs) && Watched(obs).Some?
    ensures var a := Watched(obs).value;
            && a.used.public >= 0.0 && a.used.private >= 0.0
            && a.used.Sum() >= a.reading.used
            && (a.used.Sum() == a.reading.used <==> NeverFalls(obs) && !PartWay(obs))
  {
    ChargesAddUp(obs);
    OverchargeIsZero(obs);
  }

  lemma {:induction false} OverchargeIsZero(obs: seq<Observation>)
    requires NonNegative(obs) && Watched(obs).Some?
    ensures Watched(obs).value.used.public >= 0.0 && Watched(obs).value.used.private >= 0.0
    ensures Overcharge(obs) >= 0.0
    ensures Overcharge(obs) == 0.0 <==> NeverFalls(obs) && !PartWay(obs)
  {
    if Continues(obs) {
      OverchargeIsZero(obs[..|obs| - 1]);
    }
  }

  // ---------------------------------------------------------------------
  // Restarts.

  /** What attribution depends on: the rest says only how old a reading is. */
  datatype Essence = Essence(reading: Reading, used: PerConsumer, partWay: bool)

  function EssenceOf(window: Option<Attributed>): Option<Essence> {
    match window
    case None => None
    case Some(a) => Some(Essence(a.reading, a.used, a.partWay))
  }

  predicate ValidWindow(a: Attributed) {
    0.0 <= a.reading.used <= 100.0 && a.reading.secs > 0 && a.used.public >= 0.0 && a.used.private >= 0.0
  }

  function ClampedWindow(a: Attributed, now: u64): Attributed {
    if a.observedAt > now then a.(observedAt := now) else a
  }

  function RestoredWindow(a: Attributed, now: u64): Attributed {
    a.(restored := true, loadedAt := now)
  }

  lemma ChargingSeesEssence(a: Option<Attributed>, b: Option<Attributed>, reading: Reading, consumer: Consumer, now: u64)
    requires EssenceOf(a) == EssenceOf(b)
    ensures Charged(a, reading, consumer, now) == Charged(b, reading, consumer, now)
  {
  }

  lemma ChargingKeepsValid(previous: Option<Attributed>, reading: Reading, consumer: Consumer, now: u64)
    requires previous.Some? ==> ValidWindow(previous.value)
    requires 0.0 <= reading.used <= 100.0 && reading.secs > 0
    ensures ValidWindow(Charged(previous, reading, consumer, now))
  {
  }
}
