/**
 An operator's concurrency slots, taken and given back by threads that
 interleave at every atomic step (operators.rs).

 An attempt first adds itself to the counter, and takes itself off again if it
 was one too many. The lemmas show that this never lets in more than the
 operator's concurrency, whatever the order of the steps.
 */
module OperatorSlots {
  import opened Numbers

  type Thread = nat

  datatype Stage =
    /** It was one too many, and has yet to take itself off the counter. */
    | Refused
    /** It holds a slot. */
    | Holding

  datatype Operator = Operator(clusters: set<string>, concurrency: nat, inFlight: u64, threads: map<Thread, Stage>)

  datatype Step =
    /** A request for `cluster` adds itself to the counter, and reads what it was. */
    | Attempt(thread: Thread, cluster: string)
    | Undo(thread: Thread)
    /** A slot is dropped. */
    | Drop(thread: Thread)

  datatype Answer = Forbidden | Busy | Admitted | Nothing

  /** The counter is a machine word: it wraps around. */
  function FetchAdd(n: u64): u64 {
    if n == U64_MAX then 0 else n + 1
  }

  function FetchSub(n: u64): u64 {
    if n == 0 then U64_MAX else n - 1
  }

  /** There are fewer threads at once than the counter can count. */
  predicate Enabled(o: Operator, step: Step) {
    match step
    case Attempt(thread, _) => thread !in o.threads && |o.threads| < U64_MAX
    case Undo(thread) => thread in o.threads && o.threads[thread] == Refused
    case Drop(thread) => thread in o.threads && o.threads[thread] == Holding
  }

  function Take(o: Operator, step: Step): (Operator, Answer)
    requires Enabled(o, step)
  {
    match step
    case Attempt(thread, cluster) =>
      if cluster !in o.clusters then (o, Forbidden)
      else if o.inFlight >= o.concurrency then
        (o.(inFlight := FetchAdd(o.inFlight), threads := o.threads[thread := Refused]), Busy)
      else
        (o.(inFlight := FetchAdd(o.inFlight), threads := o.threads[thread := Holding]), Admitted)
    case Undo(thread) => (o.(inFlight := FetchSub(o.inFlight), threads := o.threads - {thread}), Nothing)
    case Drop(thread) => (o.(inFlight := FetchSub(o.inFlight), threads := o.threads - {thread}), Nothing)
  }

  /** The state after `steps`; one that is not enabled when its turn comes does nothing. */
  function After(o: Operator, steps: seq<Step>): Operator {
    if steps == [] then o
    else
      var before, last := After(o, steps[..|steps| - 1]), steps[|steps| - 1];
      if Enabled(before, last) then Take(before, last).0 else before
  }

  function Start(clusters: set<string>, concurrency: nat): Operator {
    Operator(clusters, concurrency, 0, map[])
  }

  function At(threads: map<Thread, Stage>, stage: Stage): set<Thread> {
    set t | t in threads && threads[t] == stage
  }

  function Slots(o: Operator): nat {
    |At(o.threads, Holding)|
  }

  function Undoing(o: Operator): nat {
    |At(o.threads, Refused)|
  }

  /** The counter is the slots held and the attempts between adding and undoing, and the slots are within bounds. */
  predicate Counted(o: Operator) {
    o.inFlight == Slots(o) + Undoing(o) && Slots(o) <= o.concurrency
  }

  lemma ThreadsAreOneOrTheOther(o: Operator)
    ensures |o.threads| == Slots(o) + Undoing(o)
  {
    assert o.threads.Keys == At(o.threads, Holding) + At(o.threads, Refused);
  }

  lemma Joining(threads: map<Thread, Stage>, thread: Thread, joins: Stage, stage: Stage)
    requires thread !in threads
    ensures |At(threads[thread := joins], stage)| == |At(threads, stage)| + if joins == stage then 1 else 0
  {
    if joins == stage {
      assert At(threads[thread := joins], stage) == At(threads, stage) + {thread};
    } else {
      assert At(threads[thread := joins], stage) == At(threads, stage);
    }
  }

  lemma Leaving(threads: map<Thread, Stage>, thread: Thread, stage: Stage)
    requires thread in threads
    ensures |At(threads - {thread}, stage)| == |At(threads, stage)| - if threads[thread] == stage then 1 else 0
  {
    if threads[thread] == stage {
      assert At(threads, stage) == At(threads - {thread}, stage) + {thread};
    } else {
      assert At(threads, stage) == At(threads - {thread}, stage);
    }
  }

  /** Every step keeps the count, and neither addition nor subtraction ever wraps around. */
  lemma StepKeepsCount(o: Operator, step: Step)
    requires Counted(o) && Enabled(o, step)
    ensures Counted(Take(o, step).0)
    ensures step.Attempt? ==> o.inFlight < U64_MAX
    ensures !step.Attempt? ==> o.inFlight > 0
  {
    ThreadsAreOneOrTheOther(o);
    match step {
      case Attempt(thread, _) =>
        var joins := if o.inFlight >= o.concurrency then Refused else Holding;
        Joining(o.threads, thread, joins, Holding);
        Joining(o.threads, thread, joins, Refused);
      case Undo(thread) =>
        Leaving(o.threads, thread, Holding);
        Leaving(o.threads, thread, Refused);
      case Drop(thread) =>
        Leaving(o.threads, thread, Holding);
        Leaving(o.threads, thread, Refused);
    }
  }

  /**
   However many threads interleave: the slots held never exceed the operator's
   concurrency; the counter is the slots and the attempts being undone, so it
   is the slots whenever none is.
   */
  lemma {:induction false} SlotsAreWithinConcurrency(clusters: set<string>, concurrency: nat, steps: seq<Step>)
    ensures var o := After(Start(clusters, concurrency), steps);
            && o.concurrency == concurrency && o.clusters == clusters
            && Slots(o) <= concurrency
            && o.inFlight == Slots(o) + Undoing(o)
            && (o.inFlight == Slots(o) <==> At(o.threads, Refused) == {})
  {
    if steps == [] {
      assert At(map[], Holding) == {} && At(map[], Refused) == {};
    } else {
      var before, last := After(Start(clusters, concurrency), steps[..|steps| - 1]), steps[|steps| - 1];
      SlotsAreWithinConcurrency(clusters, concurrency, steps[..|steps| - 1]);
      if Enabled(before, last) {
        StepKeepsCount(before, last);
      }
    }
  }

  /**
   An attempt on one of the operator's clusters is admitted exactly when the
   slots and the attempts being undone leave room: one may be refused while a
   slot is free, but only during another's undoing.
   */
  lemma AdmittedExactly(clusters: set<string>, concurrency: nat, steps: seq<Step>, thread: Thread, cluster: string)
    requires Enabled(After(Start(clusters, concurrency), steps), Attempt(thread, cluster))
    ensures var o := After(Start(clusters, concurrency), steps);
            var answer := Take(o, Attempt(thread, cluster)).1;
            && (answer == Admitted <==> cluster in clusters && Slots(o) + Undoing(o) < concurrency)
            && (answer == Busy && Slots(o) < concurrency ==> At(o.threads, Refused) != {})
  {
    SlotsAreWithinConcurrency(clusters, concurrency, steps);
  }

  lemma AfterNext(o: Operator, steps: seq<Step>, step: Step)
    requires Enabled(After(o, steps), step)
    ensures After(o, steps + [step]) == Take(After(o, steps), step).0
  {
    assert (steps + [step])[..|steps|] == steps;
  }

  /** Three requests of an operator with one slot: the third is refused though the slot is free. */
  lemma FreeSlotCanBeRefused()
    ensures var o := After(Start({"c"}, 1), [Attempt(0, "c"), Attempt(1, "c"), Drop(0)]);
            Slots(o) == 0 && Enabled(o, Attempt(2, "c")) && Take(o, Attempt(2, "c")).1 == Busy
  {
    var start, a, b, c := Start({"c"}, 1), Attempt(0, "c"), Attempt(1, "c"), Drop(0);
    AfterNext(start, [], a);
    assert [] + [a] == [a] && [a] + [b] == [a, b] && [a, b] + [c] == [a, b, c];
    AfterNext(start, [a], b);
    AfterNext(start, [a, b], c);
    var two := After(start, [a, b]);
    assert two.inFlight == 2 && two.threads == map[0 := Holding, 1 := Refused];
    var three := After(start, [a, b, c]);
    assert three.inFlight == 1 && three.threads == map[1 := Refused];
    assert At(three.threads, Holding) == {};
  }
}
