/**
 An operator's counter of slots as one thread changes it (operators.rs). Each
 method is proved to take the steps of module `OperatorSlots`, with no other
 thread's in between.
 */
module OperatorImplementation {
  import opened Numbers
  import R = Registry
  import O = OperatorSlots

  class Operator {
    const name: string
    const clusters: set<string>
    const concurrency: nat
    const consumer: R.Consumer
    var inFlight: u64

    constructor (name: string, clusters: set<string>, concurrency: nat, consumer: R.Consumer)
      ensures this.name == name && this.clusters == clusters && this.concurrency == concurrency && this.consumer == consumer
      ensures inFlight == 0
    {
      this.name, this.clusters, this.concurrency, this.consumer := name, clusters, concurrency, consumer;
      inFlight := 0;
    }

    ghost function View(threads: map<O.Thread, O.Stage>): O.Operator
      reads this
    {
      O.Operator(clusters, concurrency, inFlight, threads)
    }

    /** A request for `cluster` adds itself to the counter, and takes itself off again if it was one too many. */
    method Admit(cluster: string) returns (answer: O.Answer)
      requires inFlight < U64_MAX
      modifies this`inFlight
      ensures answer == Admits(old(View(map[])), cluster)
      ensures inFlight == old(inFlight) + if answer == O.Admitted then 1 else 0
    {
      if cluster !in clusters {
        return O.Forbidden;
      }
      var before := inFlight;
      inFlight := O.FetchAdd(inFlight);
      if before >= concurrency {
        inFlight := O.FetchSub(inFlight);
        return O.Busy;
      }
      return O.Admitted;
    }

    /** A slot is dropped. */
    method Release()
      modifies this`inFlight
      ensures inFlight == O.FetchSub(old(inFlight))
    {
      inFlight := O.FetchSub(inFlight);
    }
  }

  function Admits(o: O.Operator, cluster: string): O.Answer {
    if cluster !in o.clusters then O.Forbidden else if o.inFlight >= o.concurrency then O.Busy else O.Admitted
  }

  /** The steps of an attempt, one right after the other. */
  function Attempted(o: O.Operator, thread: O.Thread, cluster: string): (O.Operator, O.Answer)
    requires O.Enabled(o, O.Attempt(thread, cluster))
  {
    var (t, answer) := O.Take(o, O.Attempt(thread, cluster));
    if answer == O.Busy then (O.Take(t, O.Undo(thread)).0, O.Busy) else (t, answer)
  }

  /** They answer as the method does, and leave the counter as it does and no attempt to be undone. */
  lemma AdmittingIsAttempting(o: O.Operator, thread: O.Thread, cluster: string)
    requires O.Enabled(o, O.Attempt(thread, cluster)) && O.Counted(o)
    ensures var (t, answer) := Attempted(o, thread, cluster);
            && answer == Admits(o, cluster)
            && t.inFlight == o.inFlight + (if answer == O.Admitted then 1 else 0)
            && O.Slots(t) == O.Slots(o) + (if answer == O.Admitted then 1 else 0)
            && O.Undoing(t) == O.Undoing(o)
  {
    O.ThreadsAreOneOrTheOther(o);
    if cluster in o.clusters {
      var joins := if o.inFlight >= o.concurrency then O.Refused else O.Holding;
      O.Joining(o.threads, thread, joins, O.Holding);
      O.Joining(o.threads, thread, joins, O.Refused);
      O.Leaving(o.threads[thread := joins], thread, O.Holding);
      O.Leaving(o.threads[thread := joins], thread, O.Refused);
    }
  }
}
