/**
 Admitted requests and the concurrency slots they hold (runs.rs).

 An admission gives its slot back exactly once, when it is settled or else
 dropped. The registry finds its run by key, so one that outlives the run's
 retention gives back nothing, or the slot of a later run of that key. The
 lemmas show that each run's `inFlight` is the number of its key's live
 admissions exactly as long as no key is registered afresh that has one; and
 that none is while no admission outlives its run's retention.
 */
module Admissions {
  import opened Wrappers
  import opened Records
  import opened Subjects
  import opened Registry
  import opened RegistryInvariants
  import opened RunsImplementation
  import RegistryAnswers

  /** How a response that ended counts for its run. */
  function EndedOutcome(reported: Option<Usage>, success: bool, usageFree: bool): Outcome {
    if usageFree then Failed
    else if reported.Some? then Metered(reported.value)
    else if success then Unmetered
    else Failed
  }

  /** How a response that was abandoned counts for its run. */
  function AbandonedOutcome(success: bool, usageFree: bool): Outcome {
    if success && !usageFree then Unmetered else Failed
  }

  /** A request admitted for its run, as the source holds it. */
  class Admitted {
    const runs: Runs
    const key: RunKey
    const consumer: Consumer
    var success: bool
    var usageFree: bool
    var settled: bool

    constructor (runs: Runs, key: RunKey, consumer: Consumer)
      ensures this.runs == runs && this.key == key && this.consumer == consumer
      ensures !success && !usageFree && !settled
    {
      this.runs, this.key, this.consumer := runs, key, consumer;
      success, usageFree, settled := false, false, false;
    }

    /** Record what upstream reported for the response. The admission is dropped at the end. */
    method Settle(reported: Option<Usage>)
      requires !settled
      modifies this`settled, runs
      ensures settled
      ensures runs.View() == Registry.Settle(old(runs.View()), key, EndedOutcome(reported, success, usageFree))
    {
      settled := true;
      var outcome;
      if usageFree {
        outcome := Failed;
      } else if reported.Some? {
        outcome := Metered(reported.value);
      } else if success {
        outcome := Unmetered;
      } else {
        outcome := Failed;
      }
      runs.Settle(key, outcome);
      Drop();
    }

    method Drop()
      modifies runs
      ensures runs.View() == if settled then old(runs.View())
                             else Registry.Settle(old(runs.View()), key, AbandonedOutcome(success, usageFree))
    {
      if settled {
        return;
      }
      var outcome := Failed;
      if success && !usageFree {
        outcome := Unmetered;
      }
      runs.Settle(key, outcome);
    }
  }

  // ---------------------------------------------------------------------
  // The registry with its live admissions.

  /** `live` are the admissions not yet settled or dropped, and their runs' keys. */
  datatype System = System(state: State, live: map<nat, RunKey>)

  datatype Move =
    /** A step of the registry that is neither of the other two. */
    | Call(e: Event)
    /** A request asks to be admitted; `id` is the admission it gets. */
    | Enter(id: nat, key: RunKey, now: nat)
    /** The admission `id` is settled or dropped. */
    | Leave(id: nat, outcome: Outcome)

  function StepOf(sys: System, m: Move): Event
    requires m.Leave? ==> m.id in sys.live
  {
    match m
    case Call(e) => e
    case Enter(_, key, now) => DoAdmit(key, now)
    case Leave(id, outcome) => DoSettle(sys.live[id], outcome)
  }

  /** Only a live admission can leave, and a new one is new. */
  predicate Allowed(sys: System, m: Move) {
    match m
    case Call(e) => !e.DoAdmit? && !e.DoSettle?
    case Enter(id, _, _) => id !in sys.live
    case Leave(id, _) => id in sys.live
  }

  function Next(sys: System, m: Move): System
    requires Allowed(sys, m)
  {
    var (t, answer) := Step(sys.state, StepOf(sys, m));
    match m
    case Call(_) => System(t, sys.live)
    case Enter(id, key, _) => System(t, if answer.admitted.Ok? then sys.live[id := key] else sys.live)
    case Leave(id, _) => System(t, sys.live - {id})
  }

  function LiveOf(live: map<nat, RunKey>, key: RunKey): set<nat> {
    set id | id in live && live[id] == key
  }

  /** Each remembered run's slots in use are its key's live admissions. */
  ghost predicate Exact(sys: System) {
    forall k :: k in sys.state.runs ==> sys.state.runs[k].inFlight == |LiveOf(sys.live, k)|
  }

  /** The move registers afresh a key that still has a live admission, of an earlier run. */
  ghost predicate Inherits(sys: System, m: Move)
    requires Allowed(sys, m)
  {
    exists k :: InheritsFor(sys, m, k)
  }

  predicate InheritsFor(sys: System, m: Move, k: RunKey)
    requires Allowed(sys, m)
  {
    k in Next(sys, m).state.runs && k !in Seen(sys.state, StepOf(sys, m)).runs && LiveOf(sys.live, k) != {}
  }

  lemma LiveOfEntering(live: map<nat, RunKey>, id: nat, key: RunKey, k: RunKey)
    requires id !in live
    ensures |LiveOf(live[id := key], k)| == |LiveOf(live, k)| + if k == key then 1 else 0
  {
    assert LiveOf(live[id := key], k) == LiveOf(live, k) + if k == key then {id} else {};
  }

  lemma LiveOfLeaving(live: map<nat, RunKey>, id: nat, k: RunKey)
    requires id in live
    ensures |LiveOf(live - {id}, k)| == |LiveOf(live, k)| - if k == live[id] then 1 else 0
  {
    assert LiveOf(live, k) == LiveOf(live - {id}, k) + if k == live[id] then {id} else {};
  }

  /** The slots of a run that the move does not forget. */
  lemma SlotsAfter(sys: System, m: Move, k: RunKey)
    requires Allowed(sys, m) && Exact(sys) && k in Seen(sys.state, StepOf(sys, m)).runs
    ensures var next := Next(sys, m);
            k in next.state.runs && next.state.runs[k].inFlight == |LiveOf(next.live, k)|
  {
    var e := StepOf(sys, m);
    var p := Seen(sys.state, e);
    if e.Timed() {
      PrunedRun(sys.state, e.now, k);
    }
    ActOnRun(p, e, k);
    match m {
      case Call(_) =>
      case Enter(id, key, _) =>
        LiveOfEntering(sys.live, id, key, k);
        AdmittedExactly(p, key);
      case Leave(id, _) =>
        LiveOfLeaving(sys.live, id, k);
        if k == sys.live[id] {
          SettledRunHasASlot(sys, id);
        }
    }
  }

  lemma AdmittedExactly(p: State, key: RunKey)
    ensures Admit(p, key).1.Ok? <==>
              key in p.runs && p.runs[key].record.state == Active && p.runs[key].inFlight < p.runs[key].concurrency
  {
  }

  /** The decrement never saturates: a live admission's run, while it is remembered, has a slot in use. */
  lemma SettledRunHasASlot(sys: System, id: nat)
    requires Exact(sys) && id in sys.live && sys.live[id] in sys.state.runs
    ensures sys.state.runs[sys.live[id]].inFlight >= 1
  {
    assert id in LiveOf(sys.live, sys.live[id]);
  }

  /** A run the move registers has no slot in use. */
  lemma NewRunHasNoSlots(p: State, e: Event, k: RunKey)
    requires k !in p.runs && k in Act(p, e).0.runs
    ensures e.Mints() && Act(p, e).0.runs[k].inFlight == 0
  {
  }

  lemma MoveKeepsExact(sys: System, m: Move)
    requires Allowed(sys, m) && Exact(sys) && !Inherits(sys, m)
    ensures Exact(Next(sys, m))
  {
    var e, next := StepOf(sys, m), Next(sys, m);
    var p := Seen(sys.state, e);
    forall k | k in next.state.runs
      ensures next.state.runs[k].inFlight == |LiveOf(next.live, k)|
    {
      if k in p.runs {
        SlotsAfter(sys, m, k);
      } else {
        NewRunHasNoSlots(p, e, k);
        assert !InheritsFor(sys, m, k);
      }
    }
  }

  lemma InheritingIsInexact(sys: System, m: Move)
    requires Allowed(sys, m) && Inherits(sys, m)
    ensures !Exact(Next(sys, m))
  {
    var k :| InheritsFor(sys, m, k);
    NewRunHasNoSlots(Seen(sys.state, StepOf(sys, m)), StepOf(sys, m), k);
  }

  /**
   A move keeps the slots exact if and only if it does not register afresh a
   key with a live admission: forgetting the run of one does no harm by itself.
   */
  lemma SlotsStayExactUnlessInherited(sys: System, m: Move)
    requires Allowed(sys, m) && Exact(sys)
    ensures Exact(Next(sys, m)) <==> !Inherits(sys, m)
  {
    if Inherits(sys, m) {
      InheritingIsInexact(sys, m);
    } else {
      MoveKeepsExact(sys, m);
    }
  }

  // ---------------------------------------------------------------------
  // Admissions that do not outlive their runs.

  predicate AllRemembered(sys: System) {
    forall id :: id in sys.live ==> sys.live[id] in sys.state.runs
  }

  /** The move forgets a run that has a live admission. */
  predicate Strands(sys: System, m: Move)
    requires Allowed(sys, m)
  {
    exists id :: id in sys.live && sys.live[id] !in Seen(sys.state, StepOf(sys, m)).runs
  }

  /** As long as no run with a live admission is forgotten, no key with one is registered afresh. */
  lemma UnstrandedIsUninherited(sys: System, m: Move)
    requires Allowed(sys, m) && AllRemembered(sys) && !Strands(sys, m)
    ensures !Inherits(sys, m) && AllRemembered(Next(sys, m))
  {
    var p, next := Seen(sys.state, StepOf(sys, m)), Next(sys, m);
    forall id | id in next.live
      ensures next.live[id] in next.state.runs
    {
      if m.Enter? {
        AdmittedExactly(p, m.key);
      }
      ActOnRun(p, StepOf(sys, m), next.live[id]);
    }
    forall k
      ensures !InheritsFor(sys, m, k)
    {
      if LiveOf(sys.live, k) != {} {
        var id :| id in LiveOf(sys.live, k);
      }
    }
  }

  // ---------------------------------------------------------------------
  // Whole runs.

  const START := System(EMPTY, map[])

  /** The system after the moves; one that is not allowed when its turn comes does nothing. */
  function Moved(sys: System, ms: seq<Move>): System {
    if ms == [] then sys
    else
      var before, last := Moved(sys, ms[..|ms| - 1]), ms[|ms| - 1];
      if Allowed(before, last) then Next(before, last) else before
  }

  /** The last move registers afresh a key with a live admission. */
  ghost predicate LastInherits(sys: System, ms: seq<Move>)
    requires ms != []
  {
    var before, last := Moved(sys, ms[..|ms| - 1]), ms[|ms| - 1];
    Allowed(before, last) && Inherits(before, last)
  }

  /** Some move does. */
  ghost predicate EverInherits(sys: System, ms: seq<Move>) {
    ms != [] && (LastInherits(sys, ms) || EverInherits(sys, ms[..|ms| - 1]))
  }

  /** The slots are exact after each of the moves. */
  ghost predicate ExactThroughout(sys: System, ms: seq<Move>) {
    Exact(Moved(sys, ms)) && (ms != [] ==> ExactThroughout(sys, ms[..|ms| - 1]))
  }

  /** Over any moves, the slots are exact throughout if and only if no move registers afresh a key with a live admission. */
  lemma {:induction false} ExactExactlyWhenNoneInherited(sys: System, ms: seq<Move>)
    requires Exact(sys)
    ensures ExactThroughout(sys, ms) <==> !EverInherits(sys, ms)
  {
    if ms != [] {
      var n := |ms| - 1;
      ExactExactlyWhenNoneInherited(sys, ms[..n]);
      if ExactThroughout(sys, ms[..n]) && Allowed(Moved(sys, ms[..n]), ms[n]) {
        SlotsStayExactUnlessInherited(Moved(sys, ms[..n]), ms[n]);
      }
    }
  }

  /** Every move of the run is allowed, mints only new tokens, and registers afresh no key with a live admission. */
  ghost predicate Orderly(sys: System, ms: seq<Move>)
    requires Exact(sys)
    decreases |ms|
  {
    ms != [] ==>
      && Allowed(sys, ms[0])
      && !Inherits(sys, ms[0])
      && (StepOf(sys, ms[0]).Mints() ==> StepOf(sys, ms[0]).token !in sys.state.tokens)
      && (MoveKeepsExact(sys, ms[0]); Orderly(Next(sys, ms[0]), ms[1..]))
  }

  ghost function After(sys: System, ms: seq<Move>): System
    requires Exact(sys) && Orderly(sys, ms)
    decreases |ms|
  {
    if ms == [] then sys
    else
      MoveKeepsExact(sys, ms[0]);
      After(Next(sys, ms[0]), ms[1..])
  }

  /**
   In every state an orderly run reaches, each run's slots in use are exactly
   its live admissions, and no more than its concurrency.
   */
  lemma {:induction false} LiveAdmissionsAreWithinConcurrency(sys: System, ms: seq<Move>)
    requires Exact(sys) && Valid(sys.state) && Orderly(sys, ms)
    ensures var t := After(sys, ms);
            && Exact(t) && Valid(t.state)
            && forall k :: k in t.state.runs ==> |LiveOf(t.live, k)| <= t.state.runs[k].concurrency
    decreases |ms|
  {
    if ms == [] {
      forall k | k in sys.state.runs
        ensures |LiveOf(sys.live, k)| <= sys.state.runs[k].concurrency
      {
        assert RunValid(k, sys.state.runs[k]);
      }
    } else {
      MoveKeepsExact(sys, ms[0]);
      StepKeepsValid(sys.state, StepOf(sys, ms[0]));
      LiveAdmissionsAreWithinConcurrency(Next(sys, ms[0]), ms[1..]);
    }
  }

  /** The registry's steps in the moves from the start. */
  function EventsOf(ms: seq<Move>): seq<Event> {
    if ms == [] then []
    else
      var before, last := Moved(START, ms[..|ms| - 1]), ms[|ms| - 1];
      EventsOf(ms[..|ms| - 1]) + if Allowed(before, last) then [StepOf(before, last)] else []
  }

  lemma {:induction false} MovesAreSteps(ms: seq<Move>)
    ensures Moved(START, ms).state == Exec(EMPTY, EventsOf(ms))
  {
    if ms != [] {
      var n := |ms| - 1;
      var before, es := Moved(START, ms[..n]), EventsOf(ms[..n]);
      MovesAreSteps(ms[..n]);
      if Allowed(before, ms[n]) {
        assert (es + [StepOf(before, ms[n])])[..|es|] == es;
      } else {
        assert es + [] == es;
      }
    }
  }

  /**
   Over any moves that register afresh no key with a live admission, a run's
   live admissions are never more than the limit its job was registered with.
   */
  lemma LiveAdmissionsAreWithinLimits(ms: seq<Move>, key: RunKey)
    requires !EverInherits(START, ms) && FreshTokens(EventsOf(ms)) && key in Moved(START, ms).state.runs
    ensures var i := RegistryAnswers.LatestFresh(EventsOf(ms), key);
            && i.Some? && EventsOf(ms)[i.value].Mints()
            && |LiveOf(Moved(START, ms).live, key)| <= EventsOf(ms)[i.value].limits.concurrency
  {
    MovesAreSteps(ms);
    ExactExactlyWhenNoneInherited(START, ms);
    EveryReachableStateIsValid(EventsOf(ms));
    assert RunValid(key, Moved(START, ms).state.runs[key]);
    RegistryAnswers.RunIsAsRegistered(EventsOf(ms), key);
  }

  // ---------------------------------------------------------------------
  // A run in which an admission is stranded.

  function Job(): RunIdentity {
    RunIdentity(1, 1, 1, None, "j", Private, "")
  }

  const LATER: nat := RETENTION + 1

  /** A job registers for a nanosecond, one request at a time; the one it sends outlives its retention, and it registers again. */
  function Outliving(): seq<Move> {
    [] + [Call(Registering(0, 0))] + [Enter(0, KeyOf(Job()), 0)] + [Call(Registering(1, LATER))]
  }

  /** It sends another, the first ends, and it sends a third. */
  function Stranding(): seq<Move> {
    FirstEnding() + [Enter(2, KeyOf(Job()), LATER)]
  }

  function FirstEnding(): seq<Move> {
    Outliving() + [Enter(1, KeyOf(Job()), LATER)] + [Leave(0, Failed)]
  }

  function Registering(token: Token, now: nat): Event {
    DoRegister(Job(), Limits(1, 1), token, now, 0)
  }

  /** The registry has the job's run alone, active since `now`, with `inFlight` slots of one in use. */
  predicate HasJob(s: State, now: nat, inFlight: nat) {
    var k := KeyOf(Job());
    && s.runs.Keys == {k}
    && s.runs[k].record.state == Active && s.runs[k].concurrency == 1 && s.runs[k].inFlight == inFlight
    && s.runs[k].expires == now + 1 && s.runs[k].retainUntil == now + 1 + RETENTION
  }

  lemma Registers(sys: System, token: Token, now: nat)
    requires sys.state.runs == map[] || exists before: nat, n: nat :: HasJob(sys.state, before, n) && before + 1 + RETENTION <= now
    ensures var t := Next(sys, Call(Registering(token, now)));
            HasJob(t.state, now, 0) && t.live == sys.live
  {
    assert Pruned(sys.state, now).runs == map[];
  }

  lemma Enters(sys: System, id: nat, now: nat)
    requires HasJob(sys.state, now, 0) && id !in sys.live
    ensures var t := Next(sys, Enter(id, KeyOf(Job()), now));
            HasJob(t.state, now, 1) && t.live == sys.live[id := KeyOf(Job())]
  {
    PrunedRun(sys.state, now, KeyOf(Job()));
    assert Pruned(sys.state, now).runs.Keys == {KeyOf(Job())};
  }

  lemma Leaves(sys: System, id: nat, now: nat)
    requires HasJob(sys.state, now, 1) && id in sys.live && sys.live[id] == KeyOf(Job())
    ensures var t := Next(sys, Leave(id, Failed));
            HasJob(t.state, now, 0) && t.live == sys.live - {id}
  {
  }

  /** `ms` leads from the start to a registry with the job's run and these live admissions. */
  predicate LeadsTo(ms: seq<Move>, now: nat, inFlight: nat, live: map<nat, RunKey>) {
    HasJob(Moved(START, ms).state, now, inFlight) && Moved(START, ms).live == live
  }

  lemma LeadsOn(ms: seq<Move>, m: Move)
    requires Allowed(Moved(START, ms), m)
    ensures Moved(START, ms + [m]) == Next(Moved(START, ms), m)
  {
    assert (ms + [m])[..|ms|] == ms;
  }

  lemma LeadsToRegistered(ms: seq<Move>, token: Token, before: nat, n: nat, now: nat, live: map<nat, RunKey>)
    requires (ms == [] && live == map[]) || (LeadsTo(ms, before, n, live) && before + 1 + RETENTION <= now)
    ensures LeadsTo(ms + [Call(Registering(token, now))], now, 0, live)
  {
    LeadsOn(ms, Call(Registering(token, now)));
    Registers(Moved(START, ms), token, now);
  }

  lemma LeadsToEntered(ms: seq<Move>, id: nat, now: nat, live: map<nat, RunKey>)
    requires LeadsTo(ms, now, 0, live) && id !in live
    ensures LeadsTo(ms + [Enter(id, KeyOf(Job()), now)], now, 1, live[id := KeyOf(Job())])
  {
    LeadsOn(ms, Enter(id, KeyOf(Job()), now));
    Enters(Moved(START, ms), id, now);
  }

  lemma LeadsToLeft(ms: seq<Move>, id: nat, now: nat, live: map<nat, RunKey>)
    requires LeadsTo(ms, now, 1, live) && id in live && live[id] == KeyOf(Job())
    ensures LeadsTo(ms + [Leave(id, Failed)], now, 0, live - {id})
  {
    LeadsOn(ms, Leave(id, Failed));
    Leaves(Moved(START, ms), id, now);
  }

  lemma OutlivingLeadsTo()
    ensures LeadsTo(Outliving(), LATER, 0, map[0 := KeyOf(Job())])
  {
    LeadsToRegistered([], 0, 0, 0, 0, map[]);
    LeadsToEntered([] + [Call(Registering(0, 0))], 0, 0, map[]);
    LeadsToRegistered([] + [Call(Registering(0, 0))] + [Enter(0, KeyOf(Job()), 0)], 1, 0, 1, LATER, map[0 := KeyOf(Job())]);
  }

  lemma FirstEndingLeadsTo()
    ensures LeadsTo(FirstEnding(), LATER, 0, map[0 := KeyOf(Job()), 1 := KeyOf(Job())] - {0})
  {
    OutlivingLeadsTo();
    LeadsToEntered(Outliving(), 1, LATER, map[0 := KeyOf(Job())]);
    LeadsToLeft(Outliving() + [Enter(1, KeyOf(Job()), LATER)], 0, LATER, map[0 := KeyOf(Job()), 1 := KeyOf(Job())]);
  }

  /**
   A stranded admission gives back the slot of a request of the later run:
   that is live with no slot in use, and another is let in beside it.
   */
  lemma StrandedAdmissionLetsTwoIn()
    ensures var k, five, six := KeyOf(Job()), Moved(START, FirstEnding()), Moved(START, Stranding());
            && k in five.state.runs && five.state.runs[k].inFlight == 0 && LiveOf(five.live, k) == {1}
            && k in six.state.runs && six.state.runs[k].concurrency == 1 && LiveOf(six.live, k) == {1, 2}
  {
    FirstEndingLeadsTo();
    LeadsToEntered(FirstEnding(), 2, LATER, map[0 := KeyOf(Job()), 1 := KeyOf(Job())] - {0});
  }
}
