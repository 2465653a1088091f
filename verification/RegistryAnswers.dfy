/**
 What the registry keeps and answers, in terms of the steps alone (runs.rs).

 A remembered run is as its registration asked for, whatever came since; and
 each refusal is given exactly when its reason holds. Numbers of the source are
 written out here, so that they are stated a second time.
 */
module RegistryAnswers {
  import opened Wrappers
  import opened Numbers
  import opened Records
  import opened Subjects
  import opened Registry
  import opened RegistryInvariants
  import Q = UnprovenQuota

  // ---------------------------------------------------------------------
  // A remembered run is the one registered.

  /** The latest step that gave the key a fresh record. */
  function LatestFresh(es: seq<Event>, key: RunKey): (i: Option<nat>)
    ensures i.Some? ==> i.value < |es| && FreshRecord(Exec(EMPTY, es[..i.value]), es[i.value], key)
  {
    if es == [] then None
    else
      var n := |es| - 1;
      if FreshRecord(Exec(EMPTY, es[..n]), es[n], key) then Some(n)
      else
        var i := LatestFresh(es[..n], key);
        assert i.Some? ==> es[..n][..i.value] == es[..i.value];
        i
  }

  function SecondsAfter(unix: u64, ttl: nat): nat {
    unix + ttl / 1_000_000_000
  }

  /** The run has what its registration asked for. */
  predicate AsRegistered(e: Event, run: Run)
    requires e.Mints()
  {
    && run.concurrency == e.limits.concurrency
    && run.expires == e.now + e.limits.ttl
    && run.retainUntil == e.now + e.limits.ttl + 86_400_000_000_000
    && run.record.registeredAt == e.unix
    && run.record.expiresAt == (if SecondsAfter(e.unix, e.limits.ttl) <= U64_MAX then SecondsAfter(e.unix, e.limits.ttl) else U64_MAX)
    && match e
       case DoRegister(id, _, _, _, _) =>
         && run.consumer == id.consumer && run.jti == Some(id.jti)
         && run.record.proof == GithubOidc(id.repositoryId, id.runId, id.runAttempt, id.checkRunId, id.claims)
       case DoRegisterUnproven(name, _, _, _, _, _) =>
         run.consumer == Private && run.jti == None && run.record.proof == NoProof(name)
  }

  lemma FreshIsAsRegistered(p: State, e: Event, key: RunKey)
    requires key !in p.runs && key in Act(p, e).0.runs
    ensures ForKey(e, key) && e.Mints() && AsRegistered(e, Act(p, e).0.runs[key])
    ensures var run := Act(p, e).0.runs[key];
            run.record.state == Active && run.record.finishedAt.None? && run.record.used == NOTHING_USED && run.inFlight == 0
  {
  }

  lemma SuccessorStaysRegistered(first: Event, e: Event, key: RunKey, prior: Run, next: Run)
    requires first.Mints() && AsRegistered(first, prior) && Successor(e, key, prior, next)
    ensures AsRegistered(first, next)
  {
  }

  /**
   After any steps, a remembered run has the limits, the proof and the times
   of the latest step that gave its key a fresh record.
   */
  lemma {:induction false} RunIsAsRegistered(es: seq<Event>, key: RunKey)
    requires key in Exec(EMPTY, es).runs
    ensures var i := LatestFresh(es, key);
            i.Some? && es[i.value].Mints() && AsRegistered(es[i.value], Exec(EMPTY, es).runs[key])
  {
    var n := |es| - 1;
    var before, e := Exec(EMPTY, es[..n]), es[n];
    if key in Seen(before, e).runs {
      if e.Timed() {
        PrunedRun(before, e.now, key);
      }
      RunIsAsRegistered(es[..n], key);
      StepKeepsRun(before, e, key);
      SuccessorStaysRegistered(es[LatestFresh(es[..n], key).value], e, key, before.runs[key], Exec(EMPTY, es).runs[key]);
    } else {
      FreshIsAsRegistered(Seen(before, e), e, key);
    }
  }

  // ---------------------------------------------------------------------
  // When each refusal is given.

  /** The run is remembered at `now`. */
  predicate Remembered(s: State, key: RunKey, now: nat) {
    key in s.runs && now < s.runs[key].retainUntil
  }

  /** It is, and has neither ended nor expired by then. */
  predicate Open(s: State, key: RunKey, now: nat) {
    Remembered(s, key, now) && s.runs[key].record.state == Active && now < s.runs[key].expires
  }

  /** After any steps: closed exactly if the run is not open, and busy exactly if it is, and every slot in use. */
  lemma AdmissionExactly(es: seq<Event>, key: RunKey, now: nat)
    requires FreshTokens(es)
    ensures var s := Exec(EMPTY, es);
            var answer := Step(s, DoAdmit(key, now)).1;
            && (answer == Admission(Err(Closed)) <==> !Open(s, key, now))
            && (answer == Admission(Err(Busy)) <==> Open(s, key, now) && s.runs[key].inFlight == s.runs[key].concurrency)
            && (Open(s, key, now) && s.runs[key].inFlight < s.runs[key].concurrency ==> answer == Admission(Ok(s.runs[key].consumer)))
  {
    var s := Exec(EMPTY, es);
    EveryReachableStateIsValid(es);
    if key in s.runs {
      assert RunValid(key, s.runs[key]);
    }
    SeenIsOpen(s, key, now);
    AdmitAnswers(Pruned(s, now), key);
  }

  lemma SeenIsOpen(s: State, key: RunKey, now: nat)
    ensures var p := Pruned(s, now);
            && (Open(s, key, now) <==> key in p.runs && p.runs[key].record.state == Active)
            && (Open(s, key, now) ==> p.runs[key] == s.runs[key])
  {
    PrunedRun(s, now, key);
  }

  lemma AdmitAnswers(p: State, key: RunKey)
    ensures var isOpen, answer := key in p.runs && p.runs[key].record.state == Active, Admit(p, key).1;
            && (answer == Err(Closed) <==> !isOpen)
            && (answer == Err(Busy) <==> isOpen && p.runs[key].inFlight >= p.runs[key].concurrency)
            && (answer.Ok? ==> answer == Ok(p.runs[key].consumer))
  {
  }

  /** The runs that are remembered at `now`. */
  function RememberedAt(s: State, now: nat): set<RunKey> {
    set k | k in s.runs && now < s.runs[k].retainUntil
  }

  lemma PrunedAreRemembered(s: State, now: nat)
    ensures Pruned(s, now).runs.Keys == RememberedAt(s, now) && |Pruned(s, now).runs| == |RememberedAt(s, now)|
  {
    assert |Pruned(s, now).runs| == |Pruned(s, now).runs.Keys|;
  }

  /**
   A verified job is refused as already registered exactly if its run is
   remembered and this is no retry of it while it is open, and as full exactly
   if it is not remembered and as many as 4096 runs are.
   */
  lemma RegistrationExactly(s: State, id: RunIdentity, limits: Limits, token: Token, now: nat, unix: u64)
    ensures var key, answer := KeyOf(id), Step(s, DoRegister(id, limits, token, now, unix)).1;
            && (answer == Registration(Err(AlreadyRegistered)) <==>
                Remembered(s, key, now) && !(Open(s, key, now) && s.runs[key].jti == Some(id.jti)))
            && (answer == Registration(Err(Full)) <==> !Remembered(s, key, now) && |RememberedAt(s, now)| >= 4096)
            && answer != Registration(Err(OverQuota))
  {
    PrunedRun(s, now, KeyOf(id));
    PrunedAreRemembered(s, now);
  }

  /** The run that a step asks for, if it asks for a record. */
  predicate AsksFor(e: Event, key: RunKey) {
    ForKey(e, key) || (e.DoRecord? && e.key == key) || (e.DoFinish? && e.key == key)
  }

  /**
   A record that is answered is the run's after the step; and one is answered
   of every run that is remembered, to a step that registers none.
   */
  lemma AnsweredIsTheRecord(s: State, e: Event, key: RunKey)
    requires AsksFor(e, key)
    ensures var (t, answer) := Step(s, e);
            if e.Mints() then answer.Registration? && (answer.result.Ok? ==> key in t.runs && answer.result.value == t.runs[key].record)
            else answer == Known(if Remembered(s, key, e.now) then Some(t.runs[key].record) else None)
  {
    PrunedRun(s, e.now, key);
    ActAnswers(Pruned(s, e.now), e, key);
  }

  lemma ActAnswers(p: State, e: Event, key: RunKey)
    requires AsksFor(e, key)
    ensures var (t, answer) := Act(p, e);
            if e.Mints() then answer.Registration? && (answer.result.Ok? ==> key in t.runs && answer.result.value == t.runs[key].record)
            else answer == Known(if key in p.runs then Some(t.runs[key].record) else None) && (key in p.runs ==> key in t.runs)
  {
  }

  /** The admissions without proof that are still in the window at `now`. */
  function Counting(log: seq<Q.Entry>, now: nat, window: nat): set<nat> {
    set i: nat | i < |log| && now < log[i].time + window
  }

  lemma QueueCounts(queue: seq<nat>, log: seq<Q.Entry>, now: nat, window: nat)
    requires Q.Sorted(log, now) && Q.Queued(queue, log, now, window) && (queue != [] ==> now < queue[0] + window)
    ensures |Counting(log, now, window)| == |queue|
  {
    var first := |log| - |queue|;
    forall i: nat
      ensures i in Counting(log, now, window) <==> i in Interval(first, |log|)
    {
      IntervalHas(first, |log|, i);
      if first <= i < |log| {
        assert queue[0] == log[first + 0].time;
      }
    }
    assert Counting(log, now, window) == Interval(first, |log|);
  }

  function Interval(a: nat, b: nat): (s: set<nat>)
    requires a <= b
    ensures |s| == b - a && forall i :: i in s ==> a <= i < b
    decreases b
  {
    if a == b then {} else Interval(a, b - 1) + {b - 1}
  }

  lemma {:induction false} IntervalHas(a: nat, b: nat, i: nat)
    requires a <= b
    ensures i in Interval(a, b) <==> a <= i < b
    decreases b
  {
    if a < b {
      IntervalHas(a, b - 1, i);
    }
  }

  /** The registry's own room for one more run without proof. */
  predicate HasRoom(s: State, now: nat) {
    |set k | k in RememberedAt(s, now) && k.Unproven?| < 1024 && |RememberedAt(s, now)| < 4096
  }

  /**
   Over every run at nondecreasing times under one quota: a registration
   without proof is refused as already registered exactly if its run is
   remembered; else over its quota exactly if as many admissions as the quota
   allows are in the window that ends now; and else as full exactly if the
   registry has no room.
   */
  lemma UnprovenRegistrationExactly(es: seq<Event>, e: Event, ttl: nat)
    requires e.DoRegisterUnproven? && Monotonic(es + [e]) && Q.OneQuota(es + [e], e.quota, ttl)
    ensures var s, key := Exec(EMPTY, es), Unproven(e.name);
            var answer, used := Step(s, e).1, |Counting(Q.Log(es), e.now, e.quota.window)|;
            && (answer == Registration(Err(AlreadyRegistered)) <==> Remembered(s, key, e.now))
            && (answer == Registration(Err(OverQuota)) <==> !Remembered(s, key, e.now) && used >= e.quota.max)
            && (answer == Registration(Err(Full)) <==> !Remembered(s, key, e.now) && used < e.quota.max && !HasRoom(s, e.now))
  {
    var s := Exec(EMPTY, es);
    RecentCounts(es, e, ttl);
    RoomAfterPruning(s, e.now);
    PrunedRun(s, e.now, Unproven(e.name));
    UnprovenAnswers(Pruned(s, e.now), e);
  }

  lemma RoomAfterPruning(s: State, now: nat)
    ensures HasRoom(s, now) <==> |UnprovenKeys(Pruned(s, now).runs)| < 1024 && |Pruned(s, now).runs| < 4096
  {
    PrunedAreRemembered(s, now);
    PrunedKeys(s, now);
    assert UnprovenKeys(Pruned(s, now).runs) == set k | k in RememberedAt(s, now) && k.Unproven?;
  }

  lemma PrunedKeys(s: State, now: nat)
    ensures forall k :: k in Pruned(s, now).runs <==> k in RememberedAt(s, now)
  {
  }

  lemma UnprovenAnswers(p: State, e: Event)
    requires e.DoRegisterUnproven?
    ensures var key, answer, used := Unproven(e.name), Act(p, e).1, |Recent(p.unproven, e.now, e.quota.window)|;
            var room := |UnprovenKeys(p.runs)| < 1024 && |p.runs| < 4096;
            && (answer == Registration(Err(AlreadyRegistered)) <==> key in p.runs)
            && (answer == Registration(Err(OverQuota)) <==> key !in p.runs && used >= e.quota.max)
            && (answer == Registration(Err(Full)) <==> key !in p.runs && used < e.quota.max && !room)
  {
  }

  lemma RecentCounts(es: seq<Event>, e: Event, ttl: nat)
    requires e.DoRegisterUnproven? && Monotonic(es + [e]) && Q.OneQuota(es + [e], e.quota, ttl)
    ensures |Recent(Exec(EMPTY, es).unproven, e.now, e.quota.window)| == |Counting(Q.Log(es), e.now, e.quota.window)|
  {
    var s, now, window := Exec(EMPTY, es), e.now, e.quota.window;
    assert (es + [e])[..|es|] == es;
    Q.ClockNeverStepsBack(es + [e]);
    assert Q.OneQuota(es, e.quota, ttl) by {
      forall i | 0 <= i < |es| && es[i].DoRegisterUnproven?
        ensures es[i].quota == e.quota && es[i].limits.ttl == ttl
      {
        assert (es + [e])[i] == es[i];
      }
    }
    Q.EveryRunKeepsLog(es, e.quota, ttl);
    Q.PruningKeepsLog(s, Q.Log(es), Q.Clock(es), now, e.quota, ttl);
    Q.RecentIsQueued(s.unproven, Q.Log(es), now, window);
    Q.RecentIsInWindow(s.unproven, now, window);
    QueueCounts(Recent(s.unproven, now, window), Q.Log(es), now, window);
  }
}
