/**
 The quota of registrations without proof (runs.rs, filter.rs).

 The registry keeps only a queue of recent admissions and pops it as time
 goes. Over every run of the registry at nondecreasing times, under one quota
 and one lifetime, that is enough for two promises: no window of time holds
 more than `max` admissions, and no more than `MostRemembered` of the runs
 admitted are remembered. A configuration is accepted exactly when the second
 promise keeps the registry's own limit from ever being the reason to refuse.
 */
module UnprovenQuota {
  import opened Wrappers
  import opened Numbers
  import opened Subjects
  import opened Registry
  import opened RegistryInvariants

  function DivCeil(a: nat, b: nat): nat
    requires b > 0
  {
    (a + b - 1) / b
  }

  /** The most runs registered within `quota` that are remembered at once, when each lasts `ttl`. */
  function MostRemembered(quota: Quota, ttl: nat): u64 {
    Sat(Sat(DivCeil(ttl + RETENTION, Max(quota.window, 1))) * quota.max)
  }

  // ---------------------------------------------------------------------
  // The log of admissions.

  datatype Entry = Entry(name: RunName, time: nat)

  /** What the step `e` admits without proof in state `s`. */
  function NewEntries(s: State, e: Event): seq<Entry> {
    if e.DoRegisterUnproven? && Step(s, e).1.result.Ok? then [Entry(e.name, e.now)] else []
  }

  /** Every admission without proof so far, oldest first. */
  function Log(es: seq<Event>): seq<Entry> {
    if es == [] then []
    else
      var before, last := es[..|es| - 1], es[|es| - 1];
      Log(before) + NewEntries(Exec(EMPTY, before), last)
  }

  /** The latest time a step has pruned at. */
  function Clock(es: seq<Event>): nat {
    if es == [] then 0
    else if es[|es| - 1].Timed() then es[|es| - 1].now
    else Clock(es[..|es| - 1])
  }

  predicate OneQuota(es: seq<Event>, quota: Quota, ttl: nat) {
    forall i :: 0 <= i < |es| && es[i].DoRegisterUnproven? ==> es[i].quota == quota && es[i].limits.ttl == ttl
  }

  lemma {:induction false} ClockIsATime(es: seq<Event>)
    ensures Clock(es) == 0 || exists i :: 0 <= i < |es| && es[i].Timed() && es[i].now == Clock(es)
  {
    if es != [] && !es[|es| - 1].Timed() {
      ClockIsATime(es[..|es| - 1]);
    }
  }

  lemma ClockNeverStepsBack(es: seq<Event>)
    requires es != [] && Monotonic(es)
    ensures Monotonic(es[..|es| - 1]) && Clock(es[..|es| - 1]) <= Clock(es)
  {
    ClockIsATime(es[..|es| - 1]);
  }

  // ---------------------------------------------------------------------
  // What the queue keeps.

  ghost predicate Sorted(log: seq<Entry>, now: nat) {
    && (forall i, j :: 0 <= i <= j < |log| ==> log[i].time <= log[j].time)
    && (forall i :: 0 <= i < |log| ==> log[i].time <= now)
  }

  /** An admission comes at least a window after the one `max` before it. */
  ghost predicate Spaced(log: seq<Entry>, quota: Quota) {
    forall i :: quota.max <= i < |log| ==> log[i].time >= log[i - quota.max].time + quota.window
  }

  /** The queue is the end of the log, and everything before it has left the window. */
  ghost predicate Queued(queue: seq<nat>, log: seq<Entry>, now: nat, window: nat) {
    && |queue| <= |log|
    && (forall i :: 0 <= i < |queue| ==> queue[i] == log[|log| - |queue| + i].time)
    && (forall i :: 0 <= i < |log| - |queue| ==> log[i].time + window <= now)
  }

  ghost predicate LoggedAs(log: seq<Entry>, name: RunName, time: nat) {
    exists i :: 0 <= i < |log| && log[i] == Entry(name, time)
  }

  /** Every remembered unproven run is in the log, and not yet due to be forgotten. */
  ghost predicate Logged(runs: map<RunKey, Run>, log: seq<Entry>, now: nat, lasting: nat) {
    forall k :: k in runs && k.Unproven? ==>
      && now < runs[k].retainUntil
      && runs[k].retainUntil >= lasting
      && LoggedAs(log, k.name, runs[k].retainUntil - lasting)
  }

  ghost predicate KeepsLog(s: State, log: seq<Entry>, now: nat, quota: Quota, ttl: nat) {
    && Sorted(log, now)
    && Spaced(log, quota)
    && Queued(s.unproven, log, now, quota.window)
    && Logged(s.runs, log, now, ttl + RETENTION)
  }

  /** Popping the queue leaves the end of it that is still in the window. */
  lemma {:induction false} RecentIsQueued(queue: seq<nat>, log: seq<Entry>, now: nat, window: nat)
    requires Sorted(log, now) && Queued(queue, log, now, window)
    ensures Queued(Recent(queue, now, window), log, now, window)
    decreases |queue|
  {
    if queue != [] && now - queue[0] >= window {
      RecentIsQueued(queue[1..], log, now, window);
    }
  }

  lemma PruningKeepsLog(s: State, log: seq<Entry>, before: nat, now: nat, quota: Quota, ttl: nat)
    requires KeepsLog(s, log, before, quota, ttl) && before <= now
    ensures KeepsLog(Pruned(s, now), log, now, quota, ttl)
  {
    forall k | k in Pruned(s, now).runs
      ensures k in s.runs && Pruned(s, now).runs[k].retainUntil == s.runs[k].retainUntil && now < s.runs[k].retainUntil
    {
      PrunedRun(s, now, k);
    }
  }

  lemma AdmittingKeepsSpaced(log: seq<Entry>, recent: seq<nat>, name: RunName, now: nat, quota: Quota)
    requires Sorted(log, now) && Spaced(log, quota) && Queued(recent, log, now, quota.window) && |recent| < quota.max
    ensures var longer := log + [Entry(name, now)];
            Sorted(longer, now) && Spaced(longer, quota) && Queued(recent + [now], longer, now, quota.window)
  {
  }

  lemma LongerLog(runs: map<RunKey, Run>, log: seq<Entry>, added: seq<Entry>, now: nat, lasting: nat)
    requires Logged(runs, log, now, lasting)
    ensures Logged(runs, log + added, now, lasting)
  {
    forall k | k in runs && k.Unproven?
      ensures LoggedAs(log + added, k.name, runs[k].retainUntil - lasting)
    {
      var i :| 0 <= i < |log| && log[i] == Entry(k.name, runs[k].retainUntil - lasting);
      assert (log + added)[i] == log[i];
    }
  }

  lemma ActKeepsLogged(p: State, e: Event, log: seq<Entry>, added: seq<Entry>, now: nat, ttl: nat)
    requires Logged(p.runs, log, now, ttl + RETENTION) && (e.Mints() ==> e.now == now)
    requires e.DoRegisterUnproven? ==> e.limits.ttl == ttl
    requires added == if e.DoRegisterUnproven? && Act(p, e).1.result.Ok? then [Entry(e.name, now)] else []
    ensures Logged(Act(p, e).0.runs, log + added, now, ttl + RETENTION)
  {
    LongerLog(p.runs, log, added, now, ttl + RETENTION);
    var t := Act(p, e).0;
    forall k | k in t.runs && k.Unproven?
      ensures now < t.runs[k].retainUntil && t.runs[k].retainUntil >= ttl + RETENTION
      ensures LoggedAs(log + added, k.name, t.runs[k].retainUntil - ttl - RETENTION)
    {
      if k in p.runs {
        ActOnRun(p, e, k);
      } else {
        FreshRecordLasts(p, e, k);
        FreshRecordIsAnswered(p, e, k);
        assert (log + added)[|log|] == Entry(k.name, now);
      }
    }
  }

  lemma FreshRecordIsAnswered(p: State, e: Event, key: RunKey)
    requires key !in p.runs && key in Act(p, e).0.runs && key.Unproven?
    ensures e.DoRegisterUnproven? && Act(p, e).1.result.Ok? && e.name == key.name
  {
  }

  lemma ActOnQueue(p: State, e: Event)
    ensures Act(p, e).0.unproven ==
            if !e.DoRegisterUnproven? || Unproven(e.name) in p.runs then p.unproven
            else Recent(p.unproven, e.now, e.quota.window) + if Act(p, e).1.result.Ok? then [e.now] else []
    ensures e.DoRegisterUnproven? && Act(p, e).1.result.Ok? ==>
              Unproven(e.name) !in p.runs && |Recent(p.unproven, e.now, e.quota.window)| < e.quota.max
  {
  }

  lemma StepKeepsLog(s: State, e: Event, log: seq<Entry>, before: nat, now: nat, quota: Quota, ttl: nat)
    requires KeepsLog(s, log, before, quota, ttl)
    requires before <= now && (if e.Timed() then e.now == now else before == now)
    requires e.DoRegisterUnproven? ==> e.quota == quota && e.limits.ttl == ttl
    ensures KeepsLog(Step(s, e).0, log + NewEntries(s, e), now, quota, ttl)
  {
    if e.Timed() {
      PruningKeepsLog(s, log, before, now, quota, ttl);
    }
    ActKeepsLogged(Seen(s, e), e, log, NewEntries(s, e), now, ttl);
    ActKeepsQueue(Seen(s, e), e, log, NewEntries(s, e), now, quota);
  }

  lemma ActKeepsQueue(p: State, e: Event, log: seq<Entry>, added: seq<Entry>, now: nat, quota: Quota)
    requires Sorted(log, now) && Spaced(log, quota) && Queued(p.unproven, log, now, quota.window)
    requires e.DoRegisterUnproven? ==> e.now == now && e.quota == quota
    requires added == if e.DoRegisterUnproven? && Act(p, e).1.result.Ok? then [Entry(e.name, now)] else []
    ensures var longer := log + added;
            Sorted(longer, now) && Spaced(longer, quota) && Queued(Act(p, e).0.unproven, longer, now, quota.window)
  {
    ActOnQueue(p, e);
    assert log + [] == log;
    if e.DoRegisterUnproven? {
      RecentIsQueued(p.unproven, log, now, quota.window);
      if Act(p, e).1.result.Ok? {
        AdmittingKeepsSpaced(log, Recent(p.unproven, now, quota.window), e.name, now, quota);
      }
    }
  }

  lemma {:induction false} EveryRunKeepsLog(es: seq<Event>, quota: Quota, ttl: nat)
    requires Monotonic(es) && OneQuota(es, quota, ttl)
    ensures KeepsLog(Exec(EMPTY, es), Log(es), Clock(es), quota, ttl)
  {
    if es != [] {
      var before, last := es[..|es| - 1], es[|es| - 1];
      ClockNeverStepsBack(es);
      EveryRunKeepsLog(before, quota, ttl);
      StepKeepsLog(Exec(EMPTY, before), last, Log(before), Clock(before), Clock(es), quota, ttl);
    }
  }

  // ---------------------------------------------------------------------
  // Counting.

  lemma {:induction false} IntervalSize(s: set<int>, lo: int, hi: int)
    requires lo <= hi && forall i :: i in s ==> lo <= i < hi
    ensures |s| <= hi - lo
    decreases hi - lo
  {
    if lo == hi {
      assert s == {};
    } else {
      IntervalSize(s - {hi - 1}, lo, hi - 1);
      if hi - 1 in s {
        assert s == (s - {hi - 1}) + {hi - 1};
      } else {
        assert s == s - {hi - 1};
      }
    }
  }

  /** Numbers that are all within `width` of each other are at most `width` many. */
  lemma {:induction false} CloseTogether(s: set<int>, lo: int, hi: int, width: nat)
    requires lo <= hi && forall i :: i in s ==> lo <= i < hi
    requires forall i, j :: i in s && j in s ==> j < i + width
    ensures |s| <= width
    decreases hi - lo
  {
    if lo == hi {
      IntervalSize(s, lo, hi);
    } else if lo in s {
      IntervalSize(s, lo, lo + width);
    } else {
      CloseTogether(s, lo + 1, hi, width);
    }
  }

  /** The admissions of the log in the window of length `window` that starts at `start`. */
  function Within(log: seq<Entry>, start: nat, window: nat): set<int> {
    set i | 0 <= i < |log| && start <= log[i].time < start + window
  }

  lemma FarApart(log: seq<Entry>, now: nat, quota: Quota, i: nat, j: nat)
    requires Sorted(log, now) && Spaced(log, quota) && i + quota.max <= j < |log|
    ensures log[j].time >= log[i].time + quota.window
  {
    assert log[j - quota.max].time >= log[i].time;
  }

  lemma WindowHoldsAtMostMax(log: seq<Entry>, now: nat, quota: Quota, start: nat)
    requires Sorted(log, now) && Spaced(log, quota)
    ensures |Within(log, start, quota.window)| <= quota.max
  {
    var s := Within(log, start, quota.window);
    forall i, j | i in s && j in s
      ensures j < i + quota.max
    {
      if j >= i + quota.max {
        FarApart(log, now, quota, i, j);
      }
    }
    CloseTogether(s, 0, |log|, quota.max);
  }

  /** `n` times `max` admissions take at least `n` windows. */
  lemma {:induction false} ManyAdmissionsTakeLong(log: seq<Entry>, quota: Quota, i: nat, j: nat, n: nat)
    requires Spaced(log, quota) && j == i + n * quota.max && j < |log|
    ensures log[j].time >= log[i].time + n * quota.window
    decreases n
  {
    if n > 0 {
      assert n * quota.max == (n - 1) * quota.max + quota.max;
      assert n * quota.window == (n - 1) * quota.window + quota.window;
      ManyAdmissionsTakeLong(log, quota, i, j - quota.max, n - 1);
    }
  }

  /** How many entries of the log end `lasting` after their admission no later than `now`. */
  function Outlived(log: seq<Entry>, now: nat, lasting: nat): nat {
    if log == [] || now < log[0].time + lasting then 0 else 1 + Outlived(log[1..], now, lasting)
  }

  lemma {:induction false} OutlivedSplitsLog(log: seq<Entry>, now: nat, lasting: nat)
    requires forall i, j :: 0 <= i <= j < |log| ==> log[i].time <= log[j].time
    ensures var cut := Outlived(log, now, lasting);
            && cut <= |log|
            && (forall i :: 0 <= i < |log| ==> (now < log[i].time + lasting <==> cut <= i))
  {
    if log != [] && log[0].time + lasting <= now {
      OutlivedSplitsLog(log[1..], now, lasting);
      var cut := Outlived(log[1..], now, lasting);
      forall i | 0 <= i < |log|
        ensures now < log[i].time + lasting <==> 1 + cut <= i
      {
        if i > 0 {
          assert log[i] == log[1..][i - 1];
        }
      }
    }
  }

  lemma FewLast(log: seq<Entry>, now: nat, quota: Quota, lasting: nat, windows: nat, most: nat)
    requires Sorted(log, now) && Spaced(log, quota) && windows * quota.window >= lasting && most == windows * quota.max
    ensures |log| - Outlived(log, now, lasting) <= most
  {
    OutlivedSplitsLog(log, now, lasting);
    if most < |log| {
      ManyAdmissionsTakeLong(log, quota, |log| - 1 - most, |log| - 1, windows);
    }
  }

  /** The keys the log names from `from` on. */
  function KeysFrom(log: seq<Entry>, from: nat): set<RunKey> {
    set i | from <= i < |log| :: Unproven(log[i].name)
  }

  lemma {:induction false} KeysAreNoMore(log: seq<Entry>, from: nat)
    requires from <= |log|
    ensures |KeysFrom(log, from)| <= |log| - from
    decreases |log| - from
  {
    if from == |log| {
      assert KeysFrom(log, from) == {};
    } else {
      KeysAreNoMore(log, from + 1);
      assert KeysFrom(log, from) == KeysFrom(log, from + 1) + {Unproven(log[from].name)};
    }
  }

  lemma RememberedAreLast(runs: map<RunKey, Run>, log: seq<Entry>, now: nat, lasting: nat)
    requires Sorted(log, now) && Logged(runs, log, now, lasting)
    ensures |UnprovenKeys(runs)| <= |log| - Outlived(log, now, lasting)
  {
    var cut := Outlived(log, now, lasting);
    OutlivedSplitsLog(log, now, lasting);
    forall k | k in UnprovenKeys(runs)
      ensures k in KeysFrom(log, cut)
    {
      var i :| 0 <= i < |log| && log[i] == Entry(k.name, runs[k].retainUntil - lasting);
      assert cut <= i;
    }
    KeysAreNoMore(log, cut);
    SubsetIsSmaller(UnprovenKeys(runs), KeysFrom(log, cut));
  }

  lemma CeilingCovers(a: nat, b: nat)
    requires b > 0
    ensures DivCeil(a, b) * b >= a
  {
    var q := DivCeil(a, b);
    assert q * b + (a + b - 1) % b == a + b - 1;
  }

  /** The bound holds, unless it is too large for a counter to hold. */
  lemma LastWithinBound(log: seq<Entry>, now: nat, quota: Quota, ttl: nat)
    requires Sorted(log, now) && Spaced(log, quota) && quota.window > 0
    ensures var last := |log| - Outlived(log, now, ttl + RETENTION);
            last <= MostRemembered(quota, ttl) || MostRemembered(quota, ttl) == U64_MAX
  {
    var lasting := ttl + RETENTION;
    var windows := DivCeil(lasting, quota.window);
    CeilingCovers(lasting, quota.window);
    FewLast(log, now, quota, lasting, windows, windows * quota.max);
    if windows > U64_MAX {
      if quota.max == 0 {
        assert windows * quota.max == 0;
      } else {
        assert U64_MAX * quota.max >= U64_MAX;
      }
    }
  }

  /** With no window at all, the registry's own limit is within the bound. */
  lemma NoWindowBound(quota: Quota, ttl: nat)
    requires quota.window == 0 && quota.max > 0
    ensures MostRemembered(quota, ttl) >= MAX_UNPROVEN_RUNS
  {
    var remembered := Sat(ttl + RETENTION);
    assert DivCeil(ttl + RETENTION, 1) == ttl + RETENTION;
    assert remembered * quota.max >= remembered;
  }

  lemma {:induction false} NoQuotaNoRuns(es: seq<Event>, quota: Quota, ttl: nat, key: RunKey)
    requires OneQuota(es, quota, ttl) && quota.max == 0
    ensures key in Exec(EMPTY, es).runs ==> !key.Unproven?
  {
    if es != [] {
      var before, last := es[..|es| - 1], es[|es| - 1];
      NoQuotaNoRuns(before, quota, ttl, key);
      var p := Seen(Exec(EMPTY, before), last);
      if key.Unproven? && key in Act(p, last).0.runs && key !in p.runs {
        FreshRecordIsAnswered(p, last, key);
        ActOnQueue(p, last);
      }
    }
  }

  /**
   Over every run of the registry at nondecreasing times, under one quota and
   one lifetime: any window of time holds at most `max` admissions, and at
   most `MostRemembered` unproven runs are remembered.
   */
  lemma QuotaHolds(es: seq<Event>, quota: Quota, ttl: nat)
    requires Monotonic(es) && OneQuota(es, quota, ttl) && FreshTokens(es)
    ensures forall start: nat :: |Within(Log(es), start, quota.window)| <= quota.max
    ensures |UnprovenKeys(Exec(EMPTY, es).runs)| <= MostRemembered(quota, ttl)
  {
    EveryRunKeepsLog(es, quota, ttl);
    EveryReachableStateIsValid(es);
    forall start: nat
      ensures |Within(Log(es), start, quota.window)| <= quota.max
    {
      WindowHoldsAtMostMax(Log(es), Clock(es), quota, start);
    }
    var runs := Exec(EMPTY, es).runs;
    if quota.window > 0 {
      LastWithinBound(Log(es), Clock(es), quota, ttl);
      RememberedAreLast(runs, Log(es), Clock(es), ttl + RETENTION);
    } else if quota.max > 0 {
      NoWindowBound(quota, ttl);
    } else {
      forall k | k in UnprovenKeys(runs)
        ensures false
      {
        NoQuotaNoRuns(es, quota, ttl, k);
      }
      assert UnprovenKeys(runs) == {};
    }
  }

  // ---------------------------------------------------------------------
  // The configured quota.

  const MAX_SECS: nat := 2_592_000

  datatype UnprovenConfig = UnprovenConfig(maxRegistrations: u64, windowSecs: u64)

  datatype ConfigError = NoRegistrations | BadWindow | TooManyRemembered(remembered: u64)

  function Asked(config: UnprovenConfig): Quota {
    Quota(config.maxRegistrations, config.windowSecs * 1_000_000_000)
  }

  /** The quota a configuration asks for, for runs that each last `ttl`. */
  function QuotaOf(config: UnprovenConfig, ttl: nat): Result<Quota, ConfigError> {
    if config.maxRegistrations == 0 then Err(NoRegistrations)
    else if !(1 <= config.windowSecs <= MAX_SECS) then Err(BadWindow)
    else
      var remembered := MostRemembered(Asked(config), ttl);
      if remembered > MAX_UNPROVEN_RUNS then Err(TooManyRemembered(remembered)) else Ok(Asked(config))
  }

  /** A registration that could happen next, in a run under one quota at nondecreasing times. */
  ghost predicate Possible(es: seq<Event>, e: Event, quota: Quota, ttl: nat) {
    && e.DoRegisterUnproven?
    && Monotonic(es + [e]) && FreshTokens(es + [e]) && OneQuota(es + [e], quota, ttl) && ValidNames(es + [e])
  }

  predicate ValidNames(es: seq<Event>) {
    forall i :: 0 <= i < |es| && es[i].DoRegisterUnproven? ==> ValidName(es[i].name)
  }

  /** `Full` always means that the whole registry is. */
  ghost predicate NeverCrowded(quota: Quota, ttl: nat) {
    forall es, e :: Possible(es, e, quota, ttl) && Step(Exec(EMPTY, es), e).1.result == Err(Full)
                    ==> |Seen(Exec(EMPTY, es), e).runs| >= MAX_RUNS
  }

  lemma RefusedAsFull(p: State, e: Event)
    requires e.DoRegisterUnproven? && Act(p, e).1.result == Err(Full)
    ensures Unproven(e.name) !in p.runs && |Recent(p.unproven, e.now, e.quota.window)| < e.quota.max
    ensures |UnprovenKeys(p.runs)| >= MAX_UNPROVEN_RUNS || |p.runs| >= MAX_RUNS
  {
  }

  /** A quota that passes the check leaves room for one more whenever it is not used up. */
  lemma RoomForOneMore(es: seq<Event>, e: Event, quota: Quota, ttl: nat)
    requires Possible(es, e, quota, ttl) && quota.window > 0
    requires MostRemembered(quota, ttl) <= MAX_UNPROVEN_RUNS
    requires |Recent(Exec(EMPTY, es).unproven, e.now, quota.window)| < quota.max
    ensures |UnprovenKeys(Pruned(Exec(EMPTY, es), e.now).runs)| < MAX_UNPROVEN_RUNS
  {
    var s, log, now, lasting := Exec(EMPTY, es), Log(es), e.now, ttl + RETENTION;
    assert (es + [e])[..|es + [e]| - 1] == es;
    assert forall i :: 0 <= i < |es| ==> (es + [e])[i] == es[i];
    assert (es + [e])[|es|] == e;
    ClockNeverStepsBack(es + [e]);
    EveryRunKeepsLog(es, quota, ttl);
    PruningKeepsLog(s, log, Clock(es), now, quota, ttl);
    RecentIsQueued(s.unproven, log, now, quota.window);
    AdmittingKeepsSpaced(log, Recent(s.unproven, now, quota.window), e.name, now, quota);
    LastWithinBound(log + [Entry(e.name, now)], now, quota, ttl);
    RememberedAreLast(Pruned(s, now).runs, log, now, lasting);
    OneMoreLasts(log, Entry(e.name, now), now, lasting);
  }

  lemma {:induction false} OneMoreLasts(log: seq<Entry>, entry: Entry, now: nat, lasting: nat)
    requires entry.time == now && lasting > 0
    ensures Outlived(log + [entry], now, lasting) == Outlived(log, now, lasting)
  {
    if log != [] {
      assert (log + [entry])[1..] == log[1..] + [entry];
      OneMoreLasts(log[1..], entry, now, lasting);
    }
  }

  lemma AcceptedIsNeverCrowded(quota: Quota, ttl: nat)
    requires quota.window > 0 && MostRemembered(quota, ttl) <= MAX_UNPROVEN_RUNS
    ensures NeverCrowded(quota, ttl)
  {
    forall es, e | Possible(es, e, quota, ttl) && Step(Exec(EMPTY, es), e).1.result == Err(Full)
      ensures |Seen(Exec(EMPTY, es), e).runs| >= MAX_RUNS
    {
      assert (es + [e])[|es|] == e;
      RefusedAsFull(Seen(Exec(EMPTY, es), e), e);
      RoomForOneMore(es, e, quota, ttl);
    }
  }

  // ---------------------------------------------------------------------
  // The check is not too strict: a quota it refuses does crowd the registry.

  /** The time of the `i`-th admission when each window's quota is used at its start. */
  function SlotTime(i: nat, quota: Quota): nat
    requires quota.max > 0
  {
    var round: nat := i / quota.max;
    round * quota.window
  }

  function Slot(i: nat, quota: Quota, ttl: nat): Event
    requires quota.max > 0
  {
    DoRegisterUnproven(Decimal(i), Limits(ttl, 1), quota, i, SlotTime(i, quota), 0)
  }

  function Slots(n: nat, quota: Quota, ttl: nat): seq<Event>
    requires quota.max > 0
  {
    seq(n, i requires i >= 0 => Slot(i, quota, ttl))
  }

  function SlotKeys(n: nat): set<RunKey> {
    set i | 0 <= i < n :: Unproven(Decimal(i))
  }

  lemma {:induction false} SlotKeysCount(n: nat)
    ensures |SlotKeys(n)| == n
  {
    if n == 0 {
      assert SlotKeys(0) == {};
    } else {
      SlotKeysCount(n - 1);
      NewSlotKey(n - 1);
      SlotKeysGrow(n - 1);
    }
  }

  lemma SlotKeysGrow(n: nat)
    ensures SlotKeys(n + 1) == SlotKeys(n) + {Unproven(Decimal(n))}
  {
    forall k
      ensures k in SlotKeys(n + 1) <==> k in SlotKeys(n) || k == Unproven(Decimal(n))
    {
      if k in SlotKeys(n + 1) {
        var i :| 0 <= i < n + 1 && k == Unproven(Decimal(i));
        assert i < n ==> k in SlotKeys(n);
      }
    }
  }

  lemma NewSlotKey(n: nat)
    ensures Unproven(Decimal(n)) !in SlotKeys(n)
  {
    if Unproven(Decimal(n)) in SlotKeys(n) {
      var i :| 0 <= i < n && Unproven(Decimal(i)) == Unproven(Decimal(n));
      DecimalIsInjective(i, n);
    }
  }

  lemma SlotsInOrder(i: nat, j: nat, quota: Quota)
    requires quota.max > 0 && i <= j
    ensures SlotTime(i, quota) <= SlotTime(j, quota)
  {
    assert i / quota.max <= j / quota.max by {
      DivisionIsMonotonic(i, j, quota.max);
    }
    ProductIsMonotonic(i / quota.max, j / quota.max, quota.window);
  }

  lemma DivisionIsMonotonic(a: nat, b: nat, d: nat)
    requires d > 0 && a <= b
    ensures a / d <= b / d
  {
    assert a == (a / d) * d + a % d && b == (b / d) * d + b % d;
    assert (b / d + 1) * d == (b / d) * d + d;
    if a / d >= b / d + 1 {
      ProductIsMonotonic(b / d + 1, a / d, d);
    }
  }

  lemma ProductIsMonotonic(a: nat, b: nat, c: nat)
    requires a <= b
    ensures a * c <= b * c
  {
    assert b * c == a * c + (b - a) * c;
  }

  lemma QuotientBelow(n: nat, d: nat, bound: nat)
    requires d > 0 && n < bound * d
    ensures n / d < bound
  {
    assert n == (n / d) * d + n % d;
    if n / d >= bound {
      ProductIsMonotonic(bound, n / d, d);
    }
  }

  /** All but the last of the windows that cover a time are shorter than it. */
  lemma OneLessIsShort(lasting: nat, window: nat)
    requires lasting > 0 && window > 0
    ensures DivCeil(lasting, window) >= 1 && (DivCeil(lasting, window) - 1) * window < lasting
  {
    var windows, rest := DivCeil(lasting, window), (lasting + window - 1) % window;
    assert lasting + window - 1 == windows * window + rest;
    assert (windows - 1) * window == windows * window - window;
  }

  /** Before the bound is reached, the schedule has not lasted long enough for a run to be forgotten. */
  lemma SlotBeforeForgetting(n: nat, quota: Quota, lasting: nat)
    requires quota.max > 0 && quota.window > 0 && lasting > 0
    requires n < DivCeil(lasting, quota.window) * quota.max
    ensures SlotTime(n, quota) < lasting
  {
    var slot: nat, windows := n / quota.max, DivCeil(lasting, quota.window);
    QuotientBelow(n, quota.max, windows);
    OneLessIsShort(lasting, quota.window);
    ShorterStill(slot, windows - 1, quota.window, lasting);
  }

  lemma ShorterStill(a: nat, b: nat, c: nat, bound: nat)
    requires a <= b && b * c < bound
    ensures a * c < bound
  {
    ProductIsMonotonic(a, b, c);
  }

  /** An admission still in the window at a slot's time is of the same slot. */
  lemma SameSlot(i: nat, n: nat, quota: Quota)
    requires quota.max > 0 && i <= n && SlotTime(n, quota) < SlotTime(i, quota) + quota.window
    ensures n < i + quota.max
  {
    var a, b := i / quota.max, n / quota.max;
    assert (a + 1) * quota.window == a * quota.window + quota.window;
    if b >= a + 1 {
      ProductIsMonotonic(a + 1, b, quota.window);
    }
    DivisionIsMonotonic(i, n, quota.max);
    assert i == a * quota.max + i % quota.max && n == b * quota.max + n % quota.max;
  }

  ghost predicate SlotsTaken(n: nat, runs: map<RunKey, Run>, lasting: nat) {
    runs.Keys == SlotKeys(n) && forall k :: k in runs ==> runs[k].retainUntil >= lasting
  }

  ghost predicate SlotsLogged(n: nat, log: seq<Entry>, quota: Quota)
    requires quota.max > 0
  {
    |log| == n && forall i :: 0 <= i < n ==> log[i].time == SlotTime(i, quota)
  }

  lemma SlotNamesAreValid(n: nat, quota: Quota, ttl: nat)
    requires quota.max > 0 && n <= 10_000
    ensures ValidNames(Slots(n, quota, ttl))
  {
    forall i: nat | i < n
      ensures ValidName(Decimal(i))
    {
      DecimalPrintsDigits(i);
      DecimalIsShort(i, 3);
    }
  }

  lemma SlotsAreARun(n: nat, quota: Quota, ttl: nat)
    requires quota.max > 0
    ensures Monotonic(Slots(n, quota, ttl)) && OneQuota(Slots(n, quota, ttl), quota, ttl)
  {
    var es := Slots(n, quota, ttl);
    forall i, j | 0 <= i < j < |es|
      ensures es[i].now <= es[j].now
    {
      SlotsInOrder(i, j, quota);
    }
  }

  lemma {:induction false} SlotsMintTokens(n: nat, quota: Quota, ttl: nat)
    requires quota.max > 0
    ensures FreshTokens(Slots(n, quota, ttl))
    ensures forall t :: t in Minted(Slots(n, quota, ttl)) ==> t < n
  {
    if n > 0 {
      SlotsMintTokens(n - 1, quota, ttl);
      assert Slots(n, quota, ttl)[..n - 1] == Slots(n - 1, quota, ttl);
    }
  }

  lemma SlotsAreKept(n: nat, s: State, now: nat, lasting: nat)
    requires SlotsTaken(n, s.runs, lasting) && now < lasting
    ensures SlotsTaken(n, Pruned(s, now).runs, lasting)
  {
    forall k | k in s.runs
      ensures k in Pruned(s, now).runs && Pruned(s, now).runs[k].retainUntil == s.runs[k].retainUntil
    {
      PrunedRun(s, now, k);
    }
  }

  lemma SlotHasQuota(n: nat, queue: seq<nat>, log: seq<Entry>, quota: Quota)
    requires quota.max > 0 && SlotsLogged(n, log, quota)
    requires Sorted(log, SlotTime(n, quota)) && Queued(queue, log, SlotTime(n, quota), quota.window)
    ensures |Recent(queue, SlotTime(n, quota), quota.window)| < quota.max
  {
    var recent := Recent(queue, SlotTime(n, quota), quota.window);
    RecentIsQueued(queue, log, SlotTime(n, quota), quota.window);
    RecentIsInWindow(queue, SlotTime(n, quota), quota.window);
    if recent != [] {
      SameSlot(n - |recent|, n, quota);
    }
  }

  /** While the schedule lasts, only the registry's own limit can refuse the next registration. */
  lemma SlotIsFree(n: nat, s: State, log: seq<Entry>, before: nat, quota: Quota, ttl: nat)
    requires quota.max > 0 && quota.window > 0 && n < DivCeil(ttl + RETENTION, quota.window) * quota.max
    requires SlotsTaken(n, s.runs, ttl + RETENTION) && SlotsLogged(n, log, quota)
    requires KeepsLog(s, log, before, quota, ttl) && before <= SlotTime(n, quota)
    ensures SlotsTaken(n, Pruned(s, SlotTime(n, quota)).runs, ttl + RETENTION)
    ensures |Recent(s.unproven, SlotTime(n, quota), quota.window)| < quota.max
  {
    SlotBeforeForgetting(n, quota, ttl + RETENTION);
    SlotsAreKept(n, s, SlotTime(n, quota), ttl + RETENTION);
    PruningKeepsLog(s, log, before, SlotTime(n, quota), quota, ttl);
    SlotHasQuota(n, s.unproven, log, quota);
  }

  lemma SlotsAreUnproven(n: nat, runs: map<RunKey, Run>)
    requires runs.Keys == SlotKeys(n)
    ensures UnprovenKeys(runs) == SlotKeys(n) && |UnprovenKeys(runs)| == n && |runs| == n
    ensures Unproven(Decimal(n)) !in runs
  {
    NewSlotKey(n);
    SlotKeysCount(n);
  }

  lemma {:induction false} RecentIsInWindow(queue: seq<nat>, now: nat, window: nat)
    ensures var recent := Recent(queue, now, window); recent != [] ==> now < recent[0] + window
  {
    if queue != [] {
      RecentIsInWindow(queue[1..], now, window);
    }
  }

  lemma AdmittedWhenFree(p: State, e: Event)
    requires e.DoRegisterUnproven? && Unproven(e.name) !in p.runs
    requires |Recent(p.unproven, e.now, e.quota.window)| < e.quota.max
    requires |UnprovenKeys(p.runs)| < MAX_UNPROVEN_RUNS && |p.runs| < MAX_RUNS
    ensures var (t, answer) := Act(p, e);
            && answer.result.Ok?
            && t.runs.Keys == p.runs.Keys + {Unproven(e.name)}
            && (forall k :: k in p.runs ==> t.runs[k] == p.runs[k])
            && t.runs[Unproven(e.name)].retainUntil == e.now + e.limits.ttl + RETENTION
  {
  }

  lemma RefusedWhenCrowded(p: State, e: Event)
    requires e.DoRegisterUnproven? && Unproven(e.name) !in p.runs
    requires |Recent(p.unproven, e.now, e.quota.window)| < e.quota.max
    requires |UnprovenKeys(p.runs)| >= MAX_UNPROVEN_RUNS
    ensures Act(p, e).1.result == Err(Full)
  {
  }

  lemma SlotFills(n: nat, p: State, e: Event, lasting: nat)
    requires n < MAX_UNPROVEN_RUNS && SlotsTaken(n, p.runs, lasting)
    requires e.DoRegisterUnproven? && e.name == Decimal(n) && e.limits.ttl + RETENTION >= lasting
    requires |Recent(p.unproven, e.now, e.quota.window)| < e.quota.max
    ensures Act(p, e).1.result.Ok? && SlotsTaken(n + 1, Act(p, e).0.runs, lasting)
  {
    SlotsAreUnproven(n, p.runs);
    AdmittedWhenFree(p, e);
    SlotIsTaken(n, p.runs, Act(p, e).0.runs, Unproven(Decimal(n)), lasting);
  }

  lemma SlotIsTaken(n: nat, before: map<RunKey, Run>, after: map<RunKey, Run>, key: RunKey, lasting: nat)
    requires SlotsTaken(n, before, lasting) && key == Unproven(Decimal(n))
    requires after.Keys == before.Keys + {key} && after[key].retainUntil >= lasting
    requires forall k :: k in before ==> after[k] == before[k]
    ensures SlotsTaken(n + 1, after, lasting)
  {
    SlotKeysGrow(n);
  }

  lemma NextSlot(before: seq<Event>, n: nat, quota: Quota, ttl: nat)
    requires quota.max > 0 && before == Slots(n, quota, ttl)
    ensures Slots(n + 1, quota, ttl) == before + [Slot(n, quota, ttl)]
    ensures Clock(before) <= SlotTime(n, quota)
    ensures Monotonic(before) && OneQuota(before, quota, ttl)
  {
    SlotsAreARun(n, quota, ttl);
    SlotsAreARun(n + 1, quota, ttl);
    assert Slots(n + 1, quota, ttl) == before + [Slot(n, quota, ttl)];
    ClockNeverStepsBack(Slots(n + 1, quota, ttl));
  }

  /** The schedule fills one place after another, up to the registry's limit. */
  lemma {:induction false} SlotsFill(n: nat, quota: Quota, ttl: nat)
    requires quota.max > 0 && quota.window > 0
    requires n <= MAX_UNPROVEN_RUNS && n <= DivCeil(ttl + RETENTION, quota.window) * quota.max
    ensures SlotsTaken(n, Exec(EMPTY, Slots(n, quota, ttl)).runs, ttl + RETENTION)
    ensures SlotsLogged(n, Log(Slots(n, quota, ttl)), quota)
  {
    if n == 0 {
      assert SlotKeys(0) == {};
    } else {
      SlotsFill(n - 1, quota, ttl);
      OneSlotMore(n - 1, quota, ttl);
    }
  }

  lemma OneSlotMore(n: nat, quota: Quota, ttl: nat)
    requires quota.max > 0 && quota.window > 0
    requires n < MAX_UNPROVEN_RUNS && n < DivCeil(ttl + RETENTION, quota.window) * quota.max
    requires SlotsTaken(n, Exec(EMPTY, Slots(n, quota, ttl)).runs, ttl + RETENTION)
    requires SlotsLogged(n, Log(Slots(n, quota, ttl)), quota)
    ensures SlotsTaken(n + 1, Exec(EMPTY, Slots(n + 1, quota, ttl)).runs, ttl + RETENTION)
    ensures SlotsLogged(n + 1, Log(Slots(n + 1, quota, ttl)), quota)
  {
    var before, e := Slots(n, quota, ttl), Slot(n, quota, ttl);
    var s, log := Exec(EMPTY, before), Log(before);
    NextSlot(before, n, quota, ttl);
    EveryRunKeepsLog(before, quota, ttl);
    SlotIsFree(n, s, log, Clock(before), quota, ttl);
    SlotFills(n, Pruned(s, e.now), e, ttl + RETENTION);
    OneMore(before, e);
    AdmissionIsLogged(n, log, s, e, quota);
  }

  lemma AdmissionIsLogged(n: nat, log: seq<Entry>, s: State, e: Event, quota: Quota)
    requires quota.max > 0 && SlotsLogged(n, log, quota)
    requires e.DoRegisterUnproven? && e.now == SlotTime(n, quota) && Step(s, e).1.result.Ok?
    ensures SlotsLogged(n + 1, log + NewEntries(s, e), quota)
  {
  }

  lemma OneMore(before: seq<Event>, e: Event)
    ensures Exec(EMPTY, before + [e]) == Step(Exec(EMPTY, before), e).0
    ensures Log(before + [e]) == Log(before) + NewEntries(Exec(EMPTY, before), e)
  {
    assert (before + [e])[..|before + [e]| - 1] == before;
  }

  lemma RefusedIsCrowded(quota: Quota, ttl: nat)
    requires quota.max > 0 && quota.window > 0 && MostRemembered(quota, ttl) > MAX_UNPROVEN_RUNS
    ensures !NeverCrowded(quota, ttl)
  {
    var n := MAX_UNPROVEN_RUNS;
    var es, e := Slots(n, quota, ttl), Slot(n, quota, ttl);
    BoundIsReachable(quota, ttl);
    SlotsFill(n, quota, ttl);
    NextSlot(es, n, quota, ttl);
    SlotsAreARun(n + 1, quota, ttl);
    SlotsMintTokens(n + 1, quota, ttl);
    SlotNamesAreValid(n + 1, quota, ttl);
    EveryRunKeepsLog(es, quota, ttl);
    SlotIsFree(n, Exec(EMPTY, es), Log(es), Clock(es), quota, ttl);
    SlotsAreUnproven(n, Pruned(Exec(EMPTY, es), e.now).runs);
    RefusedWhenCrowded(Pruned(Exec(EMPTY, es), e.now), e);
    assert Possible(es, e, quota, ttl);
  }

  lemma BoundIsReachable(quota: Quota, ttl: nat)
    requires quota.window > 0 && MostRemembered(quota, ttl) > MAX_UNPROVEN_RUNS
    ensures DivCeil(ttl + RETENTION, quota.window) * quota.max > MAX_UNPROVEN_RUNS
  {
    var windows := DivCeil(ttl + RETENTION, quota.window);
    ProductIsMonotonic(Sat(windows), windows, quota.max);
  }

  /**
   Of the configurations that name a quota at all, exactly those are accepted
   under which a registration is never refused for want of room while the
   registry has room.
   */
  lemma AcceptedExactlyWhenNeverCrowded(config: UnprovenConfig, ttl: nat)
    requires config.maxRegistrations > 0 && 1 <= config.windowSecs <= MAX_SECS
    ensures QuotaOf(config, ttl) == Ok(Asked(config)) <==> NeverCrowded(Asked(config), ttl)
  {
    if MostRemembered(Asked(config), ttl) <= MAX_UNPROVEN_RUNS {
      AcceptedIsNeverCrowded(Asked(config), ttl);
    } else {
      RefusedIsCrowded(Asked(config), ttl);
    }
  }
}
