/**
 What captures leave of each window, by the headers themselves (usage.rs,
 budget.rs).

 Module `WindowState` has the capture as the source makes it. Here the windows
 after any captures are told from the headers alone: what a window reads is
 what the latest headers that speak of it say, and what each consumer used of
 it is the rises that its own responses reported since the window began.
 */
module WindowReadings {
  import opened Wrappers
  import opened Numbers
  import opened Registry
  import opened Attribution
  import S = WindowState

  // ---------------------------------------------------------------------
  // What the headers of one response say.

  predicate Within(n: Option<real>, max: real) {
    n.Some? && 0.0 <= n.value <= max
  }

  function AnthropicOf(c: S.Capture, i: nat): S.AnthropicHeaders
    requires i < 2 && c.headers.Anthropic?
  {
    if i == 0 then c.headers.fiveHour else c.headers.sevenDay
  }

  function CodexOf(c: S.Capture, i: nat): S.CodexHeaders
    requires 2 <= i < 4 && c.headers.Codex?
  {
    if i == 2 then c.headers.primary else c.headers.secondary
  }

  /** The headers of the window `i` are complete, or say that the plan has none. */
  predicate Speaks(c: S.Capture, i: nat)
    requires i < 4
  {
    if i < 2 then
      c.headers.Anthropic? && var h := AnthropicOf(c, i); Within(h.utilization, 1.0) && h.reset.Some?
    else
      && c.headers.Codex?
      && var h := CodexOf(c, i);
         h.minutes == Some(0) || (Within(h.usedPercent, 100.0) && h.minutes.Some? && h.resetAfter.Some?)
  }

  /** The reading they make, unless the plan has no such window: its percentage, when it resets and its length in seconds. */
  function ReadingIn(c: S.Capture, i: nat): Option<Reading>
    requires i < 4 && Speaks(c, i)
  {
    if i < 2 then
      var h := AnthropicOf(c, i);
      Some(Reading(h.utilization.value * 100.0, h.reset.value, if i == 0 then 18_000 else 604_800))
    else
      var h := CodexOf(c, i);
      if h.minutes == Some(0) then None
      else Some(Reading(h.usedPercent.value, Sat(c.now + h.resetAfter.value), Sat(h.minutes.value * 60)))
  }

  lemma SpeakingCharges(w: S.Windows, c: S.Capture, i: nat)
    requires i < 4 && Speaks(c, i)
    ensures S.Step(w, c).attributed[i] ==
            if ReadingIn(c, i).None? then None else Some(Charged(w.attributed[i], ReadingIn(c, i).value, c.consumer, c.now))
  {
  }

  lemma SilenceLeaves(w: S.Windows, c: S.Capture, i: nat)
    requires i < 4 && !Speaks(c, i)
    ensures S.Step(w, c).attributed[i] == w.attributed[i]
  {
  }

  // ---------------------------------------------------------------------
  // What a run of captures leaves.

  /** The capture `j` is the latest that speaks of the window `i`. */
  ghost predicate SpeaksLast(cs: seq<S.Capture>, i: nat, j: nat)
    requires i < 4
  {
    j < |cs| && Speaks(cs[j], i) && forall k :: j < k < |cs| ==> !Speaks(cs[k], i)
  }

  ghost predicate NoneSpeaks(cs: seq<S.Capture>, i: nat)
    requires i < 4
  {
    forall k :: 0 <= k < |cs| ==> !Speaks(cs[k], i)
  }

  /** The window is as read at `now`, by a process that has not restarted since. */
  predicate IsReadAt(window: Option<Attributed>, reading: Option<Reading>, now: u64) {
    && (window.Some? <==> reading.Some?)
    && (window.Some? ==>
          window.value.reading == reading.value && window.value.observedAt == now && !window.value.restored && window.value.loadedAt == 0)
  }

  /** A window that no headers speak of stays as it was. */
  lemma {:induction false} WindowUnreadStays(w: S.Windows, cs: seq<S.Capture>, i: nat)
    requires i < 4 && NoneSpeaks(cs, i)
    ensures S.Exec(w, cs).attributed[i] == w.attributed[i]
  {
    if cs != [] {
      var n := |cs| - 1;
      WindowUnreadStays(w, cs[..n], i);
      SilenceLeaves(S.Exec(w, cs[..n]), cs[n], i);
    }
  }

  /** Any other reads what the latest headers that speak of it say. */
  lemma {:induction false} WindowReadsTheLatest(w: S.Windows, cs: seq<S.Capture>, i: nat, j: nat)
    requires i < 4 && SpeaksLast(cs, i, j)
    ensures IsReadAt(S.Exec(w, cs).attributed[i], ReadingIn(cs[j], i), cs[j].now)
  {
    var n := |cs| - 1;
    if j == n {
      SpeakingCharges(S.Exec(w, cs[..n]), cs[n], i);
    } else {
      WindowReadsTheLatest(w, cs[..n], i, j);
      SilenceLeaves(S.Exec(w, cs[..n]), cs[n], i);
    }
  }

  // ---------------------------------------------------------------------
  // Whose use it is.

  /** The readings of the window `i` that the captures report, in order. */
  function Readings(cs: seq<S.Capture>, i: nat): seq<Observation>
    requires i < 4
  {
    if cs == [] then []
    else
      var rest, last := Readings(cs[..|cs| - 1], i), cs[|cs| - 1];
      if Speaks(last, i) then rest + [Observation(ReadingIn(last, i), last.consumer, last.now)] else rest
  }

  lemma WatchedOneMore(obs: seq<Observation>, o: Observation)
    ensures Watched(obs + [o]) ==
            if o.reading.None? then None else Some(Charged(Watched(obs), o.reading.value, o.consumer, o.now))
  {
    assert (obs + [o])[..|obs|] == obs;
  }

  /** A window that started unread is what its readings alone make of it. */
  lemma {:induction false} WindowIsWatched(cs: seq<S.Capture>, i: nat)
    requires i < 4
    ensures S.Exec(S.NO_WINDOWS, cs).attributed[i] == Watched(Readings(cs, i))
  {
    if cs != [] {
      var n := |cs| - 1;
      WindowIsWatched(cs[..n], i);
      if Speaks(cs[n], i) {
        SpeakingCharges(S.Exec(S.NO_WINDOWS, cs[..n]), cs[n], i);
        WatchedOneMore(Readings(cs[..n], i), Observation(ReadingIn(cs[n], i), cs[n].consumer, cs[n].now));
      } else {
        SilenceLeaves(S.Exec(S.NO_WINDOWS, cs[..n]), cs[n], i);
      }
    }
  }

  /** No reading of the window came before the one at `k`. */
  predicate IsFirst(obs: seq<Observation>, k: nat)
    requires k < |obs|
  {
    k == 0 || obs[k - 1].reading.None?
  }

  /** The window that the reading at `k` is of began then: it is the first, or the one before has reset. */
  predicate Begins(obs: seq<Observation>, k: nat) {
    && k < |obs| && obs[k].reading.Some?
    && (IsFirst(obs, k) || obs[k].now >= obs[k - 1].reading.value.resetsAt)
  }

  /** The readings after `k` are of the window that began then. */
  ghost predicate BeganAt(obs: seq<Observation>, k: nat) {
    Begins(obs, k) && forall j :: k < j < |obs| ==> obs[j].reading.Some? && !Begins(obs, j)
  }

  /** What the consumer used of a window that began at `k`: of its first reading and of each rise, what it reported itself. */
  function UsedSince(obs: seq<Observation>, k: nat, consumer: Consumer): real
    requires k < |obs| && forall j :: k <= j < |obs| ==> obs[j].reading.Some?
    decreases |obs|
  {
    var n := |obs| - 1;
    if n == k then
      if IsFirst(obs, k) || obs[k].consumer == consumer then obs[k].reading.value.used else 0.0
    else
      var rise := obs[n].reading.value.used - obs[n - 1].reading.value.used;
      UsedSince(obs[..n], k, consumer) + if obs[n].consumer == consumer && rise > 0.0 then rise else 0.0
  }

  lemma WatchedIsLast(obs: seq<Observation>)
    requires obs != []
    ensures var last := obs[|obs| - 1];
            && (Watched(obs).Some? <==> last.reading.Some?)
            && (Watched(obs).Some? ==> Watched(obs).value.reading == last.reading.value)
  {
  }

  /** The last reading begins its window. */
  lemma UseAtFirst(obs: seq<Observation>, consumer: Consumer)
    requires obs != [] && Begins(obs, |obs| - 1)
    ensures Watched(obs).Some? && Watched(obs).value.used.At(consumer) == UsedSince(obs, |obs| - 1, consumer)
    ensures Watched(obs).value.partWay <==> IsFirst(obs, |obs| - 1) && obs[|obs| - 1].reading.value.used > 0.0
  {
    var n := |obs| - 1;
    if n > 0 {
      WatchedIsLast(obs[..n]);
    }
  }

  /** It is of the window that the one before is of. */
  lemma UseGrows(obs: seq<Observation>, consumer: Consumer)
    requires |obs| > 1 && obs[|obs| - 1].reading.Some? && obs[|obs| - 2].reading.Some? && !Begins(obs, |obs| - 1)
    ensures var n := |obs| - 1;
            var rise := obs[n].reading.value.used - obs[n - 1].reading.value.used;
            && Watched(obs).Some? && Watched(obs[..n]).Some?
            && Watched(obs).value.used.At(consumer) ==
               Watched(obs[..n]).value.used.At(consumer) + (if obs[n].consumer == consumer && rise > 0.0 then rise else 0.0)
            && Watched(obs).value.partWay == Watched(obs[..n]).value.partWay
  {
    WatchedIsLast(obs[..|obs| - 1]);
  }

  lemma BeganBefore(obs: seq<Observation>, k: nat)
    requires BeganAt(obs, k) && k < |obs| - 1
    ensures BeganAt(obs[..|obs| - 1], k) && IsFirst(obs[..|obs| - 1], k) == IsFirst(obs, k)
    ensures !Begins(obs, |obs| - 1) && obs[|obs| - 1].reading.Some? && obs[|obs| - 2].reading.Some?
  {
    var before := obs[..|obs| - 1];
    assert Begins(before, k);
    forall j | k < j < |before|
      ensures before[j].reading.Some? && !Begins(before, j)
    {
      assert !Begins(obs, j);
    }
  }

  /**
   A consumer has used of a window what its own responses raised it by since
   it began; both have used all that the first reading found.
   */
  lemma {:induction false} UseIsItsOwnRises(obs: seq<Observation>, k: nat, consumer: Consumer)
    requires BeganAt(obs, k)
    ensures Watched(obs).Some? && Watched(obs).value.used.At(consumer) == UsedSince(obs, k, consumer)
    ensures Watched(obs).value.partWay <==> IsFirst(obs, k) && obs[k].reading.value.used > 0.0
    decreases |obs|
  {
    if k == |obs| - 1 {
      UseAtFirst(obs, consumer);
    } else {
      BeganBefore(obs, k);
      UseGrows(obs, consumer);
      UseIsItsOwnRises(obs[..|obs| - 1], k, consumer);
    }
  }

  // ---------------------------------------------------------------------
  // The windows that are shown.

  /** The response has some header of the window `i` that can be read. */
  predicate Tells(c: S.Capture, i: nat)
    requires i < 4
  {
    if i < 2 then
      c.headers.Anthropic? && var h := AnthropicOf(c, i); Within(h.utilization, 1.0) || h.reset.Some? || h.status.Some?
    else
      c.headers.Codex? && var h := CodexOf(c, i); Within(h.usedPercent, 100.0) || h.minutes.Some? || h.resetAfter.Some?
  }

  ghost predicate TellsLast(cs: seq<S.Capture>, i: nat, j: nat)
    requires i < 4
  {
    j < |cs| && Tells(cs[j], i) && forall k :: j < k < |cs| ==> !Tells(cs[k], i)
  }

  ghost predicate NoneTells(cs: seq<S.Capture>, i: nat)
    requires i < 4
  {
    forall k :: 0 <= k < |cs| ==> !Tells(cs[k], i)
  }

  function OrNone(n: Option<real>, max: real): Option<real> {
    if Within(n, max) then n else None
  }

  function AnthropicShown(w: S.Windows, i: nat): Option<S.AnthropicWindow>
    requires i < 2
  {
    if i == 0 then w.fiveHour else w.sevenDay
  }

  function CodexShown(w: S.Windows, i: nat): Option<S.CodexWindow>
    requires 2 <= i < 4
  {
    if i == 2 then w.primary else w.secondary
  }

  /** A window that no header tells of is shown as it was. */
  lemma {:induction false} WindowUntoldIsShown(w: S.Windows, cs: seq<S.Capture>, i: nat)
    requires i < 4 && NoneTells(cs, i)
    ensures i < 2 ==> AnthropicShown(S.Exec(w, cs), i) == AnthropicShown(w, i)
    ensures i >= 2 ==> CodexShown(S.Exec(w, cs), i) == CodexShown(w, i)
  {
    if cs != [] {
      WindowUntoldIsShown(w, cs[..|cs| - 1], i);
    }
  }

  /** Any other of Anthropic's is shown as the latest headers of it have it, a number out of range left out. */
  lemma {:induction false} AnthropicShowsTheLatest(w: S.Windows, cs: seq<S.Capture>, i: nat, j: nat)
    requires i < 2 && TellsLast(cs, i, j)
    ensures var h := AnthropicOf(cs[j], i);
            AnthropicShown(S.Exec(w, cs), i) == Some(S.AnthropicWindow(OrNone(h.utilization, 1.0), h.reset, h.status, cs[j].now, false))
  {
    if j < |cs| - 1 {
      AnthropicShowsTheLatest(w, cs[..|cs| - 1], i, j);
    }
  }

  /** And of Codex's, but that one the plan does not have is not shown. */
  lemma {:induction false} CodexShowsTheLatest(w: S.Windows, cs: seq<S.Capture>, i: nat, j: nat)
    requires 2 <= i < 4 && TellsLast(cs, i, j)
    ensures var h := CodexOf(cs[j], i);
            CodexShown(S.Exec(w, cs), i) ==
            if h.minutes == Some(0) then None
            else Some(S.CodexWindow(OrNone(h.usedPercent, 100.0), h.minutes, h.resetAfter, cs[j].now, false))
  {
    if j < |cs| - 1 {
      CodexShowsTheLatest(w, cs[..|cs| - 1], i, j);
    }
  }

  /** A capture must be written exactly if some header of some window could be read. */
  lemma ChangesExactly(c: S.Capture)
    ensures S.Changes(c.headers, c.now) <==> Tells(c, 0) || Tells(c, 1) || Tells(c, 2) || Tells(c, 3)
  {
  }
}
