/**
 Two runs after which a restart loses windows (usage.rs).

 In the first one registry's windows do not fit, and the other's are lost with
 them. In the second a registry is named while the file is being written, has
 nothing captured, and is left out of it.
 */
module LostWindows {
  import opened Wrappers
  import opened Numbers
  import opened Registry
  import opened StateFiles
  import opened WriterRuns
  import S = WindowState
  import W = StateWriter

  // ---------------------------------------------------------------------
  // A registry that does not fit.

  /** A reading of Codex's first window, which resets after `after` seconds. */
  function Reading(after: u64): S.Headers {
    S.Codex(S.CodexHeaders(Some(10.0), Some(300), Some(after)), S.CodexHeaders(None, None, None))
  }

  /** Both registries are named and read once, and all of it is written. */
  function BothWritten(other: u64): seq<W.Step> {
    [W.NameRegistry("a")] + [W.NameRegistry("b")] + Capturing("a", Reading(60), Private, 1) + Capturing("b", Reading(other), Private, 1) +
    Beginning() + CopyingTwo("a", "b") + Ending()
  }

  function Read(after: u64): S.Windows {
    S.Captured(S.NO_WINDOWS, Reading(after), Private, 1)
  }

  function BothRead(other: u64): File {
    map["a" := Read(60), "b" := Read(other)]
  }

  /** The process has named and read both, and the writer has yet to be at it. */
  lemma BothCaptured(other: u64)
    ensures var steps := [W.NameRegistry("a")] + [W.NameRegistry("b")] + Capturing("a", Reading(60), Private, 1) + Capturing("b", Reading(other), Private, 1);
            Ran(W.Start(map[], map[]), steps) == W.Start(map[], map[]).(windows := BothRead(other), dirty := true)
  {
    var start := W.Start(map[], map[]);
    var a, b := [W.NameRegistry("a")], [W.NameRegistry("b")];
    var x, y := Capturing("a", Reading(60), Private, 1), Capturing("b", Reading(other), Private, 1);
    Names(start, "a");
    var one := Ran(start, a);
    Names(one, "b");
    var two := Ran(one, b);
    CapturingIsFlagged(two, "a", Reading(60), Private, 1);
    var three := Ran(two, x);
    CapturingIsFlagged(three, "b", Reading(other), Private, 1);
    RanInTwo(start, a, b);
    RanInTwo(start, a + b, x);
    RanInTwo(start, a + b + x, y);
    assert Ran(three, y).windows == BothRead(other);
    assert Ran(three, y).unnoticed == {};
  }

  lemma BothAreWritten(other: u64)
    ensures Ran(W.Start(map[], map[]), BothWritten(other)) ==
            W.Start(map[], map[]).(windows := BothRead(other), writer := W.Parked, file := BothRead(other), wrote := true)
  {
    var start := W.Start(map[], map[]);
    var begin, copy, end := Beginning(), CopyingTwo("a", "b"), Ending();
    var first := [W.NameRegistry("a")] + [W.NameRegistry("b")] + Capturing("a", Reading(60), Private, 1) + Capturing("b", Reading(other), Private, 1);
    BothCaptured(other);
    var one := Ran(start, first);
    Begins(one);
    var two := Ran(one, begin);
    assert BothRead(other).Keys == {"a", "b"};
    CopiesTwo(two, "a", "b");
    Ends(Ran(two, copy));
    RanInTwo(start, first, begin);
    RanInTwo(start, first + begin, copy);
    RanInTwo(start, first + begin + copy, end);
  }

  lemma FirstLife(other: u64)
    ensures Reached([Life(0, BothWritten(other))]) ==
            W.Start(map[], map[]).(windows := BothRead(other), writer := W.Parked, file := BothRead(other), wrote := true)
  {
    var lives := [Life(0, BothWritten(other))];
    assert lives[..0] == [];
    assert Loaded(map[], 0) == map[];
    AfterIsRan(map[], map[], BothWritten(other));
    BothAreWritten(other);
  }

  /**
   The one registry's captures all fit, and so do its windows; the other's
   reset overflows. After a clean end the restart loses both.
   */
  lemma OneUnfitLosesBoth(now: u64)
    ensures var lives := [Life(0, BothWritten(U64_MAX))];
            && EndedClean(lives) && Noticed(Reached(lives), "a")
            && Disk(lives) == BothRead(U64_MAX)
            && S.ReportFits(Reading(60), 1) && S.Fits(Read(60)) && !S.Fits(Read(U64_MAX))
            && Read(60).primary.Some?
            && Restored(lives, now, "a") == S.NO_WINDOWS
  {
    FirstLife(U64_MAX);
    UnfitFilesAreForgotten([Life(0, BothWritten(U64_MAX))], "b", now, "a");
  }

  // ---------------------------------------------------------------------
  // A registry that is not noticed.

  /** The first registry is named and read, and the second named while the file is being written. */
  function NamedTooLate(): seq<W.Step> {
    [W.NameRegistry("a")] + Capturing("a", Reading(60), Private, 2) + Beginning() + CopyingOne("a") + [W.NameRegistry("b")] + Ending()
  }

  lemma OneIsWritten(found: File, loaded: File)
    ensures var s := Ran(W.Start(found, loaded), NamedTooLate());
            && W.Quiet(s) && !s.failed && s.wrote && s.windows.Keys == {"a", "b"} && s.file.Keys == {"a"} && s.unnoticed == {"b"}
            && s.windows["b"] == W.Initial(loaded, "b")
  {
    var start := W.Start(found, loaded);
    var a, x, b := [W.NameRegistry("a")], Capturing("a", Reading(60), Private, 2), [W.NameRegistry("b")];
    var begin, copy, end := Beginning(), CopyingOne("a"), Ending();
    Names(start, "a");
    var one := Ran(start, a);
    CapturingIsFlagged(one, "a", Reading(60), Private, 2);
    var two := Ran(one, x);
    Begins(two);
    var three := Ran(two, begin);
    assert three.windows.Keys == {"a"};
    CopiesOne(three, "a");
    var four := Ran(three, copy);
    Names(four, "b");
    Ends(Ran(four, b));
    RanInTwo(start, a, x);
    RanInTwo(start, a + x, begin);
    RanInTwo(start, a + x + begin, copy);
    RanInTwo(start, a + x + begin + copy, b);
    RanInTwo(start, a + x + begin + copy + b, end);
  }

  function TwoLives(): seq<Life> {
    [Life(0, BothWritten(60)), Life(2, NamedTooLate())]
  }

  /** The first life's file is taken up, so the second starts with both registries' windows. */
  lemma FirstIsTakenUp()
    ensures Disk(TwoLives()[..1]) == BothRead(60) && EndedClean(TwoLives()[..1])
    ensures W.Initial(Loaded(BothRead(60), 2), "b") == S.Restarted(Read(60), 2) && Read(60).primary.Some?
  {
    assert TwoLives()[..1] == [Life(0, BothWritten(60))];
    FirstLife(60);
    FileIsTakenUpExactlyWhenAllFit([Life(0, BothWritten(60))]);
    assert S.Fits(Read(60));
    assert Loaded(BothRead(60), 2)["b"] == S.TakenUp(Read(60), 2);
  }

  lemma SecondLife()
    ensures var s := Reached(TwoLives());
            && EndedClean(TwoLives()) && s.wrote && s.windows.Keys == {"a", "b"} && s.file.Keys == {"a"} && s.unnoticed == {"b"}
            && s.windows["b"] == S.Restarted(Read(60), 2)
  {
    FirstIsTakenUp();
    AfterIsRan(BothRead(60), Loaded(BothRead(60), 2), NamedTooLate());
    OneIsWritten(BothRead(60), Loaded(BothRead(60), 2));
  }

  /**
   Every reading fits and both lives end clean, but the second registry's
   windows, restored from the first life, are left out of the file the second
   wrote: they are lost at the next restart.
   */
  lemma NamedTooLateIsLost(now: u64)
    ensures var lives := TwoLives();
            && EndedClean(lives[..1]) && EndedClean(lives) && AllFit(Disk(lives[..1]))
            && "b" in Reached(lives).windows && Reached(lives).windows["b"].primary.Some? && "b" !in Disk(lives)
            && Restored(lives, now, "b") == S.NO_WINDOWS
  {
    FirstIsTakenUp();
    SecondLife();
    SecondIsNotNoticed(now);
    BothReadFit();
  }

  lemma BothReadFit()
    ensures AllFit(BothRead(60)) && S.Restarted(Read(60), 2).primary.Some?
  {
    assert S.Fits(Read(60));
  }

  lemma SecondIsNotNoticed(now: u64)
    ensures Restored(TwoLives(), now, "b") == S.NO_WINDOWS
  {
    SecondLife();
    UnnoticedIsLost(TwoLives(), now, "b");
  }
}
