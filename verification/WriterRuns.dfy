/**
 Particular runs of the process and the state file's writer, step by step, for
 the modules that show what some run comes to (usage.rs).
 */
module WriterRuns {
  import opened Numbers
  import opened Registry
  import S = WindowState
  import W = StateWriter

  type Name = W.Name
  type File = W.File

  // ---------------------------------------------------------------------
  // Running steps from any state.

  function Ran(s: W.System, steps: seq<W.Step>): W.System {
    if steps == [] then s
    else
      var before, last := Ran(s, steps[..|steps| - 1]), steps[|steps| - 1];
      if W.Enabled(before, last) then W.Next(before, last) else before
  }

  lemma {:induction false} AfterIsRan(found: File, loaded: File, steps: seq<W.Step>)
    ensures W.After(found, loaded, steps) == Ran(W.Start(found, loaded), steps)
  {
    if steps != [] {
      AfterIsRan(found, loaded, steps[..|steps| - 1]);
    }
  }

  lemma {:induction false} RanInTwo(s: W.System, a: seq<W.Step>, b: seq<W.Step>)
    ensures Ran(s, a + b) == Ran(Ran(s, a), b)
  {
    if b == [] {
      assert a + b == a;
    } else {
      assert (a + b)[..|a + b| - 1] == a + b[..|b| - 1];
      RanInTwo(s, a, b[..|b| - 1]);
    }
  }

  lemma RanNext(s: W.System, steps: seq<W.Step>, k: nat)
    requires k < |steps| && W.Enabled(Ran(s, steps[..k]), steps[k])
    ensures Ran(s, steps[..k + 1]) == W.Next(Ran(s, steps[..k]), steps[k])
  {
    assert steps[..k + 1][..k] == steps[..k];
  }

  // ---------------------------------------------------------------------
  // The parts of the runs.

  /** The registry captures the headers, and the writer is told. */
  function Capturing(name: Name, h: S.Headers, consumer: Consumer, now: u64): seq<W.Step> {
    [W.Capture(0, name, h, consumer, now), W.Flag(0), W.Notify(0)]
  }

  lemma CapturingIsFlagged(s: W.System, name: Name, h: S.Headers, consumer: Consumer, now: u64)
    requires name in s.windows && s.threads == map[] && s.writer == W.Testing && S.Changes(h, now)
    ensures Ran(s, Capturing(name, h, consumer, now)) ==
            s.(windows := s.windows[name := S.Captured(s.windows[name], h, consumer, now)], dirty := true, unnoticed := s.unnoticed - {name})
  {
    var steps, w := Capturing(name, h, consumer, now), S.Captured(s.windows[name], h, consumer, now);
    assert steps[..0] == [] && steps[..3] == steps;
    RanNext(s, steps, 0);
    FlagAndNotify(s, W.Holding(s, 0, name, w), steps);
  }

  lemma FlagAndNotify(s: W.System, held: W.System, steps: seq<W.Step>)
    requires s.threads == map[] && s.writer == W.Testing && |steps| == 3 && steps[1] == W.Flag(0) && steps[2] == W.Notify(0)
    requires Ran(s, steps[..1]) == held && held.writer == W.Testing
    requires held.threads.Keys == {0} && held.threads[0].Captured?
    ensures Ran(s, steps) == held.(dirty := true, threads := map[])
  {
    RanNext(s, steps, 1);
    RanNext(s, steps, 2);
    assert steps[..3] == steps;
  }

  /** The writer writes the windows of one registry, or of two. */
  function Beginning(): seq<W.Step> {
    [W.Test, W.Clear, W.LockRegistries]
  }

  lemma Begins(s: W.System)
    requires s.writer == W.Testing && s.dirty
    ensures Ran(s, Beginning()) == s.(dirty := false, writer := W.Copying(map[], s.windows.Keys), unnoticed := {})
  {
    var steps := Beginning();
    assert steps[..0] == [] && steps[..3] == steps;
    RanNext(s, steps, 0);
    RanNext(s, steps, 1);
    RanNext(s, steps, 2);
  }

  function CopyingTwo(a: Name, b: Name): seq<W.Step> {
    [W.Copy(a), W.Copy(b), W.UnlockRegistries]
  }

  lemma CopiesTwo(s: W.System, a: Name, b: Name)
    requires a != b && s.windows.Keys == {a, b} && s.writer == W.Copying(map[], {a, b})
    ensures Ran(s, CopyingTwo(a, b)) == s.(writer := W.Writing(s.windows))
  {
    var steps := CopyingTwo(a, b);
    assert steps[..0] == [] && steps[..3] == steps;
    BothCopied(s.windows, a, b);
    RanNext(s, steps, 0);
    RanNext(s, steps, 1);
    assert Ran(s, steps[..2]) == s.(writer := W.Copying(s.windows, {}));
    RanNext(s, steps, 2);
  }

  lemma BothCopied(windows: File, a: Name, b: Name)
    requires a != b && windows.Keys == {a, b}
    ensures var none: File := map[]; none[a := windows[a]][b := windows[b]] == windows
    ensures {a, b} - {a} - {b} == {}
  {
  }

  function CopyingOne(a: Name): seq<W.Step> {
    [W.Copy(a), W.UnlockRegistries]
  }

  lemma CopiesOne(s: W.System, a: Name)
    requires s.windows.Keys == {a} && s.writer == W.Copying(map[], {a})
    ensures Ran(s, CopyingOne(a)) == s.(writer := W.Writing(s.windows))
  {
    var steps := CopyingOne(a);
    assert steps[..0] == [] && steps[..2] == steps;
    RanNext(s, steps, 0);
    assert map[][a := s.windows[a]] == s.windows;
    assert {a} - {a} == {};
    RanNext(s, steps, 1);
  }

  function Ending(): seq<W.Step> {
    [W.Replace, W.Test]
  }

  lemma Ends(s: W.System)
    requires s.writer.Writing? && !s.dirty
    ensures Ran(s, Ending()) == s.(writer := W.Parked, file := s.writer.copied, wrote := true, failed := false)
  {
    var steps := Ending();
    assert steps[..0] == [] && steps[..2] == steps;
    RanNext(s, steps, 0);
    RanNext(s, steps, 1);
  }

  lemma Names(s: W.System, name: Name)
    requires name !in s.windows && !s.writer.Copying?
    ensures Ran(s, [W.NameRegistry(name)]) ==
            s.(windows := s.windows[name := W.Initial(s.loaded, name)], unnoticed := s.unnoticed + {name})
  {
    var steps := [W.NameRegistry(name)];
    assert steps[..0] == [] && steps[..1] == steps;
    RanNext(s, steps, 0);
  }
}
