/**
 The state file with every registry's windows, over restarts and crashes
 (usage.rs).

 The process lives one life after another: each reads the file, names
 registries, captures and writes, and ends at any step. The lemmas say when
 the file is taken up, what of it is, and that captures that fit survive any
 number of restarts. A file that is missing is like one with no registry.
 */
module StateFiles {
  import opened Wrappers
  import opened Numbers
  import S = WindowState
  import W = StateWriter

  type Name = W.Name
  type File = W.File

  // ---------------------------------------------------------------------
  // Reading the file.

  ghost predicate AllValid(file: File) {
    forall name :: name in file ==> S.Invalid(file[name]).None?
  }

  function TakenUp(file: File, now: u64): File
    requires AllValid(file)
  {
    map name | name in file :: S.TakenUp(file[name], now)
  }

  /** The first invalid registry makes the whole file no reading. */
  method ReadState(file: File, now: u64) returns (result: Result<File, (Name, S.WindowError)>)
    ensures result.Ok? <==> AllValid(file)
    ensures result.Ok? ==> result.value == TakenUp(file, now)
    ensures result.Err? ==>
              var (name, error) := result.error; name in file && S.Invalid(file[name]) == Some(error)
  {
    var taken: File := map[];
    var rest := file.Keys;
    while rest != {}
      invariant rest <= file.Keys && taken.Keys == file.Keys - rest
      invariant forall name :: name in taken ==> S.Invalid(file[name]).None? && taken[name] == S.TakenUp(file[name], now)
      decreases rest
    {
      var name :| name in rest;
      var invalid := S.Invalid(file[name]);
      if invalid.Some? {
        return Err((name, invalid.value));
      }
      taken, rest := taken[name := S.TakenUp(file[name], now)], rest - {name};
    }
    result := Ok(taken);
  }

  /** What a process starts with: all of the file, or nothing. */
  ghost function Loaded(file: File, now: u64): File {
    if AllValid(file) then TakenUp(file, now) else map[]
  }

  // ---------------------------------------------------------------------
  // Lives of the process.

  /** It reads the file at `startedAt`, and ends, or crashes, after `steps`. */
  datatype Life = Life(startedAt: u64, steps: seq<W.Step>)

  /** The process as the last life leaves it, and the file on disk with it. */
  ghost function Reached(lives: seq<Life>): W.System {
    if lives == [] then W.Start(map[], map[])
    else
      var found, last := Reached(lives[..|lives| - 1]).file, lives[|lives| - 1];
      W.After(found, Loaded(found, last.startedAt), last.steps)
  }

  /** The file on disk. */
  ghost function Disk(lives: seq<Life>): File {
    Reached(lives).file
  }

  /** The windows of a registry when a process started on the file first names it. */
  ghost function Restored(lives: seq<Life>, now: u64, name: Name): S.Windows {
    W.Initial(Loaded(Disk(lives), now), name)
  }

  // ---------------------------------------------------------------------
  // What captures and restarts keep, every reachable state has.

  type Property = S.Windows -> bool
  /** Which reports a run has. */
  type Reports = (S.Headers, u64) -> bool

  ghost predicate CapturesKeep(p: Property, ok: Reports) {
    forall w, h, consumer, now :: p(w) && ok(h, now) ==> p(S.Captured(w, h, consumer, now))
  }

  ghost predicate RestartsKeep(p: Property) {
    forall w, now :: p(w) && S.Invalid(w).None? ==> p(S.Restarted(w, now))
  }

  ghost predicate Keeps(p: Property, ok: Reports) {
    p(S.NO_WINDOWS) && CapturesKeep(p, ok) && RestartsKeep(p)
  }

  ghost predicate All(file: File, p: Property) {
    forall name :: name in file ==> p(file[name])
  }

  ghost predicate Copies(writer: W.Writer, p: Property) {
    match writer
    case Copying(copied, _) => All(copied, p)
    case Writing(copied) => All(copied, p)
    case _ => true
  }

  ghost predicate Everywhere(s: W.System, p: Property) {
    && All(s.windows, p) && All(s.file, p) && Copies(s.writer, p)
    && forall name :: p(W.Initial(s.loaded, name))
  }

  predicate StepReports(step: W.Step, ok: Reports) {
    step.Capture? ==> ok(step.headers, step.now)
  }

  predicate StepsReport(steps: seq<W.Step>, ok: Reports) {
    forall i :: 0 <= i < |steps| ==> StepReports(steps[i], ok)
  }

  predicate LivesReport(lives: seq<Life>, ok: Reports) {
    forall i :: 0 <= i < |lives| ==> StepsReport(lives[i].steps, ok)
  }

  lemma WriterKeepsEverywhere(s: W.System, step: W.Step, p: Property)
    requires Everywhere(s, p) && W.Enabled(s, step) && step.IsWriters()
    ensures Everywhere(W.Next(s, step), p)
  {
  }

  lemma OthersKeepEverywhere(s: W.System, step: W.Step, p: Property)
    requires Everywhere(s, p) && W.Enabled(s, step) && (step.NameRegistry? || step.Flag? || step.Notify?)
    ensures Everywhere(W.Next(s, step), p)
  {
  }

  lemma CaptureKeepsEverywhere(s: W.System, thread: W.Thread, name: Name, w: S.Windows, changes: bool, p: Property)
    requires Everywhere(s, p) && p(w)
    ensures Everywhere(W.CaptureNext(s, thread, name, w, changes), p)
  {
  }

  lemma StepKeepsEverywhere(s: W.System, step: W.Step, p: Property, ok: Reports)
    requires Everywhere(s, p) && W.Enabled(s, step) && Keeps(p, ok) && StepReports(step, ok)
    ensures Everywhere(W.Next(s, step), p)
  {
    if step.IsWriters() {
      WriterKeepsEverywhere(s, step, p);
    } else if step.Capture? {
      var w := S.Captured(s.windows[step.name], step.headers, step.consumer, step.now);
      assert p(s.windows[step.name]) && p(w);
      CaptureKeepsEverywhere(s, step.thread, step.name, w, S.Changes(step.headers, step.now), p);
    } else {
      OthersKeepEverywhere(s, step, p);
    }
  }

  lemma {:induction false} LifeKeepsEverywhere(found: File, loaded: File, steps: seq<W.Step>, p: Property, ok: Reports)
    requires Keeps(p, ok) && StepsReport(steps, ok)
    requires All(found, p) && forall name :: p(W.Initial(loaded, name))
    ensures Everywhere(W.After(found, loaded, steps), p)
  {
    if steps != [] {
      var before, last := W.After(found, loaded, steps[..|steps| - 1]), steps[|steps| - 1];
      LifeKeepsEverywhere(found, loaded, steps[..|steps| - 1], p, ok);
      assert StepReports(last, ok);
      if W.Enabled(before, last) {
        StepKeepsEverywhere(before, last, p, ok);
      }
    }
  }

  lemma LoadedKeeps(found: File, now: u64, p: Property, ok: Reports)
    requires Keeps(p, ok) && All(found, p)
    ensures forall name :: p(W.Initial(Loaded(found, now), name))
  {
    forall name
      ensures p(W.Initial(Loaded(found, now), name))
    {
      if AllValid(found) && name in found {
        assert p(found[name]) && S.Invalid(found[name]).None?;
        assert W.Initial(Loaded(found, now), name) == S.Restarted(found[name], now);
      }
    }
  }

  /** In every state the process reaches, over any lives. */
  lemma {:induction false} HoldsEverywhere(lives: seq<Life>, p: Property, ok: Reports)
    requires Keeps(p, ok) && LivesReport(lives, ok)
    ensures Everywhere(Reached(lives), p)
  {
    if lives != [] {
      var before, last := lives[..|lives| - 1], lives[|lives| - 1];
      HoldsEverywhere(before, p, ok);
      LoadedKeeps(Disk(before), last.startedAt, p, ok);
      LifeKeepsEverywhere(Disk(before), Loaded(Disk(before), last.startedAt), last.steps, p, ok);
    }
  }

  // ---------------------------------------------------------------------
  // When the file is taken up.

  ghost predicate AllFit(file: File) {
    forall name :: name in file ==> S.Fits(file[name])
  }

  function AnyReport(): Reports {
    (h: S.Headers, now: u64) => true
  }

  function FittingReport(): Reports {
    (h: S.Headers, now: u64) => S.ReportFits(h, now)
  }

  lemma RangesAreKept()
    ensures Keeps(S.InRanges, AnyReport())
  {
    forall w, h, consumer, now | S.InRanges(w)
      ensures S.InRanges(S.Captured(w, h, consumer, now))
    {
      S.CapturingKeepsRanges(w, h, consumer, now);
    }
    forall w, now | S.InRanges(w) && S.Invalid(w).None?
      ensures S.InRanges(S.Restarted(w, now))
    {
      S.RestartingKeepsRanges(w, now);
    }
  }

  lemma FitsAreKept()
    ensures Keeps(S.Fits, FittingReport())
  {
    forall w, h, consumer, now | S.Fits(w) && FittingReport()(h, now)
      ensures S.Fits(S.Captured(w, h, consumer, now))
    {
      S.CapturingKeepsFit(w, h, consumer, now);
    }
    forall w, now | S.Fits(w) && S.Invalid(w).None?
      ensures S.Fits(S.Restarted(w, now))
    {
      S.RestartingKeepsFit(w, now);
    }
  }

  /**
   Whatever the lives were, the file is taken up if and only if every
   registry's numbers in it fit; so it always is if every capture's did.
   */
  lemma FileIsTakenUpExactlyWhenAllFit(lives: seq<Life>)
    ensures AllValid(Disk(lives)) <==> AllFit(Disk(lives))
    ensures LivesReport(lives, FittingReport()) ==> AllValid(Disk(lives))
  {
    RangesAreKept();
    HoldsEverywhere(lives, S.InRanges, AnyReport());
    forall name | name in Disk(lives)
      ensures S.Invalid(Disk(lives)[name]).None? <==> S.Fits(Disk(lives)[name])
    {
      S.ValidExactly(Disk(lives)[name]);
    }
    if LivesReport(lives, FittingReport()) {
      FitsAreKept();
      HoldsEverywhere(lives, S.Fits, FittingReport());
    }
  }

  /** One registry whose numbers do not fit makes a restart forget every registry's windows. */
  lemma UnfitFilesAreForgotten(lives: seq<Life>, unfit: Name, now: u64, name: Name)
    requires unfit in Disk(lives) && !S.Fits(Disk(lives)[unfit])
    ensures Restored(lives, now, name) == S.NO_WINDOWS
  {
    FileIsTakenUpExactlyWhenAllFit(lives);
  }

  // ---------------------------------------------------------------------
  // What a restart restores.

  /** What is restored of a file that is taken up is what the file had, but for how old it is. */
  lemma FileIsRestored(lives: seq<Life>, now: u64, name: Name)
    requires AllFit(Disk(lives))
    ensures name in Disk(lives) ==> S.Alike(Restored(lives, now, name), Disk(lives)[name])
    ensures name !in Disk(lives) ==> Restored(lives, now, name) == S.NO_WINDOWS
  {
    FileIsTakenUpExactlyWhenAllFit(lives);
    if name in Disk(lives) {
      S.RestartIsTransparent(Disk(lives)[name], now);
      assert Restored(lives, now, name) == S.Restarted(Disk(lives)[name], now);
    }
  }

  /** The last life ended quiet, and its latest write, if any, had succeeded. */
  ghost predicate EndedClean(lives: seq<Life>) {
    lives != [] && W.Quiet(Reached(lives)) && !Reached(lives).failed
  }

  /** The registry is in the file if anything is: captured for, or named before the latest copy, or nothing was written. */
  predicate Noticed(s: W.System, name: Name) {
    name in s.windows && (s.wrote ==> name !in s.unnoticed)
  }

  lemma FittingLivesFit(lives: seq<Life>)
    requires LivesReport(lives, FittingReport())
    ensures AllFit(Disk(lives))
  {
    FitsAreKept();
    HoldsEverywhere(lives, S.Fits, FittingReport());
  }

  /** After a clean end, a restart restores the windows that a noticed registry had. */
  lemma NoticedIsRestored(lives: seq<Life>, now: u64, name: Name)
    requires EndedClean(lives) && LivesReport(lives, FittingReport()) && Noticed(Reached(lives), name)
    ensures S.Alike(Restored(lives, now, name), Reached(lives).windows[name])
  {
    var before, last, s := lives[..|lives| - 1], lives[|lives| - 1], Reached(lives);
    W.NoUpdateIsLost(Disk(before), Loaded(Disk(before), last.startedAt), last.steps, name);
    FittingLivesFit(lives);
    FileIsRestored(lives, now, name);
    if name in s.unnoticed {
      FittingLivesFit(before);
      FileIsRestored(before, last.startedAt, name);
      NeverWritten(Disk(before), Restored(before, last.startedAt, name), Restored(lives, now, name), name);
    }
  }

  lemma NeverWritten(file: File, first: S.Windows, second: S.Windows, name: Name)
    requires if name in file then S.Alike(first, file[name]) && S.Alike(second, file[name]) else first == second
    ensures S.Alike(second, first)
  {
  }

  /**
   One that was not noticed had only what its start had restored, and after a
   clean end a restart has lost that.
   */
  lemma UnnoticedIsLost(lives: seq<Life>, now: u64, name: Name)
    requires EndedClean(lives) && name in Reached(lives).windows && !Noticed(Reached(lives), name)
    ensures Restored(lives, now, name) == S.NO_WINDOWS
    ensures Reached(lives).windows[name] == Restored(lives[..|lives| - 1], lives[|lives| - 1].startedAt, name)
  {
    var before, last := lives[..|lives| - 1], lives[|lives| - 1];
    W.NoUpdateIsLost(Disk(before), Loaded(Disk(before), last.startedAt), last.steps, name);
  }

  /** Nor does a restart restore anything of a registry that was never named, once the process has written the file. */
  lemma UnnamedIsLost(lives: seq<Life>, now: u64, name: Name)
    requires lives != [] && Reached(lives).wrote && name !in Reached(lives).windows
    ensures name !in Disk(lives) && Restored(lives, now, name) == S.NO_WINDOWS
  {
    var before, last := lives[..|lives| - 1], lives[|lives| - 1];
    W.EveryRunKeepsInv(Disk(before), Loaded(Disk(before), last.startedAt), last.steps);
  }

  // ---------------------------------------------------------------------
  // Any other end: the file has what was last copied.

  /** At some step of the life so far, the registry had these windows. */
  ghost predicate Had(found: File, loaded: File, steps: seq<W.Step>, name: Name, w: S.Windows) {
    exists i :: 0 <= i <= |steps| && HadAt(W.After(found, loaded, steps[..i]), name, w)
  }

  predicate HadAt(s: W.System, name: Name, w: S.Windows) {
    name in s.windows && s.windows[name] == w
  }

  lemma HadBefore(found: File, loaded: File, steps: seq<W.Step>, name: Name, w: S.Windows)
    requires steps != [] && Had(found, loaded, steps[..|steps| - 1], name, w)
    ensures Had(found, loaded, steps, name, w)
  {
    var n := |steps| - 1;
    var i :| 0 <= i <= n && HadAt(W.After(found, loaded, steps[..n][..i]), name, w);
    assert steps[..n][..i] == steps[..i];
  }

  lemma HasNow(found: File, loaded: File, steps: seq<W.Step>, name: Name)
    requires name in W.After(found, loaded, steps).windows
    ensures Had(found, loaded, steps, name, W.After(found, loaded, steps).windows[name])
  {
    assert steps[..|steps|] == steps;
  }

  function CopyOf(writer: W.Writer): File {
    match writer
    case Copying(copied, _) => copied
    case Writing(copied) => copied
    case _ => map[]
  }

  /** A copy is taken from the windows as they are, and the file from the copy. */
  predicate TakesCopies(s: W.System, t: W.System, name: Name) {
    && (name in CopyOf(t.writer) ==>
          || (name in CopyOf(s.writer) && CopyOf(t.writer)[name] == CopyOf(s.writer)[name])
          || HadAt(s, name, CopyOf(t.writer)[name]))
    && (t.wrote && name in t.file ==>
          || (s.wrote && name in s.file && t.file[name] == s.file[name])
          || (name in CopyOf(s.writer) && t.file[name] == CopyOf(s.writer)[name]))
  }

  lemma LeavingTakesNone(s: W.System, t: W.System, name: Name)
    requires W.LeavesFile(s, t)
    ensures TakesCopies(s, t, name)
  {
  }

  lemma WriterTakesCopies(s: W.System, step: W.Step, name: Name)
    requires W.Enabled(s, step) && step.IsWriters()
    ensures TakesCopies(s, W.WriterNext(s, step), name)
  {
  }

  lemma CopiesAreTaken(s: W.System, step: W.Step, name: Name)
    requires W.Enabled(s, step)
    ensures TakesCopies(s, W.Next(s, step), name)
  {
    if step.IsWriters() {
      WriterTakesCopies(s, step, name);
    } else {
      W.OthersLeaveFile(s, step);
      LeavingTakesNone(s, W.Next(s, step), name);
    }
  }

  /** Every copy was of windows the registry had, and so is a file that was written. */
  lemma {:induction false} CopiesWereHad(found: File, loaded: File, steps: seq<W.Step>, name: Name)
    ensures var s := W.After(found, loaded, steps);
            && (name in CopyOf(s.writer) ==> Had(found, loaded, steps, name, CopyOf(s.writer)[name]))
            && (s.wrote && name in s.file ==> Had(found, loaded, steps, name, s.file[name]))
  {
    if steps != [] {
      var n := |steps| - 1;
      var before, s := W.After(found, loaded, steps[..n]), W.After(found, loaded, steps);
      CopiesWereHad(found, loaded, steps[..n], name);
      if W.Enabled(before, steps[n]) {
        CopiesAreTaken(before, steps[n], name);
      }
      if name in before.windows {
        HasNow(found, loaded, steps[..n], name);
      }
      forall w | Had(found, loaded, steps[..n], name, w)
        ensures Had(found, loaded, steps, name, w)
      {
        HadBefore(found, loaded, steps, name, w);
      }
    }
  }

  /**
   However the last life ended: if it wrote the file, a restart restores of
   each registry in it windows that it had in that life, when they were last
   copied; and if it did not, what the start of that life could have.
   */
  lemma LastCopyIsRestored(lives: seq<Life>, now: u64, name: Name)
    requires lives != [] && AllFit(Disk(lives)) && name in Disk(lives)
    ensures var before, last := lives[..|lives| - 1], lives[|lives| - 1];
            var loaded := Loaded(Disk(before), last.startedAt);
            if Reached(lives).wrote
            then exists w :: Had(Disk(before), loaded, last.steps, name, w) && S.Alike(Restored(lives, now, name), w)
            else Restored(lives, now, name) == Restored(before, now, name)
  {
    var before, last := lives[..|lives| - 1], lives[|lives| - 1];
    var loaded := Loaded(Disk(before), last.startedAt);
    FileIsRestored(lives, now, name);
    if Reached(lives).wrote {
      CopiesWereHad(Disk(before), loaded, last.steps, name);
    } else {
      W.EveryRunKeepsInv(Disk(before), loaded, last.steps);
    }
  }

  // ---------------------------------------------------------------------
  // Restarts are transparent.

  /** The registry's captures in a step. */
  function CaptureIn(s: W.System, step: W.Step, name: Name): seq<S.Capture> {
    if step.Capture? && step.name == name && W.Enabled(s, step) then [S.Capture(step.headers, step.consumer, step.now)] else []
  }

  function CapturesIn(found: File, loaded: File, steps: seq<W.Step>, name: Name): seq<S.Capture> {
    if steps == [] then []
    else
      var before := steps[..|steps| - 1];
      CapturesIn(found, loaded, before, name) + CaptureIn(W.After(found, loaded, before), steps[|steps| - 1], name)
  }

  /** From `s` to `t` the registry's windows change by the captures `cs`, or are the first it has. */
  predicate Follows(s: W.System, t: W.System, name: Name, cs: seq<S.Capture>) {
    && t.loaded == s.loaded
    && if name in s.windows then name in t.windows && t.windows[name] == S.Exec(s.windows[name], cs)
       else cs == [] && (name in t.windows ==> t.windows[name] == W.Initial(s.loaded, name))
  }

  lemma CaptureFollows(s: W.System, thread: W.Thread, captured: Name, w: S.Windows, changes: bool, name: Name, cs: seq<S.Capture>)
    requires captured in s.windows
    requires if name == captured then S.Exec(s.windows[name], cs) == w else cs == []
    ensures Follows(s, W.CaptureNext(s, thread, captured, w, changes), name, cs)
  {
  }

  lemma OthersFollow(s: W.System, step: W.Step, name: Name)
    requires W.Enabled(s, step) && !step.Capture?
    ensures Follows(s, W.Next(s, step), name, [])
  {
  }

  lemma StepFollows(s: W.System, step: W.Step, name: Name)
    requires W.Enabled(s, step)
    ensures Follows(s, W.Next(s, step), name, CaptureIn(s, step, name))
  {
    if step.Capture? {
      var w := s.windows[step.name];
      var c := S.Capture(step.headers, step.consumer, step.now);
      OneCapture(w, c);
      CaptureFollows(s, step.thread, step.name, S.Step(w, c), S.Changes(step.headers, step.now), name, CaptureIn(s, step, name));
    } else {
      OthersFollow(s, step, name);
    }
  }

  lemma OneCapture(w: S.Windows, c: S.Capture)
    ensures S.Exec(w, [c]) == S.Step(w, c)
  {
    assert [c][..0] == [] && S.Exec(w, []) == w;
  }

  /** The registry's windows are those it started with and the captures `cs`. */
  predicate Started(s: W.System, loaded: File, name: Name, cs: seq<S.Capture>) {
    && s.loaded == loaded
    && if name in s.windows then s.windows[name] == S.Exec(W.Initial(loaded, name), cs) else cs == []
  }

  lemma FollowingStarted(s: W.System, t: W.System, loaded: File, name: Name, cs: seq<S.Capture>, more: seq<S.Capture>)
    requires Started(s, loaded, name, cs) && Follows(s, t, name, more)
    ensures Started(t, loaded, name, cs + more)
  {
    S.ExecInTwo(W.Initial(loaded, name), cs, more);
  }

  /** Within a life, a registry's windows are those it started with and its captures. */
  lemma {:induction false} LifeCaptures(found: File, loaded: File, steps: seq<W.Step>, name: Name)
    ensures Started(W.After(found, loaded, steps), loaded, name, CapturesIn(found, loaded, steps, name))
  {
    if steps != [] {
      var n := |steps| - 1;
      var before, cs := W.After(found, loaded, steps[..n]), CapturesIn(found, loaded, steps[..n], name);
      LifeCaptures(found, loaded, steps[..n], name);
      if W.Enabled(before, steps[n]) {
        StepFollows(before, steps[n], name);
        FollowingStarted(before, W.Next(before, steps[n]), loaded, name, cs, CaptureIn(before, steps[n], name));
      } else {
        assert cs + CaptureIn(before, steps[n], name) == cs;
      }
    }
  }

  ghost function LoadedLast(lives: seq<Life>): File
    requires lives != []
  {
    Loaded(Disk(lives[..|lives| - 1]), lives[|lives| - 1].startedAt)
  }

  /** The registry's captures in all the lives, without the restarts. */
  ghost function History(lives: seq<Life>, name: Name): seq<S.Capture> {
    if lives == [] then []
    else
      var before := lives[..|lives| - 1];
      History(before, name) + CapturesIn(Disk(before), LoadedLast(lives), lives[|lives| - 1].steps, name)
  }

  /** The last life ended clean, having noticed the registry, or having left the file and the registry alone. */
  ghost predicate Saved(lives: seq<Life>, name: Name) {
    EndedClean(lives) && (Noticed(Reached(lives), name) || (name !in Reached(lives).windows && !Reached(lives).wrote))
  }

  lemma {:induction false} SavedIsRestored(lives: seq<Life>, now: u64, name: Name)
    requires LivesReport(lives, FittingReport()) && forall k :: 0 < k <= |lives| ==> Saved(lives[..k], name)
    ensures S.Alike(Restored(lives, now, name), S.Exec(S.NO_WINDOWS, History(lives, name)))
  {
    if lives != [] {
      var n := |lives| - 1;
      var before := lives[..n];
      assert lives[..n + 1] == lives && Saved(lives, name);
      forall k | 0 < k <= n
        ensures Saved(before[..k], name)
      {
        assert before[..k] == lives[..k];
      }
      if Noticed(Reached(lives), name) {
        SavedIsRestored(before, lives[n].startedAt, name);
        WindowsFollowHistory(lives, name);
        NoticedIsRestored(lives, now, name);
        S.AlikeIsTransitive(Restored(lives, now, name), Reached(lives).windows[name], S.Exec(S.NO_WINDOWS, History(lives, name)));
      } else {
        SavedIsRestored(before, now, name);
        LeftAlone(lives, now, name);
      }
    }
  }

  lemma LeftAlone(lives: seq<Life>, now: u64, name: Name)
    requires lives != [] && name !in Reached(lives).windows && !Reached(lives).wrote
    ensures var before := lives[..|lives| - 1];
            Restored(lives, now, name) == Restored(before, now, name) && History(lives, name) == History(before, name)
  {
    var before, last := lives[..|lives| - 1], lives[|lives| - 1];
    W.EveryRunKeepsInv(Disk(before), LoadedLast(lives), last.steps);
    LifeCaptures(Disk(before), LoadedLast(lives), last.steps, name);
    assert History(before, name) + [] == History(before, name);
  }

  lemma WindowsFollowHistory(lives: seq<Life>, name: Name)
    requires lives != [] && name in Reached(lives).windows
    requires var before := lives[..|lives| - 1];
             S.Alike(Restored(before, lives[|lives| - 1].startedAt, name), S.Exec(S.NO_WINDOWS, History(before, name)))
    ensures S.Alike(Reached(lives).windows[name], S.Exec(S.NO_WINDOWS, History(lives, name)))
  {
    var before, last := lives[..|lives| - 1], lives[|lives| - 1];
    var cs := CapturesIn(Disk(before), LoadedLast(lives), last.steps, name);
    LifeCaptures(Disk(before), LoadedLast(lives), last.steps, name);
    S.CapturingsAreAlike(Restored(before, last.startedAt, name), S.Exec(S.NO_WINDOWS, History(before, name)), cs);
    S.ExecInTwo(S.NO_WINDOWS, History(before, name), cs);
  }

  /**
   When every registry's captures fit and the registry was saved at the end of
   each earlier life, its windows are as if there had been no restart, but for
   how old the readings are, and whatever the clock said at the restarts.
   */
  lemma RestartsAreTransparent(lives: seq<Life>, name: Name)
    requires lives != [] && LivesReport(lives, FittingReport()) && name in Reached(lives).windows
    requires forall k :: 0 < k < |lives| ==> Saved(lives[..k], name)
    ensures S.Alike(Reached(lives).windows[name], S.Exec(S.NO_WINDOWS, History(lives, name)))
  {
    var n := |lives| - 1;
    forall k | 0 < k <= n
      ensures Saved(lives[..n][..k], name)
    {
      assert lives[..n][..k] == lives[..k];
    }
    SavedIsRestored(lives[..n], lives[n].startedAt, name);
    WindowsFollowHistory(lives, name);
  }
}
