/**
 The thread that writes the state file as the windows change (usage.rs).

 Captures on any number of threads interleave with the writer at every lock
 they take. The lemmas show that no update is lost: whenever the writer is
 parked, no capture is under way and the last write did not fail, the file
 holds the current windows of every registry but those named since the writer
 last looked and never captured for.
 */
module StateWriter {
  import opened Numbers
  import opened Registry
  import S = WindowState

  type Name = string
  type Thread = nat
  type File = map<Name, S.Windows>

  /** Where a capture is, after it has changed a registry's windows. */
  datatype Stage =
    /** It has yet to set the flag. */
    | Captured(name: Name)
    /** It has set the flag, and has yet to notify. */
    | Flagged

  /** Where the writer is. */
  datatype Writer =
    /** It holds the flag's lock, about to test it. */
    | Testing
    /** It waits on the condition variable. */
    | Parked
    /** It saw the flag set, and lets an interval pass. */
    | Sleeping
    /** It has cleared the flag. */
    | Cleared
    /** It holds the registries' lock and copies them one by one. */
    | Copying(copied: File, rest: set<Name>)
    /** It has copied every registry, and has yet to replace the file. */
    | Writing(copied: File)

  /**
   `found` is what the file held at the start, and `loaded` what was taken up
   from it. The last three fields record
   history only: the registries named since the writer last began to copy and
   not captured for since; whether a write has succeeded; and whether the
   latest failed.
   */
  datatype System = System(
    found: File, loaded: File, windows: File, dirty: bool, threads: map<Thread, Stage>, writer: Writer, file: File,
    unnoticed: set<Name>, wrote: bool, failed: bool)

  function Start(found: File, loaded: File): System {
    System(found, loaded, map[], false, map[], Testing, found, {}, false, false)
  }

  /** A registry's windows when it is first named. */
  function Initial(loaded: File, name: Name): S.Windows {
    if name in loaded then S.Marked(loaded[name]) else S.NO_WINDOWS
  }

  datatype Step =
    | NameRegistry(name: Name)
    | Capture(thread: Thread, name: Name, headers: S.Headers, consumer: Consumer, now: u64)
    | Flag(thread: Thread)
    | Notify(thread: Thread)
    | Wake
    | Test
    | Clear
    | LockRegistries
    | Copy(name: Name)
    | UnlockRegistries
    | Replace
    | Fail
  {
    predicate IsWriters() {
      !NameRegistry? && !Capture? && !Flag? && !Notify?
    }
  }

  predicate Enabled(s: System, step: Step) {
    match step
    case NameRegistry(name) => name !in s.windows && !s.writer.Copying?
    case Capture(thread, name, _, _, _) => name in s.windows && thread !in s.threads
    case Flag(thread) => thread in s.threads && s.threads[thread].Captured?
    case Notify(thread) => thread in s.threads && s.threads[thread].Flagged?
    case Wake => s.writer.Parked?
    case Test => s.writer.Testing?
    case Clear => s.writer.Sleeping?
    case LockRegistries => s.writer.Cleared?
    case Copy(name) => s.writer.Copying? && name in s.writer.rest && name in s.windows
    case UnlockRegistries => s.writer.Copying? && s.writer.rest == {}
    case Replace => s.writer.Writing?
    case Fail => s.writer.Writing?
  }

  function Holding(s: System, thread: Thread, name: Name, w: S.Windows): System {
    s.(windows := s.windows[name := w], threads := s.threads[thread := Captured(name)], unnoticed := s.unnoticed - {name})
  }

  function CaptureNext(s: System, thread: Thread, name: Name, w: S.Windows, changes: bool): System {
    if changes then Holding(s, thread, name, w) else s.(windows := s.windows[name := w])
  }

  function Next(s: System, step: Step): System
    requires Enabled(s, step)
  {
    if step.IsWriters() then WriterNext(s, step)
    else
      match step
      case NameRegistry(name) =>
        s.(windows := s.windows[name := Initial(s.loaded, name)], unnoticed := s.unnoticed + {name})
      case Capture(thread, name, headers, consumer, now) =>
        CaptureNext(s, thread, name, S.Captured(s.windows[name], headers, consumer, now), S.Changes(headers, now))
      case Flag(thread) => s.(dirty := true, threads := s.threads[thread := Flagged])
      case Notify(thread) =>
        s.(threads := s.threads - {thread}, writer := if s.writer.Parked? then Testing else s.writer)
      case _ => s
  }

  function WriterNext(s: System, step: Step): System
    requires Enabled(s, step) && step.IsWriters()
  {
    match step
    case Wake => s.(writer := Testing)
    case Test => s.(writer := if s.dirty then Sleeping else Parked)
    case Clear => s.(dirty := false, writer := Cleared)
    case LockRegistries => s.(writer := Copying(map[], s.windows.Keys), unnoticed := {})
    case Copy(name) => s.(writer := Copying(s.writer.copied[name := s.windows[name]], s.writer.rest - {name}))
    case UnlockRegistries => s.(writer := Writing(s.writer.copied))
    case Replace => s.(writer := Testing, file := s.writer.copied, wrote := true, failed := false)
    case Fail => s.(writer := Testing, failed := true)
  }

  /** The state after `steps`; one that is not enabled when its turn comes does nothing. */
  function After(found: File, loaded: File, steps: seq<Step>): System {
    if steps == [] then Start(found, loaded)
    else
      var before, last := After(found, loaded, steps[..|steps| - 1]), steps[|steps| - 1];
      if Enabled(before, last) then Next(before, last) else before
  }

  // ---------------------------------------------------------------------
  // The invariant.

  /** A capture has changed the registry's windows and not yet set the flag. */
  ghost predicate Unflagged(s: System, name: Name) {
    exists t :: t in s.threads && s.threads[t] == Captured(name)
  }

  predicate Holds(file: File, s: System, name: Name)
    requires name in s.windows
  {
    name in file && file[name] == s.windows[name]
  }

  /** The writer has the registry's current windows, or will copy them before it waits again. */
  predicate WillHold(s: System, name: Name)
    requires name in s.windows
  {
    match s.writer
    case Sleeping => true
    case Cleared => true
    case Copying(copied, rest) => name in rest || Holds(copied, s, name)
    case Writing(copied) => Holds(copied, s, name)
    case Testing => s.failed || Holds(s.file, s, name)
    case Parked => s.failed || Holds(s.file, s, name)
  }

  ghost predicate Accounted(s: System, name: Name)
    requires name in s.windows
  {
    Unflagged(s, name) || s.dirty || WillHold(s, name)
  }

  /** A registry not noticed is as it was named, and in no copy made since. */
  predicate Untouched(s: System, name: Name) {
    && name in s.windows && s.windows[name] == Initial(s.loaded, name)
    && (s.wrote ==> name !in s.file)
    && !s.writer.Copying?
    && (s.writer.Writing? ==> name !in s.writer.copied)
  }

  ghost predicate SomeFlagged(s: System) {
    exists t :: t in s.threads && s.threads[t] == Flagged
  }

  predicate CopiesNamed(s: System) {
    match s.writer
    case Copying(copied, rest) => rest <= s.windows.Keys && copied.Keys <= s.windows.Keys
    case Writing(copied) => copied.Keys <= s.windows.Keys
    case _ => true
  }

  predicate FileNamed(s: System) {
    if s.wrote then s.file.Keys <= s.windows.Keys else s.file == s.found
  }

  ghost predicate Inv(s: System) {
    && (forall name :: name in s.windows && name !in s.unnoticed ==> Accounted(s, name))
    && (forall name :: name in s.unnoticed ==> Untouched(s, name))
    // A writer that waits with the flag set is about to be notified.
    && (s.writer.Parked? && s.dirty ==> SomeFlagged(s))
    && (s.writer.Sleeping? ==> s.dirty)
    && CopiesNamed(s)
    && FileNamed(s)
  }

  lemma StaysUnflagged(s: System, step: Step, name: Name)
    requires Unflagged(s, name) && Enabled(s, step) && !step.Flag?
    ensures Unflagged(Next(s, step), name)
  {
    var u :| u in s.threads && s.threads[u] == Captured(name);
    assert Next(s, step).threads[u] == Captured(name);
  }

  /** A capture that reports nothing does nothing. */
  lemma SilentCapture(s: System, step: Step)
    requires Enabled(s, step) && step.Capture? && !S.Changes(step.headers, step.now)
    ensures Next(s, step) == s
  {
    S.UnchangedNeedNotBeWritten(s.windows[step.name], step.headers, step.consumer, step.now);
    assert s.windows[step.name := s.windows[step.name]] == s.windows;
  }

  lemma CapturedIsAccounted(s: System, t: System, thread: Thread, captured: Name, w: S.Windows, name: Name)
    requires Inv(s) && captured in s.windows && thread !in s.threads
    requires t == Holding(s, thread, captured, w)
    requires name in t.windows && name !in t.unnoticed
    ensures Accounted(t, name)
  {
    if name == captured {
      assert t.threads[thread] == Captured(name);
    } else {
      assert Accounted(s, name);
      if Unflagged(s, name) {
        var u :| u in s.threads && s.threads[u] == Captured(name);
        assert t.threads[u] == Captured(name);
      }
    }
  }

  lemma StepsOfCaptures(s: System, step: Step, name: Name)
    requires Inv(s) && Enabled(s, step) && step.Capture?
    requires name in Next(s, step).windows && name !in Next(s, step).unnoticed
    ensures Accounted(Next(s, step), name)
  {
    if S.Changes(step.headers, step.now) {
      var w := S.Captured(s.windows[step.name], step.headers, step.consumer, step.now);
      CapturedIsAccounted(s, Next(s, step), step.thread, step.name, w, name);
    } else {
      SilentCapture(s, step);
    }
  }

  lemma StepsOfOthers(s: System, step: Step, name: Name)
    requires Inv(s) && Enabled(s, step) && (step.Flag? || step.NameRegistry?)
    requires name in Next(s, step).windows && name !in Next(s, step).unnoticed
    ensures Accounted(Next(s, step), name)
  {
    if step.NameRegistry? && Unflagged(s, name) {
      StaysUnflagged(s, step, name);
    }
  }

  lemma StepsOfWriter(s: System, step: Step, name: Name)
    requires Inv(s) && Enabled(s, step) && !step.Capture? && !step.Flag? && !step.NameRegistry?
    requires name in s.windows && name !in Next(s, step).unnoticed
    ensures Accounted(Next(s, step), name)
  {
    if name !in s.unnoticed && Unflagged(s, name) {
      StaysUnflagged(s, step, name);
    }
  }

  lemma StepKeepsUntouched(s: System, step: Step, name: Name)
    requires WriterKeeps(s) && (name in s.unnoticed ==> Untouched(s, name))
    requires Enabled(s, step) && name in Next(s, step).unnoticed
    ensures Untouched(Next(s, step), name)
  {
    if step.IsWriters() {
      WriterKeepsUntouched(s, step, name);
    } else if step.Capture? {
      CaptureKeepsUntouched(s, step, name);
    } else {
      ThreadsKeepUntouched(s, step, name);
    }
  }

  lemma WriterKeepsUntouched(s: System, step: Step, name: Name)
    requires Enabled(s, step) && step.IsWriters() && name in WriterNext(s, step).unnoticed && Untouched(s, name)
    ensures Untouched(WriterNext(s, step), name)
  {
  }

  lemma ThreadsKeepUntouched(s: System, step: Step, name: Name)
    requires Enabled(s, step) && (step.NameRegistry? || step.Flag? || step.Notify?) && name in Next(s, step).unnoticed
    requires (name in s.unnoticed ==> Untouched(s, name)) && WriterKeeps(s)
    ensures Untouched(Next(s, step), name)
  {
  }

  lemma CaptureKeepsUntouched(s: System, step: Step, name: Name)
    requires Untouched(s, name) && Enabled(s, step) && step.Capture? && name in Next(s, step).unnoticed
    ensures Untouched(Next(s, step), name)
  {
    if !S.Changes(step.headers, step.now) {
      SilentCapture(s, step);
    }
  }

  /** No registry is ever unnamed, and only the writer touches the copy and the file. */
  predicate LeavesFile(s: System, t: System) {
    && s.windows.Keys <= t.windows.Keys && t.file == s.file && t.wrote == s.wrote
    && t.loaded == s.loaded && t.found == s.found && (s.dirty ==> t.dirty)
    && (t.writer == s.writer || t.writer.Testing?)
  }

  lemma CaptureLeavesFile(s: System, thread: Thread, name: Name, w: S.Windows, changes: bool)
    ensures LeavesFile(s, CaptureNext(s, thread, name, w, changes))
  {
  }

  lemma ThreadsLeaveFile(s: System, step: Step)
    requires Enabled(s, step) && (step.NameRegistry? || step.Flag? || step.Notify?)
    ensures LeavesFile(s, Next(s, step))
  {
  }

  lemma OthersLeaveFile(s: System, step: Step)
    requires Enabled(s, step) && !step.IsWriters()
    ensures LeavesFile(s, Next(s, step))
  {
    if step.Capture? {
      CaptureLeavesFile(s, step.thread, step.name, S.Captured(s.windows[step.name], step.headers, step.consumer, step.now),
                        S.Changes(step.headers, step.now));
    } else {
      ThreadsLeaveFile(s, step);
    }
  }

  /** The writer's part of the invariant. */
  predicate WriterKeeps(s: System) {
    CopiesNamed(s) && FileNamed(s) && (s.writer.Sleeping? ==> s.dirty)
  }

  lemma WriterKeepsItsPart(s: System, step: Step)
    requires WriterKeeps(s) && Enabled(s, step) && step.IsWriters()
    ensures var t := WriterNext(s, step); WriterKeeps(t) && t.loaded == s.loaded && t.found == s.found
  {
  }

  lemma StepKeepsWriter(s: System, step: Step)
    requires WriterKeeps(s) && Enabled(s, step)
    ensures var t := Next(s, step); WriterKeeps(t) && t.loaded == s.loaded && t.found == s.found
  {
    if step.IsWriters() {
      WriterKeepsItsPart(s, step);
    } else {
      OthersLeaveFile(s, step);
    }
  }

  /** A writer that waits with the flag set is about to be notified. */
  ghost predicate Awake(s: System) {
    s.writer.Parked? && s.dirty ==> SomeFlagged(s)
  }

  lemma WriterStaysAwake(s: System, step: Step)
    requires Enabled(s, step) && step.IsWriters()
    ensures Awake(WriterNext(s, step))
  {
  }

  lemma CaptureStaysAwake(s: System, thread: Thread, name: Name, w: S.Windows, changes: bool)
    requires Awake(s) && thread !in s.threads
    ensures Awake(CaptureNext(s, thread, name, w, changes))
  {
    var t := CaptureNext(s, thread, name, w, changes);
    if t.writer.Parked? && t.dirty {
      var u :| u in s.threads && s.threads[u] == Flagged;
      assert t.threads[u] == Flagged;
    }
  }

  lemma ThreadsStayAwake(s: System, step: Step)
    requires Awake(s) && Enabled(s, step) && (step.NameRegistry? || step.Flag? || step.Notify?)
    ensures Awake(Next(s, step))
  {
    var t := Next(s, step);
    if t.writer.Parked? && t.dirty {
      if step.Flag? {
        assert t.threads[step.thread] == Flagged;
      } else {
        var u :| u in s.threads && s.threads[u] == Flagged;
        assert t.threads[u] == Flagged;
      }
    }
  }

  lemma StepKeepsAwake(s: System, step: Step)
    requires Awake(s) && Enabled(s, step)
    ensures Awake(Next(s, step))
  {
    if step.IsWriters() {
      WriterStaysAwake(s, step);
    } else if step.Capture? {
      CaptureStaysAwake(s, step.thread, step.name, S.Captured(s.windows[step.name], step.headers, step.consumer, step.now),
                        S.Changes(step.headers, step.now));
    } else {
      ThreadsStayAwake(s, step);
    }
  }

  /** Every step keeps the invariant: the writer clears the flag before it copies. */
  lemma StepKeepsInv(s: System, step: Step)
    requires Inv(s) && Enabled(s, step)
    ensures Inv(Next(s, step)) && Next(s, step).loaded == s.loaded && Next(s, step).found == s.found
  {
    var t := Next(s, step);
    forall name | name in t.windows && name !in t.unnoticed
      ensures Accounted(t, name)
    {
      if step.Capture? {
        StepsOfCaptures(s, step, name);
      } else if step.Flag? || step.NameRegistry? {
        StepsOfOthers(s, step, name);
      } else {
        StepsOfWriter(s, step, name);
      }
    }
    forall name | name in t.unnoticed
      ensures Untouched(t, name)
    {
      StepKeepsUntouched(s, step, name);
    }
    StepKeepsWriter(s, step);
    StepKeepsAwake(s, step);
  }

  lemma {:induction false} EveryRunKeepsInv(found: File, loaded: File, steps: seq<Step>)
    ensures Inv(After(found, loaded, steps)) && After(found, loaded, steps).loaded == loaded && After(found, loaded, steps).found == found
  {
    if steps != [] {
      EveryRunKeepsInv(found, loaded, steps[..|steps| - 1]);
      var before, last := After(found, loaded, steps[..|steps| - 1]), steps[|steps| - 1];
      if Enabled(before, last) {
        StepKeepsInv(before, last);
      }
    }
  }

  // ---------------------------------------------------------------------
  // No lost update.

  /** The writer waits, and no capture has yet to tell it of a change. */
  predicate Quiet(s: System) {
    s.writer.Parked? && s.threads == map[]
  }

  ghost predicate Current(s: System) {
    forall name :: name in s.windows ==> Holds(s.file, s, name)
  }

  /**
   In every interleaving: once the writer is parked, no capture is under way
   and the latest write did not fail, the flag is clear and the file holds the
   current windows of every registry that was captured for, or named before
   the latest copy. The others are as they were when named.
   */
  lemma NoUpdateIsLost(found: File, loaded: File, steps: seq<Step>, name: Name)
    requires var s := After(found, loaded, steps); Quiet(s) && !s.failed && name in s.windows
    ensures var s := After(found, loaded, steps);
            && !s.dirty
            && (name !in s.unnoticed ==> Holds(s.file, s, name))
            && (name in s.unnoticed ==> s.windows[name] == Initial(loaded, name))
            && (name in s.unnoticed && s.wrote ==> name !in s.file)
            && (!s.wrote ==> s.file == found)
  {
    EveryRunKeepsInv(found, loaded, steps);
    var s := After(found, loaded, steps);
    if name !in s.unnoticed {
      assert Accounted(s, name);
    } else {
      assert Untouched(s, name);
    }
  }

  /** After the first write, a quiet file is wholly current exactly when no registry is unnoticed. */
  lemma CurrentExactlyWhenAllNoticed(found: File, loaded: File, steps: seq<Step>)
    requires var s := After(found, loaded, steps); Quiet(s) && !s.failed && s.wrote
    ensures Current(After(found, loaded, steps)) <==> After(found, loaded, steps).unnoticed == {}
  {
    EveryRunKeepsInv(found, loaded, steps);
    var s := After(found, loaded, steps);
    forall name | name in s.windows
      ensures Holds(s.file, s, name) <==> name !in s.unnoticed
    {
      NoUpdateIsLost(found, loaded, steps, name);
    }
    forall name | name in s.unnoticed
      ensures name in s.windows
    {
      assert Untouched(s, name);
    }
  }

  /** A writer that waits while some change is not in the file has a notification coming. */
  lemma WriterIsAlwaysWoken(found: File, loaded: File, steps: seq<Step>, name: Name)
    requires var s := After(found, loaded, steps);
             s.writer.Parked? && !s.failed && name in s.windows && name !in s.unnoticed && !Holds(s.file, s, name)
    ensures var s := After(found, loaded, steps); exists t :: t in s.threads && Enabled(s, if s.threads[t].Flagged? then Notify(t) else Flag(t))
  {
    EveryRunKeepsInv(found, loaded, steps);
    var s := After(found, loaded, steps);
    assert Accounted(s, name);
    if s.dirty {
      var t :| t in s.threads && s.threads[t] == Flagged;
      assert Enabled(s, Notify(t));
    } else {
      var t :| t in s.threads && s.threads[t] == Captured(name);
      assert Enabled(s, Flag(t));
    }
  }
}
