/**
 Replacing the credential file so that no crash loses it (provider-codex).

 A directory's entries and a file's contents are on disk for certain only once
 they are synced. A crash may keep any entry a name has had since the last
 sync of the directory, each name for itself, and any contents at all of a file
 that is not synced. The installer's methods record every state the file system
 passes through, and each of those is shown safe to crash in. The home and the
 staging directory below it are one directory here, so that syncing it settles
 the staged file's entry too.
 */
module CredentialInstall {
  import opened Wrappers

  type Data = seq<nat>
  type Inode = nat

  datatype Name = Auth | Backup | Staged | Temporary(stamp: nat)

  /** `older` are the entries a crash may bring back: those a name has had since the last sync. */
  datatype Fs = Fs(now: map<Name, Inode>, older: map<Name, set<Option<Inode>>>, data: map<Inode, Data>, synced: set<Inode>)

  function Current(fs: Fs, name: Name): Option<Inode> {
    if name in fs.now then Some(fs.now[name]) else None
  }

  function Older(fs: Fs, name: Name): set<Option<Inode>> {
    if name in fs.older then fs.older[name] else {}
  }

  function Possible(fs: Fs, name: Name): set<Option<Inode>> {
    Older(fs, name) + {Current(fs, name)}
  }

  /** The name may be this file after a crash. */
  predicate Linked(fs: Fs, name: Name, file: Inode) {
    Some(file) in Possible(fs, name)
  }

  ghost predicate WellFormed(fs: Fs) {
    && (forall name, file :: Linked(fs, name, file) ==> file in fs.data)
    && fs.synced <= fs.data.Keys
  }

  /** What may be on disk after a crash. */
  ghost predicate CrashesTo(fs: Fs, disk: map<Name, Data>) {
    forall name :: MaySurvive(fs, disk, name)
  }

  ghost predicate MaySurvive(fs: Fs, disk: map<Name, Data>, name: Name) {
    exists entry :: entry in Possible(fs, name) && Survives(fs, disk, name, entry)
  }

  predicate Survives(fs: Fs, disk: map<Name, Data>, name: Name, entry: Option<Inode>) {
    match entry
    case None => name !in disk
    case Some(file) => name in disk && (file in fs.synced && file in fs.data ==> disk[name] == fs.data[file])
  }

  // ---------------------------------------------------------------------
  // Operations.

  function Changed(fs: Fs, name: Name, entry: Option<Inode>): Fs {
    var older := fs.older[name := Possible(fs, name)];
    match entry
    case Some(file) => fs.(now := fs.now[name := file], older := older)
    case None => fs.(now := fs.now - {name}, older := older)
  }

  function Created(fs: Fs, name: Name, file: Inode): Fs {
    Changed(fs, name, Some(file)).(data := fs.data[file := []])
  }

  function Written(fs: Fs, file: Inode, data: Data): Fs {
    fs.(data := fs.data[file := data], synced := fs.synced - {file})
  }

  function Renamed(fs: Fs, from: Name, to: Name): Fs
    requires from in fs.now
  {
    Changed(Changed(fs, to, Some(fs.now[from])), from, None)
  }

  function ParentSynced(fs: Fs): Fs {
    fs.(older := map[])
  }

  lemma PossibleAfter(fs: Fs, name: Name, entry: Option<Inode>, other: Name)
    ensures Possible(Changed(fs, name, entry), other) == Possible(fs, other) + if other == name then {entry} else {}
    ensures Current(Changed(fs, name, entry), other) == if other == name then entry else Current(fs, other)
  {
  }

  lemma ChangingKeepsWellFormed(fs: Fs, name: Name, entry: Option<Inode>)
    requires WellFormed(fs) && (entry.Some? ==> entry.value in fs.data)
    ensures WellFormed(Changed(fs, name, entry))
  {
    forall other, file | Linked(Changed(fs, name, entry), other, file)
      ensures file in fs.data
    {
      PossibleAfter(fs, name, entry, other);
      assert Linked(fs, other, file) || entry == Some(file);
    }
  }

  lemma CreatingKeepsWellFormed(fs: Fs, name: Name, file: Inode)
    requires WellFormed(fs) && file !in fs.data
    ensures WellFormed(Created(fs, name, file))
  {
    var t := fs.(data := fs.data[file := []]);
    forall other, f | Linked(t, other, f)
      ensures f in t.data
    {
      assert Linked(fs, other, f);
    }
    ChangingKeepsWellFormed(t, name, Some(file));
    assert Created(fs, name, file) == Changed(t, name, Some(file));
  }

  lemma WritingKeepsWellFormed(fs: Fs, file: Inode, data: Data)
    requires WellFormed(fs) && file in fs.data
    ensures WellFormed(Written(fs, file, data))
  {
    forall name, f | Linked(Written(fs, file, data), name, f)
      ensures f in fs.data
    {
      assert Linked(fs, name, f);
    }
  }

  lemma SyncingKeepsWellFormed(fs: Fs, file: Inode)
    requires WellFormed(fs) && file in fs.data
    ensures WellFormed(fs.(synced := fs.synced + {file}))
  {
    forall name, f | Linked(fs.(synced := fs.synced + {file}), name, f)
      ensures f in fs.data
    {
      assert Linked(fs, name, f);
    }
  }

  lemma ParentSyncingKeepsWellFormed(fs: Fs)
    requires WellFormed(fs)
    ensures WellFormed(ParentSynced(fs))
  {
    forall name, f | Linked(ParentSynced(fs), name, f)
      ensures f in fs.data
    {
      assert Linked(fs, name, f);
    }
  }

  lemma RenamingKeepsWellFormed(fs: Fs, from: Name, to: Name)
    requires WellFormed(fs) && from in fs.now
    ensures WellFormed(Renamed(fs, from, to))
  {
    assert Linked(fs, from, fs.now[from]);
    ChangingKeepsWellFormed(fs, to, Some(fs.now[from]));
    ChangingKeepsWellFormed(Changed(fs, to, Some(fs.now[from])), from, None);
  }

  function FreshInode(taken: set<Inode>): (file: Inode)
    ensures file !in taken
  {
    FreshFrom(taken, 0)
  }

  /** Among the numbers from `from` on, one that is not taken: only so many are. */
  function FreshFrom(taken: set<Inode>, from: nat): (file: Inode)
    ensures file !in taken
    decreases |set j | j in taken && j >= from|
  {
    if from !in taken then from
    else
      assert (set j | j in taken && j >= from) == (set j | j in taken && j >= from + 1) + {from};
      FreshFrom(taken, from + 1)
  }

  // ---------------------------------------------------------------------
  // Safety.

  /** Whatever a crash may leave active is wholly on disk. */
  ghost predicate Settled(fs: Fs) {
    forall file :: Linked(fs, Auth, file) ==> file in fs.synced
  }

  /** What was synced at the start still is, and is the same. */
  ghost predicate Keeps(fs: Fs, start: Fs) {
    && start.synced <= fs.synced
    && forall file :: file in start.synced && file in start.data ==> file in fs.data && fs.data[file] == start.data[file]
  }

  /** The backup is for certain a file with `data`. */
  ghost predicate BackedUp(fs: Fs, data: Data) {
    forall entry :: entry in Possible(fs, Backup) ==>
      entry.Some? && entry.value in fs.synced && entry.value in fs.data && fs.data[entry.value] == data
  }

  predicate ActiveAtStart(start: Fs) {
    Auth in start.now && start.now[Auth] in start.data
  }

  /**
   A state the installer may crash in: what may be active may have been so at
   the start or is the staged file, and is wholly on disk as it was; and the
   staged file may be active only once the file that was active is for certain the backup.
   */
  ghost predicate Safe(fs: Fs, start: Fs, staged: Inode) {
    && Keeps(fs, start)
    && Possible(fs, Auth) <= Possible(start, Auth) + {Some(staged)}
    && Settled(fs)
    && (Linked(fs, Auth, staged) ==> SameFile(fs, start, staged))
    && (Linked(fs, Auth, staged) && ActiveAtStart(start) ==> BackedUp(fs, start.data[start.now[Auth]]))
  }

  predicate SameFile(fs: Fs, start: Fs, file: Inode) {
    file in fs.data && file in start.data && fs.data[file] == start.data[file]
  }

  ghost predicate SafeSince(before: seq<Fs>, after: seq<Fs>, start: Fs, staged: Inode) {
    before <= after && forall k :: |before| <= k < |after| ==> Safe(after[k], start, staged)
  }

  /** The active entry and the staged one are as at the start. */
  ghost predicate Aside(fs: Fs, start: Fs) {
    && Keeps(fs, start)
    && Possible(fs, Auth) == Possible(start, Auth)
    && Current(fs, Auth) == Current(start, Auth)
    && Current(fs, Staged) == Current(start, Staged)
  }

  ghost predicate AsideSince(before: seq<Fs>, after: seq<Fs>, start: Fs) {
    before <= after && forall k :: |before| <= k < |after| ==> Aside(after[k], start)
  }

  /** The staged file is for certain the active one. */
  ghost predicate Installed(fs: Fs, start: Fs, staged: Inode) {
    && Possible(fs, Auth) == {Some(staged)}
    && staged in fs.synced && SameFile(fs, start, staged)
    && (ActiveAtStart(start) ==> BackedUp(fs, start.data[start.now[Auth]]))
  }

  /** The installer is ready: the staged file is synced, and was never active. */
  ghost predicate Ready(fs: Fs) {
    WellFormed(fs) && Settled(fs) && Staged in fs.now && fs.now[Staged] in fs.synced && !Linked(fs, Auth, fs.now[Staged])
  }

  lemma AsideIsSafe(fs: Fs, start: Fs)
    requires Ready(start) && Aside(fs, start)
    ensures Safe(fs, start, start.now[Staged])
  {
    forall file | Linked(fs, Auth, file)
      ensures file in fs.synced
    {
      assert Linked(start, Auth, file);
    }
  }

  lemma AllAsideAreSafe(before: seq<Fs>, after: seq<Fs>, start: Fs)
    requires Ready(start) && AsideSince(before, after, start)
    ensures SafeSince(before, after, start, start.now[Staged])
  {
    forall k | |before| <= k < |after|
      ensures Safe(after[k], start, start.now[Staged])
    {
      AsideIsSafe(after[k], start);
    }
  }

  lemma ChangingAside(fs: Fs, start: Fs, name: Name, entry: Option<Inode>)
    requires Aside(fs, start) && name != Auth && name != Staged
    ensures Aside(Changed(fs, name, entry), start)
  {
    PossibleAfter(fs, name, entry, Auth);
    PossibleAfter(fs, name, entry, Staged);
  }

  lemma CreatingAside(fs: Fs, start: Fs, name: Name, file: Inode)
    requires WellFormed(start) && Aside(fs, start) && file !in fs.data && name.Temporary?
    ensures Aside(Created(fs, name, file), start) && file !in start.synced
    ensures Current(Created(fs, name, file), name) == Some(file)
  {
    var t := fs.(data := fs.data[file := []]);
    assert file in start.synced ==> file in start.data;
    ChangingAside(t, start, name, Some(file));
    assert Created(fs, name, file) == Changed(t, name, Some(file));
  }

  lemma WritingAside(fs: Fs, start: Fs, file: Inode, data: Data)
    requires Aside(fs, start) && file !in start.synced
    ensures Aside(Written(fs, file, data), start)
  {
  }

  lemma RenamingAside(fs: Fs, start: Fs, from: Name, to: Name)
    requires Aside(fs, start) && from in fs.now && from.Temporary? && to == Backup
    ensures Aside(Renamed(fs, from, to), start)
    ensures Current(Renamed(fs, from, to), to) == Some(fs.now[from])
  {
    ChangingAside(fs, start, to, Some(fs.now[from]));
    ChangingAside(Changed(fs, to, Some(fs.now[from])), start, from, None);
    PossibleAfter(fs, to, Some(fs.now[from]), to);
    PossibleAfter(Changed(fs, to, Some(fs.now[from])), from, None, to);
  }

  /** Once the parent is synced, the file active at the start is certainly active, and the backup certainly it. */
  lemma SyncedAside(fs: Fs, start: Fs)
    requires Ready(start) && Aside(fs, start)
    ensures Safe(ParentSynced(fs), start, start.now[Staged])
    ensures Possible(ParentSynced(fs), Auth) == {Current(start, Auth)}
    ensures Possible(ParentSynced(fs), Backup) == {Current(fs, Backup)}
  {
    forall file | Linked(ParentSynced(fs), Auth, file)
      ensures file in fs.synced
    {
      assert Linked(start, Auth, file);
    }
    assert !Linked(start, Auth, start.now[Staged]);
  }

  /** The replacement itself: from a state in which the active file, if any, is for certain the backup. */
  lemma ReplacingIsSafe(fs: Fs, start: Fs)
    requires Ready(start) && Safe(fs, start, start.now[Staged]) && Current(fs, Staged) == Some(start.now[Staged])
    requires ActiveAtStart(start) ==> BackedUp(fs, start.data[start.now[Auth]])
    ensures Safe(Renamed(fs, Staged, Auth), start, start.now[Staged])
    ensures Current(Renamed(fs, Staged, Auth), Auth) == Some(start.now[Staged])
  {
    var staged := start.now[Staged];
    assert Linked(start, Staged, staged);
    var t := Changed(fs, Auth, Some(staged));
    PossibleAfter(fs, Auth, Some(staged), Auth);
    PossibleAfter(t, Staged, None, Auth);
    PossibleAfter(fs, Auth, Some(staged), Backup);
    PossibleAfter(t, Staged, None, Backup);
    forall file | Linked(Renamed(fs, Staged, Auth), Auth, file)
      ensures file in fs.synced
    {
      assert Linked(fs, Auth, file) || file == staged;
    }
  }

  lemma FinalSyncInstalls(fs: Fs, start: Fs)
    requires Ready(start) && Safe(fs, start, start.now[Staged]) && Current(fs, Auth) == Some(start.now[Staged])
    ensures Safe(ParentSynced(fs), start, start.now[Staged])
    ensures Installed(ParentSynced(fs), start, start.now[Staged])
  {
    assert Linked(fs, Auth, start.now[Staged]);
    assert Current(fs, Backup) in Possible(fs, Backup);
  }

  lemma UnchangedIsSafe(fs: Fs, staged: Inode)
    requires Settled(fs) && !Linked(fs, Auth, staged)
    ensures Safe(fs, fs, staged)
  {
  }

  lemma RemovingStagedIsSafe(fs: Fs, start: Fs, staged: Inode)
    requires Safe(fs, start, staged)
    ensures Safe(Changed(fs, Staged, None), start, staged)
    ensures Possible(Changed(fs, Staged, None), Auth) == Possible(fs, Auth)
  {
    PossibleAfter(fs, Staged, None, Auth);
    PossibleAfter(fs, Staged, None, Backup);
    forall file | Linked(Changed(fs, Staged, None), Auth, file)
      ensures file in fs.synced
    {
      assert Linked(fs, Auth, file);
    }
  }

  /** The start once the staged file is synced. */
  function StagedSynced(start: Fs): Fs
    requires Staged in start.now
  {
    start.(synced := start.synced + {start.now[Staged]})
  }

  lemma SyncingStagedIsReady(start: Fs)
    requires WellFormed(start) && Settled(start) && Staged in start.now && !Linked(start, Auth, start.now[Staged])
    ensures Ready(StagedSynced(start)) && Safe(StagedSynced(start), start, start.now[Staged])
  {
    assert Linked(start, Staged, start.now[Staged]);
    SyncingKeepsWellFormed(start, start.now[Staged]);
    forall file | Linked(StagedSynced(start), Auth, file)
      ensures file in start.synced
    {
      assert Linked(start, Auth, file);
    }
  }

  lemma SafeFromReady(fs: Fs, start: Fs)
    requires Staged in start.now && Safe(fs, StagedSynced(start), start.now[Staged])
    ensures Safe(fs, start, start.now[Staged])
  {
  }

  lemma AllSafeFromReady(before: seq<Fs>, after: seq<Fs>, ready: Fs, start: Fs)
    requires Staged in start.now && ready == StagedSynced(start) && SafeSince(before, after, ready, start.now[Staged])
    ensures SafeSince(before, after, start, start.now[Staged])
  {
    forall k | |before| <= k < |after|
      ensures Safe(after[k], start, start.now[Staged])
    {
      SafeFromReady(after[k], start);
    }
  }

  // ---------------------------------------------------------------------
  // Crashes.

  /**
   A crash in a safe state leaves the active file as one that may have been
   active at the start, or as the whole new one; and in the latter case, if
   there was one before, the backup is that whole one.
   */
  lemma CrashLeavesOldOrNew(fs: Fs, start: Fs, staged: Inode, disk: map<Name, Data>)
    requires WellFormed(fs) && WellFormed(start) && Settled(start) && Safe(fs, start, staged) && CrashesTo(fs, disk)
    ensures Auth !in disk ==> None in Possible(start, Auth)
    ensures Auth in disk ==>
              || (exists file :: Linked(start, Auth, file) && file in start.data && disk[Auth] == start.data[file])
              || (staged in start.data && disk[Auth] == start.data[staged] &&
                  (ActiveAtStart(start) ==> Backup in disk && disk[Backup] == start.data[start.now[Auth]]))
  {
    assert MaySurvive(fs, disk, Auth) && MaySurvive(fs, disk, Backup);
    var entry :| entry in Possible(fs, Auth) && Survives(fs, disk, Auth, entry);
    if entry.Some? {
      var file := entry.value;
      assert Linked(fs, Auth, file);
      if entry in Possible(start, Auth) {
        assert Linked(start, Auth, file);
      } else {
        var backup :| backup in Possible(fs, Backup) && Survives(fs, disk, Backup, backup);
      }
    }
  }

  /** Once installed, the new file is active and the old one the backup after any crash. */
  lemma InstalledIsDurable(fs: Fs, start: Fs, staged: Inode, disk: map<Name, Data>)
    requires Installed(fs, start, staged) && CrashesTo(fs, disk)
    ensures Auth in disk && disk[Auth] == start.data[staged]
    ensures ActiveAtStart(start) ==> Backup in disk && disk[Backup] == start.data[start.now[Auth]]
  {
    assert MaySurvive(fs, disk, Auth) && MaySurvive(fs, disk, Backup);
    var entry :| entry in Possible(fs, Auth) && Survives(fs, disk, Auth, entry);
    var backup :| backup in Possible(fs, Backup) && Survives(fs, disk, Backup, backup);
  }

  /** The active file is the staged one, whole, or what may have been active before. */
  ghost predicate OldOrNew(fs: Fs, disk: map<Name, Data>)
    requires Staged in fs.now && fs.now[Staged] in fs.data
  {
    if Auth in disk then disk[Auth] == fs.data[fs.now[Staged]] || exists file :: WasActive(fs, file, disk[Auth])
    else None in Possible(fs, Auth)
  }

  predicate WasActive(fs: Fs, file: Inode, data: Data) {
    Linked(fs, Auth, file) && file in fs.data && fs.data[file] == data
  }

  /** Every crash leaves the active file so. */
  ghost predicate NeverTorn(t: Fs, fs: Fs)
    requires Staged in fs.now && fs.now[Staged] in fs.data
  {
    forall disk :: CrashesTo(t, disk) ==> OldOrNew(fs, disk)
  }

  /** Disk contents that keep every current entry, and `torn` for the active file. */
  function Torn(fs: Fs, torn: Data): map<Name, Data>
    requires forall name :: name in fs.now ==> fs.now[name] in fs.data
  {
    map name | name in fs.now :: if name == Auth then torn else fs.data[fs.now[name]]
  }

  lemma UnsyncedMayTear(fs: Fs, torn: Data)
    requires WellFormed(fs) && Auth in fs.now && fs.now[Auth] !in fs.synced
    requires forall name :: name in fs.now ==> fs.now[name] in fs.data
    ensures CrashesTo(fs, Torn(fs, torn))
  {
    forall name
      ensures MaySurvive(fs, Torn(fs, torn), name)
    {
      assert Current(fs, name) in Possible(fs, name) && Survives(fs, Torn(fs, torn), name, Current(fs, name));
    }
  }

  /** There are contents that none of the files has. */
  lemma {:induction false} SomeContents(known: set<Data>) returns (data: Data)
    ensures data !in known && forall other :: other in known ==> |other| < |data|
  {
    if known == {} {
      data := [];
    } else {
      var one :| one in known;
      var longer := SomeContents(known - {one});
      data := (if |longer| > |one| then longer else one) + [0];
    }
  }

  lemma RenamingAuth(fs: Fs)
    requires WellFormed(fs) && Staged in fs.now
    ensures var t, staged := Renamed(fs, Staged, Auth), fs.now[Staged];
            && WellFormed(t) && t.synced == fs.synced && t.data == fs.data && staged in fs.data
            && Possible(t, Auth) == Possible(fs, Auth) + {Some(staged)} && Current(t, Auth) == Some(staged)
  {
    var staged := fs.now[Staged];
    assert Linked(fs, Staged, staged);
    RenamingKeepsWellFormed(fs, Staged, Auth);
    PossibleAfter(fs, Auth, Some(staged), Auth);
    PossibleAfter(Changed(fs, Auth, Some(staged)), Staged, None, Auth);
  }

  lemma SyncedIsNeverTorn(fs: Fs)
    requires WellFormed(fs) && Settled(fs) && Staged in fs.now && fs.now[Staged] in fs.synced
    ensures fs.now[Staged] in fs.data && NeverTorn(Renamed(fs, Staged, Auth), fs)
  {
    var t := Renamed(fs, Staged, Auth);
    RenamingAuth(fs);
    forall disk | CrashesTo(t, disk)
      ensures OldOrNew(fs, disk)
    {
      assert MaySurvive(t, disk, Auth);
      var entry :| entry in Possible(t, Auth) && Survives(t, disk, Auth, entry);
      if entry.Some? && entry.value != fs.now[Staged] {
        assert Linked(fs, Auth, entry.value);
        assert WasActive(fs, entry.value, disk[Auth]);
      }
    }
  }

  lemma UnsyncedIsTorn(fs: Fs)
    requires WellFormed(fs) && Staged in fs.now && fs.now[Staged] !in fs.synced
    ensures fs.now[Staged] in fs.data && !NeverTorn(Renamed(fs, Staged, Auth), fs)
  {
    var t := Renamed(fs, Staged, Auth);
    RenamingAuth(fs);
    forall name | name in t.now
      ensures t.now[name] in t.data
    {
      assert Linked(t, name, t.now[name]);
    }
    var torn := SomeContents(fs.data.Values);
    UnsyncedMayTear(t, torn);
    var disk := Torn(t, torn);
    assert disk[Auth] == torn;
    assert !OldOrNew(fs, disk);
  }

  /**
   Syncing the staged file before it is renamed is what makes the replacement
   safe: whatever was active, a crash leaves the whole old or the whole new
   file if and only if the new one was synced.
   */
  lemma SafeExactlyWhenSynced(fs: Fs)
    requires WellFormed(fs) && Settled(fs) && Staged in fs.now
    ensures fs.now[Staged] in fs.data
    ensures NeverTorn(Renamed(fs, Staged, Auth), fs) <==> fs.now[Staged] in fs.synced
  {
    if fs.now[Staged] in fs.synced {
      SyncedIsNeverTorn(fs);
    } else {
      UnsyncedIsTorn(fs);
    }
  }

  // ---------------------------------------------------------------------
  // The file system as the installer uses it. Any operation may fail.

  datatype Operation = Creating | Writing | Syncing | Renaming | SyncingParent

  datatype Failure = NotFound | NotValid | Io | DurabilityUncertain

  /** The staged file is there and passes the check. */
  predicate HasValid(fs: Fs, valid: Data -> bool) {
    Staged in fs.now && fs.now[Staged] in fs.data && valid(fs.data[fs.now[Staged]])
  }

  /** Of the operations that failed, `after` has one more than `before` if there is a failure to tell, and it is that one. */
  predicate Tells(failure: Option<Failure>, before: seq<Operation>, after: seq<Operation>) {
    match failure
    case None => after == before
    case Some(f) =>
      && |after| == |before| + 1 && before <= after
      && f == if after[|before|].SyncingParent? then DurabilityUncertain else Io
  }

  function FailureIn(result: Result<(), Failure>): Option<Failure> {
    if result.Ok? then None else Some(result.error)
  }

  /** `history` is every state the file system passed through, and `failed` every operation that answered failure. */
  class Disk {
    var fs: Fs
    ghost var history: seq<Fs>
    ghost var failed: seq<Operation>

    constructor (fs: Fs)
      ensures this.fs == fs && history == [fs] && failed == []
    {
      this.fs, history, failed := fs, [fs], [];
    }

    method CreateNew(name: Name) returns (file: Option<Inode>)
      requires WellFormed(fs)
      modifies this
      ensures WellFormed(fs) && history == old(history) + [fs]
      ensures failed == old(failed) + if file.None? then [Creating] else []
      ensures file.None? ==> fs == old(fs)
      ensures file.Some? ==> file.value !in old(fs).data && name !in old(fs).now && fs == Created(old(fs), name, file.value)
    {
      var works: bool := *;
      file := None;
      if name !in fs.now && works {
        var inode := FreshInode(fs.data.Keys);
        CreatingKeepsWellFormed(fs, name, inode);
        file := Some(inode);
        fs := Created(fs, name, inode);
      } else {
        failed := failed + [Creating];
      }
      history := history + [fs];
    }

    /** Write all of `data`, or some of it if that fails. */
    method WriteAll(file: Inode, data: Data) returns (ok: bool, length: nat)
      requires WellFormed(fs) && file in fs.data
      modifies this
      ensures WellFormed(fs) && history == old(history) + [fs]
      ensures length <= |data| && fs == Written(old(fs), file, data[..length]) && (ok <==> length == |data|)
      ensures failed == old(failed) + if ok then [] else [Writing]
    {
      length :| length <= |data|;
      ok := length == |data|;
      WritingKeepsWellFormed(fs, file, data[..length]);
      fs := Written(fs, file, data[..length]);
      if !ok {
        failed := failed + [Writing];
      }
      history := history + [fs];
    }

    method SyncFile(file: Inode) returns (ok: bool)
      requires WellFormed(fs) && file in fs.data
      modifies this
      ensures WellFormed(fs) && history == old(history) + [fs]
      ensures fs == if ok then old(fs).(synced := old(fs).synced + {file}) else old(fs)
      ensures failed == old(failed) + if ok then [] else [Syncing]
    {
      ok := *;
      if ok {
        SyncingKeepsWellFormed(fs, file);
        fs := fs.(synced := fs.synced + {file});
      } else {
        failed := failed + [Syncing];
      }
      history := history + [fs];
    }

    method Rename(from: Name, to: Name) returns (ok: bool)
      requires WellFormed(fs)
      modifies this
      ensures WellFormed(fs) && history == old(history) + [fs]
      ensures ok ==> from in old(fs).now && fs == Renamed(old(fs), from, to)
      ensures !ok ==> fs == old(fs)
      ensures failed == old(failed) + if ok then [] else [Renaming]
    {
      var works: bool := *;
      ok := works && from in fs.now;
      if ok {
        RenamingKeepsWellFormed(fs, from, to);
        fs := Renamed(fs, from, to);
      } else {
        failed := failed + [Renaming];
      }
      history := history + [fs];
    }

    /** Nothing depends on a removal, and nobody is told of its failure. */
    method Remove(name: Name)
      requires WellFormed(fs)
      modifies this
      ensures WellFormed(fs) && history == old(history) + [fs] && failed == old(failed)
      ensures fs == old(fs) || fs == Changed(old(fs), name, None)
    {
      var works: bool := *;
      if works {
        ChangingKeepsWellFormed(fs, name, None);
        fs := Changed(fs, name, None);
      }
      history := history + [fs];
    }

    method SyncParent() returns (ok: bool)
      requires WellFormed(fs)
      modifies this
      ensures WellFormed(fs) && history == old(history) + [fs]
      ensures fs == if ok then ParentSynced(old(fs)) else old(fs)
      ensures failed == old(failed) + if ok then [] else [SyncingParent]
    {
      ok := *;
      if ok {
        ParentSyncingKeepsWellFormed(fs);
        fs := ParentSynced(fs);
      } else {
        failed := failed + [SyncingParent];
      }
      history := history + [fs];
    }

    /** Fill a new temporary file, and sync it. */
    method Fill(stamp: nat, file: Inode, data: Data, ghost start: Fs) returns (ok: bool)
      requires WellFormed(fs) && Aside(fs, start) && file in fs.data && file !in start.synced
      requires Current(fs, Temporary(stamp)) == Some(file)
      modifies this
      ensures WellFormed(fs) && Aside(fs, start) && AsideSince(old(history), history, start)
      ensures Current(fs, Temporary(stamp)) == Some(file)
      ensures ok ==> file in fs.synced && file in fs.data && fs.data[file] == data
      ensures Tells(if ok then None else Some(Io), old(failed), failed)
    {
      ghost var before := fs;
      var length;
      ok, length := WriteAll(file, data);
      WritingAside(before, start, file, data[..length]);
      assert data[..|data|] == data;
      if ok {
        ok := SyncFile(file);
      }
    }

    /** Make and fill the temporary file, or leave none. */
    method WriteTemporary(stamp: nat, data: Data, ghost start: Fs) returns (file: Option<Inode>)
      requires WellFormed(fs) && WellFormed(start) && Aside(fs, start)
      modifies this
      ensures WellFormed(fs) && Aside(fs, start) && AsideSince(old(history), history, start)
      ensures file.Some? ==>
                && Current(fs, Temporary(stamp)) == file
                && file.value in fs.synced && file.value in fs.data && fs.data[file.value] == data
      ensures Tells(if file.Some? then None else Some(Io), old(failed), failed)
    {
      ghost var before := fs;
      file := CreateNew(Temporary(stamp));
      if file.None? {
        return;
      }
      CreatingAside(before, start, Temporary(stamp), file.value);
      var filled := Fill(stamp, file.value, data, start);
      if !filled {
        before := fs;
        Remove(Temporary(stamp));
        ChangingAside(before, start, Temporary(stamp), None);
        return None;
      }
    }

    /** Put `data` at the backup's name, through a temporary file beside it. */
    method WriteBackup(stamp: nat, data: Data, ghost start: Fs) returns (ok: bool)
      requires WellFormed(fs) && WellFormed(start) && Aside(fs, start)
      modifies this
      ensures WellFormed(fs) && Aside(fs, start) && AsideSince(old(history), history, start)
      ensures ok ==> Backup in fs.now && fs.now[Backup] in fs.synced && fs.now[Backup] in fs.data && fs.data[fs.now[Backup]] == data
      ensures Tells(if ok then None else Some(Io), old(failed), failed)
    {
      var file := WriteTemporary(stamp, data, start);
      if file.None? {
        return false;
      }
      ghost var before := fs;
      ok := Rename(Temporary(stamp), Backup);
      if ok {
        RenamingAside(before, start, Temporary(stamp), Backup);
      } else {
        Remove(Temporary(stamp));
        ChangingAside(before, start, Temporary(stamp), None);
      }
    }

    /** Keep the active file, if there is one, as the backup, durably. */
    method KeepBackup(stamp: nat) returns (failure: Option<Failure>)
      requires Ready(fs)
      modifies this
      ensures WellFormed(fs) && Safe(fs, old(fs), old(fs).now[Staged])
      ensures SafeSince(old(history), history, old(fs), old(fs).now[Staged])
      ensures Current(fs, Staged) == Current(old(fs), Staged) && Current(fs, Auth) == Current(old(fs), Auth)
      ensures failure.None? && ActiveAtStart(old(fs)) ==> BackedUp(fs, old(fs).data[old(fs).now[Auth]])
      ensures Tells(failure, old(failed), failed)
    {
      ghost var start := fs;
      AsideIsSafe(fs, start);
      if Auth !in fs.now {
        return None;
      }
      assert Linked(fs, Auth, fs.now[Auth]);
      var backed := WriteBackup(stamp, fs.data[fs.now[Auth]], start);
      AllAsideAreSafe(old(history), history, start);
      AsideIsSafe(fs, start);
      if !backed {
        return Some(Io);
      }
      SyncedAside(fs, start);
      var durable := SyncParent();
      return if durable then None else Some(DurabilityUncertain);
    }

    /** Make the staged file the active one, keeping the one before as the backup. */
    method InstallAuth(valid: Data -> bool, stamp: nat) returns (result: Result<(), Failure>)
      requires WellFormed(fs) && Settled(fs) && (Staged in fs.now ==> Ready(fs))
      modifies this
      ensures WellFormed(fs)
      ensures Staged !in old(fs).now ==> result == Err(NotFound) && fs == old(fs) && history == old(history)
      ensures Staged in old(fs).now ==> SafeSince(old(history), history, old(fs), old(fs).now[Staged])
      ensures Staged in old(fs).now ==> Safe(fs, old(fs), old(fs).now[Staged])
      ensures result.Ok? <==> HasValid(old(fs), valid) && failed == old(failed)
      ensures result.Ok? ==> Installed(fs, old(fs), old(fs).now[Staged])
      ensures Staged in old(fs).now && !HasValid(old(fs), valid) ==>
                result == Err(NotValid) && fs == old(fs) && history == old(history)
      ensures if HasValid(old(fs), valid) then Tells(FailureIn(result), old(failed), failed) else failed == old(failed)
      ensures result.Err? ==> Current(fs, Auth) == Current(old(fs), Auth) || Current(fs, Auth) == Current(old(fs), Staged)
    {
      if Staged !in fs.now {
        return Err(NotFound);
      }
      assert Linked(fs, Staged, fs.now[Staged]);
      UnchangedIsSafe(fs, fs.now[Staged]);
      if !valid(fs.data[fs.now[Staged]]) {
        return Err(NotValid);
      }
      result := Replace(stamp);
    }

    method Replace(stamp: nat) returns (result: Result<(), Failure>)
      requires Ready(fs)
      modifies this
      ensures WellFormed(fs) && Safe(fs, old(fs), old(fs).now[Staged])
      ensures SafeSince(old(history), history, old(fs), old(fs).now[Staged])
      ensures result.Ok? ==> Installed(fs, old(fs), old(fs).now[Staged])
      ensures Tells(FailureIn(result), old(failed), failed)
      ensures result.Err? ==> Current(fs, Auth) == Current(old(fs), Auth) || Current(fs, Auth) == Current(old(fs), Staged)
    {
      ghost var start := fs;
      var failure := KeepBackup(stamp);
      if failure.Some? {
        return Err(failure.value);
      }
      ReplacingIsSafe(fs, start);
      var replaced := Rename(Staged, Auth);
      if !replaced {
        return Err(Io);
      }
      FinalSyncInstalls(fs, start);
      var durable := SyncParent();
      return if durable then Ok(()) else Err(DurabilityUncertain);
    }

    /**
     The end of a login: the file the device login staged is checked, synced
     and installed, and the staging directory removed. It need not be synced
     before.
     */
    method FinishLogin(valid: Data -> bool, stamp: nat) returns (result: Result<(), Failure>)
      requires WellFormed(fs) && Settled(fs) && Staged in fs.now && !Linked(fs, Auth, fs.now[Staged])
      modifies this
      ensures WellFormed(fs)
      ensures SafeSince(old(history), history, old(fs), old(fs).now[Staged])
      ensures result.Ok? <==> HasValid(old(fs), valid) && failed == old(failed)
      ensures result.Ok? ==> Installed(fs, old(fs), old(fs).now[Staged])
      ensures !HasValid(old(fs), valid) ==> result == Err(NotValid) && failed == old(failed)
      ensures HasValid(old(fs), valid) ==> Tells(FailureIn(result), old(failed), failed)
    {
      ghost var start, staged := fs, fs.now[Staged];
      assert Linked(fs, Staged, staged);
      UnchangedIsSafe(fs, staged);
      if !valid(fs.data[fs.now[Staged]]) {
        RemovingStagedIsSafe(fs, start, staged);
        Remove(Staged);
        return Err(NotValid);
      }
      var synced := SyncFile(fs.now[Staged]);
      SyncingStagedIsReady(start);
      if !synced {
        RemovingStagedIsSafe(fs, start, staged);
        Remove(Staged);
        return Err(Io);
      }
      ghost var ready, before := fs, history;
      result := InstallAuth(valid, stamp);
      AllSafeFromReady(before, history, ready, start);
      SafeFromReady(fs, start);
      RemovingStagedIsSafe(fs, start, staged);
      Remove(Staged);
    }
  }
}
