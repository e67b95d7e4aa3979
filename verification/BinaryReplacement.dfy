/**
 Replacing the running binary on disk, with every file operation free to fail and
 the process free to stop at any moment: the disk after each operation is kept
 in a history, and what must never be lost is stated about the whole history.
 */
module BinaryReplacement {
  import opened Prelude

  /** A directory, and the last component when it is a proper file name. */
  datatype Path = Path(directory: string, fileName: Option<string>)

  type Contents = string

  type Files = map<Path, Contents>

  // ── The backup path ────────────────────────────────────────────────────────

  function LastDot(name: string): Option<nat> {
    if name == "" then None
    else if name[|name| - 1] == '.' then Some(|name| - 1)
    else LastDot(name[..|name| - 1])
  }

  lemma {:induction false} LastDotIsDot(name: string)
    ensures LastDot(name).Some? ==> LastDot(name).value < |name| && name[LastDot(name).value] == '.'
  {
    if name != "" && name[|name| - 1] != '.' {
      LastDotIsDot(name[..|name| - 1]);
    }
  }

  /** `Path::extension`: what follows the last dot, unless that dot comes first. */
  function Extension(name: string): Option<string> {
    match LastDot(name)
    case Some(i) => if 0 < i < |name| then Some(name[i + 1..]) else None
    case None => None
  }

  function Stem(name: string): string {
    match LastDot(name)
    case Some(i) => if 0 < i < |name| then name[..i] else name
    case None => name
  }

  /** `Path::set_extension` with a non-empty extension; without a file name it does nothing. */
  function SetExtension(p: Path, extension: string): Path {
    match p.fileName
    case Some(name) => p.(fileName := Some(Stem(name) + "." + extension))
    case None => p
  }

  function BackupPath(target: Path): Path {
    var extension := if target.fileName.Some? then Extension(target.fileName.value) else None;
    SetExtension(target, if extension.Some? then extension.value + ".bak" else "bak")
  }

  /** The backup is the target with `.bak` appended, so never the target itself, unless there is no file name. */
  lemma BackupIsElsewhere(target: Path)
    ensures BackupPath(target) == target <==> target.fileName.None?
    ensures target.fileName.Some? ==> BackupPath(target) == target.(fileName := Some(target.fileName.value + ".bak"))
  {
    if target.fileName.Some? {
      var name := target.fileName.value;
      LastDotIsDot(name);
      if Extension(name).Some? {
        assert name == Stem(name) + "." + Extension(name).value;
        assert Stem(name) + "." + (Extension(name).value + ".bak") == name + ".bak";
      } else {
        assert name + "." + "bak" == name + ".bak";
      }
      assert |name + ".bak"| > |name|;
    }
  }

  // ── The disk ───────────────────────────────────────────────────────────────

  /** How a copy ends; it writes through a partly written destination in any case but a refusal. */
  datatype CopyEnd = Refused | Broken(written: Contents) | Whole

  /** Which operations succeed. A probe that fails answers that nothing is there. */
  datatype Luck = Luck(
    seesStale: bool, removesStale: bool,
    seesTarget: bool, backsUp: bool,
    moves: bool, copies: CopyEnd, halfway: Contents, removesSource: bool,
    readsMode: bool, setsMode: bool,
    seesBackup: bool, removesBackup: bool,
    seesRestorable: bool, restores: bool)

  class Disk {
    var files: Files
    /** The files with the executable bit set. */
    var executable: set<Path>
    ghost var history: seq<Files>

    constructor (files: Files, executable: set<Path>)
      ensures this.files == files && this.executable == executable && history == [files]
    {
      this.files := files;
      this.executable := executable;
      history := [files];
    }

    predicate Exists(p: Path, works: bool)
      reads this
    {
      works && p in files
    }

    method Remove(p: Path, works: bool) returns (ok: bool)
      modifies this
      ensures ok == (works && p in old(files))
      ensures files == if ok then old(files) - {p} else old(files)
      ensures executable == if ok then old(executable) - {p} else old(executable)
      ensures history == old(history) + [files]
    {
      ok := works && p in files;
      if ok {
        files := files - {p};
        executable := executable - {p};
      }
      history := history + [files];
    }

    method Rename(from: Path, to: Path, works: bool) returns (ok: bool)
      modifies this
      ensures ok == (works && from in old(files))
      ensures files == if ok then (old(files) - {from})[to := old(files)[from]] else old(files)
      ensures executable == if ok then Moved(old(executable), from, to) else old(executable)
      ensures history == old(history) + [files]
    {
      ok := works && from in files;
      if ok {
        files := (files - {from})[to := files[from]];
        executable := Moved(executable, from, to);
      }
      history := history + [files];
    }

    method Copy(from: Path, to: Path, end: CopyEnd, halfway: Contents) returns (ok: bool)
      modifies this
      ensures ok == (end.Whole? && from in old(files))
      ensures if from !in old(files) || end.Refused? then files == old(files) && history == old(history) + [files]
              else
                && files == old(files)[to := if end.Whole? then old(files)[from] else end.written]
                && history == old(history) + [old(files)[to := halfway], files]
      ensures to in executable <==> (if from !in old(files) || end.Refused? then to else from) in old(executable)
      ensures forall p :: p != to ==> (p in executable <==> p in old(executable))
    {
      ok := false;
      if from in files && !end.Refused? {
        var whole := files[from];
        files := files[to := halfway];
        history := history + [files];
        executable := if from in executable then executable + {to} else executable - {to};
        match end {
          case Whole =>
            files := files[to := whole];
            ok := true;
          case Broken(written) =>
            files := files[to := written];
        }
      }
      history := history + [files];
    }

    /** Reading the permission bits and writing them back with the executable ones added. */
    method MakeExecutable(p: Path, readsMode: bool, setsMode: bool) returns (ok: bool)
      modifies this`executable
      ensures ok == (readsMode && setsMode && p in files)
      ensures executable == if ok then old(executable) + {p} else old(executable)
    {
      ok := readsMode && setsMode && p in files;
      if ok {
        executable := executable + {p};
      }
    }
  }

  /** A rename takes the executable bit along. */
  function Moved(executable: set<Path>, from: Path, to: Path): (r: set<Path>)
    ensures to in r <==> from in executable
    ensures forall p :: p != from && p != to ==> (p in r <==> p in executable)
    ensures from != to ==> from !in r
  {
    if from in executable then executable - {from} + {to} else executable - {to}
  }

  // ── Replacement ────────────────────────────────────────────────────────────

  /** Either binary is usable: the old one at one of its two places, or the new one in place. */
  ghost predicate Usable(files: Files, target: Path, before: Contents, after: Contents) {
    || (target in files && (files[target] == before || files[target] == after))
    || (BackupPath(target) in files && files[BackupPath(target)] == before)
  }

  /** The states from number `n` on. */
  ghost predicate UsableSince(history: seq<Files>, n: nat, target: Path, before: Contents, after: Contents) {
    forall i :: n <= i < |history| ==> Usable(history[i], target, before, after)
  }

  ghost predicate AlwaysUsable(history: seq<Files>, target: Path, before: Contents, after: Contents) {
    UsableSince(history, 0, target, before, after)
  }

  lemma OneMoreState(history: seq<Files>, files: Files, n: nat, target: Path, before: Contents, after: Contents)
    requires n <= |history|
    ensures UsableSince(history + [files], n, target, before, after) <==>
              UsableSince(history, n, target, before, after) && Usable(files, target, before, after)
  {
    assert (history + [files])[|history|] == files;
    assert forall i :: 0 <= i < |history| ==> (history + [files])[i] == history[i];
  }

  lemma TwoMoreStates(history: seq<Files>, first: Files, second: Files, n: nat, target: Path, before: Contents,
                      after: Contents)
    requires n <= |history|
    ensures UsableSince(history + [first, second], n, target, before, after) <==>
              && UsableSince(history, n, target, before, after)
              && Usable(first, target, before, after)
              && Usable(second, target, before, after)
  {
    assert history + [first, second] == history + [first] + [second];
    OneMoreState(history, first, n, target, before, after);
    OneMoreState(history + [first], second, n, target, before, after);
  }

  lemma HistorySplits(history: seq<Files>, earlier: seq<Files>, n: nat, target: Path, before: Contents, after: Contents)
    requires earlier <= history && n <= |earlier|
    ensures UsableSince(history, n, target, before, after) <==>
              UsableSince(earlier, n, target, before, after) && UsableSince(history, |earlier|, target, before, after)
  {
    assert forall i :: 0 <= i < |earlier| ==> history[i] == earlier[i];
  }

  /** The paths do not collide, and the new binary is there. */
  ghost predicate Ready(files: Files, source: Path, target: Path) {
    && target.fileName.Some?
    && source != target && source != BackupPath(target)
    && source in files
  }

  /**
   The old binary `before` is whole somewhere: in place, or at the backup path. There
   it is alone when an update was stopped after backing it up, with nothing in place
   yet or with the fragment of a copy.
   */
  ghost predicate HasOld(files: Files, target: Path, before: Contents) {
    Holds(files, target, before) || Holds(files, BackupPath(target), before)
  }

  ghost predicate Sees(files: Files, target: Path, luck: Luck) {
    luck.seesTarget && target in files
  }

  ghost predicate Holds(files: Files, p: Path, contents: Contents) {
    p in files && files[p] == contents
  }

  /** A backup found there at the beginning is still lying there when `replace_binary` is done with it. */
  ghost predicate StaleLeft(files: Files, target: Path, luck: Luck) {
    && BackupPath(target) in files
    && if luck.seesStale then !luck.removesStale else !(Sees(files, target, luck) && luck.backsUp)
  }

  /** A backup from before is removed, and what is in place is neither binary. */
  ghost predicate OnlyCopyRemoved(files: Files, target: Path, luck: Luck, before: Contents, after: Contents) {
    && BackupPath(target) in files && luck.seesStale && luck.removesStale
    && !Holds(files, target, before) && !Holds(files, target, after)
  }

  /** What is in place is backed up although it is not the old binary, so over a backup that was not removed, if any. */
  ghost predicate BacksUpAnother(files: Files, target: Path, luck: Luck, before: Contents) {
    && !(luck.seesStale && StaleLeft(files, target, luck))
    && Sees(files, target, luck) && luck.backsUp
    && files[target] != before
  }

  /** Room is made, but the backup is not the old binary, and a copy writes over what is in place. */
  ghost predicate CopiedOver(files: Files, target: Path, luck: Luck, before: Contents, after: Contents) {
    && MakesRoom(files, target, luck)
    && !(if Sees(files, target, luck) then files[target] == before
         else StaleLeft(files, target, luck) && files[BackupPath(target)] == before)
    && WritesOver(luck, before, after)
  }

  /** `replace_binary` has neither binary at some moment. */
  ghost predicate Loses(files: Files, target: Path, luck: Luck, before: Contents, after: Contents) {
    || OnlyCopyRemoved(files, target, luck, before, after)
    || BacksUpAnother(files, target, luck, before)
    || CopiedOver(files, target, luck, before, after)
  }

  /** With the copy under way: a fragment in place, and what was there, if seen, at the backup path only. */
  ghost predicate Fragment(now: Files, start: Files, source: Path, target: Path, luck: Luck) {
    && Holds(now, target, luck.halfway)
    && source in start && Holds(now, source, start[source])
    && (Sees(start, target, luck) ==> Holds(now, BackupPath(target), start[target]))
  }

  ghost predicate HadFragment(history: seq<Files>, start: Files, source: Path, target: Path, luck: Luck) {
    exists i :: 0 <= i < |history| && Fragment(history[i], start, source, target, luck)
  }

  lemma FragmentSeen(history: seq<Files>, n: nat, room: Files, start: Files, source: Path, target: Path, luck: Luck)
    requires exists i :: n <= i < |history| && history[i] == room[target := luck.halfway]
    requires source != target && BackupPath(target) != target && source in start
    requires Holds(room, source, start[source])
    requires Sees(start, target, luck) ==> Holds(room, BackupPath(target), start[target])
    ensures HadFragment(history, start, source, target, luck)
  {
    var i :| n <= i < |history| && history[i] == room[target := luck.halfway];
    assert Fragment(history[i], start, source, target, luck);
  }

  lemma HadFragmentStays(history: seq<Files>, earlier: seq<Files>, start: Files, source: Path, target: Path, luck: Luck)
    requires earlier <= history && HadFragment(earlier, start, source, target, luck)
    ensures HadFragment(history, start, source, target, luck)
  {
    var i :| 0 <= i < |earlier| && Fragment(earlier[i], start, source, target, luck);
    assert history[i] == earlier[i];
  }

  /** The copy comes under way. */
  ghost predicate Copies(start: Files, target: Path, luck: Luck) {
    MakesRoom(start, target, luck) && !luck.moves && !luck.copies.Refused?
  }

  predicate WritesOver(luck: Luck, before: Contents, after: Contents) {
    !luck.moves && CopyWrites(luck, before, after)
  }

  /** The copy, at some moment, leaves neither binary at its destination. */
  predicate CopyWrites(luck: Luck, before: Contents, after: Contents) {
    && !luck.copies.Refused?
    && (luck.halfway !in {before, after} || (luck.copies.Broken? && luck.copies.written !in {before, after}))
  }

  /** The stale backup, if seen, goes away, and the target, if seen, is backed up. */
  ghost predicate MakesRoom(files: Files, target: Path, luck: Luck) {
    !(luck.seesStale && StaleLeft(files, target, luck)) && (Sees(files, target, luck) ==> luck.backsUp)
  }

  /** The new binary can be neither moved nor copied into place. */
  predicate InstallRefused(luck: Luck) {
    !luck.moves && luck.copies.Refused?
  }

  predicate Installs(luck: Luck) {
    (luck.moves || (luck.copies.Whole? && luck.removesSource)) && luck.readsMode && luck.setsMode
  }

  /** No file but these three is touched. */
  ghost predicate OnlyOurs(before: Files, after: Files, source: Path, target: Path) {
    after - {source, target, BackupPath(target)} == before - {source, target, BackupPath(target)}
  }

  /** `replace_binary`; `before` is any contents that count as the old binary. */
  method ReplaceBinary(disk: Disk, source: Path, target: Path, luck: Luck, ghost before: Contents) returns (ok: bool)
    requires Ready(disk.files, source, target) && disk.history == [disk.files]
    modifies disk
    ensures |disk.history| > 0 && disk.history[|disk.history| - 1] == disk.files
    ensures HasOld(old(disk.files), target, before) ==>
              (AlwaysUsable(disk.history, target, before, old(disk.files)[source]) <==>
                 !Loses(old(disk.files), target, luck, before, old(disk.files)[source]))
    ensures ok <==> MakesRoom(old(disk.files), target, luck) && Installs(luck)
    ensures ok <==>
              && (luck.seesStale && BackupPath(target) in old(disk.files) ==> luck.removesStale)
              && (luck.seesTarget && target in old(disk.files) ==> luck.backsUp)
              && (luck.moves || (luck.copies.Whole? && luck.removesSource))
              && luck.readsMode && luck.setsMode
    ensures ok ==> target in disk.executable
    ensures !ok && StaleLeft(old(disk.files), target, luck) ==>
              (BackupPath(target) in disk.executable <==> BackupPath(target) in old(disk.executable))
    ensures !ok && MakesRoom(old(disk.files), target, luck) && Sees(old(disk.files), target, luck) ==>
              (BackupPath(target) in disk.executable <==> target in old(disk.executable))
    ensures ok ==> Holds(disk.files, target, old(disk.files)[source]) && source !in disk.files
    ensures ok && luck.seesBackup && luck.removesBackup ==> BackupPath(target) !in disk.files
    ensures !ok ==> (BackupPath(target) in disk.files <==>
                       || StaleLeft(old(disk.files), target, luck)
                       || (MakesRoom(old(disk.files), target, luck) && Sees(old(disk.files), target, luck)))
    ensures OnlyOurs(old(disk.files), disk.files, source, target)
    ensures StaleLeft(old(disk.files), target, luck) && !ok ==>
              Holds(disk.files, BackupPath(target), old(disk.files)[BackupPath(target)])
    ensures target in old(disk.files) && !StaleLeft(old(disk.files), target, luck) && !ok ==>
              || Holds(disk.files, BackupPath(target), old(disk.files)[target])
              || (BackupPath(target) !in disk.files &&
                  (luck.seesTarget ==> Holds(disk.files, target, old(disk.files)[target])))
    ensures InstallRefused(luck) ==>
              // nothing is in place but what was there
              && (target in disk.files ==> Holds(old(disk.files), target, disk.files[target]))
              && (BackupPath(target) in disk.files && !StaleLeft(old(disk.files), target, luck) ==>
                    Holds(old(disk.files), target, disk.files[BackupPath(target)]))
    ensures Copies(old(disk.files), target, luck) ==>
              HadFragment(disk.history, old(disk.files), source, target, luck)
  {
    BackupIsElsewhere(target);
    var room := BackUp(disk, source, target, luck, before);
    if !room {
      return false;
    }
    ghost var earlier, start, made := disk.history, old(disk.files), disk.files;
    ok := Install(disk, source, target, luck, before);
    HistorySplits(disk.history, earlier, 0, target, before, old(disk.files)[source]);
    if Copies(start, target, luck) {
      FragmentSeen(disk.history, |earlier|, made, start, source, target, luck);
    }
    if !ok {
      return false;
    }
    ghost var installed := disk.history;
    CleanUp(disk, source, target, luck, before, old(disk.files)[source]);
    HistorySplits(disk.history, installed, 0, target, before, old(disk.files)[source]);
    if Copies(old(disk.files), target, luck) {
      HadFragmentStays(disk.history, installed, old(disk.files), source, target, luck);
    }
  }

  /** The backup goes once the new binary is in place; failing to remove it is no failure. */
  method CleanUp(disk: Disk, source: Path, target: Path, luck: Luck, ghost before: Contents, ghost after: Contents)
    requires target.fileName.Some? && source != target && source != BackupPath(target)
    requires Holds(disk.files, target, after)
    modifies disk
    ensures old(disk.history) <= disk.history
    ensures |disk.history| > |old(disk.history)| ==> disk.history[|disk.history| - 1] == disk.files
    ensures |disk.history| == |old(disk.history)| ==> disk.files == old(disk.files)
    ensures UsableSince(disk.history, |old(disk.history)|, target, before, after)
    ensures Holds(disk.files, target, after) && (source in disk.files <==> source in old(disk.files))
    ensures target in disk.executable <==> target in old(disk.executable)
    ensures luck.seesBackup && luck.removesBackup ==> BackupPath(target) !in disk.files
    ensures OnlyOurs(old(disk.files), disk.files, source, target)
  {
    BackupIsElsewhere(target);
    if disk.Exists(BackupPath(target), luck.seesBackup) {
      ghost var installed := disk.history;
      var removed := disk.Remove(BackupPath(target), luck.removesBackup);
      OneMoreState(installed, disk.files, |installed|, target, before, after);
    }
  }

  /** Clearing away a stale backup, and backing up the existing binary. */
  method BackUp(disk: Disk, source: Path, target: Path, luck: Luck, ghost before: Contents) returns (ok: bool)
    requires Ready(disk.files, source, target) && disk.history == [disk.files]
    modifies disk
    ensures |disk.history| > 0 && disk.history[|disk.history| - 1] == disk.files
    ensures HasOld(old(disk.files), target, before) ==>
              (AlwaysUsable(disk.history, target, before, old(disk.files)[source]) <==>
                 && !OnlyCopyRemoved(old(disk.files), target, luck, before, old(disk.files)[source])
                 && !BacksUpAnother(old(disk.files), target, luck, before))
    ensures Holds(disk.files, source, old(disk.files)[source])
    // stopped after this, the old binary is at the backup path only
    ensures ok && Sees(old(disk.files), target, luck) ==>
              Holds(disk.files, BackupPath(target), old(disk.files)[target]) && target !in disk.files
    ensures !(ok && Sees(old(disk.files), target, luck)) ==>
              && (target in disk.files <==> target in old(disk.files))
              && (target in disk.files ==> disk.files[target] == old(disk.files)[target])
              && (BackupPath(target) in disk.files <==> StaleLeft(old(disk.files), target, luck))
              && (StaleLeft(old(disk.files), target, luck) ==>
                    Holds(disk.files, BackupPath(target), old(disk.files)[BackupPath(target)]))
    ensures ok <==> MakesRoom(old(disk.files), target, luck)
    ensures StaleLeft(old(disk.files), target, luck) ==>
              (BackupPath(target) in disk.executable <==> BackupPath(target) in old(disk.executable))
    ensures ok && Sees(old(disk.files), target, luck) ==>
              (BackupPath(target) in disk.executable <==> target in old(disk.executable))
    ensures OnlyOurs(old(disk.files), disk.files, source, target)
  {
    BackupIsElsewhere(target);
    var backup := BackupPath(target);
    if disk.Exists(backup, luck.seesStale) {
      var removed := disk.Remove(backup, luck.removesStale);
      if !removed {
        return false;
      }
    }
    if disk.Exists(target, luck.seesTarget) {
      var moved := disk.Rename(target, backup, luck.backsUp);
      if !moved {
        return false;
      }
    }
    ok := true;
  }

  /** From moving the new binary in to making it executable. */
  method Install(disk: Disk, source: Path, target: Path, luck: Luck, ghost before: Contents) returns (ok: bool)
    requires target.fileName.Some? && source != target && source != BackupPath(target)
    requires source in disk.files
    modifies disk
    ensures old(disk.history) <= disk.history && |old(disk.history)| < |disk.history|
    ensures disk.history[|disk.history| - 1] == disk.files
    ensures Usable(old(disk.files), target, before, old(disk.files)[source]) ==>
              (UsableSince(disk.history, |old(disk.history)|, target, before, old(disk.files)[source]) <==>
                 || old(Holds(disk.files, BackupPath(target), before))
                 || !WritesOver(luck, before, old(disk.files)[source]))
    ensures BackupPath(target) in disk.files <==> BackupPath(target) in old(disk.files)
    ensures BackupPath(target) in disk.files ==> disk.files[BackupPath(target)] == old(disk.files)[BackupPath(target)]
    ensures BackupPath(target) in disk.executable <==> BackupPath(target) in old(disk.executable)
    ensures ok <==> Installs(luck)
    ensures ok <==> (luck.moves || (luck.copies.Whole? && luck.removesSource)) && luck.readsMode && luck.setsMode
    ensures ok ==> target in disk.executable
    ensures InstallRefused(luck) ==> disk.files == old(disk.files)
    ensures !luck.moves && !luck.copies.Refused? ==>
              exists i :: |old(disk.history)| <= i < |disk.history| &&
                          disk.history[i] == old(disk.files)[target := luck.halfway]
    ensures ok ==> Holds(disk.files, target, old(disk.files)[source]) && source !in disk.files
    ensures OnlyOurs(old(disk.files), disk.files, source, target)
  {
    BackupIsElsewhere(target);
    ghost var n, after, h0 := |disk.history|, disk.files[source], disk.history;
    var renamed := disk.Rename(source, target, luck.moves);
    OneMoreState(h0, disk.files, n, target, before, after);
    if !renamed {
      ghost var h1 := disk.history;
      var copied := CopyIn(disk, source, target, luck, before);
      HistorySplits(disk.history, h1, n, target, before, after);
      if !copied {
        return false;
      }
    }
    ok := disk.MakeExecutable(target, luck.readsMode, luck.setsMode);
  }

  /** The fallback when renaming fails, as it does across mount points: copy, then remove the original. */
  method CopyIn(disk: Disk, source: Path, target: Path, luck: Luck, ghost before: Contents) returns (ok: bool)
    requires target.fileName.Some? && source != target && source != BackupPath(target)
    requires source in disk.files
    modifies disk
    ensures old(disk.history) <= disk.history && |old(disk.history)| < |disk.history|
    ensures disk.history[|disk.history| - 1] == disk.files
    ensures Usable(old(disk.files), target, before, old(disk.files)[source]) ==>
              (UsableSince(disk.history, |old(disk.history)|, target, before, old(disk.files)[source]) <==>
                 || old(Holds(disk.files, BackupPath(target), before))
                 || !CopyWrites(luck, before, old(disk.files)[source]))
    ensures BackupPath(target) in disk.files <==> BackupPath(target) in old(disk.files)
    ensures BackupPath(target) in disk.files ==> disk.files[BackupPath(target)] == old(disk.files)[BackupPath(target)]
    ensures BackupPath(target) in disk.executable <==> BackupPath(target) in old(disk.executable)
    ensures ok <==> luck.copies.Whole? && luck.removesSource
    ensures luck.copies.Refused? ==> disk.files == old(disk.files)
    ensures !luck.copies.Refused? ==> disk.history[|old(disk.history)|] == old(disk.files)[target := luck.halfway]
    ensures ok ==> Holds(disk.files, target, old(disk.files)[source]) && source !in disk.files
    ensures OnlyOurs(old(disk.files), disk.files, source, target)
  {
    BackupIsElsewhere(target);
    ghost var n, after, h := |disk.history|, disk.files[source], disk.history;
    ghost var halfway := disk.files[target := luck.halfway];
    var copied := disk.Copy(source, target, luck.copies, luck.halfway);
    if luck.copies.Refused? {
      OneMoreState(h, disk.files, n, target, before, after);
    } else {
      TwoMoreStates(h, halfway, disk.files, n, target, before, after);
    }
    if !copied {
      return false;
    }
    ghost var h' := disk.history;
    ok := disk.Remove(source, luck.removesSource);
    OneMoreState(h', disk.files, n, target, before, after);
  }

  /**
   `main`: replace, and on failure put back whatever is at the backup path. For any
   disk on which `before` is whole somewhere, so also for what an earlier update has
   left behind wherever it was stopped.
   */
  method Update(disk: Disk, source: Path, target: Path, luck: Luck, ghost before: Contents)
    returns (ok: bool, restored: bool)
    requires Ready(disk.files, source, target) && disk.history == [disk.files]
    modifies disk
    ensures HasOld(old(disk.files), target, before) ==>
              (AlwaysUsable(disk.history, target, before, old(disk.files)[source]) <==>
                 && !Loses(old(disk.files), target, luck, before, old(disk.files)[source])
                 && !(!ok && RestoresStale(old(disk.files), target, luck, before, old(disk.files)[source])))
    ensures ok <==> MakesRoom(old(disk.files), target, luck) && Installs(luck)
    ensures ok <==>
              && (luck.seesStale && BackupPath(target) in old(disk.files) ==> luck.removesStale)
              && (luck.seesTarget && target in old(disk.files) ==> luck.backsUp)
              && (luck.moves || (luck.copies.Whole? && luck.removesSource))
              && luck.readsMode && luck.setsMode
    ensures ok ==> target in disk.executable
    // a first update that sees what it replaces has a binary at every moment, whatever fails
    ensures Holds(old(disk.files), target, before) && luck.seesTarget && BackupPath(target) !in old(disk.files) ==>
              forall i :: 0 <= i < |disk.history| ==>
                || (target in disk.history[i] && disk.history[i][target] in {before, old(disk.files)[source]})
                || (BackupPath(target) in disk.history[i] && disk.history[i][BackupPath(target)] == before)
    // the restore puts back the old binary as it was, unless the update had stopped before the backup
    ensures !ok && luck.seesTarget && target in old(disk.files) && luck.backsUp &&
            (luck.seesStale && BackupPath(target) in old(disk.files) ==> luck.removesStale) &&
            luck.seesRestorable && luck.restores ==>
              && restored && Holds(disk.files, target, old(disk.files)[target])
              && (target in disk.executable <==> target in old(disk.executable))
    ensures ok ==> !restored && Holds(disk.files, target, old(disk.files)[source])
    ensures restored <==>
              && !ok && luck.seesRestorable && luck.restores
              && (StaleLeft(old(disk.files), target, luck) ||
                  (MakesRoom(old(disk.files), target, luck) && Sees(old(disk.files), target, luck)))
    ensures OnlyOurs(old(disk.files), disk.files, source, target)
    ensures restored && StaleLeft(old(disk.files), target, luck) ==>
              Holds(disk.files, target, old(disk.files)[BackupPath(target)])
    ensures restored && !StaleLeft(old(disk.files), target, luck) ==>
              target in old(disk.files) && Holds(disk.files, target, old(disk.files)[target])
    ensures !ok && !restored && Sees(old(disk.files), target, luck) && !StaleLeft(old(disk.files), target, luck) ==>
              || Holds(disk.files, BackupPath(target), old(disk.files)[target])
              || Holds(disk.files, target, old(disk.files)[target])
    // for good
    ensures InstallRefused(luck) && OnlyCopyRemoved(old(disk.files), target, luck, before, old(disk.files)[source]) ==>
              !Usable(disk.files, target, before, old(disk.files)[source])
    ensures InstallRefused(luck) && target !in old(disk.files) && !StaleLeft(old(disk.files), target, luck) ==>
              target !in disk.files && BackupPath(target) !in disk.files
    ensures Copies(old(disk.files), target, luck) ==>
              HadFragment(disk.history, old(disk.files), source, target, luck)
  {
    BackupIsElsewhere(target);
    var backup := BackupPath(target);
    restored := false;
    ok := ReplaceBinary(disk, source, target, luck, before);
    if !ok {
      ghost var sofar := disk.history;
      if disk.Exists(backup, luck.seesRestorable) {
        restored := disk.Rename(backup, target, luck.restores);
        HistorySplits(disk.history, sofar, 0, target, before, old(disk.files)[source]);
        assert disk.history[|sofar|] == disk.files;
        if Copies(old(disk.files), target, luck) {
          HadFragmentStays(disk.history, sofar, old(disk.files), source, target, luck);
        }
      }
    }
  }

  /** The backup put back is neither binary, but that of an earlier update. */
  ghost predicate RestoresStale(files: Files, target: Path, luck: Luck, before: Contents, after: Contents) {
    && StaleLeft(files, target, luck)
    && luck.seesRestorable && luck.restores
    && files[BackupPath(target)] !in {before, after}
  }

  /** Everything works. */
  const ALL_WELL := Luck(true, true, true, true, true, Whole, "", true, true, true, true, true, true, true)

  /**
   The target exists but is not seen, on any disk without a stale backup: while a
   copy that will be whole in the end is being written, neither binary is anywhere.
   */
  lemma UnseenTargetIsCopiedOver(files: Files, source: Path, target: Path) returns (luck: Luck)
    requires Ready(files, source, target) && target in files && BackupPath(target) !in files
    ensures luck.copies.Whole? && MakesRoom(files, target, luck) && Installs(luck)
    ensures CopiedOver(files, target, luck, files[target], files[source])
  {
    var neither := files[target] + files[source] + "?";
    assert |neither| > |files[target]| && |neither| > |files[source]|;
    luck := ALL_WELL.(seesTarget := false, moves := false, halfway := neither);
  }

  /**
   On any disk with the backup of an earlier update: it cannot be removed, so the
   update is given up, and the restore puts it over the target.
   */
  lemma StaleBackupIsRestored(files: Files, source: Path, target: Path) returns (luck: Luck)
    requires Ready(files, source, target) && target in files && BackupPath(target) in files
    requires files[BackupPath(target)] !in {files[target], files[source]}
    ensures !MakesRoom(files, target, luck) && RestoresStale(files, target, luck, files[target], files[source])
  {
    luck := ALL_WELL.(removesStale := false);
  }

  /**
   On any disk that an update stopped after its backup has left behind, with nothing
   in place or the fragment of a copy: the next one begins by removing the only copy
   of the old binary, with every operation working; and should it then be unable to
   install, that was for good.
   */
  lemma OnlyCopyIsRemoved(files: Files, source: Path, target: Path) returns (luck: Luck)
    requires Ready(files, source, target) && BackupPath(target) in files
    requires target in files ==> files[target] !in {files[BackupPath(target)], files[source]}
    ensures var before, after := files[BackupPath(target)], files[source];
            && MakesRoom(files, target, ALL_WELL) && Installs(ALL_WELL)
            && OnlyCopyRemoved(files, target, ALL_WELL, before, after)
            && InstallRefused(luck) && OnlyCopyRemoved(files, target, luck, before, after)
  {
    luck := ALL_WELL.(moves := false, copies := Refused);
  }

  /**
   The backup cannot be seen, so the fragment that is in place is moved over it: the
   other way in which the only copy goes.
   */
  lemma FragmentIsBackedUp(files: Files, source: Path, target: Path) returns (luck: Luck)
    requires Ready(files, source, target) && target in files && BackupPath(target) in files
    requires files[target] != files[BackupPath(target)]
    ensures MakesRoom(files, target, luck) && Installs(luck)
    ensures BacksUpAnother(files, target, luck, files[BackupPath(target)])
  {
    luck := ALL_WELL.(seesStale := false);
  }
}
