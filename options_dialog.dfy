/** The options dialog (optionsdialog.cpp): it shows the records directory
    and its entry count, and its "clear" button removes every file there
    except the one the player currently holds (`current`). */
module Options {
  import opened Format

  /** What the directory listing says of one entry. */
  datatype EntryInfo = EntryInfo(isFile: bool, hidden: bool)

  /** Whether `QFile(path).remove()` succeeds: a file is there and the
      system does not refuse. */
  predicate Removable(entries: map<string, EntryInfo>, locked: set<string>, path: string) {
    path in entries && entries[path].isFile && path !in locked
  }

  /** The records directory on disk, entries keyed by absolute path.
      `locked` holds the files whose removal the system refuses. */
  class Disk {
    var present: bool
    var entries: map<string, EntryInfo>
    var locked: set<string>

    ghost predicate Valid()
      reads this
    {
      !present ==> entries == map[]
    }

    constructor (present: bool, entries: map<string, EntryInfo>, locked: set<string>)
      requires !present ==> entries == map[]
      ensures Valid()
      ensures this.present == present && this.entries == entries && this.locked == locked
    {
      this.present := present;
      this.entries := entries;
      this.locked := locked;
    }

    /** `QFile(path).remove()`: fails when there is no such file or the
        system refuses, and then changes nothing. */
    method Remove(path: string) returns (ok: bool)
      requires Valid()
      modifies this`entries
      ensures Valid()
      ensures ok == Removable(old(entries), locked, path)
      ensures entries == if ok then old(entries) - {path} else old(entries)
    {
      ok := Removable(entries, locked, path);
      if ok {
        entries := entries - {path};
      }
    }
  }

  /** `entryInfoList(QDir::Files | QDir::Hidden | QDir::NoDotAndDotDot)`:
      every regular file, hidden or not. */
  function FileList(entries: map<string, EntryInfo>): set<string> {
    set p | p in entries && entries[p].isFile
  }

  /** Qt 5's `QDir::count()` is an unsigned 32-bit `uint`. */
  const UintModulus := 0x1_0000_0000

  /** The entries `QDir(path).count()` lists with the default filter. */
  function VisibleCount(entries: map<string, EntryInfo>): nat {
    |set p | p in entries && !entries[p].hidden|
  }

  /** `QDir(path).count()`: the visible entries plus "." and "..", or 0 when
      the directory does not exist. */
  function DirCount(present: bool, entries: map<string, EntryInfo>): int {
    if present then VisibleCount(entries) + 2 else 0
  }

  /** The number the dialog shows: `count() - 2`, which is unsigned
      arithmetic, so a missing directory wraps around to 2^32 - 2. Entries
      that `count()` can report (fewer than 2^32) come back exactly. */
  function RecordCount(present: bool, entries: map<string, EntryInfo>): (n: int)
    ensures 0 <= n < UintModulus
    ensures present && DirCount(present, entries) < UintModulus ==> n == VisibleCount(entries)
    ensures !present ==> n == UintModulus - 2
  {
    (DirCount(present, entries) - 2) % UintModulus
  }

  /** `QString("%1 records").arg(count)`. */
  function RecordsText(present: bool, entries: map<string, EntryInfo>): string {
    IntToString(RecordCount(present, entries)) + " records"
  }

  /** The files a purge deletes: listed, not protected, not refused. */
  function Doomed(entries: map<string, EntryInfo>, current: string, locked: set<string>): set<string> {
    set p | p in FileList(entries) && p != current && p !in locked
  }

  /** The directory after a purge that protects `current`. */
  function Purged(entries: map<string, EntryInfo>, current: string, locked: set<string>): map<string, EntryInfo> {
    entries - Doomed(entries, current, locked)
  }

  class OptionsDialog {
    const disk: Disk
    /** The `recordsPath` label: the directory `disk` models. */
    const recordsPath: string
    /** The path that a purge must not delete. */
    var current: string
    /** The `directoryContains` label. */
    var directoryContains: string

    constructor (disk: Disk, path: string, current: string)
      ensures this.disk == disk && recordsPath == path && this.current == current
      ensures directoryContains == RecordsText(disk.present, disk.entries)
    {
      this.disk := disk;
      recordsPath := path;
      this.current := current;
      directoryContains := RecordsText(disk.present, disk.entries);
    }

    /** `set_current`: replaces the protected path and nothing else. */
    method SetCurrent(current: string)
      modifies this`current
      ensures this.current == current
    {
      this.current := current;
    }

    /** `clear_directory`: removes every listed file whose path is not
        `current`, then shows the new entry count. */
    method ClearDirectory()
      requires disk.Valid()
      modifies disk`entries, this`directoryContains
      ensures disk.Valid()
      ensures disk.entries == Purged(old(disk.entries), current, disk.locked)
      ensures directoryContains == RecordsText(disk.present, disk.entries)
    {
      ghost var before := disk.entries;
      var list := FileList(disk.entries);
      var todo := list;
      while todo != {}
        invariant disk.Valid()
        invariant todo <= list
        invariant disk.entries == before - (set p | p in list - todo && p != current && p !in disk.locked)
        decreases todo
      {
        var x :| x in todo;
        if x != current {
          var _ := disk.Remove(x);
        }
        todo := todo - {x};
      }
      directoryContains := RecordsText(disk.present, disk.entries);
    }
  }

  /** A purge never deletes the protected path. */
  lemma PurgeKeepsCurrent(entries: map<string, EntryInfo>, current: string, locked: set<string>)
    requires current in entries
    ensures current in Purged(entries, current, locked)
    ensures Purged(entries, current, locked)[current] == entries[current]
  {
  }

  /** Exactly the listed files other than `current` go (unless refused);
      subdirectories and every other entry stay as they were. */
  lemma PurgeRemovesOthers(entries: map<string, EntryInfo>, current: string, locked: set<string>, p: string)
    requires p in entries
    ensures p !in Purged(entries, current, locked) <==> entries[p].isFile && p != current && p !in locked
    ensures p in Purged(entries, current, locked) ==> Purged(entries, current, locked)[p] == entries[p]
  {
    if entries[p].isFile && p != current && p !in locked {
      assert p in Doomed(entries, current, locked);
    }
  }

  /** With no refusals, the files left are `current` at most: one file or none. */
  lemma PurgeLeavesAtMostCurrent(entries: map<string, EntryInfo>, current: string)
    ensures FileList(Purged(entries, current, {})) <= {current}
    ensures |FileList(Purged(entries, current, {}))| <= 1
    ensures current in FileList(entries) ==> FileList(Purged(entries, current, {})) == {current}
  {
    var left := FileList(Purged(entries, current, {}));
    forall p | p in left ensures p == current {
      PurgeRemovesOthers(entries, current, {}, p);
    }
    if current in FileList(entries) {
      PurgeKeepsCurrent(entries, current, {});
      assert left == {current};
    } else {
      assert left == {};
    }
  }

  /** When nothing listed is protected (after `set_current("")`) and nothing
      is refused, a purge removes every file. */
  lemma PurgeWithoutProtectedFile(entries: map<string, EntryInfo>, current: string)
    requires current !in FileList(entries)
    ensures FileList(Purged(entries, current, {})) == {}
  {
    PurgeLeavesAtMostCurrent(entries, current);
  }

  /** Clearing twice removes nothing more. */
  lemma PurgeIdempotent(entries: map<string, EntryInfo>, current: string, locked: set<string>)
    ensures Purged(Purged(entries, current, locked), current, locked) == Purged(entries, current, locked)
  {
    var once := Purged(entries, current, locked);
    assert Doomed(once, current, locked) == {} by {
      forall p | p in FileList(once) && p != current && p !in locked ensures false {
        PurgeRemovesOthers(entries, current, locked, p);
      }
    }
  }

  lemma {:induction false} SubsetCardinality(a: set<string>, b: set<string>)
    requires a <= b
    ensures |a| <= |b|
    decreases |b|
  {
    if a != {} {
      var x :| x in a;
      SubsetCardinality(a - {x}, b - {x});
    }
  }

  /** A purge never raises the displayed count. The requires is the range
      of `count()`'s `uint` result. */
  lemma PurgeCountNotGreater(present: bool, entries: map<string, EntryInfo>, current: string, locked: set<string>)
    requires DirCount(present, entries) < UintModulus
    ensures RecordCount(present, Purged(entries, current, locked)) <= RecordCount(present, entries)
  {
    var after := Purged(entries, current, locked);
    SubsetCardinality(set p | p in after && !after[p].hidden, set p | p in entries && !entries[p].hidden);
    assert VisibleCount(after) <= VisibleCount(entries);
  }

  /** A missing records directory is shown as "4294967294 records". */
  lemma MissingDirectoryText()
    ensures RecordsText(false, map[]) == "4294967294 records"
  {
    var n := RecordCount(false, map[]);
    assert n == 4294967294;
    assert NatDigits(4) == "4";
    assert NatDigits(42) == "42";
    assert NatDigits(429) == "429";
    assert NatDigits(4294) == "4294";
    assert NatDigits(42949) == "42949";
    assert NatDigits(429496) == "429496";
    assert NatDigits(4294967) == "4294967";
    assert NatDigits(42949672) == "42949672";
    assert NatDigits(429496729) == "429496729";
    assert NatDigits(4294967294) == "4294967294";
  }
}
