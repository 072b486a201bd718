/** What an organize call promises: the counts, the outcome of each move,
    the entries it leaves alone and the contents it keeps. */
module OrganizeProperties {
  import opened Names
  import opened Categories
  import opened Conflicts
  import opened FileSystem
  import opened Organizer

  /** Whether a file name belongs to category `c`. */
  function HasCategory(c: Name): Name -> bool {
    f => CategoryOf(f) == c
  }

  /** Whether a name is in `s`. */
  function InSet(s: set<Name>): Name -> bool {
    f => f in s
  }

  /** The table names from entry `i` on. */
  function NamesFrom(i: nat): set<Name>
    requires i <= |Table|
  {
    set j | i <= j < |Table| :: Table[j].name
  }

  lemma {:induction false} TallyFromBump(stats: map<Name, nat>, c: Name, i: nat)
    requires i <= |Table|
    requires CategoryNames() <= stats.Keys && c in stats
    ensures TallyFrom(stats[c := stats[c] + 1], i) == TallyFrom(stats, i) + (if c in NamesFrom(i) then 1 else 0)
    decreases |Table| - i
  {
    if i < |Table| {
      TallyFromBump(stats, c, i + 1);
      assert NamesFrom(i) == {Table[i].name} + NamesFrom(i + 1);
      if Table[i].name == c {
        assert c !in NamesFrom(i + 1) by {
          NamesDistinctHolds();
        }
      }
    }
  }

  /** Counting one more file in a category adds one to the total. */
  lemma TallyBump(stats: map<Name, nat>, c: Name)
    requires CategoryNames() <= stats.Keys && IsCategory(c)
    ensures Tally(CountOne(stats, c)) == Tally(stats) + 1
  {
    TallyFromBump(stats, c, 0);
    assert NamesFrom(0) == CategoryNames();
  }

  lemma {:induction false} TallyFromZero(stats: map<Name, nat>, i: nat)
    requires i <= |Table|
    requires CategoryNames() <= stats.Keys
    requires forall c :: c in stats ==> stats[c] == 0
    ensures TallyFrom(stats, i) == 0
    decreases |Table| - i
  {
    if i < |Table| {
      TallyFromZero(stats, i + 1);
    }
  }

  /** Counting a file in category `d` moves only the count of `d`. */
  lemma CountOneAt(stats: map<Name, nat>, d: Name, c: Name)
    requires d in stats && c in stats
    ensures CountOne(stats, d)[c] == stats[c] + (if d == c then 1 else 0)
  {
  }

  /** The loop counts every file of the snapshot in category `c` once,
      whatever happens to the moves. */
  lemma {:induction false} OrganizeLoopCount(run: Run, files: seq<Name>, dryRun: bool, failing: set<Name>, c: Name)
    requires run.stats.Keys == CategoryNames() && IsCategory(c)
    ensures OrganizeLoop(run, files, dryRun, failing).stats[c] == run.stats[c] + CountWhere(files, HasCategory(c))
    decreases |files|
  {
    if |files| > 0 {
      var next := Step(run, files[0], dryRun, failing);
      assert next.stats[c] == run.stats[c] + (if HasCategory(c)(files[0]) then 1 else 0) by {
        CountOneAt(run.stats, CategoryOf(files[0]), c);
      }
      OrganizeLoopCount(next, files[1..], dryRun, failing, c);
    }
  }

  /** The counts of a loop add up to the number of files it went through. */
  lemma {:induction false} OrganizeLoopTally(run: Run, files: seq<Name>, dryRun: bool, failing: set<Name>)
    requires run.stats.Keys == CategoryNames()
    ensures Tally(OrganizeLoop(run, files, dryRun, failing).stats) == Tally(run.stats) + |files|
    decreases |files|
  {
    if |files| > 0 {
      var next := Step(run, files[0], dryRun, failing);
      TallyBump(run.stats, CategoryOf(files[0]));
      OrganizeLoopTally(next, files[1..], dryRun, failing);
    }
  }

  /** One real step is one move attempt, counted by its outcome; a dry step
      touches nothing but the counts. */
  lemma StepEffect(run: Run, f: Name, dryRun: bool, failing: set<Name>)
    requires run.stats.Keys == CategoryNames()
    ensures var r := Step(run, f, dryRun, failing);
      dryRun ==> r.root == run.root && r.moved == run.moved && r.failed == run.failed
    ensures var r := Step(run, f, dryRun, failing);
      var m := MoveFile(run.root, f, CategoryOf(f), f in failing);
      !dryRun ==> && r.root == m.root
                  && r.moved == run.moved + (if m.ok then 1 else 0)
                  && r.failed == run.failed + (if m.ok then 0 else 1)
  {
  }

  /** A real loop attempts one move per file; a dry loop changes nothing but
      the counts. */
  lemma {:induction false} OrganizeLoopCounters(run: Run, files: seq<Name>, dryRun: bool, failing: set<Name>)
    requires run.stats.Keys == CategoryNames()
    ensures var r := OrganizeLoop(run, files, dryRun, failing);
      !dryRun ==> r.moved + r.failed == run.moved + run.failed + |files|
    ensures var r := OrganizeLoop(run, files, dryRun, failing);
      dryRun ==> r.root == run.root && r.moved == run.moved && r.failed == run.failed
    decreases |files|
  {
    if |files| > 0 {
      var next := Step(run, files[0], dryRun, failing);
      StepEffect(run, files[0], dryRun, failing);
      OrganizeLoopCounters(next, files[1..], dryRun, failing);
    }
  }

  /** No file content is lost or duplicated by the loop. */
  lemma {:induction false} OrganizeLoopInventory(run: Run, files: seq<Name>, dryRun: bool, failing: set<Name>)
    requires run.stats.Keys == CategoryNames()
    ensures Inventory(OrganizeLoop(run, files, dryRun, failing).root) == Inventory(run.root)
    decreases |files|
  {
    if |files| > 0 {
      var next := Step(run, files[0], dryRun, failing);
      StepEffect(run, files[0], dryRun, failing);
      MoveFileKeepsInventory(run.root, files[0], CategoryOf(files[0]), files[0] in failing);
      OrganizeLoopInventory(next, files[1..], dryRun, failing);
    }
  }

  /** Every entry of `x` is in `y`, unchanged. */
  predicate Extends(x: Folder, y: Folder) {
    forall n :: n in x ==> n in y && y[n] == x[n]
  }

  /** Every directory of `a` is still a directory in `b` and still holds all
      its entries, unchanged: nothing in a folder is overwritten or removed. */
  predicate KeepsFolders(a: Folder, b: Folder) {
    forall c :: c in a && a[c].Dir? ==> c in b && b[c].Dir? && Extends(a[c].entries, b[c].entries)
  }

  lemma KeepsFoldersTransitive(a: Folder, b: Folder, c: Folder)
    requires KeepsFolders(a, b) && KeepsFolders(b, c)
    ensures KeepsFolders(a, c)
  {
    forall d | d in a && a[d].Dir?
      ensures d in c && c[d].Dir? && Extends(a[d].entries, c[d].entries)
    {
      assert Extends(b[d].entries, c[d].entries);
    }
  }

  /** A move attempt never overwrites or removes anything inside a folder. */
  lemma MoveFileKeepsFolders(root: Folder, src: Name, category: Name, fails: bool)
    ensures KeepsFolders(root, MoveFile(root, src, category, fails).root)
  {
    MoveFileSpec(root, src, category, fails);
    var r := MoveFile(root, src, category, fails);
    forall c | c in root && root[c].Dir?
      ensures c in r.root && r.root[c].Dir? && Extends(root[c].entries, r.root[c].entries)
    {
      if r.ok && c == category {
        var before := FolderEntries(root, category);
        var dest := OrganizeDest(root, src, category);
        assert r.root[c].entries == before[dest := root[src]];
      }
    }
  }

  /** One step touches at most the file itself and its category folder, and
      keeps every folder's contents. */
  lemma StepFrame(run: Run, f: Name, dryRun: bool, failing: set<Name>)
    requires run.stats.Keys == CategoryNames()
    ensures var r := Step(run, f, dryRun, failing);
      forall n :: n in run.root && n != f && !IsCategory(n) ==> n in r.root && r.root[n] == run.root[n]
    ensures Step(run, f, dryRun, failing).root.Keys <= run.root.Keys + CategoryNames()
    ensures KeepsFolders(run.root, Step(run, f, dryRun, failing).root)
  {
    StepEffect(run, f, dryRun, failing);
    MoveFileSpec(run.root, f, CategoryOf(f), f in failing);
    MoveFileKeepsFolders(run.root, f, CategoryOf(f), f in failing);
  }

  /** Whatever the loop does, entries other than the snapshot's files and the
      category folders stay as they were, no new name appears except a
      category folder, and nothing inside a folder is overwritten. */
  lemma {:induction false} OrganizeLoopFrame(run: Run, files: seq<Name>, dryRun: bool, failing: set<Name>)
    requires run.stats.Keys == CategoryNames()
    ensures var r := OrganizeLoop(run, files, dryRun, failing);
      forall n :: n in run.root && n !in files && !IsCategory(n) ==> n in r.root && r.root[n] == run.root[n]
    ensures OrganizeLoop(run, files, dryRun, failing).root.Keys <= run.root.Keys + CategoryNames()
    ensures KeepsFolders(run.root, OrganizeLoop(run, files, dryRun, failing).root)
    decreases |files|
  {
    if |files| > 0 {
      var next := Step(run, files[0], dryRun, failing);
      StepFrame(run, files[0], dryRun, failing);
      OrganizeLoopFrame(next, files[1..], dryRun, failing);
      KeepsFoldersTransitive(run.root, next.root, OrganizeLoop(next, files[1..], dryRun, failing).root);
    }
  }

  /** No root entry with a category's name is anything but a directory, as
      after the folders are created up front. */
  predicate CategoryEntriesAreDirs(root: Folder) {
    forall c :: c in root && IsCategory(c) ==> root[c].Dir?
  }

  /** `node`, the file once called `f`, sits in `f`'s category folder. */
  predicate Landed(root: Folder, f: Name, node: Node) {
    var c := CategoryOf(f);
    c in root && root[c].Dir? && node in root[c].entries.Values
  }

  lemma LandedKept(a: Folder, b: Folder, f: Name, node: Node)
    requires Landed(a, f, node) && KeepsFolders(a, b)
    ensures Landed(b, f, node)
  {
    var c := CategoryOf(f);
    var n :| n in a[c].entries && a[c].entries[n] == node;
    assert b[c].entries[n] == node;
  }

  /** The outcome of one real step on a root file when category names hold
      only directories: the file stays exactly when the file system refuses
      the move, and otherwise lands in its category folder. */
  lemma StepOutcome(run: Run, f: Name, failing: set<Name>)
    requires run.stats.Keys == CategoryNames()
    requires CategoryEntriesAreDirs(run.root)
    requires f in run.root && run.root[f].File?
    ensures var r := Step(run, f, false, failing);
      && CategoryEntriesAreDirs(r.root)
      && (f in r.root <==> f in failing)
      && (f in failing ==> r.root[f] == run.root[f] && r.moved == run.moved && r.failed == run.failed + 1)
      && (f !in failing ==> Landed(r.root, f, run.root[f]) && r.moved == run.moved + 1 && r.failed == run.failed)
  {
    var c := CategoryOf(f);
    StepEffect(run, f, false, failing);
    MoveFileSpec(run.root, f, c, f in failing);
    var r := Step(run, f, false, failing);
    if f !in failing {
      var dest := OrganizeDest(run.root, f, c);
      assert r.root[c].entries[dest] == run.root[f];
    }
  }

  /** The snapshot files of a real loop are all regular files in the root,
      listed once each, and category names hold only directories. */
  predicate SnapshotReady(root: Folder, files: seq<Name>) {
    && CategoryEntriesAreDirs(root)
    && Distinct(files)
    && (forall i :: 0 <= i < |files| ==> files[i] in root && root[files[i]].File?)
  }

  /** A real step on the first snapshot file leaves the rest of the snapshot
      ready, with their entries unchanged. */
  lemma StepKeepsSnapshot(run: Run, files: seq<Name>, failing: set<Name>)
    requires run.stats.Keys == CategoryNames()
    requires SnapshotReady(run.root, files) && |files| > 0
    ensures var next := Step(run, files[0], false, failing);
      && SnapshotReady(next.root, files[1..])
      && (forall g :: g in files[1..] ==> g in run.root && next.root[g] == run.root[g])
      && files[0] !in files[1..] && !IsCategory(files[0])
  {
    var next := Step(run, files[0], false, failing);
    StepOutcome(run, files[0], failing);
    StepFrame(run, files[0], false, failing);
    SnapshotTail(run.root, next.root, files);
  }

  /** A root that keeps every entry but the first snapshot file and the
      category names, and whose category names are directories, leaves the
      rest of the snapshot ready. */
  lemma SnapshotTail(root: Folder, next: Folder, files: seq<Name>)
    requires SnapshotReady(root, files) && |files| > 0
    requires CategoryEntriesAreDirs(next)
    requires forall n :: n in root && n != files[0] && !IsCategory(n) ==> n in next && next[n] == root[n]
    ensures SnapshotReady(next, files[1..])
    ensures forall g :: g in files[1..] ==> g in root && next[g] == root[g]
    ensures files[0] !in files[1..] && !IsCategory(files[0])
  {
    var rest := files[1..];
    forall i | 0 <= i < |rest|
      ensures rest[i] in root && rest[i] in next && next[rest[i]] == root[rest[i]]
    {
      assert rest[i] == files[i + 1];
    }
  }

  /** The counters of a real loop when the snapshot is ready: the failed
      counter grows by the files whose move the file system refused, the
      moved counter by the rest. */
  lemma {:induction false} OrganizeLoopTallies(run: Run, files: seq<Name>, failing: set<Name>)
    requires run.stats.Keys == CategoryNames()
    requires SnapshotReady(run.root, files)
    ensures var r := OrganizeLoop(run, files, false, failing);
      r.failed == run.failed + CountWhere(files, InSet(failing))
    ensures var r := OrganizeLoop(run, files, false, failing);
      r.moved + CountWhere(files, InSet(failing)) == run.moved + |files|
    decreases |files|
  {
    if |files| > 0 {
      var f := files[0];
      var next := Step(run, f, false, failing);
      StepOutcome(run, f, failing);
      StepKeepsSnapshot(run, files, failing);
      OrganizeLoopTallies(next, files[1..], failing);
      assert CountWhere(files, InSet(failing)) == (if f in failing then 1 else 0) + CountWhere(files[1..], InSet(failing));
    }
  }

  /** Where the files of a real loop end up when the snapshot is ready: each
      is still in the root, unchanged, exactly when the file system refused
      its move, and otherwise sits in its category folder. */
  lemma {:induction false} OrganizeLoopPlacement(run: Run, files: seq<Name>, failing: set<Name>)
    requires run.stats.Keys == CategoryNames()
    requires SnapshotReady(run.root, files)
    ensures var r := OrganizeLoop(run, files, false, failing);
      forall f :: f in files ==> (f in r.root <==> f in failing)
    ensures var r := OrganizeLoop(run, files, false, failing);
      forall f :: f in files && f in failing ==> f in r.root && r.root[f] == run.root[f]
    ensures var r := OrganizeLoop(run, files, false, failing);
      forall f :: f in files && f !in failing ==> Landed(r.root, f, run.root[f])
    decreases |files|
  {
    if |files| > 0 {
      var f := files[0];
      var rest := files[1..];
      var next := Step(run, f, false, failing);
      var r := OrganizeLoop(next, rest, false, failing);
      StepOutcome(run, f, failing);
      StepKeepsSnapshot(run, files, failing);
      OrganizeLoopPlacement(next, rest, failing);
      forall g | g in files
        ensures g in r.root <==> g in failing
        ensures g in failing ==> g in r.root && r.root[g] == run.root[g]
        ensures g !in failing ==> Landed(r.root, g, run.root[g])
      {
        if g == f {
          OrganizeLoopFrame(next, rest, false, failing);
          if f !in failing {
            LandedKept(next.root, r.root, f, run.root[f]);
          }
        } else {
          assert g in rest;
        }
      }
    }
  }

  /** Filtering a listing keeps it free of repetitions. */
  lemma {:induction false} SelectFilesDistinct(root: Folder, order: seq<Name>)
    requires Distinct(order)
    ensures Distinct(SelectFiles(root, order))
  {
    if |order| > 0 {
      SelectFilesDistinct(root, order[1..]);
      assert order[0] !in order[1..];
    }
  }

  /** The snapshot of a listing holds every organizable file exactly once. */
  lemma SnapshotOfListing(root: Folder, order: seq<Name>)
    requires IsListing(order, root.Keys)
    ensures var files := SelectFiles(root, order);
      Distinct(files) && (forall n :: n in files <==> n in Organizable(root))
    ensures SnapshotReady(root, SelectFiles(root, order)) <==> CategoryEntriesAreDirs(root)
  {
    var files := SelectFiles(root, order);
    SelectFilesDistinct(root, order);
    forall i | 0 <= i < |files|
      ensures files[i] in root && root[files[i]].File?
    {
      assert files[i] in files;
    }
  }

  /** The organizable files of category `c`. */
  function OfCategory(root: Folder, c: Name): set<Name> {
    set f | f in Organizable(root) && CategoryOf(f) == c
  }

  /** The number of snapshot files of a category is the number of
      organizable files of it. */
  lemma SnapshotCount(root: Folder, order: seq<Name>, c: Name)
    requires IsListing(order, root.Keys)
    ensures CountWhere(SelectFiles(root, order), HasCategory(c)) == |OfCategory(root, c)|
  {
    var files := SelectFiles(root, order);
    SnapshotOfListing(root, order);
    CountWhereIsSize(files, HasCategory(c));
    FilesOfCategory(root, files, c);
  }

  /** Filtering the organizable files by category gives `OfCategory`. */
  lemma FilesOfCategory(root: Folder, files: seq<Name>, c: Name)
    requires forall n :: n in files <==> n in Organizable(root)
    ensures (set f | f in files && HasCategory(c)(f)) == OfCategory(root, c)
  {
  }

  /** The number of snapshot files in `s` is the number of organizable
      files in it. */
  lemma SnapshotCountIn(root: Folder, order: seq<Name>, s: set<Name>)
    requires IsListing(order, root.Keys)
    ensures CountWhere(SelectFiles(root, order), InSet(s)) == |Organizable(root) * s|
  {
    var files := SelectFiles(root, order);
    SnapshotOfListing(root, order);
    CountWhereIsSize(files, InSet(s));
    assert (set f | f in files && InSet(s)(f)) == Organizable(root) * s;
  }

  lemma {:induction false} DistinctSize(s: seq<Name>)
    requires Distinct(s)
    ensures |set x | x in s| == |s|
  {
    if |s| > 0 {
      DistinctSize(s[1..]);
      assert s[0] !in s[1..];
      assert (set x | x in s) == (set x | x in s[1..]) + {s[0]};
    }
  }

  /** The snapshot of a listing is as long as there are organizable files. */
  lemma SnapshotSize(root: Folder, order: seq<Name>)
    requires IsListing(order, root.Keys)
    ensures |SelectFiles(root, order)| == |Organizable(root)|
  {
    var files := SelectFiles(root, order);
    SnapshotOfListing(root, order);
    DistinctSize(files);
    assert (set x | x in files) == Organizable(root);
  }

  /** Adding empty folders, and nothing else, adds no content: creating the
      folders up front keeps the inventory. */
  lemma {:induction false} EmptyFoldersAddNothing(a: Folder, b: Folder)
    requires Extends(a, b)
    requires forall n :: n in b && n !in a ==> b[n] == Dir(map[])
    ensures Inventory(b) == Inventory(a)
    decreases |b|
  {
    if k :| k in b && k !in a {
      MapSumRemove(b, k, Deep);
      EmptyDirHoldsNothing();
      EmptyFoldersAddNothing(a, b - {k});
    } else {
      assert a == b;
    }
  }

  /** A root that only gained entries keeps all its folders. */
  lemma ExtendsKeepsFolders(a: Folder, b: Folder)
    requires Extends(a, b)
    ensures KeepsFolders(a, b)
  {
    forall c | c in a && a[c].Dir?
      ensures c in b && b[c].Dir? && Extends(a[c].entries, b[c].entries)
    {
      assert b[c] == a[c];
    }
  }

  lemma UpFrontAreCategories()
    ensures UpFrontNames() <= CategoryNames()
  {
  }

  /** The summary lists every table category from entry `i` on whose count
      is positive. */
  lemma {:induction false} SummaryLinesFromComplete(stats: map<Name, nat>, i: nat)
    requires i <= |Table|
    requires CategoryNames() <= stats.Keys
    ensures forall j :: i <= j < |Table| && stats[Table[j].name] > 0 ==>
      (Table[j].name, stats[Table[j].name]) in SummaryLinesFrom(stats, i)
    decreases |Table| - i
  {
    if i < |Table| {
      SummaryLinesFromComplete(stats, i + 1);
    }
  }

  /** The summary lists exactly the categories with a positive count, each
      with its count. */
  lemma SummaryLinesExact(stats: map<Name, nat>)
    requires CategoryNames() <= stats.Keys
    ensures forall c :: c in CategoryNames() && stats[c] > 0 ==> (c, stats[c]) in SummaryLines(stats)
    ensures forall line :: line in SummaryLines(stats) ==> line.1 > 0 && line.0 in stats && stats[line.0] == line.1
  {
    SummaryLinesFromComplete(stats, 0);
  }
}
