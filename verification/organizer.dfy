/** Organize: sort the visible regular files directly in the root into
    category folders, counting them per category and counting moved and
    failed files, or only counting them in a dry run. */
module Organizer {
  import opened Names
  import opened Categories
  import opened Conflicts
  import opened FileSystem

  /** A root entry organize picks up: a regular file whose name does not
      start with a dot. */
  predicate IsOrganizable(root: Folder, n: Name) {
    n in root && root[n].File? && !IsHidden(n)
  }

  /** The files one organize run is about. */
  function Organizable(root: Folder): set<Name> {
    set n | n in root && IsOrganizable(root, n)
  }

  /** The snapshot of files to organize, in enumeration order. */
  function SelectFiles(root: Folder, order: seq<Name>): (files: seq<Name>)
    ensures forall n :: n in files <==> n in order && IsOrganizable(root, n)
  {
    if |order| == 0 then []
    else if IsOrganizable(root, order[0]) then [order[0]] + SelectFiles(root, order[1..])
    else SelectFiles(root, order[1..])
  }

  /** Every category except the fallback, the folders created up front. */
  function UpFrontNames(): set<Name> {
    set i | 0 <= i < |Table| && Table[i].name != Others :: Table[i].name
  }

  /** The root after creating folders and the names created, in table order. */
  datatype Creation = Creation(root: Folder, created: seq<Name>)

  /** The table's names in its order, as the loop over its keys sees them. */
  function CategoryOrder(): (r: seq<Name>)
    ensures |r| == |Table| && forall i :: 0 <= i < |r| ==> r[i] == Table[i].name
  {
    seq(|Table|, i requires 0 <= i < |Table| => Table[i].name)
  }

  /** The names, in order, other than the fallback, are those created up front. */
  lemma CategoryOrderUpFront()
    ensures forall n :: n in CategoryOrder() && n != Others <==> n in UpFrontNames()
  {
    var order := CategoryOrder();
    forall n | n in UpFrontNames()
      ensures n in order && n != Others
    {
      var i :| 0 <= i < |Table| && Table[i].name != Others && Table[i].name == n;
      assert order[i] == n;
    }
  }

  /** Creates the missing folders among `names`, skipping the fallback; a
      name already present is left alone, whatever it is. */
  function CreateFolders(root: Folder, names: seq<Name>): (r: Creation)
    ensures forall n :: n in root ==> n in r.root && r.root[n] == root[n]
    ensures forall n :: n in names && n != Others ==> n in r.root
    ensures forall n :: n in r.root && n !in root ==> r.root[n] == Dir(map[]) && n in names && n != Others
    ensures forall n :: n in r.created <==> n in r.root && n !in root
    decreases |names|
  {
    if |names| == 0 then Creation(root, [])
    else
      var name := names[0];
      if name == Others || name in root then CreateFolders(root, names[1..])
      else
        var rest := CreateFolders(root[name := Dir(map[])], names[1..]);
        Creation(rest.root, [name] + rest.created)
  }

  /** The folder-creation step of a real run: every category folder except
      the fallback exists afterwards, and nothing that existed changes. */
  function CreateCategoryFolders(root: Folder): (r: Creation)
    ensures forall n :: n in root ==> n in r.root && r.root[n] == root[n]
    ensures forall n :: n in UpFrontNames() ==> n in r.root
    ensures forall n :: n in r.root && n !in root ==> r.root[n] == Dir(map[]) && n in UpFrontNames()
    ensures forall n :: n in r.created <==> n in UpFrontNames() && n !in root
  {
    CategoryOrderUpFront();
    CreateFolders(root, CategoryOrder())
  }

  /** The entries of the folder a file would move into, none if it is absent. */
  function FolderEntries(root: Folder, category: Name): Folder
    requires category in root ==> root[category].Dir?
  {
    if category in root then root[category].entries else map[]
  }

  /** The root after one move attempt and whether it succeeded. */
  datatype Move = Move(root: Folder, ok: bool)

  /** The name a moved file takes in its category folder. */
  function OrganizeDest(root: Folder, src: Name, category: Name): Name
    requires category in root ==> root[category].Dir?
  {
    Resolve(FolderEntries(root, category).Keys, src, OrganizeMarker)
  }

  /** Moving `src` into its category folder: the folder is created if absent
      (a non-directory of that name makes this fail), the destination name is
      resolved against the folder, and the move itself succeeds unless the
      file is gone or `fails` says the file system refused it.
      A success takes exactly the source out of the root and adds exactly one
      entry, the file, under a name the folder did not hold; a failure leaves
      every existing entry as it was and at most adds the empty folder. */
  function MoveFile(root: Folder, src: Name, category: Name, fails: bool): (r: Move)
  {
    if category in root && !root[category].Dir? then Move(root, false)
    else
      var folder := FolderEntries(root, category);
      if src !in root || !root[src].File? || fails then Move(root[category := Dir(folder)], false)
      else
        var dest := OrganizeDest(root, src, category);
        Move((root - {src})[category := Dir(folder[dest := root[src]])], true)
  }

  /** What one move attempt does. It succeeds exactly when the source is
      still a regular file, the file system does not refuse it and nothing
      but a directory holds the category's name. A success takes exactly the
      source out of the root and adds exactly one entry to the category
      folder: the file, under a name the folder did not hold, its own name
      whenever that was free. A failure leaves every existing entry as it
      was and at most adds the empty category folder. No other entry
      changes either way. */
  lemma MoveFileSpec(root: Folder, src: Name, category: Name, fails: bool)
    ensures var r := MoveFile(root, src, category, fails);
      r.ok <==> src in root && root[src].File? && !fails && (category in root ==> root[category].Dir?)
    ensures var r := MoveFile(root, src, category, fails);
      forall n :: n in root && n != src && n != category ==> n in r.root && r.root[n] == root[n]
    ensures var r := MoveFile(root, src, category, fails);
      r.root.Keys <= root.Keys + {category}
    ensures var r := MoveFile(root, src, category, fails);
      !r.ok ==> forall n :: n in root ==> n in r.root && r.root[n] == root[n]
    ensures var r := MoveFile(root, src, category, fails);
      !r.ok ==> forall n :: n in r.root && n !in root ==> n == category && r.root[n] == Dir(map[])
    ensures var r := MoveFile(root, src, category, fails);
      r.ok ==>
      var before := FolderEntries(root, category);
      var dest := OrganizeDest(root, src, category);
      && src != category && src !in r.root
      && category in r.root && r.root[category] == Dir(before[dest := root[src]])
      && dest !in before
      && (src !in before ==> dest == src)
  {
  }

  /** Adding an empty folder adds no content. */
  lemma NewFolderKeepsInventory(root: Folder, name: Name)
    requires name !in root
    ensures Inventory(root[name := Dir(map[])]) == Inventory(root)
  {
    MapSumUpdate(root, name, Dir(map[]), Deep);
    assert root - {name} == root;
  }

  /** The inventory split into a root file, a subfolder's files and the
      rest. */
  lemma InventoryAround(root: Folder, src: Name, folderName: Name, folder: Folder)
    requires src in root && root[src].File? && src != folderName
    requires folderName in root ==> root[folderName] == Dir(folder)
    requires folderName !in root ==> folder == map[]
    ensures Inventory(root) == multiset{root[src].blob} + Deep(Dir(folder)) + MapSum(root - {src} - {folderName}, Deep)
  {
    var rest := root - {src};
    assert Inventory(root) == multiset{root[src].blob} + MapSum(rest, Deep) by {
      MapSumRemove(root, src, Deep);
    }
    InventoryOfFolderAndRest(rest, folderName, folder);
  }

  /** The inventory split into a subfolder's files, empty when it is
      missing, and the rest. */
  lemma InventoryOfFolderAndRest(rest: Folder, folderName: Name, folder: Folder)
    requires folderName in rest ==> rest[folderName] == Dir(folder)
    requires folderName !in rest ==> folder == map[]
    ensures MapSum(rest, Deep) == Deep(Dir(folder)) + MapSum(rest - {folderName}, Deep)
  {
    if folderName in rest {
      MapSumRemove(rest, folderName, Deep);
    } else {
      assert rest - {folderName} == rest;
      EmptyDirHoldsNothing();
    }
  }

  /** The inventory after moving a root file into a subfolder, split the
      same way. */
  lemma InventoryAfterMove(root: Folder, src: Name, folderName: Name, folder: Folder, dest: Name)
    requires src in root && root[src].File? && src != folderName
    requires dest !in folder
    ensures Inventory((root - {src})[folderName := Dir(folder[dest := root[src]])])
         == MapSum(root - {src} - {folderName}, Deep) + Deep(Dir(folder)) + multiset{root[src].blob}
  {
    var b := root[src].blob;
    assert root[src] == File(b);
    MapSumUpdate(root - {src}, folderName, Dir(folder[dest := root[src]]), Deep);
    DeepAddFile(folder, dest, b);
  }

  /** Moving a root file into a subfolder, under a name the subfolder does
      not hold, keeps the inventory. */
  lemma FileIntoFolderKeepsInventory(root: Folder, src: Name, folderName: Name, folder: Folder, dest: Name)
    requires src in root && root[src].File? && src != folderName
    requires folderName in root ==> root[folderName] == Dir(folder)
    requires folderName !in root ==> folder == map[]
    requires dest !in folder
    ensures Inventory((root - {src})[folderName := Dir(folder[dest := root[src]])]) == Inventory(root)
  {
    InventoryAround(root, src, folderName, folder);
    InventoryAfterMove(root, src, folderName, folder, dest);
  }

  /** A move attempt loses and duplicates nothing. */
  lemma MoveFileKeepsInventory(root: Folder, src: Name, category: Name, fails: bool)
    ensures Inventory(MoveFile(root, src, category, fails).root) == Inventory(root)
  {
    if category in root && !root[category].Dir? {
    } else if src !in root || !root[src].File? || fails {
      if category !in root {
        NewFolderKeepsInventory(root, category);
      } else {
        assert root[category := Dir(FolderEntries(root, category))] == root;
      }
    } else {
      FileIntoFolderKeepsInventory(root, src, category, FolderEntries(root, category), OrganizeDest(root, src, category));
    }
  }

  /** The per-category counts, all zero. */
  function InitialStats(): (stats: map<Name, nat>)
    ensures stats.Keys == CategoryNames()
    ensures forall c :: c in stats ==> stats[c] == 0
  {
    map c | c in CategoryNames() :: 0
  }

  /** The state carried through the loop over the snapshot. */
  datatype Run = Run(root: Folder, stats: map<Name, nat>, moved: nat, failed: nat)

  /** The counts with one more file in category `c`. */
  function CountOne(stats: map<Name, nat>, c: Name): (r: map<Name, nat>)
    requires c in stats
    ensures r.Keys == stats.Keys
  {
    stats[c := stats[c] + 1]
  }

  /** The move attempt of a real run for file `f`, counted as moved or failed;
      the per-category counts are not its business. */
  function Attempt(run: Run, f: Name, failing: set<Name>): (r: Run)
    ensures r.stats == run.stats
    ensures r.moved + r.failed == run.moved + run.failed + 1
  {
    var m := MoveFile(run.root, f, CategoryOf(f), f in failing);
    if m.ok then Run(m.root, run.stats, run.moved + 1, run.failed)
    else Run(m.root, run.stats, run.moved, run.failed + 1)
  }

  /** One pass of the loop body for file `f`: count it in its category, then,
      in a real run, try to move it. */
  function Step(run: Run, f: Name, dryRun: bool, failing: set<Name>): (r: Run)
    requires run.stats.Keys == CategoryNames()
    ensures r.stats == CountOne(run.stats, CategoryOf(f))
  {
    var counted := run.(stats := CountOne(run.stats, CategoryOf(f)));
    if dryRun then counted else Attempt(counted, f, failing)
  }

  /** The loop over the snapshot, one step per file in order. */
  function OrganizeLoop(run: Run, files: seq<Name>, dryRun: bool, failing: set<Name>): (r: Run)
    requires run.stats.Keys == CategoryNames()
    ensures r.stats.Keys == CategoryNames()
    decreases |files|
  {
    if |files| == 0 then run
    else OrganizeLoop(Step(run, files[0], dryRun, failing), files[1..], dryRun, failing)
  }

  /** How an organize call ends. */
  datatype OrganizeResult =
    | RootNotFound       // logs an error and returns False
    | RootNotADirectory  // the enumeration raises
    | NothingToOrganize  // returns True before creating anything
    | Completed(stats: map<Name, nat>, moved: nat, failed: nat, after: Folder)

  /** The root the loop starts from: the folders are created up front in a
      real run only. */
  function StartRoot(entries: Folder, dryRun: bool): Folder {
    if dryRun then entries else CreateCategoryFolders(entries).root
  }

  /** One organize call on the root, with the enumeration order and the set
      of files whose move the file system refuses given as parameters. */
  function Organize(root: PathState, dryRun: bool, order: seq<Name>, failing: set<Name>): (r: OrganizeResult)
    requires IsDirRoot(root) ==> IsListing(order, root.node.entries.Keys)
  {
    match root
    case Missing => RootNotFound
    case Exists(File(_)) => RootNotADirectory
    case Exists(Dir(entries)) =>
      var files := SelectFiles(entries, order);
      if |files| == 0 then NothingToOrganize
      else
        var run := OrganizeLoop(Run(StartRoot(entries, dryRun), InitialStats(), 0, 0), files, dryRun, failing);
        Completed(run.stats, run.moved, run.failed, run.root)
  }

  /** The root once the call returns. */
  function RootAfter(root: PathState, r: OrganizeResult): PathState {
    if r.Completed? then Exists(Dir(r.after)) else root
  }

  /** The sum of the counts over the table. */
  function TallyFrom(stats: map<Name, nat>, i: nat): nat
    requires i <= |Table|
    requires CategoryNames() <= stats.Keys
    decreases |Table| - i
  {
    if i == |Table| then 0 else stats[Table[i].name] + TallyFrom(stats, i + 1)
  }

  function Tally(stats: map<Name, nat>): nat
    requires CategoryNames() <= stats.Keys
  {
    TallyFrom(stats, 0)
  }

  /** The categories a summary lists, from table entry `i` on: those with a
      positive count, in table order, with their counts. */
  function SummaryLinesFrom(stats: map<Name, nat>, i: nat): (lines: seq<(Name, nat)>)
    requires i <= |Table|
    requires CategoryNames() <= stats.Keys
    ensures forall k :: 0 <= k < |lines| ==> lines[k].1 > 0 && lines[k].0 in stats && stats[lines[k].0] == lines[k].1
    decreases |Table| - i
  {
    if i == |Table| then []
    else
      var c := Table[i].name;
      (if stats[c] > 0 then [(c, stats[c])] else []) + SummaryLinesFrom(stats, i + 1)
  }

  function SummaryLines(stats: map<Name, nat>): seq<(Name, nat)>
    requires CategoryNames() <= stats.Keys
  {
    SummaryLinesFrom(stats, 0)
  }
}
