/** What the steps of a restore promise: one file move, the inner loop over
    one folder, and the removal of an emptied folder. */
module RestoreProperties {
  import opened Names
  import opened Categories
  import opened Conflicts
  import opened FileSystem
  import opened Restorer

  /** Whether entry `n` of the entries `e` of folder `c` is a regular file
      whose move the file system accepts. */
  function MovableIn(e: Folder, c: Name, failing: set<(Name, Name)>): Name -> bool {
    n => n in e && e[n].File? && (c, n) !in failing
  }

  /** What remains of the entries `e` of folder `c` once the names in `names`
      are processed: everything except the movable files among them. */
  function Left(e: Folder, c: Name, names: seq<Name>, failing: set<(Name, Name)>): Folder {
    map n | n in e && !(n in names && MovableIn(e, c, failing)(n)) :: e[n]
  }

  /** What remains of folder `c` once all its entries are processed: the
      subdirectories and the files whose move the file system refused. */
  function Kept(e: Folder, c: Name, failing: set<(Name, Name)>): Folder {
    map n | n in e && (e[n].Dir? || (c, n) in failing) :: e[n]
  }

  /** One restore step. A regular file of the folder whose move is accepted
      leaves the folder and appears in the root under a name the root did
      not hold, its own whenever that was free, and is counted; nothing else
      changes. Anything else leaves everything as it was. */
  lemma RestoreFileSpec(r: Restoration, c: Name, f: Name, failing: set<(Name, Name)>)
    ensures var s := RestoreFile(r, c, f, failing);
      !(IsRestorable(r.root, c, f) && (c, f) !in failing) ==> s == r
    ensures var s := RestoreFile(r, c, f, failing);
      IsRestorable(r.root, c, f) && (c, f) !in failing ==>
      var dest := RestoreDest(r.root, f);
      && s.count == r.count + 1
      && dest !in r.root && (f !in r.root ==> dest == f)
      && s.root.Keys == r.root.Keys + {dest}
      && s.root[dest] == r.root[c].entries[f]
      && s.root[c] == Dir(r.root[c].entries - {f})
      && (forall n :: n in r.root && n != c ==> s.root[n] == r.root[n])
  {
  }

  /** Taking a regular file out of a subfolder removes exactly its content. */
  lemma InventoryTakeOut(root: Folder, c: Name, f: Name)
    requires c in root && root[c].Dir? && f in root[c].entries && root[c].entries[f].File?
    ensures Inventory(root) == Inventory(root[c := Dir(root[c].entries - {f})]) + multiset{root[c].entries[f].blob}
  {
    var entries := root[c].entries;
    MapSumRemove(root, c, Deep);
    DeepRemoveFile(entries, f);
    MapSumUpdate(root, c, Dir(entries - {f}), Deep);
  }

  /** Adding a regular file under a new root name adds exactly its content. */
  lemma InventoryPutIn(root: Folder, dest: Name, b: Blob)
    requires dest !in root
    ensures Inventory(root[dest := File(b)]) == Inventory(root) + multiset{b}
  {
    MapSumUpdate(root, dest, File(b), Deep);
    assert root - {dest} == root;
  }

  /** One restore step keeps the inventory. */
  lemma RestoreFileInventory(r: Restoration, c: Name, f: Name, failing: set<(Name, Name)>)
    ensures Inventory(RestoreFile(r, c, f, failing).root) == Inventory(r.root)
  {
    if IsRestorable(r.root, c, f) && (c, f) !in failing {
      var entries := r.root[c].entries;
      var dest := RestoreDest(r.root, f);
      var shrunk := r.root[c := Dir(entries - {f})];
      assert dest !in shrunk;
      assert entries[f] == File(entries[f].blob);
      InventoryTakeOut(r.root, c, f);
      InventoryPutIn(shrunk, dest, entries[f].blob);
    }
  }

  /** One restore step adds one root file per restored file. */
  lemma RestoreFileNames(r: Restoration, c: Name, f: Name, failing: set<(Name, Name)>)
    ensures var s := RestoreFile(r, c, f, failing);
      s.count >= r.count && |FileNames(s.root)| == |FileNames(r.root)| + (s.count - r.count)
  {
    if IsRestorable(r.root, c, f) && (c, f) !in failing {
      var entries := r.root[c].entries;
      var dest := RestoreDest(r.root, f);
      RestoreFileSpec(r, c, f, failing);
      FileNamesSetDir(r.root, c, entries - {f});
      assert entries[f] == File(entries[f].blob);
      FileNamesAddFile(r.root[c := Dir(entries - {f})], dest, entries[f].blob);
    }
  }

  lemma {:induction false} CountWhereAgree(s: seq<Name>, p: Name -> bool, q: Name -> bool)
    requires forall i :: 0 <= i < |s| ==> p(s[i]) == q(s[i])
    ensures CountWhere(s, p) == CountWhere(s, q)
  {
    if |s| > 0 {
      CountWhereAgree(s[1..], p, q);
    }
  }

  /** The inner loop over a folder touches no other entry of the root, and
      every entry it adds is a regular file. */
  lemma {:induction false} RestoreEntriesFrame(r: Restoration, c: Name, names: seq<Name>, failing: set<(Name, Name)>)
    requires c in r.root && r.root[c].Dir?
    ensures var s := RestoreEntries(r, c, names, failing);
      c in s.root && s.root[c].Dir?
    ensures var s := RestoreEntries(r, c, names, failing);
      forall n :: n in r.root && n != c ==> n in s.root && s.root[n] == r.root[n]
    ensures var s := RestoreEntries(r, c, names, failing);
      forall n :: n in s.root && n !in r.root ==> s.root[n].File?
    decreases |names|
  {
    if |names| > 0 {
      var next := RestoreFile(r, c, names[0], failing);
      RestoreFileSpec(r, c, names[0], failing);
      RestoreEntriesFrame(next, c, names[1..], failing);
    }
  }

  /** Processing one more name first: a movable file leaves the entries. */
  lemma LeftStep(e: Folder, c: Name, names: seq<Name>, failing: set<(Name, Name)>)
    requires |names| > 0 && names[0] !in names[1..]
    ensures var f := names[0];
      var e' := if MovableIn(e, c, failing)(f) then e - {f} else e;
      Left(e', c, names[1..], failing) == Left(e, c, names, failing)
  {
    var f := names[0];
    var e' := if MovableIn(e, c, failing)(f) then e - {f} else e;
    forall n | n in e' && n != f
      ensures MovableIn(e', c, failing)(n) == MovableIn(e, c, failing)(n)
    {
    }
    assert forall n :: n in names <==> n == f || n in names[1..];
  }

  /** The inner loop over a folder, for names listed once each, leaves the
      folder everything but the movable files among the names. */
  lemma {:induction false} RestoreEntriesShape(r: Restoration, c: Name, names: seq<Name>, failing: set<(Name, Name)>)
    requires c in r.root && r.root[c].Dir?
    requires Distinct(names)
    ensures var s := RestoreEntries(r, c, names, failing);
      c in s.root && s.root[c] == Dir(Left(r.root[c].entries, c, names, failing))
    decreases |names|
  {
    var e := r.root[c].entries;
    if |names| == 0 {
      assert Left(e, c, names, failing) == e;
    } else {
      var f := names[0];
      var next := RestoreFile(r, c, f, failing);
      RestoreFileSpec(r, c, f, failing);
      assert next.root[c].entries == if MovableIn(e, c, failing)(f) then e - {f} else e;
      RestoreEntriesShape(next, c, names[1..], failing);
      LeftStep(e, c, names, failing);
    }
  }

  /** The count of the inner loop grows by the number of movable files among
      the names, listed once each. */
  lemma {:induction false} RestoreEntriesCount(r: Restoration, c: Name, names: seq<Name>, failing: set<(Name, Name)>)
    requires c in r.root && r.root[c].Dir?
    requires Distinct(names)
    ensures RestoreEntries(r, c, names, failing).count
         == r.count + CountWhere(names, MovableIn(r.root[c].entries, c, failing))
    decreases |names|
  {
    if |names| > 0 {
      var e := r.root[c].entries;
      var f := names[0];
      var rest := names[1..];
      var next := RestoreFile(r, c, f, failing);
      RestoreFileSpec(r, c, f, failing);
      var e' := next.root[c].entries;
      RestoreEntriesCount(next, c, rest, failing);
      forall i | 0 <= i < |rest|
        ensures MovableIn(e', c, failing)(rest[i]) == MovableIn(e, c, failing)(rest[i])
      {
        assert rest[i] != names[0];
      }
      CountWhereAgree(rest, MovableIn(e', c, failing), MovableIn(e, c, failing));
    }
  }

  /** The inner loop keeps the inventory and adds one root file per
      restored file. */
  lemma {:induction false} RestoreEntriesCounts(r: Restoration, c: Name, names: seq<Name>, failing: set<(Name, Name)>)
    ensures var s := RestoreEntries(r, c, names, failing);
      Inventory(s.root) == Inventory(r.root)
    ensures var s := RestoreEntries(r, c, names, failing);
      s.count >= r.count && |FileNames(s.root)| == |FileNames(r.root)| + (s.count - r.count)
    decreases |names|
  {
    if |names| > 0 {
      RestoreFileInventory(r, c, names[0], failing);
      RestoreFileNames(r, c, names[0], failing);
      RestoreEntriesCounts(RestoreFile(r, c, names[0], failing), c, names[1..], failing);
    }
  }

  /** Processing every entry of the folder leaves exactly the kept ones. */
  lemma LeftAfterAll(e: Folder, c: Name, names: seq<Name>, failing: set<(Name, Name)>)
    requires forall n :: n in e ==> n in names
    ensures Left(e, c, names, failing) == Kept(e, c, failing)
  {
  }

  /** Removing a folder only when it is empty keeps the inventory and the
      root's regular files. */
  lemma RemoveIfEmptyCounts(root: Folder, c: Name, stuck: set<Name>)
    ensures Inventory(RemoveIfEmpty(root, c, stuck)) == Inventory(root)
    ensures FileNames(RemoveIfEmpty(root, c, stuck)) == FileNames(root)
  {
    if c in root && root[c] == Dir(map[]) && c !in stuck {
      MapSumRemove(root, c, Deep);
      EmptyDirHoldsNothing();
    }
  }

  /** A category folder's turn touches no other entry of the root, and
      every entry it adds is a regular file. */
  lemma RestoreFolderFrame(r: Restoration, c: Name, inner: seq<Name>, failing: set<(Name, Name)>, stuck: set<Name>)
    requires c in r.root && r.root[c].Dir?
    ensures var s := RestoreFolder(r, c, inner, failing, stuck);
      forall n :: n in r.root && n != c ==> n in s.root && s.root[n] == r.root[n]
    ensures var s := RestoreFolder(r, c, inner, failing, stuck);
      forall n :: n in s.root && n !in r.root ==> s.root[n].File?
  {
    RestoreEntriesFrame(r, c, inner, failing);
  }

  /** A category folder's turn, when its enumeration lists its entries once
      each: the folder is gone when nothing is kept and the file system
      accepts the removal, and otherwise holds exactly the kept entries; the
      count grows by the number of movable files. */
  lemma RestoreFolderShape(r: Restoration, c: Name, inner: seq<Name>, failing: set<(Name, Name)>, stuck: set<Name>)
    requires c in r.root && r.root[c].Dir?
    requires IsListing(inner, r.root[c].entries.Keys)
    ensures var s := RestoreFolder(r, c, inner, failing, stuck);
      var kept := Kept(r.root[c].entries, c, failing);
      (c in s.root <==> kept != map[] || c in stuck) && (c in s.root ==> s.root[c] == Dir(kept))
    ensures var s := RestoreFolder(r, c, inner, failing, stuck);
      s.count == r.count + CountWhere(inner, MovableIn(r.root[c].entries, c, failing))
  {
    RestoreEntriesShape(r, c, inner, failing);
    RestoreEntriesCount(r, c, inner, failing);
    LeftAfterAll(r.root[c].entries, c, inner, failing);
  }

  /** A category folder's turn keeps the inventory and adds one root file
      per restored file. */
  lemma RestoreFolderCounts(r: Restoration, c: Name, inner: seq<Name>, failing: set<(Name, Name)>, stuck: set<Name>)
    ensures var s := RestoreFolder(r, c, inner, failing, stuck);
      Inventory(s.root) == Inventory(r.root)
    ensures var s := RestoreFolder(r, c, inner, failing, stuck);
      s.count >= r.count && |FileNames(s.root)| == |FileNames(r.root)| + (s.count - r.count)
  {
    var e := RestoreEntries(r, c, inner, failing);
    RestoreEntriesCounts(r, c, inner, failing);
    RemoveIfEmptyCounts(e.root, c, stuck);
  }

  /** The regular files of the entries `e` of folder `c` whose move the file
      system accepts. */
  function Movable(e: Folder, c: Name, failing: set<(Name, Name)>): set<Name> {
    set n | n in e && e[n].File? && (c, n) !in failing
  }

  /** A category folder's turn, when its enumeration lists its entries once
      each, counts exactly its regular files whose move is accepted. */
  lemma RestoreFolderCount(r: Restoration, c: Name, inner: seq<Name>, failing: set<(Name, Name)>, stuck: set<Name>)
    requires c in r.root && r.root[c].Dir?
    requires IsListing(inner, r.root[c].entries.Keys)
    ensures RestoreFolder(r, c, inner, failing, stuck).count == r.count + |Movable(r.root[c].entries, c, failing)|
  {
    var e := r.root[c].entries;
    RestoreFolderShape(r, c, inner, failing, stuck);
    CountWhereIsSize(inner, MovableIn(e, c, failing));
    assert (set x | x in inner && MovableIn(e, c, failing)(x)) == Movable(e, c, failing);
  }
}
