/** The promises of one restore call: which entries it works on, what it
    leaves of each category folder, what it keeps and what it counts. */
module RestoreTheorems {
  import opened Names
  import opened Categories
  import opened FileSystem
  import opened Restorer
  import opened RestoreProperties

  /** What the outer loop leaves of folder `c`, given what its turn keeps:
      the kept entries, or, when nothing is kept and the file system accepts
      the removal, no folder (a restored file may take the freed name). */
  predicate FolderOutcome(after: Folder, c: Name, kept: Folder, stuck: set<Name>) {
    && (kept != map[] || c in stuck ==> c in after && after[c] == Dir(kept))
    && (kept == map[] && c !in stuck ==> c !in after || after[c].File?)
  }

  /** The outer loop, for an enumeration that lists each name once: every
      entry other than a category folder it reaches stays as it was, and
      every new entry is a regular file. */
  lemma {:induction false} RestoreLoopFrame(r: Restoration, outer: seq<Name>, inner: Name -> seq<Name>,
                                            failing: set<(Name, Name)>, stuck: set<Name>)
    requires Distinct(outer)
    ensures var s := RestoreLoop(r, outer, inner, failing, stuck);
      forall n :: n in r.root && !(IsCategoryFolder(r.root, n) && n in outer) ==> n in s.root && s.root[n] == r.root[n]
    ensures var s := RestoreLoop(r, outer, inner, failing, stuck);
      forall n :: n in s.root && n !in r.root ==> s.root[n].File?
    decreases |outer|
  {
    if |outer| > 0 {
      var n0 := outer[0];
      var rest := outer[1..];
      var next := if IsCategoryFolder(r.root, n0) then RestoreFolder(r, n0, inner(n0), failing, stuck) else r;
      assert n0 !in rest;
      RestoreLoopFrame(next, rest, inner, failing, stuck);
      RestoreLoopStep(r, n0, inner, failing, stuck);
    }
  }

  /** The outer loop, for an enumeration that lists each name once: each
      category folder it reaches, with an enumeration listing that folder's
      entries once each, ends as its turn leaves it. */
  lemma {:induction false} RestoreLoopShape(r: Restoration, outer: seq<Name>, inner: Name -> seq<Name>,
                                            failing: set<(Name, Name)>, stuck: set<Name>)
    requires Distinct(outer)
    ensures var s := RestoreLoop(r, outer, inner, failing, stuck);
      forall c :: IsCategoryFolder(r.root, c) && c in outer && IsListing(inner(c), r.root[c].entries.Keys) ==>
        FolderOutcome(s.root, c, Kept(r.root[c].entries, c, failing), stuck)
    decreases |outer|
  {
    if |outer| > 0 {
      var n0 := outer[0];
      var rest := outer[1..];
      var next := if IsCategoryFolder(r.root, n0) then RestoreFolder(r, n0, inner(n0), failing, stuck) else r;
      var s := RestoreLoop(next, rest, inner, failing, stuck);
      assert s == RestoreLoop(r, outer, inner, failing, stuck);
      assert n0 !in rest;
      RestoreLoopShape(next, rest, inner, failing, stuck);
      RestoreLoopFrame(next, rest, inner, failing, stuck);
      if IsCategoryFolder(r.root, n0) && IsListing(inner(n0), r.root[n0].entries.Keys) {
        RestoreFolderShape(r, n0, inner(n0), failing, stuck);
      }
      RestoreLoopStep(r, n0, inner, failing, stuck);
      forall c | IsCategoryFolder(r.root, c) && c in outer && IsListing(inner(c), r.root[c].entries.Keys)
        ensures FolderOutcome(s.root, c, Kept(r.root[c].entries, c, failing), stuck)
      {
        if c != n0 {
          assert c in rest;
        }
      }
    }
  }

  /** One turn of the outer loop changes only the entry it reaches, and
      adds only regular files. */
  lemma RestoreLoopStep(r: Restoration, n0: Name, inner: Name -> seq<Name>,
                        failing: set<(Name, Name)>, stuck: set<Name>)
    ensures var next := if IsCategoryFolder(r.root, n0) then RestoreFolder(r, n0, inner(n0), failing, stuck) else r;
      forall n :: n in r.root && n != n0 ==> n in next.root && next.root[n] == r.root[n]
    ensures var next := if IsCategoryFolder(r.root, n0) then RestoreFolder(r, n0, inner(n0), failing, stuck) else r;
      forall n :: n in next.root && n !in r.root ==> next.root[n].File?
  {
    if IsCategoryFolder(r.root, n0) {
      RestoreFolderFrame(r, n0, inner(n0), failing, stuck);
    }
  }

  /** The outer loop keeps the inventory and adds one root file per
      restored file. */
  lemma {:induction false} RestoreLoopCounts(r: Restoration, outer: seq<Name>, inner: Name -> seq<Name>,
                                             failing: set<(Name, Name)>, stuck: set<Name>)
    ensures var s := RestoreLoop(r, outer, inner, failing, stuck);
      Inventory(s.root) == Inventory(r.root)
    ensures var s := RestoreLoop(r, outer, inner, failing, stuck);
      s.count >= r.count && |FileNames(s.root)| == |FileNames(r.root)| + (s.count - r.count)
    decreases |outer|
  {
    if |outer| > 0 {
      var n0 := outer[0];
      var next := if IsCategoryFolder(r.root, n0) then RestoreFolder(r, n0, inner(n0), failing, stuck) else r;
      if IsCategoryFolder(r.root, n0) {
        RestoreFolderCounts(r, n0, inner(n0), failing, stuck);
      }
      RestoreLoopCounts(next, outer[1..], inner, failing, stuck);
    }
  }

  /** The number of regular files, over the category folders among
      `names`, whose move the file system accepts. */
  function MovableTotal(root: Folder, names: seq<Name>, failing: set<(Name, Name)>): nat
    decreases |names|
  {
    if |names| == 0 then 0
    else
      var n := names[0];
      (if IsCategoryFolder(root, n) then |Movable(root[n].entries, n, failing)| else 0)
        + MovableTotal(root, names[1..], failing)
  }

  /** The total depends only on the entries named. */
  lemma {:induction false} MovableTotalFrame(a: Folder, b: Folder, names: seq<Name>, failing: set<(Name, Name)>)
    requires forall n :: n in names && n in a ==> n in b && b[n] == a[n]
    requires forall n :: n in names && n in b && n !in a ==> b[n].File?
    ensures MovableTotal(b, names, failing) == MovableTotal(a, names, failing)
    decreases |names|
  {
    if |names| > 0 {
      MovableTotalFrame(a, b, names[1..], failing);
    }
  }

  /** The outer loop, for an enumeration that lists each name once and
      folder enumerations that list each folder's entries once, counts
      exactly the movable files of the category folders it reaches. */
  lemma {:induction false} RestoreLoopCount(r: Restoration, outer: seq<Name>, inner: Name -> seq<Name>,
                                            failing: set<(Name, Name)>, stuck: set<Name>)
    requires Distinct(outer)
    requires forall c :: c in outer && IsCategoryFolder(r.root, c) ==> IsListing(inner(c), r.root[c].entries.Keys)
    ensures RestoreLoop(r, outer, inner, failing, stuck).count == r.count + MovableTotal(r.root, outer, failing)
    decreases |outer|
  {
    if |outer| > 0 {
      var n0 := outer[0];
      var rest := outer[1..];
      var next := if IsCategoryFolder(r.root, n0) then RestoreFolder(r, n0, inner(n0), failing, stuck) else r;
      assert n0 !in rest;
      if IsCategoryFolder(r.root, n0) {
        RestoreFolderCount(r, n0, inner(n0), failing, stuck);
        RestoreFolderFrame(r, n0, inner(n0), failing, stuck);
      }
      MovableTotalFrame(r.root, next.root, rest, failing);
      forall c | c in rest && IsCategoryFolder(next.root, c)
        ensures IsListing(inner(c), next.root[c].entries.Keys)
      {
        assert c in r.root && next.root[c] == r.root[c];
      }
      RestoreLoopCount(next, rest, inner, failing, stuck);
    }
  }

  /** A restore raises exactly when the root is missing or not a directory. */
  lemma RestoreRaisesOn(root: PathState, outer: seq<Name>, inner: Name -> seq<Name>,
                        failing: set<(Name, Name)>, stuck: set<Name>)
    requires IsDirRoot(root) ==> IsListing(outer, root.node.entries.Keys)
    ensures Restore(root, outer, inner, failing, stuck) == RestoreRaised <==> !IsDirRoot(root)
  {
  }

  /** What a restore leaves alone: every entry of the root other than a
      category folder (its regular files, hidden or not, and its other
      directories) stays as it was, so no restored file overwrites one, and
      every new entry is a regular file. */
  lemma RestoreFrame(root: PathState, outer: seq<Name>, inner: Name -> seq<Name>,
                     failing: set<(Name, Name)>, stuck: set<Name>)
    requires IsDirRoot(root) && IsListing(outer, root.node.entries.Keys)
    ensures var r := Restore(root, outer, inner, failing, stuck);
      r.Restored? && forall n :: n in root.node.entries && !IsCategoryFolder(root.node.entries, n) ==>
        n in r.after && r.after[n] == root.node.entries[n]
    ensures var r := Restore(root, outer, inner, failing, stuck);
      r.Restored? && forall n :: n in r.after && n !in root.node.entries ==> r.after[n].File?
  {
    RestoreLoopFrame(Restoration(root.node.entries, 0), outer, inner, failing, stuck);
  }

  /** What a restore leaves of each category folder whose enumeration lists
      its entries once each: its subdirectories and the files whose move the
      file system refused; the folder itself is removed exactly when that
      leaves nothing and the file system accepts the removal. */
  lemma RestoreFolders(root: PathState, outer: seq<Name>, inner: Name -> seq<Name>,
                       failing: set<(Name, Name)>, stuck: set<Name>)
    requires IsDirRoot(root) && IsListing(outer, root.node.entries.Keys)
    ensures var r := Restore(root, outer, inner, failing, stuck);
      var entries := root.node.entries;
      r.Restored? && forall c :: IsCategoryFolder(entries, c) && IsListing(inner(c), entries[c].entries.Keys) ==>
        FolderOutcome(r.after, c, Kept(entries[c].entries, c, failing), stuck)
  {
    RestoreLoopShape(Restoration(root.node.entries, 0), outer, inner, failing, stuck);
  }

  /** A restore loses and duplicates no file content, and its count is the
      number of regular files the root gained. */
  lemma RestoreCounts(root: PathState, outer: seq<Name>, inner: Name -> seq<Name>,
                      failing: set<(Name, Name)>, stuck: set<Name>)
    requires IsDirRoot(root) && IsListing(outer, root.node.entries.Keys)
    ensures var r := Restore(root, outer, inner, failing, stuck);
      r.Restored? && Inventory(r.after) == Inventory(root.node.entries)
    ensures var r := Restore(root, outer, inner, failing, stuck);
      r.Restored? && |FileNames(r.after)| == |FileNames(root.node.entries)| + r.count
  {
    RestoreLoopCounts(Restoration(root.node.entries, 0), outer, inner, failing, stuck);
  }

  /** A restore whose folder enumerations list each folder's entries once
      counts exactly the regular files of the root's category folders whose
      move the file system accepts. */
  lemma RestoreCount(root: PathState, outer: seq<Name>, inner: Name -> seq<Name>,
                     failing: set<(Name, Name)>, stuck: set<Name>)
    requires IsDirRoot(root) && IsListing(outer, root.node.entries.Keys)
    requires forall c :: IsCategoryFolder(root.node.entries, c) ==>
      IsListing(inner(c), root.node.entries[c].entries.Keys)
    ensures var r := Restore(root, outer, inner, failing, stuck);
      r.Restored? && r.count == MovableTotal(root.node.entries, outer, failing)
  {
    RestoreLoopCount(Restoration(root.node.entries, 0), outer, inner, failing, stuck);
  }
}
