/** Organizing and then restoring a root that holds no entry named after a
    category gives back the root exactly, whatever moves the organize pass
    had refused, provided the restore pass is refused nothing. */
module RoundTrip {
  import opened Names
  import opened Categories
  import opened Conflicts
  import opened FileSystem
  import opened Organizer
  import opened OrganizeProperties
  import opened OrganizeTheorems
  import opened Restorer
  import opened RestoreProperties
  import opened RestoreTheorems

  /** No entry of the root carries a category's name. */
  predicate NoCategoryNames(e0: Folder) {
    forall n :: n in e0 ==> !IsCategory(n)
  }

  /** Every entry of category folder `c` is an original regular file of that
      category, unchanged, whose name the root no longer holds. */
  predicate Filed(e0: Folder, cur: Folder, c: Name)
    requires c in cur && cur[c].Dir?
  {
    forall f :: f in cur[c].entries ==>
      f in e0 && f !in cur && CategoryOf(f) == c && e0[f].File? && cur[c].entries[f] == e0[f]
  }

  /** Whether original entry `n` sits in its category folder. */
  predicate InFolder(cur: Folder, n: Name) {
    var c := CategoryOf(n);
    c in cur && cur[c].Dir? && n in cur[c].entries
  }

  /** Every entry of `cur` not named after a category is the original. */
  predicate OthersOriginal(e0: Folder, cur: Folder) {
    forall n :: n in cur && !IsCategory(n) ==> n in e0 && cur[n] == e0[n]
  }

  /** Every entry of `cur` named after a category is a folder of filed
      originals. */
  predicate FoldersFiled(e0: Folder, cur: Folder) {
    forall c :: c in cur && IsCategory(c) ==> cur[c].Dir? && Filed(e0, cur, c)
  }

  /** Every original is in the root or in its category folder. */
  predicate AllPlaced(e0: Folder, cur: Folder) {
    forall n :: n in e0 ==> n in cur || InFolder(cur, n)
  }

  /** `cur` is the original root `e0` with some of its regular files moved,
      under their own names, into their category folders. */
  predicate Sorted(e0: Folder, cur: Folder) {
    OthersOriginal(e0, cur) && FoldersFiled(e0, cur) && AllPlaced(e0, cur)
  }

  /** A sorted root without category entries is the original. */
  lemma SortedWithoutFolders(e0: Folder, cur: Folder)
    requires Sorted(e0, cur)
    requires forall n :: n in cur ==> !IsCategory(n)
    ensures cur == e0
  {
    assert cur.Keys == e0.Keys;
  }

  /** The root the organize pass leaves: its final root when it completes,
      the original otherwise. */
  function Organized(e0: Folder, dryRun: bool, order: seq<Name>, failing: set<Name>): Folder
    requires IsListing(order, e0.Keys)
  {
    var r := Organize(Exists(Dir(e0)), dryRun, order, failing);
    if r.Completed? then r.after else e0
  }

  /** Adding empty category folders keeps a root sorted. */
  lemma EmptyFoldersSorted(e0: Folder, cur: Folder, next: Folder)
    requires NoCategoryNames(e0) && Sorted(e0, cur)
    requires forall n :: n in cur ==> n in next && next[n] == cur[n]
    requires forall n :: n in next && n !in cur ==> IsCategory(n) && next[n] == Dir(map[])
    ensures Sorted(e0, next)
  {
    forall c | c in next && IsCategory(c)
      ensures next[c].Dir? && Filed(e0, next, c)
    {
      if c in cur {
        assert Filed(e0, cur, c);
      }
    }
    forall n | n in e0
      ensures n in next || InFolder(next, n)
    {
      if n !in cur {
        assert InFolder(cur, n);
      }
    }
  }

  /** The pass starts sorted: the up-front folders are new and empty. */
  lemma StartSorted(e0: Folder, dryRun: bool)
    requires NoCategoryNames(e0)
    ensures Sorted(e0, StartRoot(e0, dryRun))
  {
    assert Sorted(e0, e0);
    if !dryRun {
      UpFrontAreCategories();
      EmptyFoldersSorted(e0, e0, StartRoot(e0, dryRun));
    }
  }

  /** The root with original file `f` filed, under its own name, into its
      category folder, created if absent. */
  function FileAway(cur: Folder, f: Name): Folder
    requires f in cur
    requires CategoryOf(f) in cur ==> cur[CategoryOf(f)].Dir?
  {
    var c := CategoryOf(f);
    (cur - {f})[c := Dir(FolderEntries(cur, c)[f := cur[f]])]
  }

  lemma FileAwayFiled(e0: Folder, cur: Folder, f: Name)
    requires NoCategoryNames(e0) && FoldersFiled(e0, cur)
    requires f in cur && cur[f].File? && !IsCategory(f) && f in e0 && cur[f] == e0[f]
    requires CategoryOf(f) in cur ==> cur[CategoryOf(f)].Dir?
    ensures FoldersFiled(e0, FileAway(cur, f))
  {
    var c := CategoryOf(f);
    var next := FileAway(cur, f);
    forall c2 | c2 in next && IsCategory(c2)
      ensures next[c2].Dir? && Filed(e0, next, c2)
    {
      if c2 == c {
        FileAwayGrowsFolder(e0, cur, f);
      } else {
        assert c2 in cur;
        FileAwayLeavesFolder(e0, cur, f, c2);
      }
    }
  }

  lemma FileAwayGrowsFolder(e0: Folder, cur: Folder, f: Name)
    requires f in cur && cur[f].File? && f in e0 && cur[f] == e0[f]
    requires CategoryOf(f) in cur ==> cur[CategoryOf(f)].Dir? && Filed(e0, cur, CategoryOf(f))
    ensures Filed(e0, FileAway(cur, f), CategoryOf(f))
  {
  }

  lemma FileAwayLeavesFolder(e0: Folder, cur: Folder, f: Name, c2: Name)
    requires f in cur
    requires CategoryOf(f) in cur ==> cur[CategoryOf(f)].Dir?
    requires NoCategoryNames(e0)
    requires c2 in cur && cur[c2].Dir? && Filed(e0, cur, c2) && c2 != CategoryOf(f) && c2 != f
    ensures FileAway(cur, f)[c2] == cur[c2] && Filed(e0, FileAway(cur, f), c2)
  {
    var next := FileAway(cur, f);
    assert next[c2] == cur[c2];
    forall g | g in cur[c2].entries
      ensures g !in next
    {
      assert g in e0 && g !in cur;
    }
  }

  lemma FileAwayPlaced(e0: Folder, cur: Folder, f: Name)
    requires AllPlaced(e0, cur)
    requires f in cur && !IsCategory(f)
    requires CategoryOf(f) in cur ==> cur[CategoryOf(f)].Dir?
    ensures AllPlaced(e0, FileAway(cur, f))
  {
    var c := CategoryOf(f);
    var next := FileAway(cur, f);
    forall n | n in e0
      ensures n in next || InFolder(next, n)
    {
      if n == f {
        assert next[c] == Dir(FolderEntries(cur, c)[f := cur[f]]);
      } else if n !in cur {
        assert InFolder(cur, n);
        var c2 := CategoryOf(n);
        assert n in FolderEntries(cur, c2);
        if c2 != c {
          assert next[c2] == cur[c2];
        }
      }
    }
  }

  /** Filing an original regular file keeps a root sorted. */
  lemma FileAwaySorted(e0: Folder, cur: Folder, f: Name)
    requires NoCategoryNames(e0) && Sorted(e0, cur)
    requires f in cur && cur[f].File? && !IsCategory(f)
    requires CategoryOf(f) in cur ==> cur[CategoryOf(f)].Dir?
    ensures Sorted(e0, FileAway(cur, f))
  {
    FileAwayOthers(e0, cur, f);
    FileAwayFiled(e0, cur, f);
    FileAwayPlaced(e0, cur, f);
  }

  lemma FileAwayOthers(e0: Folder, cur: Folder, f: Name)
    requires OthersOriginal(e0, cur)
    requires f in cur && !IsCategory(f)
    requires CategoryOf(f) in cur ==> cur[CategoryOf(f)].Dir?
    ensures f in e0 && cur[f] == e0[f]
    ensures OthersOriginal(e0, FileAway(cur, f))
  {
  }

  /** A move attempt keeps the root sorted: a refused one adds at most an
      empty category folder; a successful one files an original that is not
      in its folder yet, so it keeps its own name there. */
  lemma MoveSorted(e0: Folder, cur: Folder, f: Name, fails: bool)
    requires NoCategoryNames(e0) && Sorted(e0, cur)
    ensures Sorted(e0, MoveFile(cur, f, CategoryOf(f), fails).root)
  {
    var c := CategoryOf(f);
    var m := MoveFile(cur, f, c, fails);
    MoveFileSpec(cur, f, c, fails);
    if m.ok {
      assert !IsCategory(f);
      assert f !in FolderEntries(cur, c) by {
        if c in cur {
          assert Filed(e0, cur, c);
        }
      }
      FileAwaySorted(e0, cur, f);
      assert m.root == FileAway(cur, f);
    } else {
      EmptyFoldersSorted(e0, cur, m.root);
    }
  }

  /** The organize loop keeps the root sorted. */
  lemma {:induction false} OrganizeLoopSorted(e0: Folder, run: Run, files: seq<Name>, dryRun: bool, failing: set<Name>)
    requires run.stats.Keys == CategoryNames()
    requires NoCategoryNames(e0) && Sorted(e0, run.root)
    ensures Sorted(e0, OrganizeLoop(run, files, dryRun, failing).root)
    decreases |files|
  {
    if |files| > 0 {
      var f := files[0];
      var next := Step(run, f, dryRun, failing);
      StepEffect(run, f, dryRun, failing);
      if !dryRun {
        MoveSorted(e0, run.root, f, f in failing);
      }
      OrganizeLoopSorted(e0, next, files[1..], dryRun, failing);
    }
  }

  /** Whatever the organize pass does, it leaves the root sorted. */
  lemma OrganizeSorted(e0: Folder, dryRun: bool, order: seq<Name>, failing: set<Name>)
    requires IsListing(order, e0.Keys) && NoCategoryNames(e0)
    ensures Sorted(e0, Organized(e0, dryRun, order, failing))
  {
    var root := Exists(Dir(e0));
    CompletedIsFinalRun(root, dryRun, order, failing);
    if Organize(root, dryRun, order, failing).Completed? {
      StartSorted(e0, dryRun);
      OrganizeLoopSorted(e0, Run(StartRoot(e0, dryRun), InitialStats(), 0, 0), SelectFiles(e0, order), dryRun, failing);
    } else {
      assert Sorted(e0, e0);
    }
  }

  /** The root with filed original `f` taken out of folder `c` and put back
      under its own name. */
  function TakeBack(cur: Folder, c: Name, f: Name): Folder
    requires c in cur && cur[c].Dir? && f in cur[c].entries
  {
    cur[c := Dir(cur[c].entries - {f})][f := cur[c].entries[f]]
  }

  lemma TakeBackFiled(e0: Folder, cur: Folder, c: Name, f: Name)
    requires NoCategoryNames(e0) && FoldersFiled(e0, cur) && IsCategory(c)
    requires c in cur && cur[c].Dir? && f in cur[c].entries
    ensures FoldersFiled(e0, TakeBack(cur, c, f))
  {
    var next := TakeBack(cur, c, f);
    forall c2 | c2 in next && IsCategory(c2)
      ensures next[c2].Dir? && Filed(e0, next, c2)
    {
      TakeBackKeepsFolder(e0, cur, c, f, c2);
    }
  }

  /** Taking a filed original back keeps each category folder filed. */
  lemma TakeBackKeepsFolder(e0: Folder, cur: Folder, c: Name, f: Name, c2: Name)
    requires NoCategoryNames(e0) && FoldersFiled(e0, cur) && IsCategory(c)
    requires c in cur && cur[c].Dir? && f in cur[c].entries
    requires c2 in TakeBack(cur, c, f) && IsCategory(c2)
    ensures TakeBack(cur, c, f)[c2].Dir? && Filed(e0, TakeBack(cur, c, f), c2)
  {
    assert Filed(e0, cur, c);
    assert c2 != f && c2 in cur;
    if c2 == c {
      TakeBackShrinksFolder(e0, cur, c, f);
    } else {
      TakeBackLeavesFolder(e0, cur, c, f, c2);
    }
  }

  lemma TakeBackShrinksFolder(e0: Folder, cur: Folder, c: Name, f: Name)
    requires c in cur && cur[c].Dir? && f in cur[c].entries && Filed(e0, cur, c)
    requires c != f
    ensures Filed(e0, TakeBack(cur, c, f), c)
  {
  }

  lemma TakeBackLeavesFolder(e0: Folder, cur: Folder, c: Name, f: Name, c2: Name)
    requires c in cur && cur[c].Dir? && f in cur[c].entries && Filed(e0, cur, c)
    requires c2 in cur && cur[c2].Dir? && Filed(e0, cur, c2) && c2 != c && c2 != f
    ensures TakeBack(cur, c, f)[c2] == cur[c2] && Filed(e0, TakeBack(cur, c, f), c2)
  {
  }

  lemma TakeBackPlaced(e0: Folder, cur: Folder, c: Name, f: Name)
    requires AllPlaced(e0, cur)
    requires c in cur && cur[c].Dir? && f in cur[c].entries && f !in cur
    ensures AllPlaced(e0, TakeBack(cur, c, f))
  {
    var next := TakeBack(cur, c, f);
    forall n | n in e0 && n != f && n !in cur
      ensures InFolder(next, n)
    {
      assert InFolder(cur, n);
      var c2 := CategoryOf(n);
      if c2 != c {
        assert next[c2] == cur[c2];
      }
    }
  }

  /** Taking a filed original back keeps a root sorted. */
  lemma TakeBackSorted(e0: Folder, cur: Folder, c: Name, f: Name)
    requires NoCategoryNames(e0) && Sorted(e0, cur) && IsCategory(c)
    requires c in cur && cur[c].Dir? && f in cur[c].entries
    ensures Sorted(e0, TakeBack(cur, c, f))
  {
    assert Filed(e0, cur, c);
    TakeBackOthers(e0, cur, c, f);
    TakeBackFiled(e0, cur, c, f);
    TakeBackPlaced(e0, cur, c, f);
  }

  lemma TakeBackOthers(e0: Folder, cur: Folder, c: Name, f: Name)
    requires OthersOriginal(e0, cur) && IsCategory(c)
    requires c in cur && cur[c].Dir? && f in cur[c].entries && Filed(e0, cur, c)
    ensures OthersOriginal(e0, TakeBack(cur, c, f))
  {
  }

  /** One restore step keeps the root sorted: the file's own name is free
      in the root, so it returns under it. */
  lemma RestoreFileSorted(e0: Folder, r: Restoration, c: Name, f: Name, failing: set<(Name, Name)>)
    requires NoCategoryNames(e0) && Sorted(e0, r.root) && IsCategory(c)
    ensures Sorted(e0, RestoreFile(r, c, f, failing).root)
  {
    if IsRestorable(r.root, c, f) && (c, f) !in failing {
      assert Filed(e0, r.root, c);
      assert RestoreDest(r.root, f) == f;
      TakeBackSorted(e0, r.root, c, f);
      assert RestoreFile(r, c, f, failing).root == TakeBack(r.root, c, f);
    }
  }

  /** The inner loop keeps the root sorted. */
  lemma {:induction false} RestoreEntriesSorted(e0: Folder, r: Restoration, c: Name, names: seq<Name>,
                                                failing: set<(Name, Name)>)
    requires NoCategoryNames(e0) && Sorted(e0, r.root) && IsCategory(c)
    ensures Sorted(e0, RestoreEntries(r, c, names, failing).root)
    decreases |names|
  {
    if |names| > 0 {
      RestoreFileSorted(e0, r, c, names[0], failing);
      RestoreEntriesSorted(e0, RestoreFile(r, c, names[0], failing), c, names[1..], failing);
    }
  }

  /** Removing an empty category folder keeps the root sorted. */
  lemma RemoveIfEmptySorted(e0: Folder, root: Folder, c: Name, stuck: set<Name>)
    requires NoCategoryNames(e0) && Sorted(e0, root) && IsCategory(c)
    ensures Sorted(e0, RemoveIfEmpty(root, c, stuck))
  {
    if RemoveIfEmpty(root, c, stuck) != root {
      RemoveEmptyFiled(e0, root, c);
      RemoveEmptyPlaced(e0, root, c);
    }
  }

  lemma RemoveEmptyFiled(e0: Folder, root: Folder, c: Name)
    requires FoldersFiled(e0, root) && c in root && root[c] == Dir(map[])
    ensures FoldersFiled(e0, root - {c})
  {
    forall c2 | c2 in root - {c} && IsCategory(c2)
      ensures (root - {c})[c2].Dir? && Filed(e0, root - {c}, c2)
    {
      assert Filed(e0, root, c2);
    }
  }

  lemma RemoveEmptyPlaced(e0: Folder, root: Folder, c: Name)
    requires NoCategoryNames(e0) && IsCategory(c)
    requires AllPlaced(e0, root) && c in root && root[c] == Dir(map[])
    ensures AllPlaced(e0, root - {c})
  {
    forall n | n in e0
      ensures n in root - {c} || InFolder(root - {c}, n)
    {
      if n !in root {
        assert InFolder(root, n);
        var c2 := CategoryOf(n);
        assert c2 != c && (root - {c})[c2] == root[c2];
      }
    }
  }

  /** The outer loop keeps the root sorted. */
  lemma {:induction false} RestoreLoopSorted(e0: Folder, r: Restoration, outer: seq<Name>, inner: Name -> seq<Name>,
                                             failing: set<(Name, Name)>, stuck: set<Name>)
    requires NoCategoryNames(e0) && Sorted(e0, r.root)
    ensures Sorted(e0, RestoreLoop(r, outer, inner, failing, stuck).root)
    decreases |outer|
  {
    if |outer| > 0 {
      var n := outer[0];
      var next := if IsCategoryFolder(r.root, n) then RestoreFolder(r, n, inner(n), failing, stuck) else r;
      if IsCategoryFolder(r.root, n) {
        RestoreEntriesSorted(e0, r, n, inner(n), failing);
        RemoveIfEmptySorted(e0, RestoreEntries(r, n, inner(n), failing).root, n, stuck);
      }
      RestoreLoopSorted(e0, next, outer[1..], inner, failing, stuck);
    }
  }

  /** A category folder of filed originals keeps nothing from a restore
      that is refused nothing. */
  lemma FiledKeepsNothing(e0: Folder, cur: Folder, c: Name)
    requires c in cur && cur[c].Dir? && Filed(e0, cur, c)
    ensures Kept(cur[c].entries, c, {}) == map[]
  {
    var e := cur[c].entries;
    forall n | n in e
      ensures e[n].File?
    {
    }
  }

  /** The round trip: organizing a root without category-named entries, in
      either mode and whatever moves are refused, and then restoring it with
      no move and no removal refused, gives back the original root, and the
      restore counts exactly the regular files the organize pass took out of
      the root. */
  lemma OrganizeThenRestore(e0: Folder, dryRun: bool, order: seq<Name>, failing: set<Name>,
                            outer: seq<Name>, inner: Name -> seq<Name>)
    requires IsListing(order, e0.Keys) && NoCategoryNames(e0)
    requires IsListing(outer, Organized(e0, dryRun, order, failing).Keys)
    requires var mid := Organized(e0, dryRun, order, failing);
      forall c :: IsCategoryFolder(mid, c) ==> IsListing(inner(c), mid[c].entries.Keys)
    ensures var r := Restore(Exists(Dir(Organized(e0, dryRun, order, failing))), outer, inner, {}, {});
      r.Restored? && r.after == e0
    ensures var mid := Organized(e0, dryRun, order, failing);
      var r := Restore(Exists(Dir(mid)), outer, inner, {}, {});
      r.Restored? && |FileNames(mid)| + r.count == |FileNames(e0)|
  {
    var mid := Organized(e0, dryRun, order, failing);
    var root := Exists(Dir(mid));
    var r := Restore(root, outer, inner, {}, {});
    OrganizeSorted(e0, dryRun, order, failing);
    RestoreLoopSorted(e0, Restoration(mid, 0), outer, inner, {}, {});
    RestoreLeavesNoFolder(e0, mid, outer, inner);
    RestoreCounts(root, outer, inner, {}, {});
    SortedWithoutFolders(e0, r.after);
  }

  /** Restoring a sorted root, with nothing refused, leaves no entry named
      after a category. */
  lemma RestoreLeavesNoFolder(e0: Folder, mid: Folder, outer: seq<Name>, inner: Name -> seq<Name>)
    requires Sorted(e0, mid)
    requires IsListing(outer, mid.Keys)
    requires forall c :: IsCategoryFolder(mid, c) ==> IsListing(inner(c), mid[c].entries.Keys)
    requires Sorted(e0, RestoreLoop(Restoration(mid, 0), outer, inner, {}, {}).root)
    ensures var r := Restore(Exists(Dir(mid)), outer, inner, {}, {});
      r.Restored? && forall c :: c in r.after ==> !IsCategory(c)
  {
    var root := Exists(Dir(mid));
    var r := Restore(root, outer, inner, {}, {});
    RestoreFrame(root, outer, inner, {}, {});
    RestoreFolders(root, outer, inner, {}, {});
    forall c | c in r.after
      ensures !IsCategory(c)
    {
      if IsCategory(c) {
        assert r.after[c].Dir?;
        if c in mid {
          FiledKeepsNothing(e0, mid, c);
        }
      }
    }
  }
}
