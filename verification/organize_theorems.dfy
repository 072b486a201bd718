/** The promises of one organize call on a root, stated over the whole call:
    how it ends, what it counts, what it moves and what it leaves alone. */
module OrganizeTheorems {
  import opened Names
  import opened Categories
  import opened FileSystem
  import opened Organizer
  import opened OrganizeProperties

  /** The call stops early exactly when the root is missing, is not a
      directory, or holds no visible regular file; then nothing changes,
      which holds by construction: `RootAfter` keeps the root of every
      call that does not complete. */
  lemma OrganizeEarlyExits(root: PathState, dryRun: bool, order: seq<Name>, failing: set<Name>)
    requires IsDirRoot(root) ==> IsListing(order, root.node.entries.Keys)
    ensures var r := Organize(root, dryRun, order, failing);
      r == RootNotFound <==> root == Missing
    ensures var r := Organize(root, dryRun, order, failing);
      r == RootNotADirectory <==> root.Exists? && root.node.File?
    ensures var r := Organize(root, dryRun, order, failing);
      r == NothingToOrganize <==> IsDirRoot(root) && Organizable(root.node.entries) == {}
    ensures var r := Organize(root, dryRun, order, failing);
      !r.Completed? ==> RootAfter(root, r) == root
  {
    if IsDirRoot(root) {
      SnapshotOfListing(root.node.entries, order);
      var files := SelectFiles(root.node.entries, order);
      if |files| > 0 {
        assert files[0] in Organizable(root.node.entries);
      }
    }
  }

  /** The loop state a completed call ends in. */
  function FinalRun(entries: Folder, dryRun: bool, order: seq<Name>, failing: set<Name>): Run {
    OrganizeLoop(Run(StartRoot(entries, dryRun), InitialStats(), 0, 0), SelectFiles(entries, order), dryRun, failing)
  }

  /** A call on a directory completes exactly when there is something to
      organize, and then reports its final loop state. */
  lemma CompletedIsFinalRun(root: PathState, dryRun: bool, order: seq<Name>, failing: set<Name>)
    requires IsDirRoot(root) && IsListing(order, root.node.entries.Keys)
    ensures var r := Organize(root, dryRun, order, failing);
      r.Completed? <==> Organizable(root.node.entries) != {}
    ensures var r := Organize(root, dryRun, order, failing);
      var run := FinalRun(root.node.entries, dryRun, order, failing);
      r.Completed? ==> r == Completed(run.stats, run.moved, run.failed, run.root)
  {
    OrganizeEarlyExits(root, dryRun, order, failing);
  }

  /** The final counts: per category, the organizable files of it. */
  lemma FinalRunCounts(entries: Folder, dryRun: bool, order: seq<Name>, failing: set<Name>, c: Name)
    requires IsListing(order, entries.Keys) && IsCategory(c)
    ensures FinalRun(entries, dryRun, order, failing).stats[c] == |OfCategory(entries, c)|
  {
    var start := Run(StartRoot(entries, dryRun), InitialStats(), 0, 0);
    OrganizeLoopCount(start, SelectFiles(entries, order), dryRun, failing, c);
    SnapshotCount(entries, order, c);
  }

  /** The final counts add up to the number of organizable files. */
  lemma FinalRunTally(entries: Folder, dryRun: bool, order: seq<Name>, failing: set<Name>)
    requires IsListing(order, entries.Keys)
    ensures Tally(FinalRun(entries, dryRun, order, failing).stats) == |Organizable(entries)|
  {
    var start := Run(StartRoot(entries, dryRun), InitialStats(), 0, 0);
    OrganizeLoopTally(start, SelectFiles(entries, order), dryRun, failing);
    TallyFromZero(InitialStats(), 0);
    SnapshotSize(entries, order);
  }

  /** A completed call counts, for every category, exactly the organizable
      files of that category, and the counts add up to the number of
      organizable files, in a dry run and a real run alike. */
  lemma OrganizeStats(root: PathState, dryRun: bool, order: seq<Name>, failing: set<Name>)
    requires IsDirRoot(root) && IsListing(order, root.node.entries.Keys)
    ensures var r := Organize(root, dryRun, order, failing);
      r.Completed? ==> r.stats.Keys == CategoryNames()
    ensures var r := Organize(root, dryRun, order, failing);
      r.Completed? ==> forall c :: c in r.stats ==>
        r.stats[c] == |OfCategory(root.node.entries, c)|
    ensures var r := Organize(root, dryRun, order, failing);
      r.Completed? ==> Tally(r.stats) == |Organizable(root.node.entries)|
  {
    CompletedIsFinalRun(root, dryRun, order, failing);
    var entries := root.node.entries;
    forall c | IsCategory(c)
      ensures FinalRun(entries, dryRun, order, failing).stats[c] == |OfCategory(entries, c)|
    {
      FinalRunCounts(entries, dryRun, order, failing, c);
    }
    FinalRunTally(entries, dryRun, order, failing);
  }

  /** A real run attempts one move per organizable file; a dry run moves
      nothing and fails nothing. */
  lemma OrganizeCounters(root: PathState, dryRun: bool, order: seq<Name>, failing: set<Name>)
    requires IsDirRoot(root) && IsListing(order, root.node.entries.Keys)
    ensures var r := Organize(root, dryRun, order, failing);
      r.Completed? && !dryRun ==> r.moved + r.failed == |Organizable(root.node.entries)|
    ensures var r := Organize(root, dryRun, order, failing);
      r.Completed? && dryRun ==> r.moved == 0 && r.failed == 0 && r.after == root.node.entries
  {
    CompletedIsFinalRun(root, dryRun, order, failing);
    var entries := root.node.entries;
    var start := Run(StartRoot(entries, dryRun), InitialStats(), 0, 0);
    OrganizeLoopCounters(start, SelectFiles(entries, order), dryRun, failing);
    SnapshotSize(entries, order);
  }

  /** A dry run leaves the root exactly as it was, whatever it is. */
  lemma DryRunChangesNothing(root: PathState, order: seq<Name>, failing: set<Name>)
    requires IsDirRoot(root) ==> IsListing(order, root.node.entries.Keys)
    ensures RootAfter(root, Organize(root, true, order, failing)) == root
  {
    if IsDirRoot(root) {
      OrganizeCounters(root, true, order, failing);
    }
  }

  /** A dry run previews a real run: both stop early or complete on the same
      root, and report the same counts, whatever moves fail. */
  lemma DryRunPreviewsRealRun(root: PathState, order: seq<Name>, failing: set<Name>, dryFailing: set<Name>)
    requires IsDirRoot(root) ==> IsListing(order, root.node.entries.Keys)
    ensures var dry := Organize(root, true, order, dryFailing);
      var live := Organize(root, false, order, failing);
      dry.Completed? <==> live.Completed?
    ensures var dry := Organize(root, true, order, dryFailing);
      var live := Organize(root, false, order, failing);
      !dry.Completed? ==> dry == live
    ensures var dry := Organize(root, true, order, dryFailing);
      var live := Organize(root, false, order, failing);
      dry.Completed? ==> dry.stats == live.stats
  {
    OrganizeEarlyExits(root, true, order, dryFailing);
    OrganizeEarlyExits(root, false, order, failing);
    if IsDirRoot(root) {
      CompletedIsFinalRun(root, true, order, dryFailing);
      CompletedIsFinalRun(root, false, order, failing);
      FinalRunStatsAgree(root.node.entries, order, failing, dryFailing);
    }
  }

  /** The final counts of a dry and a real loop agree. */
  lemma FinalRunStatsAgree(entries: Folder, order: seq<Name>, failing: set<Name>, dryFailing: set<Name>)
    requires IsListing(order, entries.Keys)
    ensures FinalRun(entries, true, order, dryFailing).stats == FinalRun(entries, false, order, failing).stats
  {
    var dry := FinalRun(entries, true, order, dryFailing).stats;
    var live := FinalRun(entries, false, order, failing).stats;
    forall c | c in dry
      ensures dry[c] == live[c]
    {
      FinalRunCounts(entries, true, order, dryFailing, c);
      FinalRunCounts(entries, false, order, failing, c);
    }
  }

  /** A completed call loses and duplicates no file content. */
  lemma OrganizeKeepsInventory(root: PathState, dryRun: bool, order: seq<Name>, failing: set<Name>)
    requires IsDirRoot(root) && IsListing(order, root.node.entries.Keys)
    ensures var r := Organize(root, dryRun, order, failing);
      r.Completed? ==> Inventory(r.after) == Inventory(root.node.entries)
  {
    CompletedIsFinalRun(root, dryRun, order, failing);
    var entries := root.node.entries;
    var start := Run(StartRoot(entries, dryRun), InitialStats(), 0, 0);
    OrganizeLoopInventory(start, SelectFiles(entries, order), dryRun, failing);
    if !dryRun {
      EmptyFoldersAddNothing(entries, start.root);
    }
  }

  /** The root a real run starts from only gained empty category folders. */
  lemma RealStart(entries: Folder)
    ensures var start := StartRoot(entries, false);
      && Extends(entries, start)
      && KeepsFolders(entries, start)
      && start.Keys <= entries.Keys + CategoryNames()
      && (forall n :: n in UpFrontNames() && n !in entries ==> n in start && start[n] == Dir(map[]))
      && (CategoryEntriesAreDirs(entries) ==> CategoryEntriesAreDirs(start))
  {
    var start := StartRoot(entries, false);
    ExtendsKeepsFolders(entries, start);
    UpFrontAreCategories();
  }

  /** What a real run leaves alone: hidden files, subdirectories and every
      other entry that is neither organizable nor named after a category stay
      as they were; the only new names are category folders, every folder
      missing up front exists afterwards, and nothing inside any folder is
      overwritten or removed. */
  lemma OrganizeFrame(root: PathState, order: seq<Name>, failing: set<Name>)
    requires IsDirRoot(root) && IsListing(order, root.node.entries.Keys)
    ensures var r := Organize(root, false, order, failing);
      r.Completed? ==> forall n :: n in root.node.entries && !IsOrganizable(root.node.entries, n) && !IsCategory(n) ==>
        n in r.after && r.after[n] == root.node.entries[n]
    ensures var r := Organize(root, false, order, failing);
      r.Completed? ==> r.after.Keys <= root.node.entries.Keys + CategoryNames()
    ensures var r := Organize(root, false, order, failing);
      r.Completed? ==> KeepsFolders(root.node.entries, r.after)
    ensures var r := Organize(root, false, order, failing);
      r.Completed? ==> forall n :: n in UpFrontNames() && n !in root.node.entries ==> n in r.after && r.after[n].Dir?
  {
    CompletedIsFinalRun(root, false, order, failing);
    var entries := root.node.entries;
    var start := Run(StartRoot(entries, false), InitialStats(), 0, 0);
    var files := SelectFiles(entries, order);
    var after := OrganizeLoop(start, files, false, failing).root;
    RealStart(entries);
    OrganizeLoopFrame(start, files, false, failing);
    KeepsFoldersTransitive(entries, start.root, after);
  }

  /** The loop of a real run starts on a ready snapshot when no entry named
      after a category is anything but a directory. */
  lemma RealSnapshotReady(entries: Folder, order: seq<Name>)
    requires IsListing(order, entries.Keys) && CategoryEntriesAreDirs(entries)
    ensures SnapshotReady(StartRoot(entries, false), SelectFiles(entries, order))
    ensures forall f :: f in Organizable(entries) ==> StartRoot(entries, false)[f] == entries[f]
  {
    RealStart(entries);
    SnapshotOfListing(entries, order);
  }

  /** Where a real run puts each organizable file, when no entry named after
      a category is anything but a directory: a file stays in the root,
      unchanged, exactly when the file system refused its move, and
      otherwise sits in its category folder. */
  lemma OrganizeOutcomes(root: PathState, order: seq<Name>, failing: set<Name>)
    requires IsDirRoot(root) && IsListing(order, root.node.entries.Keys)
    requires CategoryEntriesAreDirs(root.node.entries)
    ensures var r := Organize(root, false, order, failing);
      r.Completed? ==> forall f :: f in Organizable(root.node.entries) ==> (f in r.after <==> f in failing)
    ensures var r := Organize(root, false, order, failing);
      r.Completed? ==> forall f :: f in Organizable(root.node.entries) && f in failing ==>
        f in r.after && r.after[f] == root.node.entries[f]
    ensures var r := Organize(root, false, order, failing);
      r.Completed? ==> forall f :: f in Organizable(root.node.entries) && f !in failing ==>
        Landed(r.after, f, root.node.entries[f])
  {
    CompletedIsFinalRun(root, false, order, failing);
    var entries := root.node.entries;
    var start := Run(StartRoot(entries, false), InitialStats(), 0, 0);
    RealSnapshotReady(entries, order);
    OrganizeLoopPlacement(start, SelectFiles(entries, order), failing);
  }

  /** The counters of a real run, when no entry named after a category is
      anything but a directory: the failed counter is the number of
      organizable files whose move the file system refused, and the moved
      counter the rest. */
  lemma OrganizeFailures(root: PathState, order: seq<Name>, failing: set<Name>)
    requires IsDirRoot(root) && IsListing(order, root.node.entries.Keys)
    requires CategoryEntriesAreDirs(root.node.entries)
    ensures var r := Organize(root, false, order, failing);
      r.Completed? ==> r.failed == |Organizable(root.node.entries) * failing|
    ensures var r := Organize(root, false, order, failing);
      r.Completed? ==> r.moved + r.failed == |Organizable(root.node.entries)|
  {
    CompletedIsFinalRun(root, false, order, failing);
    var entries := root.node.entries;
    var start := Run(StartRoot(entries, false), InitialStats(), 0, 0);
    var files := SelectFiles(entries, order);
    RealSnapshotReady(entries, order);
    OrganizeLoopTallies(start, files, failing);
    SnapshotCountIn(entries, order, failing);
    SnapshotSize(entries, order);
  }
}
