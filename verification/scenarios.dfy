/** Concrete cases of classification, collision resolution and a blocked
    move. */
module Scenarios {
  import opened Names
  import opened Categories
  import opened Conflicts
  import opened FileSystem
  import opened Organizer

  /** The suffix decides, whatever its case. */
  lemma ClassifyUpperCase()
    ensures CategoryOf("photo.JPG") == "Images"
  {
    LastDotAt("photo.JPG", 5);
    assert Lower(".JPG") == ".jpg";
  }

  /** Only the last suffix counts. */
  lemma ClassifyLastSuffix()
    ensures CategoryOf("backup.tar.gz") == "Archives"
  {
    LastDotAt("backup.tar.gz", 10);
    assert Suffix("backup.tar.gz") == ".gz";
    assert Lower(".gz") == ".gz";
    ClassifyListed(".gz", 6);
  }

  /** Lower-casing follows Python's: KELVIN SIGN lower-cases to 'k'. */
  lemma ClassifyKelvinSign()
    ensures CategoryOf("slides.\U{212A}EY") == "Presentations"
  {
    LastDotAt("slides.\U{212A}EY", 6);
    assert Suffix("slides.\U{212A}EY") == ".\U{212A}EY";
    assert Lower(".\U{212A}EY") == ".key";
    ClassifyListed(".\U{212A}EY", 3);
  }

  /** Organize keeps a free name. */
  lemma ResolveFree()
    ensures Resolve({}, "a.txt", OrganizeMarker) == "a.txt"
  {
  }

  /** Organize numbers a taken name's stem from 1 on. */
  lemma ResolveTaken()
    ensures Resolve({"a.txt"}, "a.txt", OrganizeMarker) == "a_1.txt"
    ensures Resolve({"a.txt", "a_1.txt"}, "a.txt", OrganizeMarker) == "a_2.txt"
  {
    LastDotAt("a.txt", 1);
    assert Stem("a.txt") == "a" && Suffix("a.txt") == ".txt";
    assert Candidate("a.txt", OrganizeMarker, 1) == "a_1.txt";
    assert Candidate("a.txt", OrganizeMarker, 2) == "a_2.txt";
    ResolveIndexIsLeastFree({"a.txt"}, "a.txt", OrganizeMarker, 1);
    ResolveIndexIsLeastFree({"a.txt", "a_1.txt"}, "a.txt", OrganizeMarker, 2);
  }

  /** Restore uses its own marker. */
  lemma ResolveRestored()
    ensures Resolve({"a.txt"}, "a.txt", RestoreMarker) == "a_restored_1.txt"
  {
    LastDotAt("a.txt", 1);
    assert Stem("a.txt") == "a" && Suffix("a.txt") == ".txt";
    assert Candidate("a.txt", RestoreMarker, 1) == "a_restored_1.txt";
    ResolveIndexIsLeastFree({"a.txt"}, "a.txt", RestoreMarker, 1);
  }

  /** A regular file named after a category blocks moves into that
      category while it is still in the root: this attempt fails and counts
      as failed although the file system refused nothing, and the root stays
      as it was. */
  lemma BlockedByCategoryFile()
    ensures var root := map["Images" := File(0), "x.jpg" := File(1)];
      var r := Attempt(Run(root, map[], 0, 0), "x.jpg", {});
      r.failed == 1 && r.moved == 0 && r.root == root
  {
    LastDotAt("x.jpg", 1);
    assert Suffix("x.jpg") == ".jpg";
    assert Lower(".jpg") == ".jpg";
    ClassifyListed(".jpg", 0);
  }

  /** The blocking file is itself organized into `Others`, so which moves it
      blocks depends on the listing order: listed first, it leaves the root
      before `x.jpg` is moved, and the run moves both files. */
  lemma UnblockedByListingOrder()
    ensures var root := map["Images" := File(0), "x.jpg" := File(1)];
      var r := Organize(Exists(Dir(root)), false, ["Images", "x.jpg"], {});
      r.Completed? && r.moved == 2 && r.failed == 0
  {
    var root := map["Images" := File(0), "x.jpg" := File(1)];
    ScenarioListing();
    StartKeepsOthersFree(root);
    BothFilesMoved(Run(StartRoot(root, false), InitialStats(), 0, 0));
    RealRunOfSnapshot(root, ["Images", "x.jpg"]);
  }

  /** A real run over a root with something to organize reports the state
      its loop ends in. */
  lemma RealRunOfSnapshot(root: Folder, order: seq<Name>)
    requires IsListing(order, root.Keys) && |SelectFiles(root, order)| > 0
    ensures var run := OrganizeLoop(Run(StartRoot(root, false), InitialStats(), 0, 0), SelectFiles(root, order), false, {});
      Organize(Exists(Dir(root)), false, order, {}) == Completed(run.stats, run.moved, run.failed, run.root)
  {
  }

  /** The listing of the scenario's root, and the snapshot it gives. */
  lemma ScenarioListing()
    ensures var root := map["Images" := File(0), "x.jpg" := File(1)];
      IsListing(["Images", "x.jpg"], root.Keys) && SelectFiles(root, ["Images", "x.jpg"]) == ["Images", "x.jpg"]
  {
    var root := map["Images" := File(0), "x.jpg" := File(1)];
    var order := ["Images", "x.jpg"];
    assert SelectFiles(root, order[1..]) == ["x.jpg"];
  }

  /** A real run creates no `Others` folder up front. */
  lemma StartKeepsOthersFree(entries: Folder)
    requires Others !in entries
    ensures entries.Keys <= StartRoot(entries, false).Keys
    ensures forall n :: n in entries ==> StartRoot(entries, false)[n] == entries[n]
    ensures Others !in StartRoot(entries, false)
  {
    CategoryOrderUpFront();
  }

  /** A name without a dot lands in `Others`. */
  lemma NoDotIsOthers()
    ensures CategoryOf("Images") == Others
  {
    assert LastDot("Images") == -1;
    assert Suffix("Images") == "";
    EmptySuffixIsOthers();
  }

  /** No list holds the empty suffix, so it lands in `Others`. */
  lemma EmptySuffixIsOthers()
    ensures Classify("") == Others
  {
    assert Lower("") == "";
    EmptyNotListedInFirstRows();
    EmptyNotListedInLaterRows();
    var k := FirstMatch("", 0);
    assert k == -1;
  }

  lemma EmptyNotListedInFirstRows()
    ensures forall k :: 0 <= k < 4 ==> "" !in Table[k].extensions
  {
    ListsFromImages();
  }

  lemma EmptyNotListedInLaterRows()
    ensures forall k :: 4 <= k < |Table| ==> "" !in Table[k].extensions
  {
    ListsFromVideos();
    ListsFromExecutables();
    ListsFromeBooks();
  }

  /** `x.jpg` lands in `Images`. */
  lemma JpgIsImages()
    ensures CategoryOf("x.jpg") == "Images"
  {
    LastDotAt("x.jpg", 1);
    assert Suffix("x.jpg") == ".jpg";
    assert Lower(".jpg") == ".jpg";
    ClassifyListed(".jpg", 0);
  }

  /** From a root holding the file `Images` and `x.jpg` but no `Others`,
      the loop over `Images` then `x.jpg` moves both. */
  lemma BothFilesMoved(run0: Run)
    requires run0.stats.Keys == CategoryNames() && run0.moved == 0 && run0.failed == 0
    requires "Images" in run0.root && run0.root["Images"] == File(0)
    requires "x.jpg" in run0.root && run0.root["x.jpg"] == File(1)
    requires Others !in run0.root
    ensures var r := OrganizeLoop(run0, ["Images", "x.jpg"], false, {});
      r.moved == 2 && r.failed == 0
  {
    NoDotIsOthers();
    JpgIsImages();
    var run1 := Step(run0, "Images", false, {});
    assert run1.moved == 1 && run1.failed == 0 && "Images" !in run1.root;
    assert "x.jpg" in run1.root && run1.root["x.jpg"] == File(1);
    var run2 := Step(run1, "x.jpg", false, {});
    assert run2.moved == 2 && run2.failed == 0;
    assert ["Images", "x.jpg"][1..] == ["x.jpg"];
  }
}
