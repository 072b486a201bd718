/** Restore: move every regular file found directly inside a category folder
    of the root back into the root, under a free name, and remove each
    category folder that ends up empty. */
module Restorer {
  import opened Names
  import opened Categories
  import opened Conflicts
  import opened FileSystem

  /** The root during a restore and the number of files restored so far. */
  datatype Restoration = Restoration(root: Folder, count: nat)

  /** The name a restored file takes in the root: its own if free, else the
      first free `stem_restored_k.ext`. */
  function RestoreDest(root: Folder, f: Name): Name {
    Resolve(root.Keys, f, RestoreMarker)
  }

  /** Whether entry `f` of folder `c` is a regular file restore would move. */
  predicate IsRestorable(root: Folder, c: Name, f: Name) {
    c in root && root[c].Dir? && f in root[c].entries && root[c].entries[f].File?
  }

  /** One pass of the inner loop: a regular file `f` of folder `c` moves to
      the root unless the file system refuses (`(c, f)` in `failing`), and
      only a successful move is counted. Anything else is skipped. */
  function RestoreFile(r: Restoration, c: Name, f: Name, failing: set<(Name, Name)>): Restoration {
    if IsRestorable(r.root, c, f) && (c, f) !in failing then
      var entries := r.root[c].entries;
      var dest := RestoreDest(r.root, f);
      Restoration(r.root[c := Dir(entries - {f})][dest := entries[f]], r.count + 1)
    else r
  }

  /** The inner loop over the entries of folder `c`, in enumeration order. */
  function RestoreEntries(r: Restoration, c: Name, names: seq<Name>, failing: set<(Name, Name)>): Restoration
    decreases |names|
  {
    if |names| == 0 then r
    else RestoreEntries(RestoreFile(r, c, names[0], failing), c, names[1..], failing)
  }

  /** Removes folder `c` when it holds nothing at all, unless the file system
      refuses (`c` in `stuck`), which is silently ignored. */
  function RemoveIfEmpty(root: Folder, c: Name, stuck: set<Name>): Folder {
    if c in root && root[c] == Dir(map[]) && c !in stuck then root - {c} else root
  }

  /** A category folder's turn: restore its files, then remove it if empty. */
  function RestoreFolder(r: Restoration, c: Name, inner: seq<Name>, failing: set<(Name, Name)>, stuck: set<Name>): Restoration {
    var e := RestoreEntries(r, c, inner, failing);
    Restoration(RemoveIfEmpty(e.root, c, stuck), e.count)
  }

  /** Whether the outer loop works on entry `n`: a directory, at the time it
      is reached, named after a category. */
  predicate IsCategoryFolder(root: Folder, n: Name) {
    n in root && root[n].Dir? && IsCategory(n)
  }

  /** The outer loop over the root's entries, in enumeration order; `inner`
      gives each folder's enumeration order. */
  function RestoreLoop(r: Restoration, outer: seq<Name>, inner: Name -> seq<Name>,
                       failing: set<(Name, Name)>, stuck: set<Name>): Restoration
    decreases |outer|
  {
    if |outer| == 0 then r
    else
      var n := outer[0];
      var next := if IsCategoryFolder(r.root, n) then RestoreFolder(r, n, inner(n), failing, stuck) else r;
      RestoreLoop(next, outer[1..], inner, failing, stuck)
  }

  /** How a restore call ends: the enumeration of a missing root or of a
      root that is not a directory raises; otherwise the count and the root. */
  datatype RestoreResult = RestoreRaised | Restored(count: nat, after: Folder)

  function Restore(root: PathState, outer: seq<Name>, inner: Name -> seq<Name>,
                   failing: set<(Name, Name)>, stuck: set<Name>): RestoreResult
    requires IsDirRoot(root) ==> IsListing(outer, root.node.entries.Keys)
  {
    match root
    case Missing => RestoreRaised
    case Exists(File(_)) => RestoreRaised
    case Exists(Dir(entries)) =>
      var r := RestoreLoop(Restoration(entries, 0), outer, inner, failing, stuck);
      Restored(r.count, r.root)
  }
}
