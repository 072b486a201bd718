/** The abstract file tree the organizer works on, the listing that stands in
    for a directory enumeration, and the inventory of file contents used to
    state that nothing is lost or overwritten. */
module FileSystem {
  import opened Names

  /** The contents of a regular file, never inspected by the organizer. */
  type Blob = nat

  /** A directory entry: a regular file or a directory of further entries. */
  datatype Node = File(blob: Blob) | Dir(entries: map<Name, Node>)

  /** The entries of one directory, by name. */
  type Folder = map<Name, Node>

  /** What a path refers to: nothing, or an entry. */
  datatype PathState = Missing | Exists(node: Node)

  /** The path exists and is a directory. */
  predicate IsDirRoot(root: PathState) {
    root.Exists? && root.node.Dir?
  }

  /** The number of elements of `s` satisfying `p`. */
  function CountWhere(s: seq<Name>, p: Name -> bool): (n: nat)
    ensures n <= |s|
  {
    if |s| == 0 then 0 else (if p(s[0]) then 1 else 0) + CountWhere(s[1..], p)
  }

  predicate Distinct(s: seq<Name>) {
    forall i, j :: 0 <= i < j < |s| ==> s[i] != s[j]
  }

  /** Counting along a sequence without repetitions counts a set. */
  lemma {:induction false} CountWhereIsSize(s: seq<Name>, p: Name -> bool)
    requires Distinct(s)
    ensures CountWhere(s, p) == |set x | x in s && p(x)|
  {
    if |s| > 0 {
      assert Distinct(s[1..]);
      CountWhereIsSize(s[1..], p);
      assert s[0] !in s[1..];
      SelectCons(s, p);
    }
  }

  /** The selected names of a sequence: those of its tail, and its head when
      it passes. */
  lemma SelectCons(s: seq<Name>, p: Name -> bool)
    requires |s| > 0
    ensures (set x | x in s && p(x)) == (set x | x in s[1..] && p(x)) + (if p(s[0]) then {s[0]} else {})
  {
    assert forall x :: x in s <==> x == s[0] || x in s[1..];
  }

  /** `order` lists every name of `keys` exactly once, as a directory
      enumeration does, in an order the file system chooses. */
  predicate IsListing(order: seq<Name>, keys: set<Name>) {
    && Distinct(order)
    && (forall i :: 0 <= i < |order| ==> order[i] in keys)
    && (forall n :: n in keys ==> n in order)
  }

  /** The names of the regular files directly in `folder`. */
  function FileNames(folder: Folder): set<Name> {
    set n | n in folder && folder[n].File?
  }

  /** Replacing a directory by another keeps the regular files' names. */
  lemma FileNamesSetDir(folder: Folder, n: Name, entries: Folder)
    requires n in folder && folder[n].Dir?
    ensures FileNames(folder[n := Dir(entries)]) == FileNames(folder)
  {
  }

  /** A regular file under a free name adds exactly that name. */
  lemma FileNamesAddFile(folder: Folder, n: Name, b: Blob)
    requires n !in folder
    ensures FileNames(folder[n := File(b)]) == FileNames(folder) + {n}
    ensures |FileNames(folder[n := File(b)])| == |FileNames(folder)| + 1
  {
    assert n !in FileNames(folder);
  }

  /** The union of `f` over the entries of `m`. */
  ghost function MapSum(m: Folder, f: Node -> multiset<Blob>): multiset<Blob>
    decreases |m|
  {
    if |m| == 0 then multiset{}
    else
      var k :| k in m;
      f(m[k]) + MapSum(m - {k}, f)
  }

  lemma {:induction false} MapSumRemove(m: Folder, k: Name, f: Node -> multiset<Blob>)
    requires k in m
    ensures MapSum(m, f) == f(m[k]) + MapSum(m - {k}, f)
    decreases |m|
  {
    var k' :| k' in m && MapSum(m, f) == f(m[k']) + MapSum(m - {k'}, f);
    if k' != k {
      var rest := m - {k} - {k'};
      assert m - {k'} - {k} == rest;
      MapSumRemove(m - {k'}, k, f);
      MapSumRemove(m - {k}, k', f);
    }
  }

  lemma MapSumUpdate(m: Folder, k: Name, v: Node, f: Node -> multiset<Blob>)
    ensures MapSum(m[k := v], f) == MapSum(m - {k}, f) + f(v)
  {
    MapSumRemove(m[k := v], k, f);
    assert m[k := v] - {k} == m - {k};
  }

  /** The content of a regular file; nothing for a directory. */
  ghost function Shallow(n: Node): multiset<Blob> {
    match n
    case File(b) => multiset{b}
    case Dir(_) => multiset{}
  }

  /** The content of a file, or of the regular files directly inside a
      directory. */
  ghost function Deep(n: Node): multiset<Blob> {
    match n
    case File(b) => multiset{b}
    case Dir(entries) => MapSum(entries, Shallow)
  }

  /** Every file content the organizer can move: the root's regular files and
      those directly inside the root's subdirectories. Deeper files sit in
      directory values the organizer never rewrites. */
  ghost function Inventory(root: Folder): multiset<Blob> {
    MapSum(root, Deep)
  }

  /** An empty directory holds nothing. */
  lemma EmptyDirHoldsNothing()
    ensures Deep(Dir(map[])) == multiset{}
  {
  }

  /** Adding a regular file to a directory adds exactly its content. */
  lemma DeepAddFile(entries: Folder, n: Name, b: Blob)
    requires n !in entries
    ensures Deep(Dir(entries[n := File(b)])) == Deep(Dir(entries)) + multiset{b}
  {
    MapSumUpdate(entries, n, File(b), Shallow);
    assert entries - {n} == entries;
  }

  /** Taking a regular file out of a directory removes exactly its content. */
  lemma DeepRemoveFile(entries: Folder, n: Name)
    requires n in entries && entries[n].File?
    ensures Deep(Dir(entries)) == Deep(Dir(entries - {n})) + multiset{entries[n].blob}
  {
    MapSumRemove(entries, n, Shallow);
  }
}
