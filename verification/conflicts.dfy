/** Collision resolution: the name a file takes in a folder that may already
    hold its name. Organize probes `stem_1.ext`, `stem_2.ext`, ...; restore
    probes `stem_restored_1.ext`, ...; both keep the name when it is free. */
module Conflicts {
  import opened Names

  /** The text organize puts between stem and counter. */
  const OrganizeMarker: string := "_"

  /** The text restore puts between stem and counter. */
  const RestoreMarker: string := "_restored_"

  /** The `k`-th alternative for `name`: stem, marker, counter, suffix. */
  function Candidate(name: Name, marker: string, k: nat): Name {
    Stem(name) + marker + Decimal(k) + Suffix(name)
  }

  /** Two counters give the same candidate only if they are equal. */
  lemma CandidateInjective(name: Name, marker: string, a: nat, b: nat)
    requires Candidate(name, marker, a) == Candidate(name, marker, b)
    ensures a == b
  {
    var prefix := Stem(name) + marker;
    var ca, cb := Candidate(name, marker, a), Candidate(name, marker, b);
    assert |Decimal(a)| == |Decimal(b)|;
    assert ca[|prefix|..|prefix| + |Decimal(a)|] == Decimal(a);
    assert cb[|prefix|..|prefix| + |Decimal(b)|] == Decimal(b);
    DecimalInjective(a, b);
  }

  /** A candidate is always longer than the name it stands in for. */
  lemma CandidateIsNotName(name: Name, marker: string, k: nat)
    ensures |Candidate(name, marker, k)| > |name|
  {
    StemSuffixSplit(name);
  }

  /** The candidates with counters 1 .. k - 1. */
  function CandidatesBelow(name: Name, marker: string, k: nat): set<Name> {
    set j | 1 <= j < k :: Candidate(name, marker, j)
  }

  lemma {:induction false} CandidatesBelowSize(name: Name, marker: string, k: nat)
    requires k >= 1
    ensures |CandidatesBelow(name, marker, k)| == k - 1
  {
    if k > 1 {
      CandidatesBelowSize(name, marker, k - 1);
      CandidatesBelowStep(name, marker, k - 1);
    } else {
      assert CandidatesBelow(name, marker, k) == {};
    }
  }

  /** One more counter adds one new candidate. */
  lemma CandidatesBelowStep(name: Name, marker: string, k: nat)
    requires k >= 1
    ensures CandidatesBelow(name, marker, k + 1) == CandidatesBelow(name, marker, k) + {Candidate(name, marker, k)}
    ensures Candidate(name, marker, k) !in CandidatesBelow(name, marker, k)
  {
    if Candidate(name, marker, k) in CandidatesBelow(name, marker, k) {
      var j :| 1 <= j < k && Candidate(name, marker, j) == Candidate(name, marker, k);
      CandidateInjective(name, marker, j, k);
    }
  }

  lemma {:induction false} SubsetSize<T>(a: set<T>, b: set<T>)
    requires a <= b
    ensures |a| <= |b|
  {
    if a != {} {
      var x :| x in a;
      SubsetSize(a - {x}, b - {x});
    }
  }

  /** Pigeonhole: when the name and its first `n` candidates are all taken,
      the folder holds more than `n` entries. */
  lemma CandidatesBound(taken: set<Name>, name: Name, marker: string, n: nat)
    requires name in taken
    requires forall j :: 1 <= j <= n ==> Candidate(name, marker, j) in taken
    ensures n + 1 <= |taken|
  {
    var below := CandidatesBelow(name, marker, n + 1);
    CandidatesBelowSize(name, marker, n + 1);
    forall c | c in below
      ensures c != name && c in taken
    {
      var j :| 1 <= j < n + 1 && c == Candidate(name, marker, j);
      CandidateIsNotName(name, marker, j);
    }
    assert name !in below;
    assert |below + {name}| == n + 1;
    assert below + {name} <= taken;
    SubsetSize(below + {name}, taken);
  }

  /** The probe loop: the first free candidate from counter `k` on. It stops
      within as many steps as the folder has entries. */
  function Probe(taken: set<Name>, name: Name, marker: string, k: nat): (r: nat)
    requires name in taken
    requires 1 <= k
    requires forall j :: 1 <= j < k ==> Candidate(name, marker, j) in taken
    ensures k <= r <= |taken|
    ensures Candidate(name, marker, r) !in taken
    ensures forall j :: 1 <= j < r ==> Candidate(name, marker, j) in taken
    decreases |taken| - k
  {
    CandidatesBound(taken, name, marker, k - 1);
    if Candidate(name, marker, k) !in taken then k
    else
      CandidatesBound(taken, name, marker, k);
      Probe(taken, name, marker, k + 1)
  }

  /** Which name a file called `name` takes in a folder whose entries are
      `taken`: 0 for its own name, else the counter of the first free
      candidate. */
  function ResolveIndex(taken: set<Name>, name: Name, marker: string): (k: nat)
    ensures k == 0 <==> name !in taken
    ensures k <= |taken|
    ensures k > 0 ==> Candidate(name, marker, k) !in taken
    ensures k > 0 ==> forall j :: 1 <= j < k ==> Candidate(name, marker, j) in taken
  {
    if name !in taken then 0 else Probe(taken, name, marker, 1)
  }

  /** The name for counter `k`, with 0 standing for the name itself. */
  function NameAt(name: Name, marker: string, k: nat): Name {
    if k == 0 then name else Candidate(name, marker, k)
  }

  /** The destination name: never one of `taken`, and the file's own name
      whenever that is free. */
  function Resolve(taken: set<Name>, name: Name, marker: string): (dest: Name)
    ensures dest !in taken
    ensures name !in taken ==> dest == name
    ensures name in taken ==> |dest| > |name|
  {
    var k := ResolveIndex(taken, name, marker);
    CandidateIsNotName(name, marker, k);
    NameAt(name, marker, k)
  }

  /** The counter resolution picks is the least free one: any counter whose
      candidate is free while all smaller ones are taken is the one chosen. */
  lemma ResolveIndexIsLeastFree(taken: set<Name>, name: Name, marker: string, k: nat)
    requires name in taken && 1 <= k
    requires Candidate(name, marker, k) !in taken
    requires forall j :: 1 <= j < k ==> Candidate(name, marker, j) in taken
    ensures ResolveIndex(taken, name, marker) == k
    ensures Resolve(taken, name, marker) == Candidate(name, marker, k)
  {
  }
}
