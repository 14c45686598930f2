/** Comparing two device trees by path, blind to the numbers phandles happen to have. */
module DtCompare {
  import opened DtParser
  import opened Options
  import DtRoundTrip
  import DtPaths

  const PHANDLE: Bytes := [112, 104, 97, 110, 100, 108, 101]
  const LINUX_PHANDLE: Bytes := [108, 105, 110, 117, 120, 44] + PHANDLE
  const CHOSEN: Bytes := [99, 104, 111, 115, 101, 110]
  const MEMORY: Bytes := [109, 101, 109, 111, 114, 121]

  /** Where a phandle is declared. */
  predicate Declares(k: Bytes) {
    k == PHANDLE || k == LINUX_PHANDLE
  }

  // ----- Skipped nodes -----

  function AfterSlash(node: Bytes): Bytes {
    if node == [] then [] else if node[0] == SLASH then node[1..] else AfterSlash(node[1..])
  }

  function BeforeSlash(node: Bytes): Bytes {
    if node == [] || node[0] == SLASH then [] else [node[0]] + BeforeSlash(node[1..])
  }

  /** Nodes under /chosen or /memory, which the bootloader rewrites. */
  predicate Skip(node: Bytes) {
    var top := BeforeSlash(AfterSlash(node));
    CHOSEN <= top || MEMORY <= top
  }

  function Kept(t: Table): set<Bytes> {
    set n | n in t && !Skip(n)
  }

  function Names(p: Props): set<Bytes> {
    p.Keys - {PHANDLE, LINUX_PHANDLE}
  }

  // ----- Phandles -----

  type Phandles = map<nat, Bytes>

  /** One property of one node, if it is there; None stands for the exception when it is not four bytes long. */
  function Declare(t: Table, n: Bytes, k: Bytes, out: Phandles): Option<Phandles> {
    if n !in t || k !in t[n] then Some(out)
    else if |t[n][k]| != 4 then None
    else Some(out[Word(t[n][k], 0).value := n])
  }

  function DeclareBoth(t: Table, n: Bytes, out: Phandles): Option<Phandles> {
    var first := Declare(t, n, PHANDLE, out);
    if first.None? then None else Declare(t, n, LINUX_PHANDLE, first.value)
  }

  /** The phandles of the nodes, visited in this order. */
  function PhandlesOf(t: Table, order: seq<Bytes>): Option<Phandles> {
    if order == [] then Some(map[])
    else
      var before := PhandlesOf(t, order[..|order| - 1]);
      if before.None? then None else DeclareBoth(t, order[|order| - 1], before.value)
  }

  method CollectPhandles(t: Table, order: seq<Bytes>) returns (out: Option<Phandles>)
    ensures out == PhandlesOf(t, order)
  {
    var found: Phandles := map[];
    for i := 0 to |order|
      invariant PhandlesOf(t, order[..i]) == Some(found)
    {
      assert order[..i + 1][..i] == order[..i];
      var next := DeclareBoth(t, order[i], found);
      if next.None? {
        PhandlesFail(t, order, i + 1);
        return None;
      }
      found := next.value;
    }
    assert order[..|order|] == order;
    out := Some(found);
  }

  lemma {:induction false} PhandlesFail(t: Table, order: seq<Bytes>, i: nat)
    requires i <= |order| && PhandlesOf(t, order[..i]).None?
    ensures PhandlesOf(t, order).None?
    decreases |order|
  {
    if i == |order| {
      assert order[..i] == order;
    } else {
      assert order[..|order| - 1][..i] == order[..i];
      PhandlesFail(t, order[..|order| - 1], i);
    }
  }

  /** Node n declares the phandle x. */
  ghost predicate Has(t: Table, n: Bytes, x: nat) {
    n in t && exists k :: Declares(k) && k in t[n] && |t[n][k]| == 4 && Word(t[n][k], 0) == Some(x)
  }

  ghost predicate NamesNodes(t: Table, p: Phandles) {
    && (forall x :: x in p ==> Has(t, p[x], x))
    && (forall n, x :: Has(t, n, x) ==> x in p)
  }

  lemma DeclareAdds(t: Table, n: Bytes, k: Bytes, out: Phandles)
    requires Declares(k) && Declare(t, n, k, out).Some?
    ensures var out' := Declare(t, n, k, out).value;
      && out.Keys <= out'.Keys
      && (forall x :: x in out' ==> (x in out && out'[x] == out[x]) || (out'[x] == n && Has(t, n, x)))
      && (n in t && k in t[n] ==> |t[n][k]| == 4 && Word(t[n][k], 0).value in out')
  {
    if n in t && k in t[n] { assert Has(t, n, Word(t[n][k], 0).value); }
  }

  lemma DeclareBothAdds(t: Table, n: Bytes, out: Phandles)
    requires DeclareBoth(t, n, out).Some?
    ensures var out' := DeclareBoth(t, n, out).value;
      && out.Keys <= out'.Keys
      && (forall x :: x in out' ==> (x in out && out'[x] == out[x]) || (out'[x] == n && Has(t, n, x)))
      && (forall x :: Has(t, n, x) ==> x in out')
  {
    hide Declare;
    DeclareAdds(t, n, PHANDLE, out);
    DeclareAdds(t, n, LINUX_PHANDLE, Declare(t, n, PHANDLE, out).value);
  }

  /** Whatever the order, every phandle declared by a visited node is there, and names a node that declares it. */
  lemma {:induction false} PhandlesMeaning(t: Table, order: seq<Bytes>)
    requires PhandlesOf(t, order).Some?
    ensures var p := PhandlesOf(t, order).value;
      && (forall x :: x in p ==> Has(t, p[x], x))
      && (forall n, x :: n in order && Has(t, n, x) ==> x in p)
  {
    if order != [] {
      hide DeclareBoth, Has;
      var init, n := order[..|order| - 1], order[|order| - 1];
      PhandlesMeaning(t, init);
      DeclareBothAdds(t, n, PhandlesOf(t, init).value);
      assert order == init + [n];
    }
  }

  // ----- Comparison -----

  datatype Finding = OnlyA(n: Bytes) | OnlyB(n: Bytes) | OneSided(n: Bytes, k: Bytes) | ValueDiffers(n: Bytes, k: Bytes)

  /** Two cells match when they are the same number, or both phandles of the same path. */
  predicate CellMatches(x: nat, y: nat, pa: Phandles, pb: Phandles) {
    x == y || (x in pa && y in pb && pa[x] == pb[y])
  }

  predicate ValueMatches(va: Bytes, vb: Bytes, pa: Phandles, pb: Phandles) {
    va == vb ||
    (|va| == |vb| && |va| % 4 == 0 &&
     forall i :: 0 <= i < |va| / 4 ==> CellMatches(Word(va, 4 * i).value, Word(vb, 4 * i).value, pa, pb))
  }

  ghost function Mismatched(ks: set<Bytes>, a: Props, b: Props, pa: Phandles, pb: Phandles): set<Bytes>
    requires ks <= a.Keys && ks <= b.Keys
  {
    set k | k in ks && !ValueMatches(a[k], b[k], pa, pb)
  }

  ghost function OneSideds(n: Bytes, ks: set<Bytes>): set<Finding> {
    set k | k in ks :: OneSided(n, k)
  }

  ghost function ValueDiffs(n: Bytes, ks: set<Bytes>): set<Finding> {
    set k | k in ks :: ValueDiffers(n, k)
  }

  /** Everything there is to report about one node. */
  ghost function NodeFindings(n: Bytes, a: Props, b: Props, pa: Phandles, pb: Phandles): set<Finding> {
    OneSideds(n, (Names(a) - Names(b)) + (Names(b) - Names(a))) + ValueDiffs(n, Mismatched(Names(a) * Names(b), a, b, pa, pb))
  }

  /** Everything there is to report about the shared nodes in ns. */
  ghost function Shared(ns: set<Bytes>, a: Table, b: Table, pa: Phandles, pb: Phandles): set<Finding>
    requires ns <= a.Keys && ns <= b.Keys
  {
    set n, f | n in ns && f in NodeFindings(n, a[n], b[n], pa, pb) :: f
  }

  ghost function OnlyAs(ns: set<Bytes>): set<Finding> {
    set n | n in ns :: OnlyA(n)
  }

  ghost function OnlyBs(ns: set<Bytes>): set<Finding> {
    set n | n in ns :: OnlyB(n)
  }

  ghost function Findings(a: Table, b: Table, pa: Phandles, pb: Phandles): set<Finding> {
    OnlyAs(Kept(a) - Kept(b)) + OnlyBs(Kept(b) - Kept(a)) + Shared(Kept(a) * Kept(b), a, b, pa, pb)
  }

  // ----- Counting -----

  lemma {:induction false} OneSidedsSize(n: Bytes, ks: set<Bytes>)
    ensures |OneSideds(n, ks)| == |ks|
    decreases ks
  {
    if ks != {} {
      var k :| k in ks;
      OneSidedsSize(n, ks - {k});
      assert OneSideds(n, ks) == OneSideds(n, ks - {k}) + {OneSided(n, k)};
    }
  }

  lemma {:induction false} ValueDiffsSize(n: Bytes, ks: set<Bytes>)
    ensures |ValueDiffs(n, ks)| == |ks|
    decreases ks
  {
    if ks != {} {
      var k :| k in ks;
      ValueDiffsSize(n, ks - {k});
      assert ValueDiffs(n, ks) == ValueDiffs(n, ks - {k}) + {ValueDiffers(n, k)};
    }
  }

  lemma {:induction false} OnlyAsSize(ns: set<Bytes>)
    ensures |OnlyAs(ns)| == |ns|
    decreases ns
  {
    if ns != {} {
      var n :| n in ns;
      OnlyAsSize(ns - {n});
      assert OnlyAs(ns) == OnlyAs(ns - {n}) + {OnlyA(n)};
    }
  }

  lemma {:induction false} OnlyBsSize(ns: set<Bytes>)
    ensures |OnlyBs(ns)| == |ns|
    decreases ns
  {
    if ns != {} {
      var n :| n in ns;
      OnlyBsSize(ns - {n});
      assert OnlyBs(ns) == OnlyBs(ns - {n}) + {OnlyB(n)};
    }
  }

  lemma DisjointSize(s: set<Finding>, t: set<Finding>)
    requires s !! t
    ensures |s + t| == |s| + |t|
  {
  }

  lemma SidedOrDiffers(n: Bytes, ks: set<Bytes>, ls: set<Bytes>)
    ensures OneSideds(n, ks) !! ValueDiffs(n, ls)
  {
  }

  lemma NodeFindingsSize(n: Bytes, a: Props, b: Props, pa: Phandles, pb: Phandles)
    ensures |NodeFindings(n, a, b, pa, pb)| ==
            |(Names(a) - Names(b)) + (Names(b) - Names(a))| + |Mismatched(Names(a) * Names(b), a, b, pa, pb)|
  {
    var sided, bad := (Names(a) - Names(b)) + (Names(b) - Names(a)), Mismatched(Names(a) * Names(b), a, b, pa, pb);
    hide Names, Mismatched, OneSideds, ValueDiffs;
    OneSidedsSize(n, sided);
    ValueDiffsSize(n, bad);
    SidedOrDiffers(n, sided, bad);
    DisjointSize(OneSideds(n, sided), ValueDiffs(n, bad));
  }

  lemma NodeFindingsNamed(n: Bytes, a: Props, b: Props, pa: Phandles, pb: Phandles, f: Finding)
    requires f in NodeFindings(n, a, b, pa, pb)
    ensures f.n == n && (f.OneSided? || f.ValueDiffers?)
  {
  }

  /** A shared finding is one of the node it names. */
  lemma InShared(ns: set<Bytes>, a: Table, b: Table, pa: Phandles, pb: Phandles, f: Finding)
    requires ns <= a.Keys && ns <= b.Keys
    ensures f in Shared(ns, a, b, pa, pb) <==> f.n in ns && f in NodeFindings(f.n, a[f.n], b[f.n], pa, pb)
    ensures f in Shared(ns, a, b, pa, pb) ==> f.OneSided? || f.ValueDiffers?
  {
    hide NodeFindings;
    if f in Shared(ns, a, b, pa, pb) {
      var n :| n in ns && f in NodeFindings(n, a[n], b[n], pa, pb);
      NodeFindingsNamed(n, a[n], b[n], pa, pb, f);
    }
  }

  /** The differences within one node. */
  method CompareNode(n: Bytes, a: Props, b: Props, pa: Phandles, pb: Phandles) returns (problems: nat)
    ensures problems == |NodeFindings(n, a, b, pa, pb)|
  {
    var ka, kb := Names(a), Names(b);
    NodeFindingsSize(n, a, b, pa, pb);
    problems := 0;
    var rest := (ka - kb) + (kb - ka);
    while rest != {}
      invariant problems + |rest| == |(ka - kb) + (kb - ka)|
      decreases rest
    {
      var k :| k in rest;
      problems := problems + 1;
      rest := rest - {k};
    }
    rest := ka * kb;
    assert rest <= a.Keys && rest <= b.Keys;
    while rest != {}
      invariant rest <= a.Keys && rest <= b.Keys
      invariant problems + |Mismatched(rest, a, b, pa, pb)| == |NodeFindings(n, a, b, pa, pb)|
      decreases rest
    {
      var k :| k in rest;
      MismatchedStep(rest, k, a, b, pa, pb);
      if !ValueMatches(a[k], b[k], pa, pb) {
        problems := problems + 1;
      }
      rest := rest - {k};
    }
    assert Mismatched({}, a, b, pa, pb) == {};
  }

  lemma MismatchedStep(ks: set<Bytes>, k: Bytes, a: Props, b: Props, pa: Phandles, pb: Phandles)
    requires ks <= a.Keys && ks <= b.Keys && k in ks
    ensures |Mismatched(ks, a, b, pa, pb)| == |Mismatched(ks - {k}, a, b, pa, pb)| + if ValueMatches(a[k], b[k], pa, pb) then 0 else 1
  {
    if ValueMatches(a[k], b[k], pa, pb) {
      assert Mismatched(ks, a, b, pa, pb) == Mismatched(ks - {k}, a, b, pa, pb);
    } else {
      assert Mismatched(ks, a, b, pa, pb) == Mismatched(ks - {k}, a, b, pa, pb) + {k};
    }
  }

  lemma SharedStep(ns: set<Bytes>, n: Bytes, a: Table, b: Table, pa: Phandles, pb: Phandles)
    requires ns <= a.Keys && ns <= b.Keys && n in ns
    ensures |Shared(ns, a, b, pa, pb)| == |Shared(ns - {n}, a, b, pa, pb)| + |NodeFindings(n, a[n], b[n], pa, pb)|
  {
    hide Shared, NodeFindings;
    var here, others := NodeFindings(n, a[n], b[n], pa, pb), Shared(ns - {n}, a, b, pa, pb);
    forall f ensures f in Shared(ns, a, b, pa, pb) <==> f in others + here {
      InShared(ns, a, b, pa, pb, f);
      InShared(ns - {n}, a, b, pa, pb, f);
      if f in here { NodeFindingsNamed(n, a[n], b[n], pa, pb, f); }
    }
    forall f | f in others ensures f !in here {
      InShared(ns - {n}, a, b, pa, pb, f);
      if f in here { NodeFindingsNamed(n, a[n], b[n], pa, pb, f); }
    }
    assert Shared(ns, a, b, pa, pb) == others + here;
    DisjointSize(others, here);
  }

  lemma OnlyApart(ns: set<Bytes>, ms: set<Bytes>)
    ensures OnlyAs(ns) !! OnlyBs(ms)
    ensures forall f :: f in OnlyAs(ns) + OnlyBs(ms) ==> f.OnlyA? || f.OnlyB?
  {
  }

  lemma FindingsSize(a: Table, b: Table, pa: Phandles, pb: Phandles)
    ensures |Findings(a, b, pa, pb)| ==
            |Kept(a) - Kept(b)| + |Kept(b) - Kept(a)| + |Shared(Kept(a) * Kept(b), a, b, pa, pb)|
  {
    var onlyA, onlyB, both := Kept(a) - Kept(b), Kept(b) - Kept(a), Kept(a) * Kept(b);
    assert both <= a.Keys && both <= b.Keys;
    hide NodeFindings, Kept, Shared, OnlyAs, OnlyBs;
    var shared := Shared(both, a, b, pa, pb);
    OnlyAsSize(onlyA);
    OnlyBsSize(onlyB);
    OnlyApart(onlyA, onlyB);
    forall f | f in shared ensures f.OneSided? || f.ValueDiffers? {
      InShared(both, a, b, pa, pb, f);
    }
    DisjointSize(OnlyAs(onlyA), OnlyBs(onlyB));
    DisjointSize(OnlyAs(onlyA) + OnlyBs(onlyB), shared);
  }

  /** The comparison: as many problems as there are findings. The source visits nodes in sorted
      order, which only decides the order of its output. */
  method Compare(a: Table, b: Table, pa: Phandles, pb: Phandles) returns (problems: nat)
    ensures problems == |Findings(a, b, pa, pb)|
  {
    var na, nb := Kept(a), Kept(b);
    FindingsSize(a, b, pa, pb);
    problems := 0;
    var rest := na - nb;
    while rest != {}
      invariant problems + |rest| == |na - nb|
      decreases rest
    {
      var n :| n in rest;
      problems := problems + 1;
      rest := rest - {n};
    }
    rest := nb - na;
    while rest != {}
      invariant problems + |rest| == |na - nb| + |nb - na|
      decreases rest
    {
      var n :| n in rest;
      problems := problems + 1;
      rest := rest - {n};
    }
    rest := na * nb;
    while rest != {}
      invariant rest <= a.Keys && rest <= b.Keys
      invariant problems + |Shared(rest, a, b, pa, pb)| == |Findings(a, b, pa, pb)|
      decreases rest
    {
      var n :| n in rest;
      SharedStep(rest, n, a, b, pa, pb);
      var more := CompareNode(n, a[n], b[n], pa, pb);
      problems := problems + more;
      rest := rest - {n};
    }
    assert Shared({}, a, b, pa, pb) == {};
  }

  // ----- What no difference means -----

  /** Equal paths, equal property names, and values equal or, cell by cell, equal up to phandles of the same path. */
  ghost predicate SameHardware(a: Table, b: Table, pa: Phandles, pb: Phandles) {
    && Kept(a) == Kept(b)
    && forall n :: n in Kept(a) ==>
         Names(a[n]) == Names(b[n]) && forall k :: k in Names(a[n]) ==> ValueMatches(a[n][k], b[n][k], pa, pb)
  }

  lemma NothingFound(a: Table, b: Table, pa: Phandles, pb: Phandles)
    requires Findings(a, b, pa, pb) == {}
    ensures SameHardware(a, b, pa, pb)
  {
    var found := Findings(a, b, pa, pb);
    forall n ensures n in Kept(a) <==> n in Kept(b) {
      assert OnlyA(n) !in found && OnlyB(n) !in found;
    }
    hide Kept, ValueMatches;
    forall n | n in Kept(a) ensures NodeSame(a[n], b[n], pa, pb) {
      assert NodeFindings(n, a[n], b[n], pa, pb) <= Shared(Kept(a) * Kept(b), a, b, pa, pb) <= found;
      NodeSameIff(n, a[n], b[n], pa, pb);
    }
  }

  /** No problem is found if and only if the trees describe the same hardware. */
  lemma NoFindingsMeansSame(a: Table, b: Table, pa: Phandles, pb: Phandles)
    ensures |Findings(a, b, pa, pb)| == 0 <==> SameHardware(a, b, pa, pb)
  {
    if |Findings(a, b, pa, pb)| == 0 {
      NothingFound(a, b, pa, pb);
    }
    if SameHardware(a, b, pa, pb) {
      forall n | n in Kept(a) ensures NodeFindings(n, a[n], b[n], pa, pb) == {} {
        NodeSameIff(n, a[n], b[n], pa, pb);
      }
      assert Shared(Kept(a) * Kept(b), a, b, pa, pb) == {};
      assert Findings(a, b, pa, pb) == {};
    }
  }

  ghost predicate NodeSame(a: Props, b: Props, pa: Phandles, pb: Phandles) {
    Names(a) == Names(b) && forall k :: k in Names(a) ==> ValueMatches(a[k], b[k], pa, pb)
  }

  lemma NodeSameIff(n: Bytes, a: Props, b: Props, pa: Phandles, pb: Phandles)
    ensures NodeFindings(n, a, b, pa, pb) == {} <==> NodeSame(a, b, pa, pb)
  {
    var found := NodeFindings(n, a, b, pa, pb);
    if found == {} {
      forall k ensures k in Names(a) <==> k in Names(b) {
        assert OneSided(n, k) !in found;
      }
      forall k | k in Names(a) ensures ValueMatches(a[k], b[k], pa, pb) {
        assert ValueDiffers(n, k) !in found;
      }
    }
  }

  // ----- Renumbering -----

  /** No two nodes declare the same phandle. */
  ghost predicate UniquePhandles(t: Table) {
    forall m, n, x :: Has(t, m, x) && Has(t, n, x) ==> m == n
  }

  ghost predicate Covers(t: Table, order: seq<Bytes>) {
    forall n :: n in t ==> n in order
  }

  /** With unique phandles the order in which nodes are visited does not matter: each phandle maps to its node. */
  lemma PhandlesExact(t: Table, order: seq<Bytes>)
    requires PhandlesOf(t, order).Some? && Covers(t, order)
    ensures NamesNodes(t, PhandlesOf(t, order).value)
    ensures UniquePhandles(t) ==> forall n, x :: Has(t, n, x) ==> PhandlesOf(t, order).value[x] == n
  {
    hide Has, PhandlesOf;
    PhandlesMeaning(t, order);
    forall n, x | Has(t, n, x) ensures x in PhandlesOf(t, order).value {
      HasIsNode(t, n, x);
    }
  }

  lemma HasIsNode(t: Table, n: Bytes, x: nat)
    requires Has(t, n, x)
    ensures n in t
  {
  }

  // ----- What it means in terms of the trees -----

  /** Two cells that say the same: the same number, or phandles of one node, the same in both trees. */
  ghost predicate SaySame(a: Table, b: Table, x: nat, y: nat) {
    x == y || exists q :: Has(a, q, x) && Has(b, q, y)
  }

  /** The i-th 32-bit cell of a value, big-endian. */
  ghost function Cell(v: Bytes, i: nat): nat
    requires 4 * i + 4 <= |v|
  {
    256 * (256 * (256 * v[4 * i] as int + v[4 * i + 1]) + v[4 * i + 2]) + v[4 * i + 3]
  }

  ghost predicate ValuesSaySame(a: Table, b: Table, va: Bytes, vb: Bytes) {
    va == vb ||
    (|va| == |vb| && |va| % 4 == 0 &&
     forall i :: 0 <= i && 4 * i + 4 <= |va| ==> SaySame(a, b, Cell(va, i), Cell(vb, i)))
  }

  /** Two trees that say the same of every node that is not left out: the same paths, the same property names, phandle
      declarations aside, and values that say the same. */
  ghost predicate TreesSaySame(a: Table, b: Table) {
    && (forall n :: !Skip(n) ==> (n in a <==> n in b))
    && (forall n, k :: !Skip(n) && n in a && n in b && k != PHANDLE && k != LINUX_PHANDLE ==>
          (k in a[n] <==> k in b[n]) && (k in a[n] ==> ValuesSaySame(a, b, a[n][k], b[n][k])))
  }

  lemma CellMeans(a: Table, b: Table, pa: Phandles, pb: Phandles, x: nat, y: nat)
    requires NamesNodes(a, pa) && NamesNodes(b, pb)
    ensures CellMatches(x, y, pa, pb) ==> SaySame(a, b, x, y)
    ensures UniquePhandles(a) && UniquePhandles(b) && SaySame(a, b, x, y) ==> CellMatches(x, y, pa, pb)
  {
    hide Has;
    if x != y && x in pa && y in pb && pa[x] == pb[y] {
      assert Has(a, pa[x], x) && Has(b, pa[x], y);
    }
    if x != y && UniquePhandles(a) && UniquePhandles(b) && SaySame(a, b, x, y) {
      var q :| Has(a, q, x) && Has(b, q, y);
      assert Has(a, pa[x], x) && Has(b, pb[y], y);
    }
  }

  lemma ValueMeans(a: Table, b: Table, pa: Phandles, pb: Phandles, va: Bytes, vb: Bytes)
    requires NamesNodes(a, pa) && NamesNodes(b, pb)
    ensures ValueMatches(va, vb, pa, pb) ==> ValuesSaySame(a, b, va, vb)
    ensures UniquePhandles(a) && UniquePhandles(b) && ValuesSaySame(a, b, va, vb) ==> ValueMatches(va, vb, pa, pb)
  {
    hide NamesNodes, UniquePhandles, SaySame, CellMatches;
    if |va| == |vb| && |va| % 4 == 0 {
      forall i | 0 <= i < |va| / 4
        ensures var x, y := Word(va, 4 * i).value, Word(vb, 4 * i).value;
          && (CellMatches(x, y, pa, pb) ==> SaySame(a, b, x, y))
          && (UniquePhandles(a) && UniquePhandles(b) && SaySame(a, b, x, y) ==> CellMatches(x, y, pa, pb))
      {
        CellMeans(a, b, pa, pb, Word(va, 4 * i).value, Word(vb, 4 * i).value);
      }
      if ValueMatches(va, vb, pa, pb) && va != vb {
        forall i | 0 <= i && 4 * i + 4 <= |va| ensures SaySame(a, b, Cell(va, i), Cell(vb, i)) {
          assert 0 <= i < |va| / 4 && Word(va, 4 * i) == Some(Cell(va, i)) && Word(vb, 4 * i) == Some(Cell(vb, i));
        }
      }
      if ValuesSaySame(a, b, va, vb) && va != vb && UniquePhandles(a) && UniquePhandles(b) {
        forall i | 0 <= i < |va| / 4 ensures CellMatches(Word(va, 4 * i).value, Word(vb, 4 * i).value, pa, pb) {
          assert 4 * i + 4 <= |va| && Word(va, 4 * i) == Some(Cell(va, i)) && Word(vb, 4 * i) == Some(Cell(vb, i));
          assert SaySame(a, b, Cell(va, i), Cell(vb, i));
        }
      }
    }
  }

  lemma HardwareMeans(a: Table, b: Table, pa: Phandles, pb: Phandles)
    requires NamesNodes(a, pa) && NamesNodes(b, pb)
    ensures SameHardware(a, b, pa, pb) ==> TreesSaySame(a, b)
    ensures UniquePhandles(a) && UniquePhandles(b) && TreesSaySame(a, b) ==> SameHardware(a, b, pa, pb)
  {
    forall va, vb
      ensures ValueMatches(va, vb, pa, pb) ==> ValuesSaySame(a, b, va, vb)
      ensures UniquePhandles(a) && UniquePhandles(b) && ValuesSaySame(a, b, va, vb) ==> ValueMatches(va, vb, pa, pb)
    {
      ValueMeans(a, b, pa, pb, va, vb);
    }
    hide NamesNodes, UniquePhandles, ValueMatches, ValuesSaySame, Skip;
    if SameHardware(a, b, pa, pb) {
      SaidByHardware(a, b, pa, pb);
    }
    if UniquePhandles(a) && UniquePhandles(b) && TreesSaySame(a, b) {
      HardwareBySaid(a, b, pa, pb);
    }
  }

  lemma SaidByHardware(a: Table, b: Table, pa: Phandles, pb: Phandles)
    requires SameHardware(a, b, pa, pb) && forall va, vb :: ValueMatches(va, vb, pa, pb) ==> ValuesSaySame(a, b, va, vb)
    ensures TreesSaySame(a, b)
  {
    hide ValueMatches, ValuesSaySame, Skip;
    forall n | !Skip(n) ensures n in a <==> n in b {
      assert n in Kept(a) <==> n in Kept(b);
    }
    forall n, k | !Skip(n) && n in a && n in b && k != PHANDLE && k != LINUX_PHANDLE
      ensures (k in a[n] <==> k in b[n]) && (k in a[n] ==> ValuesSaySame(a, b, a[n][k], b[n][k]))
    {
      assert n in Kept(a);
      assert k in Names(a[n]) <==> k in Names(b[n]);
    }
  }

  lemma HardwareBySaid(a: Table, b: Table, pa: Phandles, pb: Phandles)
    requires TreesSaySame(a, b) && forall va, vb :: ValuesSaySame(a, b, va, vb) ==> ValueMatches(va, vb, pa, pb)
    ensures SameHardware(a, b, pa, pb)
  {
    hide ValueMatches, ValuesSaySame, Skip;
    forall n | n in Kept(a)
      ensures Names(a[n]) == Names(b[n]) && forall k :: k in Names(a[n]) ==> ValueMatches(a[n][k], b[n][k], pa, pb)
    {
      forall k ensures k in Names(a[n]) <==> k in Names(b[n]) {}
    }
  }

  /** What no difference means, in terms of the two trees alone: they say the same. A difference is reported whenever
      they do not; and, if no two nodes of a tree declare the same phandle, only then. */
  lemma NoDifferenceMeans(a: Table, b: Table, orderA: seq<Bytes>, orderB: seq<Bytes>)
    requires PhandlesOf(a, orderA).Some? && PhandlesOf(b, orderB).Some? && Covers(a, orderA) && Covers(b, orderB)
    ensures var found := |Findings(a, b, PhandlesOf(a, orderA).value, PhandlesOf(b, orderB).value)|;
      && (found == 0 ==> TreesSaySame(a, b))
      && (UniquePhandles(a) && UniquePhandles(b) && TreesSaySame(a, b) ==> found == 0)
  {
    hide PhandlesOf, NamesNodes, SameHardware, Findings, UniquePhandles, TreesSaySame;
    PhandlesExact(a, orderA);
    PhandlesExact(b, orderB);
    HardwareMeans(a, b, PhandlesOf(a, orderA).value, PhandlesOf(b, orderB).value);
    NoFindingsMeansSame(a, b, PhandlesOf(a, orderA).value, PhandlesOf(b, orderB).value);
  }

  /** Of several nodes that declare a phandle, the last one visited is the one it names. */
  lemma {:induction false} LastDeclares(t: Table, order: seq<Bytes>, x: nat, i: nat)
    requires PhandlesOf(t, order).Some? && i < |order| && Has(t, order[i], x)
    requires forall j :: i < j < |order| ==> !Has(t, order[j], x)
    ensures x in PhandlesOf(t, order).value && PhandlesOf(t, order).value[x] == order[i]
  {
    hide Has, DeclareBoth;
    var init, n := order[..|order| - 1], order[|order| - 1];
    DeclareBothAdds(t, n, PhandlesOf(t, init).value);
    DeclareBothNames(t, n, PhandlesOf(t, init).value, x);
    if i < |order| - 1 {
      LastDeclares(t, init, x, i);
    }
  }

  lemma DeclareBothNames(t: Table, n: Bytes, out: Phandles, x: nat)
    requires DeclareBoth(t, n, out).Some?
    ensures var out' := DeclareBoth(t, n, out).value;
      && (Has(t, n, x) ==> x in out' && out'[x] == n)
      && (!Has(t, n, x) && x in out ==> x in out' && out'[x] == out[x])
  {
    DeclareBothAdds(t, n, out);
  }

  /** One cell after renumbering by f: unless it is the number of a phandle, it is unchanged; if it is, it may be a
      reference, and follows the renumbering, or a plain number, and stays. */
  ghost predicate CellRenumbered(x: nat, y: nat, f: map<nat, nat>) {
    y == x || (x in f && y == f[x])
  }

  ghost predicate ValueRenumbered(k: Bytes, va: Bytes, vb: Bytes, f: map<nat, nat>) {
    if Declares(k) then
      |va| == 4 && |vb| == 4 && Word(va, 0).value in f && Word(vb, 0) == Some(f[Word(va, 0).value])
    else
      va == vb || (|va| == |vb| && |va| % 4 == 0 &&
        forall i :: 0 <= i < |va| / 4 ==> CellRenumbered(Word(va, 4 * i).value, Word(vb, 4 * i).value, f))
  }

  /** b is a with every phandle renumbered by f where it is declared and, consistently, where it is referred to. */
  ghost predicate Renumbered(a: Table, b: Table, f: map<nat, nat>) {
    && a.Keys == b.Keys
    && forall n :: n in a ==> a[n].Keys == b[n].Keys && forall k :: k in a[n] ==> ValueRenumbered(k, a[n][k], b[n][k], f)
  }

  ghost predicate Injective(f: map<nat, nat>) {
    forall x, y :: x in f && y in f && f[x] == f[y] ==> x == y
  }

  lemma HasForward(a: Table, b: Table, f: map<nat, nat>, n: Bytes, x: nat)
    requires Renumbered(a, b, f) && Has(a, n, x)
    ensures x in f && Has(b, n, f[x])
  {
    var k :| Declares(k) && k in a[n] && |a[n][k]| == 4 && Word(a[n][k], 0) == Some(x);
    assert ValueRenumbered(k, a[n][k], b[n][k], f);
  }

  lemma HasBackward(a: Table, b: Table, f: map<nat, nat>, n: Bytes, y: nat) returns (x: nat)
    requires Renumbered(a, b, f) && Has(b, n, y)
    ensures Has(a, n, x) && x in f && f[x] == y
  {
    var k :| Declares(k) && k in b[n] && |b[n][k]| == 4 && Word(b[n][k], 0) == Some(y);
    assert ValueRenumbered(k, a[n][k], b[n][k], f);
    x := Word(a[n][k], 0).value;
  }

  /** A renumbered phandle names the same node. */
  lemma SameTarget(a: Table, b: Table, f: map<nat, nat>, pa: Phandles, pb: Phandles, x: nat)
    requires Renumbered(a, b, f) && Injective(f) && UniquePhandles(a) && NamesNodes(a, pa) && NamesNodes(b, pb)
    requires x in pa
    ensures x in f && f[x] in pb && pb[f[x]] == pa[x]
  {
    HasForward(a, b, f, pa[x], x);
    var z := HasBackward(a, b, f, pb[f[x]], f[x]);
    assert z == x;
  }

  lemma ValueStillMatches(a: Table, b: Table, f: map<nat, nat>, pa: Phandles, pb: Phandles, n: Bytes, k: Bytes)
    requires Renumbered(a, b, f) && Injective(f) && UniquePhandles(a) && NamesNodes(a, pa) && NamesNodes(b, pb)
    requires f.Keys == pa.Keys && n in a && k in a[n] && !Declares(k)
    ensures ValueMatches(a[n][k], b[n][k], pa, pb)
  {
    var va, vb := a[n][k], b[n][k];
    assert ValueRenumbered(k, va, vb, f);
    if va != vb {
      forall i | 0 <= i < |va| / 4 ensures CellMatches(Word(va, 4 * i).value, Word(vb, 4 * i).value, pa, pb) {
        var x := Word(va, 4 * i).value;
        assert CellRenumbered(x, Word(vb, 4 * i).value, f);
        if x in f {
          SameTarget(a, b, f, pa, pb, x);
        }
      }
    }
  }

  lemma RenumberedNames(a: Table, b: Table, f: map<nat, nat>, n: Bytes)
    requires Renumbered(a, b, f) && n in a
    ensures n in b && Names(a[n]) == Names(b[n])
    ensures forall k :: k in Names(a[n]) ==> k in a[n] && !Declares(k)
  {
  }

  lemma RenumberedNodeSame(a: Table, b: Table, f: map<nat, nat>, pa: Phandles, pb: Phandles, n: Bytes)
    requires Renumbered(a, b, f) && Injective(f) && UniquePhandles(a) && NamesNodes(a, pa) && NamesNodes(b, pb)
    requires f.Keys == pa.Keys && n in a
    ensures n in b && NodeSame(a[n], b[n], pa, pb)
  {
    RenumberedNames(a, b, f, n);
    hide ValueMatches, NamesNodes, UniquePhandles, Renumbered, Names, Declares;
    forall k | k in Names(a[n]) ensures ValueMatches(a[n][k], b[n][k], pa, pb) {
      ValueStillMatches(a, b, f, pa, pb, n, k);
    }
  }

  lemma RenumberedSame(a: Table, b: Table, f: map<nat, nat>, pa: Phandles, pb: Phandles)
    requires Renumbered(a, b, f) && Injective(f) && UniquePhandles(a) && NamesNodes(a, pa) && NamesNodes(b, pb)
    requires f.Keys == pa.Keys
    ensures SameHardware(a, b, pa, pb)
  {
    hide ValueMatches, NamesNodes, UniquePhandles, ValueRenumbered, Names, Skip;
    assert Kept(a) == Kept(b);
    forall n | n in Kept(a) ensures NodeSame(a[n], b[n], pa, pb) {
      RenumberedNodeSame(a, b, f, pa, pb, n);
    }
  }

  /** Renumbering phandles one to one, consistently, is not a difference; nor is any reordering of nodes or
      properties, since tables and the phandle maps of any two orders say the same. */
  lemma RenumberingInvisible(a: Table, b: Table, f: map<nat, nat>, orderA: seq<Bytes>, orderB: seq<Bytes>)
    requires Renumbered(a, b, f) && Injective(f) && UniquePhandles(a)
    requires Covers(a, orderA) && Covers(b, orderB)
    requires PhandlesOf(a, orderA).Some? && PhandlesOf(b, orderB).Some?
    requires f.Keys == PhandlesOf(a, orderA).value.Keys
    ensures |Findings(a, b, PhandlesOf(a, orderA).value, PhandlesOf(b, orderB).value)| == 0
  {
    hide PhandlesOf, NamesNodes, SameHardware, Renumbered, Findings, UniquePhandles;
    var pa, pb := PhandlesOf(a, orderA).value, PhandlesOf(b, orderB).value;
    PhandlesExact(a, orderA);
    PhandlesExact(b, orderB);
    RenumberedSame(a, b, f, pa, pb);
    NoFindingsMeansSame(a, b, pa, pb);
  }

  // ----- From blob to verdict -----

  /** Two tables of trees in which every path leads to the same properties are equal, however nodes and properties were ordered. */
  lemma SameTreeSameTable(items: seq<DtRoundTrip.Item>, items': seq<DtRoundTrip.Item>, m: Table, m': Table)
    requires DtPaths.ByPath(items, m) && DtPaths.ByPath(items', m')
    requires forall segs :: DtPaths.Lookup(items, segs) == DtPaths.Lookup(items', segs)
    ensures m == m'
  {
    hide DtPaths.Lookup, DtPaths.Key, DtPaths.Clean;
    forall key ensures key in m <==> key in m' {}
    forall key | key in m ensures m[key] == m'[key] {
      var segs :| DtPaths.Lookup(items, segs).Some? && DtPaths.Clean(segs) && key == DtPaths.Key(segs);
    }
  }

  lemma SameTableSame(t: Table, pa: Phandles, pb: Phandles)
    ensures |Findings(t, t, pa, pb)| == 0
  {
    assert SameHardware(t, t, pa, pb);
    NoFindingsMeansSame(t, t, pa, pb);
  }

  /** Blobs of trees with the same properties at every path, whatever the order of nodes and properties, the strings
      blocks and the NOP tokens, load as equal tables, and nothing is found between them. */
  lemma ReorderingInvisible(b: Bytes, items: seq<DtRoundTrip.Item>, before: nat, after: nat,
                            b': Bytes, items': seq<DtRoundTrip.Item>, before': nat, after': nat)
    requires DtPaths.Blob(b, before, items, after) && DtPaths.Named(items)
    requires DtPaths.Blob(b', before', items', after') && DtPaths.Named(items')
    requires forall segs :: DtPaths.Lookup(items, segs) == DtPaths.Lookup(items', segs)
    ensures LoadSpec(b).Some? && LoadSpec(b') == LoadSpec(b)
    ensures forall pa, pb :: |Findings(LoadSpec(b).value, LoadSpec(b').value, pa, pb)| == 0
  {
    hide LoadSpec, Findings, DtPaths.Lookup, DtPaths.Named, DtPaths.Blob;
    DtPaths.RoundTrip(b, before, items, after);
    DtPaths.RoundTrip(b', before', items', after');
    SameTreeSameTable(items, items', LoadSpec(b).value, LoadSpec(b').value);
    forall pa, pb ensures |Findings(LoadSpec(b).value, LoadSpec(b').value, pa, pb)| == 0 {
      SameTableSame(LoadSpec(b).value, pa, pb);
    }
  }

  lemma {:induction false} NameBefore(name: Bytes, rest: Bytes)
    requires SLASH !in name && (rest == [] || rest[0] == SLASH)
    ensures BeforeSlash(name + rest) == name
  {
    if name == [] {
      assert name + rest == rest;
    } else {
      NameBefore(name[1..], rest);
      assert (name + rest)[1..] == name[1..] + rest;
      assert name == [name[0]] + name[1..];
    }
  }

  /** The nodes left out of the comparison: those at or below a child of the root whose name begins with "chosen" or
      "memory". That is more than /chosen and /memory: a /memory-controller is left out too. */
  lemma SkipMeaning(segs: seq<Bytes>)
    requires DtPaths.Clean(segs)
    ensures Skip(DtPaths.Key(segs)) <==> segs != [] && (CHOSEN <= segs[0] || MEMORY <= segs[0])
  {
    DtPaths.KeyIsFlat(segs);
    if segs != [] {
      var rest := DtPaths.Flat(segs[1..]);
      assert DtPaths.Key(segs) == [SLASH] + segs[0] + rest;
      assert ([SLASH] + segs[0] + rest)[1..] == segs[0] + rest;
      NameBefore(segs[0], rest);
    }
  }
}
