/** Circular doubly-linked lists threaded through fixed nodes, as the kernel's list_head: nodes are
    numbered, the first few are list heads, and the links of all of them sit in two arrays. */
module IntrusiveLists {

  /** One lap round a list: from its head through its nodes back to the head. */
  function Lap(head: nat, c: seq<nat>): seq<nat> {
    [head] + c + [head]
  }

  /** Following next goes round the lap forwards, following prev backwards. */
  ghost predicate Ring(nx: seq<nat>, pv: seq<nat>, head: nat, c: seq<nat>) {
    && |nx| == |pv|
    && (forall i :: 0 <= i < |c| + 2 ==> Lap(head, c)[i] < |nx|)
    && (forall i :: 0 <= i <= |c| ==> nx[Lap(head, c)[i]] == Lap(head, c)[i + 1])
    && (forall i :: 0 <= i <= |c| ==> pv[Lap(head, c)[i + 1]] == Lap(head, c)[i])
  }

  ghost predicate On(chains: seq<seq<nat>>, k: nat, n: nat) {
    k < |chains| && n in chains[k]
  }

  ghost predicate Linked(chains: seq<seq<nat>>, n: nat) {
    exists k: nat :: On(chains, k, n)
  }

  ghost predicate NoRepeats(c: seq<nat>) {
    forall i, j :: 0 <= i < j < |c| ==> c[i] != c[j]
  }

  /** Every head's list is a ring of its chain, no node is on two lists or twice on one,
      heads are on none, and a node on no list is linked to itself. */
  ghost predicate WellFormed(nx: seq<nat>, pv: seq<nat>, chains: seq<seq<nat>>) {
    && |chains| <= |nx| == |pv|
    && (forall k :: 0 <= k < |chains| ==> Ring(nx, pv, k, chains[k]) && NoRepeats(chains[k]))
    && (forall k: nat, n: nat :: On(chains, k, n) ==> |chains| <= n < |nx|)
    && (forall k: nat, l: nat, n: nat :: On(chains, k, n) && On(chains, l, n) ==> k == l)
    && (forall n: nat :: |chains| <= n < |nx| && !Linked(chains, n) ==> nx[n] == n && pv[n] == n)
  }

  // ----- Adding at the tail -----

  /** The links after list_add_tail(n, head). */
  function AddNext(nx: seq<nat>, pv: seq<nat>, n: nat, head: nat): seq<nat>
    requires n < |nx| && head < |nx| == |pv| && pv[head] < |nx|
  {
    nx[n := head][pv[head] := n]
  }

  function AddPrev(pv: seq<nat>, n: nat, head: nat): seq<nat>
    requires n < |pv| && head < |pv|
  {
    pv[head := n][n := pv[head]]
  }

  /** The last node of a list, or its head. */
  lemma TailIs(nx: seq<nat>, pv: seq<nat>, head: nat, c: seq<nat>)
    requires head < |pv| && Ring(nx, pv, head, c)
    ensures pv[head] == Lap(head, c)[|c|]
    ensures pv[head] == if c == [] then head else c[|c| - 1]
  {
    assert Lap(head, c)[|c| + 1] == head;
  }

  lemma AddExtends(nx: seq<nat>, pv: seq<nat>, head: nat, c: seq<nat>, n: nat)
    requires Ring(nx, pv, head, c) && NoRepeats(c) && head !in c && n !in c && n != head && n < |nx| && head < |nx|
    ensures pv[head] < |nx| && Ring(AddNext(nx, pv, n, head), AddPrev(pv, n, head), head, c + [n])
  {
    TailIs(nx, pv, head, c);
    var lap, lap' := Lap(head, c), Lap(head, c + [n]);
    assert lap'[..|c| + 1] == lap[..|c| + 1] && lap'[|c| + 1] == n && lap'[|c| + 2] == head;
    var nx', pv' := AddNext(nx, pv, n, head), AddPrev(pv, n, head);
    forall i | 0 <= i <= |c| + 1 ensures nx'[lap'[i]] == lap'[i + 1] && pv'[lap'[i + 1]] == lap'[i] {
      if i < |c| {
        assert lap'[i] == lap[i] && lap'[i + 1] == lap[i + 1];
        assert lap[i + 1] == c[i] && lap[i] == if i == 0 then head else c[i - 1];
      }
    }
  }

  /** A list that shares no node with the change is not affected. */
  lemma RingElsewhere(nx: seq<nat>, pv: seq<nat>, nx': seq<nat>, pv': seq<nat>, head: nat, c: seq<nat>)
    requires Ring(nx, pv, head, c) && |nx'| == |pv'| == |nx|
    requires forall n :: n == head || n in c ==> n < |nx| && nx'[n] == nx[n] && pv'[n] == pv[n]
    ensures Ring(nx', pv', head, c)
  {
    var lap := Lap(head, c);
    forall i | 0 <= i < |c| + 2 ensures lap[i] == head || lap[i] in c {
      if 0 < i <= |c| { assert lap[i] == c[i - 1]; }
    }
  }

  lemma AddKeeps(nx: seq<nat>, pv: seq<nat>, chains: seq<seq<nat>>, k: nat, n: nat)
    requires WellFormed(nx, pv, chains) && k < |chains| && |chains| <= n < |nx| && !Linked(chains, n)
    ensures pv[k] < |nx| && WellFormed(AddNext(nx, pv, n, k), AddPrev(pv, n, k), chains[k := chains[k] + [n]])
  {
    var chains' := chains[k := chains[k] + [n]];
    assert Ring(nx, pv, k, chains[k]);
    TailIs(nx, pv, k, chains[k]);
    forall l: nat | l < |chains| ensures n !in chains[l] && k !in chains[l] && l !in chains[k] {
      assert !On(chains, l, n) && !On(chains, l, k) && !On(chains, k, l);
    }
    AddExtends(nx, pv, k, chains[k], n);
    assert pv[k] == k || On(chains, k, pv[k]);
    var nx', pv' := AddNext(nx, pv, n, k), AddPrev(pv, n, k);
    forall l | 0 <= l < |chains| ensures Ring(nx', pv', l, chains'[l]) && NoRepeats(chains'[l]) {
      if l != k {
        assert pv[k] != l && !On(chains, l, pv[k]);
        forall m: nat | m == l || m in chains[l] ensures m < |nx| && nx'[m] == nx[m] && pv'[m] == pv[m] {
          assert m == l || On(chains, l, m);
        }
        RingElsewhere(nx, pv, nx', pv', l, chains[l]);
      }
    }
    forall l: nat, m: nat | On(chains', l, m) ensures On(chains, l, m) || (l == k && m == n) {}
    forall m: nat | |chains| <= m < |nx| && !Linked(chains', m) ensures nx'[m] == m && pv'[m] == m {
      assert !On(chains', k, m) && m != n;
      assert forall l: nat :: On(chains, l, m) ==> On(chains', l, m);
      assert m == pv[k] ==> m == k || On(chains', k, m);
    }
  }

  // ----- Removing -----

  /** A chain without the node n. */
  function Without(c: seq<nat>, n: nat): seq<nat> {
    if c == [] then [] else if c[0] == n then Without(c[1..], n) else [c[0]] + Without(c[1..], n)
  }

  function AllWithout(chains: seq<seq<nat>>, n: nat): (r: seq<seq<nat>>)
    ensures |r| == |chains|
  {
    seq(|chains|, k requires 0 <= k < |chains| => Without(chains[k], n))
  }

  lemma {:induction false} WithoutAbsent(c: seq<nat>, n: nat)
    requires n !in c
    ensures Without(c, n) == c
  {
    if c != [] {
      WithoutAbsent(c[1..], n);
    }
  }

  lemma {:induction false} WithoutPresent(c: seq<nat>, i: nat)
    requires NoRepeats(c) && i < |c|
    ensures Without(c, c[i]) == c[..i] + c[i + 1..]
  {
    if i == 0 {
      WithoutAbsent(c[1..], c[0]);
    } else {
      var rest := c[1..];
      assert rest[i - 1] == c[i] != c[0];
      WithoutPresent(rest, i - 1);
      assert rest[i - 1 + 1..] == c[i + 1..] && [c[0]] + rest[..i - 1] == c[..i];
      assert [c[0]] + (rest[..i - 1] + rest[i..]) == c[..i] + c[i + 1..];
    }
  }

  lemma {:induction false} WithoutMembers(c: seq<nat>, n: nat)
    ensures forall m :: m in Without(c, n) <==> m in c && m != n
    ensures NoRepeats(c) ==> NoRepeats(Without(c, n))
  {
    if c != [] {
      WithoutMembers(c[1..], n);
      assert c == [c[0]] + c[1..];
      assert NoRepeats(c) ==> c[0] !in c[1..] && NoRepeats(c[1..]);
    }
  }

  /** The links after list_del_init(n). */
  function DelNext(nx: seq<nat>, pv: seq<nat>, n: nat): seq<nat>
    requires n < |nx| == |pv| && pv[n] < |nx|
  {
    nx[pv[n] := nx[n]][n := n]
  }

  function DelPrev(nx: seq<nat>, pv: seq<nat>, n: nat): seq<nat>
    requires n < |nx| == |pv| && nx[n] < |nx|
  {
    pv[nx[n] := pv[n]][n := n]
  }

  lemma DelShrinks(nx: seq<nat>, pv: seq<nat>, head: nat, c: seq<nat>, j: nat)
    requires Ring(nx, pv, head, c) && NoRepeats(c) && head !in c && j < |c| && c[j] < |nx|
    ensures nx[c[j]] < |nx| && pv[c[j]] < |nx|
    ensures nx[c[j]] == Lap(head, c)[j + 2] && pv[c[j]] == Lap(head, c)[j]
    ensures Ring(DelNext(nx, pv, c[j]), DelPrev(nx, pv, c[j]), head, c[..j] + c[j + 1..])
  {
    var lap, lap' := Lap(head, c), Lap(head, c[..j] + c[j + 1..]);
    assert lap[j + 1] == c[j] && nx[lap[j + 1]] == lap[j + 2] && pv[lap[j + 1]] == lap[j];
    assert lap' == lap[..j + 1] + lap[j + 2..];
    var nx', pv' := DelNext(nx, pv, c[j]), DelPrev(nx, pv, c[j]);
    forall i | 0 <= i < |c| ensures nx'[lap'[i]] == lap'[i + 1] && pv'[lap'[i + 1]] == lap'[i] {
      if i < j {
        assert lap'[i] == lap[i] && lap'[i + 1] == lap[i + 1];
      } else if i > j {
        assert lap'[i] == lap[i + 1] && lap'[i + 1] == lap[i + 2];
      }
    }
  }

  lemma DelKeeps(nx: seq<nat>, pv: seq<nat>, chains: seq<seq<nat>>, n: nat)
    requires WellFormed(nx, pv, chains) && |chains| <= n < |nx|
    ensures nx[n] < |nx| && pv[n] < |nx|
    ensures WellFormed(DelNext(nx, pv, n), DelPrev(nx, pv, n), AllWithout(chains, n))
  {
    if Linked(chains, n) {
      var k: nat :| On(chains, k, n);
      var j :| 0 <= j < |chains[k]| && chains[k][j] == n;
      DelLinked(nx, pv, chains, k, j);
    } else {
      assert DelNext(nx, pv, n) == nx && DelPrev(nx, pv, n) == pv;
      forall k | 0 <= k < |chains| ensures AllWithout(chains, n)[k] == chains[k] {
        assert !On(chains, k, n);
        WithoutAbsent(chains[k], n);
      }
      assert AllWithout(chains, n) == chains;
    }
  }

  lemma DelLinked(nx: seq<nat>, pv: seq<nat>, chains: seq<seq<nat>>, k: nat, j: nat)
    requires WellFormed(nx, pv, chains) && k < |chains| && j < |chains[k]|
    ensures var n := chains[k][j];
      n < |nx| && nx[n] < |nx| && pv[n] < |nx| && WellFormed(DelNext(nx, pv, n), DelPrev(nx, pv, n), AllWithout(chains, n))
  {
    var n, c := chains[k][j], chains[k];
    assert On(chains, k, n) && Ring(nx, pv, k, c);
    assert !On(chains, k, k);
    DelShrinks(nx, pv, k, c, j);
    WithoutPresent(c, j);
    var chains', nx', pv' := AllWithout(chains, n), DelNext(nx, pv, n), DelPrev(nx, pv, n);
    forall l, m | 0 <= l < |chains| ensures m in chains'[l] <==> m in chains[l] && m != n {
      WithoutMembers(chains[l], n);
    }
    assert nx[n] == k || On(chains, k, nx[n]);
    assert pv[n] == k || On(chains, k, pv[n]);
    forall l | 0 <= l < |chains| ensures Ring(nx', pv', l, chains'[l]) && NoRepeats(chains'[l]) {
      WithoutMembers(chains[l], n);
      if l != k {
        OtherUntouched(nx, pv, chains, k, l, n);
      }
    }
    forall l: nat, m: nat | On(chains', l, m) ensures On(chains, l, m) && m != n {}
    forall m: nat | |chains| <= m < |nx| && !Linked(chains', m) ensures nx'[m] == m && pv'[m] == m {
      if m != n {
        assert forall l: nat :: On(chains, l, m) ==> On(chains', l, m);
        assert !On(chains, k, m);
      }
    }
  }

  lemma OtherUntouched(nx: seq<nat>, pv: seq<nat>, chains: seq<seq<nat>>, k: nat, l: nat, n: nat)
    requires WellFormed(nx, pv, chains) && On(chains, k, n) && l < |chains| && l != k && n < |nx|
    requires nx[n] < |nx| && pv[n] < |nx|
    requires (nx[n] == k || On(chains, k, nx[n])) && (pv[n] == k || On(chains, k, pv[n]))
    ensures Ring(DelNext(nx, pv, n), DelPrev(nx, pv, n), l, AllWithout(chains, n)[l])
  {
    assert !On(chains, l, n);
    WithoutAbsent(chains[l], n);
    var nx', pv' := DelNext(nx, pv, n), DelPrev(nx, pv, n);
    assert Ring(nx, pv, l, chains[l]) && Lap(l, chains[l])[0] == l;
    forall m: nat | m == l || m in chains[l] ensures m < |nx| && nx'[m] == nx[m] && pv'[m] == pv[m] {
      assert m == l || On(chains, l, m);
    }
    RingElsewhere(nx, pv, nx', pv', l, chains[l]);
  }

  // ----- The lists themselves -----

  class Links {
    const next: array<nat>
    const prev: array<nat>
    ghost var chains: seq<seq<nat>>  // each head's nodes, in order

    ghost predicate Valid()
      reads this, next, prev
    {
      next != prev && WellFormed(next[..], prev[..], chains)
    }

    /** INIT_LIST_HEAD for every head and every node. */
    constructor (heads: nat, size: nat)
      requires heads <= size
      ensures Valid() && fresh(next) && fresh(prev) && next.Length == size
      ensures chains == seq(heads, _ => [])
    {
      next := new nat[size](i => i);
      prev := new nat[size](i => i);
      chains := seq(heads, _ => []);
    }

    method ListAddTail(n: nat, head: nat)
      requires Valid() && head < |chains| <= n < next.Length && !Linked(chains, n)
      modifies this, next, prev
      ensures Valid() && chains == old(chains)[head := old(chains)[head] + [n]]
    {
      AddKeeps(next[..], prev[..], chains, head, n);
      var last := prev[head];
      prev[head] := n;
      next[n] := head;
      prev[n] := last;
      next[last] := n;
      assert next[..] == AddNext(old(next[..]), old(prev[..]), n, head);
      assert prev[..] == AddPrev(old(prev[..]), n, head);
      chains := chains[head := chains[head] + [n]];
    }

    /** A node that is on no list stays on none. */
    method ListDelInit(n: nat)
      requires Valid() && |chains| <= n < next.Length
      modifies this, next, prev
      ensures Valid() && chains == AllWithout(old(chains), n) && !Linked(chains, n)
    {
      DelKeeps(next[..], prev[..], chains, n);
      var before, after := prev[n], next[n];
      prev[after] := before;
      next[before] := after;
      next[n] := n;
      prev[n] := n;
      assert next[..] == DelNext(old(next[..]), old(prev[..]), n);
      assert prev[..] == DelPrev(old(next[..]), old(prev[..]), n);
      chains := AllWithout(chains, n);
      forall k: nat | k < |chains| ensures !On(chains, k, n) {
        WithoutMembers(old(chains)[k], n);
      }
    }

    /** The node after the i-th on the way round a list, the 0-th being the head. */
    lemma Follow(head: nat, i: nat)
      requires Valid() && head < |chains| && i <= |chains[head]|
      ensures head < next.Length && Lap(head, chains[head])[i] < next.Length
      ensures next[Lap(head, chains[head])[i]] == Lap(head, chains[head])[i + 1]
      ensures Lap(head, chains[head])[i + 1] == head <==> i == |chains[head]|
    {
      assert Ring(next[..], prev[..], head, chains[head]);
      var lap := Lap(head, chains[head]);
      assert next[lap[i]] == next[..][lap[i]];
      assert lap[0] == head;
      assert !On(chains, head, head);
    }
  }
}
