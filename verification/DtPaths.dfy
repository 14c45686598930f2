/** The table built from a tree is the map from full paths to properties. */
module DtPaths {
  import opened DtParser
  import opened DtRoundTrip
  import opened Options

  // ----- Full paths -----

  /** Node names below the root: not empty, and free of the separator. */
  ghost predicate Clean(segs: seq<Bytes>) {
    forall i :: 0 <= i < |segs| ==> segs[i] != [] && SLASH !in segs[i]
  }

  function Flat(segs: seq<Bytes>): Bytes {
    if segs == [] then [] else [SLASH] + segs[0] + Flat(segs[1..])
  }

  /** The table's key for the node reached from the root by these names; the root's own name is empty. */
  function Key(segs: seq<Bytes>): Bytes {
    PathKey([[]] + segs)
  }

  lemma {:induction false} JoinTail(segs: seq<Bytes>)
    requires segs != []
    ensures Join(segs) == segs[0] + Flat(segs[1..])
  {
    if |segs| > 1 {
      JoinTail(segs[1..]);
      assert segs[0] + [SLASH] + (segs[1] + Flat(segs[2..])) == segs[0] + ([SLASH] + segs[1] + Flat(segs[2..]));
      assert segs[1..][0] == segs[1] && segs[1..][1..] == segs[2..];
    }
  }

  lemma KeyIsFlat(segs: seq<Bytes>)
    ensures Key(segs) == if segs == [] then [SLASH] else Flat(segs)
  {
    JoinTail([[]] + segs);
    assert ([[]] + segs)[1..] == segs;
    assert Join([[]] + segs) == [] + Flat(segs) == Flat(segs);
  }

  lemma ShorterHasSlash(s: Bytes, t: Bytes, u: Bytes, v: Bytes)
    requires s + u == t + v && |s| < |t| && (u == [] || u[0] == SLASH)
    ensures SLASH in t
  {
    assert (s + u)[|s|] == (t + v)[|s|] == t[|s|];
    assert u != [] && (s + u)[|s|] == u[0];
  }

  /** A name ends at the next separator, or at the end. */
  lemma SameName(s: Bytes, t: Bytes, u: Bytes, v: Bytes)
    requires SLASH !in s && SLASH !in t && s + u == t + v
    requires u == [] || u[0] == SLASH
    requires v == [] || v[0] == SLASH
    ensures s == t && u == v
  {
    if |s| < |t| {
      ShorterHasSlash(s, t, u, v);
    } else if |t| < |s| {
      ShorterHasSlash(t, s, v, u);
    } else {
      assert (s + u)[..|s|] == s && (t + v)[..|s|] == t;
      assert (s + u)[|s|..] == u && (t + v)[|s|..] == v;
    }
  }

  lemma FlatIsLong(segs: seq<Bytes>)
    requires segs != [] && Clean(segs)
    ensures |Flat(segs)| >= 2
  {
  }

  lemma {:induction false} FlatInjective(p: seq<Bytes>, q: seq<Bytes>)
    requires Clean(p) && Clean(q) && Flat(p) == Flat(q)
    ensures p == q
    decreases |p|
  {
    if p != [] && q != [] {
      var u, v := Flat(p[1..]), Flat(q[1..]);
      assert Flat(p)[1..] == p[0] + u && Flat(q)[1..] == q[0] + v;
      SameName(p[0], q[0], u, v);
      FlatInjective(p[1..], q[1..]);
      assert p == [p[0]] + p[1..] && q == [q[0]] + q[1..];
    }
  }

  /** Different full paths have different keys. */
  lemma KeyInjective(p: seq<Bytes>, q: seq<Bytes>)
    requires Clean(p) && Clean(q) && Key(p) == Key(q)
    ensures p == q
  {
    KeyIsFlat(p);
    KeyIsFlat(q);
    if p != [] && q != [] {
      FlatInjective(p, q);
    } else if p != [] {
      FlatIsLong(p);
    } else if q != [] {
      FlatIsLong(q);
    }
  }

  // ----- The tree, by path -----

  /** Child names are clean and differ between siblings, all the way down. */
  ghost predicate Named(items: seq<Item>) {
    && (forall i :: 0 <= i < |items| && items[i].Child? ==> items[i].name != [] && SLASH !in items[i].name && Named(items[i].items))
    && (forall i, j :: 0 <= i < j < |items| && items[i].Child? && items[j].Child? ==> items[i].name != items[j].name)
  }

  /** A node's properties; of two with the same name the later one counts. */
  function PropsOf(items: seq<Item>): Props {
    if items == [] then map[]
    else (if items[0].Property? then map[items[0].name := items[0].value] else map[]) + PropsOf(items[1..])
  }

  /** Walk down from a node by child names to the properties found there. */
  function Lookup(items: seq<Item>, segs: seq<Bytes>): Option<Props>
    decreases items
  {
    if segs == [] then Some(PropsOf(items))
    else if items == [] then None
    else if items[0].Child? && items[0].name == segs[0] then Lookup(items[0].items, segs[1..])
    else Lookup(items[1..], segs)
  }

  lemma NamedRest(items: seq<Item>)
    requires Named(items) && items != []
    ensures Named(items[1..])
    ensures items[0].Child? ==> Named(items[0].items) && Clean([items[0].name])
  {
    forall i | 0 <= i < |items[1..]| ensures items[1..][i] == items[i + 1] {}
  }

  lemma {:induction false} FoundIsClean(items: seq<Item>, segs: seq<Bytes>)
    requires Named(items) && Lookup(items, segs).Some?
    ensures Clean(segs)
    ensures segs != [] ==> exists i :: 0 <= i < |items| && items[i].Child? && items[i].name == segs[0]
    decreases items
  {
    if segs != [] {
      NamedRest(items);
      if items[0].Child? && items[0].name == segs[0] {
        FoundIsClean(items[0].items, segs[1..]);
        assert segs == [segs[0]] + segs[1..];
      } else {
        FoundIsClean(items[1..], segs);
        var i :| 0 <= i < |items[1..]| && items[1..][i].Child? && items[1..][i].name == segs[0];
        assert items[i + 1].Child? && items[i + 1].name == segs[0];
      }
    }
  }

  // ----- The table is the map by path -----

  ghost predicate Found(items: seq<Item>, segs: seq<Bytes>) {
    segs != [] && Lookup(items, segs).Some?
  }

  /** key is that of a node below p. */
  ghost predicate Below(items: seq<Item>, p: seq<Bytes>, key: Bytes) {
    exists segs :: Found(items, segs) && key == Key(p + segs)
  }

  /** None of the nodes below p is in the table yet. */
  ghost predicate Unseen(items: seq<Item>, p: seq<Bytes>, nodes: Table) {
    forall segs :: Found(items, segs) ==> Key(p + segs) !in nodes
  }

  /** m is the table with p's properties added to and every node below p entered, and nothing else changed. */
  ghost predicate Extended(items: seq<Item>, p: seq<Bytes>, nodes: Table, m: Table) {
    && Key(p) in nodes && Key(p) in m && m[Key(p)] == nodes[Key(p)] + PropsOf(items)
    && (forall segs :: Found(items, segs) ==> Key(p + segs) in m && m[Key(p + segs)] == Lookup(items, segs).value)
    && (forall key :: key in nodes && key != Key(p) ==> key in m && m[key] == nodes[key])
    && (forall key :: key in m && key !in nodes ==> Below(items, p, key))
  }

  lemma FoundRest(items: seq<Item>, segs: seq<Bytes>)
    requires Named(items) && items != [] && Found(items[1..], segs)
    ensures Found(items, segs) && Lookup(items, segs) == Lookup(items[1..], segs)
    ensures items[0].Child? ==> segs[0] != items[0].name
  {
    NamedRest(items);
    FoundIsClean(items[1..], segs);
    var i :| 0 <= i < |items[1..]| && items[1..][i].Child? && items[1..][i].name == segs[0];
    assert items[i + 1] == items[1..][i];
  }

  /** A node found is the first child, or below it, or among the rest. */
  lemma FoundCases(items: seq<Item>, segs: seq<Bytes>)
    requires items != [] && Found(items, segs)
    ensures if items[0].Child? && items[0].name == segs[0]
            then Lookup(items[0].items, segs[1..]) == Lookup(items, segs) && segs == [items[0].name] + segs[1..]
            else Found(items[1..], segs) && Lookup(items[1..], segs) == Lookup(items, segs)
  {
    assert segs == [segs[0]] + segs[1..];
  }

  lemma FoundInChild(items: seq<Item>, segs: seq<Bytes>)
    requires items != [] && items[0].Child? && (segs == [] || Found(items[0].items, segs))
    ensures Found(items, [items[0].name] + segs)
    ensures Lookup(items, [items[0].name] + segs) == Lookup(items[0].items, segs)
  {
    assert ([items[0].name] + segs)[1..] == segs;
  }

  /** What a property or a filler does to its node's entry. */
  function First(item: Item): Props {
    if item.Property? then map[item.name := item.value] else map[]
  }

  lemma BuildFirst(item: Item, p: seq<Bytes>, nodes: Table)
    requires !item.Child? && Key(p) in nodes
    ensures Build(item, [[]] + p, nodes) == nodes[Key(p) := nodes[Key(p)] + First(item)]
  {
    if item.Property? {
      assert nodes[Key(p)] + map[item.name := item.value] == nodes[Key(p)][item.name := item.value];
    } else {
      assert nodes[Key(p)] + map[] == nodes[Key(p)];
      assert nodes[Key(p) := nodes[Key(p)]] == nodes;
    }
  }

  lemma PropsAdded(items: seq<Item>, props: Props)
    requires items != [] && !items[0].Child?
    ensures props + First(items[0]) + PropsOf(items[1..]) == props + PropsOf(items)
  {
    assert PropsOf(items) == First(items[0]) + PropsOf(items[1..]);
    assert props + First(items[0]) + PropsOf(items[1..]) == props + (First(items[0]) + PropsOf(items[1..]));
  }

  /** The first item, a property or a filler. */
  lemma ExtendByProperty(items: seq<Item>, p: seq<Bytes>, nodes: Table, m: Table)
    requires Named(items) && items != [] && !items[0].Child? && Key(p) in nodes
    requires Extended(items[1..], p, nodes[Key(p) := nodes[Key(p)] + First(items[0])], m)
    ensures Extended(items, p, nodes, m)
  {
    PropsAdded(items, nodes[Key(p)]);
    hide Key, Named, PropsOf, Lookup, First, Found;
    assert m[Key(p)] == nodes[Key(p)] + First(items[0]) + PropsOf(items[1..]);
    forall segs | Found(items, segs) ensures Key(p + segs) in m && m[Key(p + segs)] == Lookup(items, segs).value {
      FoundCases(items, segs);
    }
    forall key | key in m && key !in nodes ensures Below(items, p, key) {
      BelowRest(items, p, key);
    }
  }

  /** The keys of the rest differ from those of the first child and what is below it. */
  lemma SiblingsApart(items: seq<Item>, p: seq<Bytes>, segs: seq<Bytes>, below: seq<Bytes>)
    requires Named(items) && Clean(p) && items != [] && items[0].Child?
    requires Found(items[1..], segs) && (below == [] || Found(items[0].items, below))
    ensures Key(p + segs) != Key(p + [items[0].name] + below)
  {
    NamedRest(items);
    FoundRest(items, segs);
    FoundIsClean(items[1..], segs);
    if below != [] { FoundIsClean(items[0].items, below); }
    var other := p + [items[0].name] + below;
    assert (p + segs)[|p|] == segs[0] && other[|p|] == items[0].name;
    if Key(p + segs) == Key(other) {
      KeyInjective(p + segs, other);
    }
  }

  lemma DeeperKey(p: seq<Bytes>, segs: seq<Bytes>)
    requires Clean(p) && Clean(segs) && segs != []
    ensures Key(p + segs) != Key(p)
  {
    assert |p + segs| > |p|;
    if Key(p + segs) == Key(p) {
      KeyInjective(p + segs, p);
    }
  }

  lemma UnseenParts(items: seq<Item>, p: seq<Bytes>, nodes: Table)
    requires Named(items) && items != [] && Unseen(items, p, nodes)
    ensures Unseen(items[1..], p, nodes)
    ensures items[0].Child? ==> Key(p + [items[0].name]) !in nodes && Unseen(items[0].items, p + [items[0].name], nodes)
  {
    hide Key, Named, Lookup;
    forall segs | Found(items[1..], segs) ensures Key(p + segs) !in nodes {
      FoundRest(items, segs);
    }
    if items[0].Child? {
      FoundInChild(items, []);
      assert p + ([items[0].name] + []) == p + [items[0].name];
      forall segs | Found(items[0].items, segs) ensures Key(p + [items[0].name] + segs) !in nodes {
        FoundInChild(items, segs);
        assert p + [items[0].name] + segs == p + ([items[0].name] + segs);
      }
    }
  }

  /** Once the first child is in, the rest is still unseen. */
  lemma UnseenAfter(items: seq<Item>, p: seq<Bytes>, nodes: Table, entered: Table, m1: Table)
    requires Named(items) && Clean(p) && items != [] && items[0].Child? && Unseen(items, p, nodes)
    requires entered == nodes[Key(p + [items[0].name]) := map[]]
    requires Extended(items[0].items, p + [items[0].name], entered, m1)
    ensures Unseen(items[1..], p, m1)
  {
    hide Key, Lookup, PropsOf;
    UnseenParts(items, p, nodes);
    var q := p + [items[0].name];
    forall segs | Found(items[1..], segs) ensures Key(p + segs) !in m1 {
      SiblingsApart(items, p, segs, []);
      assert q + [] == q;
      if Key(p + segs) in m1 && Key(p + segs) !in nodes {
        var below :| Found(items[0].items, below) && Key(p + segs) == Key(q + below);
        SiblingsApart(items, p, segs, below);
      }
    }
  }

  /** The first item, a child, then the rest. */
  lemma ExtendByChild(items: seq<Item>, p: seq<Bytes>, nodes: Table, entered: Table, m1: Table, m: Table)
    requires Named(items) && Clean(p) && items != [] && items[0].Child? && Unseen(items, p, nodes) && Key(p) in nodes
    requires entered == nodes[Key(p + [items[0].name]) := map[]]
    requires Extended(items[0].items, p + [items[0].name], entered, m1)
    requires Extended(items[1..], p, m1, m)
    ensures Extended(items, p, nodes, m)
  {
    NamedRest(items);
    DeeperKey(p, [items[0].name]);
    assert PropsOf(items) == map[] + PropsOf(items[1..]) == PropsOf(items[1..]);
    hide Key, Named, Clean;
    ChildEntries(items, p, nodes, entered, m1, m);
    ChildOrigins(items, p, nodes, entered, m1, m);
    UnseenParts(items, p, nodes);
    hide PropsOf, Lookup, Unseen, Found;
    forall key | key in nodes && key != Key(p) ensures key in m && m[key] == nodes[key] {
      assert key in entered;
    }
  }

  lemma BelowRest(items: seq<Item>, p: seq<Bytes>, key: Bytes)
    requires Named(items) && items != [] && Below(items[1..], p, key)
    ensures Below(items, p, key)
  {
    var segs :| Found(items[1..], segs) && key == Key(p + segs);
    FoundRest(items, segs);
  }

  lemma BelowChild(items: seq<Item>, p: seq<Bytes>, key: Bytes)
    requires items != [] && items[0].Child?
    requires key == Key(p + [items[0].name]) || Below(items[0].items, p + [items[0].name], key)
    ensures Below(items, p, key)
  {
    hide Key, Lookup;
    var q := p + [items[0].name];
    if key == Key(q) {
      FoundInChild(items, []);
      assert p + ([items[0].name] + []) == q;
    } else {
      var below :| Found(items[0].items, below) && key == Key(q + below);
      FoundInChild(items, below);
      assert q + below == p + ([items[0].name] + below);
    }
  }

  /** Every key that is new is that of a node found. */
  lemma ChildOrigins(items: seq<Item>, p: seq<Bytes>, nodes: Table, entered: Table, m1: Table, m: Table)
    requires Named(items) && items != [] && items[0].Child?
    requires entered == nodes[Key(p + [items[0].name]) := map[]]
    requires Extended(items[0].items, p + [items[0].name], entered, m1)
    requires Extended(items[1..], p, m1, m)
    ensures forall key :: key in m && key !in nodes ==> Below(items, p, key)
  {
    hide Key, Named, PropsOf, Lookup, Below, Found;
    forall key | key in m && key !in nodes ensures Below(items, p, key) {
      if key !in m1 {
        BelowRest(items, p, key);
      } else {
        BelowChild(items, p, key);
      }
    }
  }

  lemma ChildEntries(items: seq<Item>, p: seq<Bytes>, nodes: Table, entered: Table, m1: Table, m: Table)
    requires Named(items) && Clean(p) && items != [] && items[0].Child? && Key(p) in nodes
    requires entered == nodes[Key(p + [items[0].name]) := map[]]
    requires Extended(items[0].items, p + [items[0].name], entered, m1)
    requires Extended(items[1..], p, m1, m)
    ensures forall segs :: Found(items, segs) ==> Key(p + segs) in m && m[Key(p + segs)] == Lookup(items, segs).value
  {
    var q, child := p + [items[0].name], items[0].items;
    NamedRest(items);
    forall segs | Found(items, segs) ensures Key(p + segs) in m && m[Key(p + segs)] == Lookup(items, segs).value {
      hide Key, Lookup, PropsOf, Named;
      FoundCases(items, segs);
      if items[0].name == segs[0] {
        var below := segs[1..];
        assert p + segs == q + below;
        assert Key(q + below) in m1 && m1[Key(q + below)] == Lookup(items, segs).value by {
          if below == [] {
            assert q + below == q && map[] + PropsOf(child) == PropsOf(child);
            LookupHere(child);
          } else {
            assert Found(child, below);
          }
        }
        FoundIsClean(items, segs);
        DeeperKey(p, segs);
      }
    }
  }

  lemma LookupHere(items: seq<Item>)
    ensures Lookup(items, []) == Some(PropsOf(items))
  {
  }

  /** Building extends the table by exactly the subtree. */
  lemma {:induction false} BuildExtends(items: seq<Item>, p: seq<Bytes>, nodes: Table)
    requires Named(items) && Clean(p) && Key(p) in nodes && Unseen(items, p, nodes)
    ensures Extended(items, p, nodes, BuildAll(items, [[]] + p, nodes))
    decreases items
  {
    if items == [] {
      assert nodes[Key(p)] + map[] == nodes[Key(p)];
    } else {
      var m1 := Build(items[0], [[]] + p, nodes);
      var m := BuildAll(items[1..], [[]] + p, m1);
      NamedRest(items);
      UnseenParts(items, p, nodes);
      if items[0].Child? {
        var q := p + [items[0].name];
        assert [[]] + p + [items[0].name] == [[]] + q;
        var entered := nodes[Key(q) := map[]];
        UnseenEntered(items[0].items, q, nodes);
        BuildExtends(items[0].items, q, entered);
        UnseenAfter(items, p, nodes, entered, m1);
        BuildExtends(items[1..], p, m1);
        ExtendByChild(items, p, nodes, entered, m1, m);
      } else {
        BuildFirst(items[0], p, nodes);
        BuildExtends(items[1..], p, m1);
        ExtendByProperty(items, p, nodes, m);
      }
    }
  }

  lemma UnseenEntered(items: seq<Item>, q: seq<Bytes>, nodes: Table)
    requires Named(items) && Clean(q) && Unseen(items, q, nodes)
    ensures Unseen(items, q, nodes[Key(q) := map[]])
  {
    forall segs | Found(items, segs) ensures Key(q + segs) !in nodes[Key(q) := map[]] {
      FoundIsClean(items, segs);
      DeeperKey(q, segs);
    }
  }

  // ----- The round trip -----

  function Fillers(n: nat): (r: seq<Item>)
    ensures |r| == n && forall it :: it in r ==> it == Filler
  {
    seq(n, _ => Filler)
  }

  /** The structure block of a tree: its root node, with NOP tokens before and after. */
  function Top(before: nat, items: seq<Item>, after: nat): seq<Item> {
    Fillers(before) + ([Child([], items)] + Fillers(after))
  }

  lemma {:induction false} FillersBuildNothing(n: nat, rest: seq<Item>, path: seq<Bytes>, nodes: Table)
    ensures BuildAll(Fillers(n) + rest, path, nodes) == BuildAll(rest, path, nodes)
  {
    if n == 0 {
      assert Fillers(0) + rest == rest;
    } else {
      var items := Fillers(n) + rest;
      assert items[0] == Filler && items[1..] == Fillers(n - 1) + rest;
      FillersBuildNothing(n - 1, rest, path, nodes);
    }
  }

  /** The map from full path to properties. */
  ghost predicate ByPath(items: seq<Item>, m: Table) {
    && (forall segs :: Lookup(items, segs).Some? ==> Key(segs) in m && m[Key(segs)] == Lookup(items, segs).value)
    && (forall key :: key in m ==> exists segs :: Lookup(items, segs).Some? && Clean(segs) && key == Key(segs))
  }

  lemma TopByPath(before: nat, items: seq<Item>, after: nat)
    requires Named(items)
    ensures ByPath(items, BuildAll(Top(before, items, after), [], map[]))
  {
    var root: Table := map[Key([]) := map[]];
    var rest := [Child([], items)] + Fillers(after);
    FillersBuildNothing(before, rest, [], map[]);
    assert rest[0] == Child([], items) && rest[1..] == Fillers(after);
    var none: seq<Bytes> := [];
    assert none + [[]] == [[]] + none;
    assert Build(Child([], items), [], map[]) == BuildAll(items, [[]] + [], root);
    FillersBuildNothing(after, [], [], BuildAll(items, [[]] + [], root));
    assert Fillers(after) + [] == Fillers(after);
    forall segs | Found(items, segs) ensures Key([] + segs) !in root {
      FoundIsClean(items, segs);
      DeeperKey([], segs);
    }
    BuildExtends(items, [], root);
    ExtendedIsByPath(items, root, BuildAll(items, [[]] + [], root));
  }

  lemma ExtendedIsByPath(items: seq<Item>, root: Table, m: Table)
    requires Named(items) && root == map[Key([]) := map[]] && Extended(items, [], root, m)
    ensures ByPath(items, m)
  {
    assert map[] + PropsOf(items) == PropsOf(items);
    hide Key, Named;
    LookupHere(items);
    forall segs: seq<Bytes> ensures [] + segs == segs {}
    forall segs | Lookup(items, segs).Some? ensures Key(segs) in m && m[Key(segs)] == Lookup(items, segs).value {
      if segs != [] { assert Found(items, segs); }
    }
    forall key | key in m ensures exists segs :: Lookup(items, segs).Some? && Clean(segs) && key == Key(segs) {
      if key !in root {
        var segs :| Found(items, segs) && key == Key([] + segs);
        FoundIsClean(items, segs);
      } else {
        assert Lookup(items, []).Some? && Clean([]);
      }
    }
  }

  /** b is a blob for this tree: its header points at a strings block that holds the property names and at
      an aligned structure block that encodes the tree up to its END token. What follows is arbitrary. */
  ghost predicate Blob(b: Bytes, before: nat, items: seq<Item>, after: nat) {
    && MagicAt(b, 0) && Word(b, 8).Some? && Word(b, 12).Some? && Word(b, 32).Some?
    && var o, os, sz, top := Word(b, 8).value, Word(b, 12).value, Word(b, 32).value, Top(before, items, after);
       && o % 4 == 0 && os + sz <= |b|
       && AllEncodable(top) && AllResolved(top, b[os..os + sz])
       && At(b, o, EncodeAll(top) + EncodeWord(END))
  }

  lemma TopIsNodes(before: nat, items: seq<Item>, after: nat)
    ensures forall it :: it in Top(before, items, after) ==> !it.Property?
  {
  }

  /** The loop on a structure block that encodes some nodes: it builds them and stops at END. */
  lemma ParseTop(b: Bytes, strings: Bytes, o: nat, top: seq<Item>)
    requires AllEncodable(top) && AllResolved(top, strings) && (forall it :: it in top ==> !it.Property?)
    requires o % 4 == 0 && At(b, o, EncodeAll(top) + EncodeWord(END))
    ensures Parse(b, strings, o, [], map[]) == Some(BuildAll(top, [], map[]))
  {
    hide Parse, EncodeAll, EncodeWord, BuildAll, AllEncodable, AllResolved;
    AtSplit(b, o, EncodeAll(top), EncodeWord(END));
    ParseItems(b, strings, o, [], map[], top);
    ParseStop(b, strings, o + |EncodeAll(top)|, [], BuildAll(top, [], map[]));
  }

  /** The round trip: whatever the tree, loading a blob of it succeeds and gives exactly the map from
      full path to properties. */
  lemma RoundTrip(b: Bytes, before: nat, items: seq<Item>, after: nat)
    requires Blob(b, before, items, after) && Named(items)
    ensures LoadSpec(b).Some? && ByPath(items, LoadSpec(b).value)
  {
    hide Parse, EncodeAll, EncodeWord, BuildAll, Word, Top, ByPath, Named, Key, AllEncodable, AllResolved, At;
    var o, os, sz := Word(b, 8).value, Word(b, 12).value, Word(b, 32).value;
    TopIsNodes(before, items, after);
    ParseTop(b, b[os..os + sz], o, Top(before, items, after));
    TopByPath(before, items, after);
  }

  /** Different nodes of the tree have different keys in that map. */
  lemma NodesApart(items: seq<Item>, p: seq<Bytes>, q: seq<Bytes>)
    requires Named(items) && Lookup(items, p).Some? && Lookup(items, q).Some? && Key(p) == Key(q)
    ensures p == q
  {
    FoundIsClean(items, p);
    FoundIsClean(items, q);
    KeyInjective(p, q);
  }

  /** So does loading a file with such a blob behind something else, if its header gives its size and no magic number
      comes after the blob's own. */
  lemma RoundTripInImage(front: Bytes, b: Bytes, back: Bytes, before: nat, items: seq<Item>, after: nat)
    requires Blob(b, before, items, after) && Named(items) && Word(b, 4) == Some(|b|)
    requires var image := front + b + back; !MagicAt(image, 0) && LastMagic(image, |image|) == |front|
    ensures ReadFile(front + b + back) == LoadSpec(b)
    ensures LoadSpec(b).Some? && ByPath(items, LoadSpec(b).value)
  {
    hide LoadSpec, ByPath, Named, LastMagic;
    RoundTrip(b, before, items, after);
    var image, i := front + b + back, |front|;
    assert image[i..i + |b|] == b;
    assert Word(image, i + 4) == Word(b, 4) by {
      assert forall k :: 0 <= k < |b| ==> image[i + k] == b[k];
    }
  }

  lemma ParseStop(b: Bytes, strings: Bytes, i: nat, path: seq<Bytes>, nodes: Table)
    requires At(b, i, EncodeWord(END))
    ensures Parse(b, strings, i, path, nodes) == Some(nodes)
  {
    WordAt(b, i, END);
  }
}
