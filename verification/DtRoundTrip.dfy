/** The flattened format of the Devicetree Specification (v0.4, sections 5.2, 5.4 and 5.5), and the round
    trip: loading the encoding of a tree gives the map from each node's full path to its properties. */
module DtRoundTrip {
  import opened DtParser
  import opened Options

  /** What stands between a node's BEGIN and END: properties, children, and NOP tokens anywhere. */
  datatype Item =
    | Filler
    | Property(name: Bytes, nameoff: nat, value: Bytes)
    | Child(name: Bytes, items: seq<Item>)

  // ----- Encoding -----

  function EncodeWord(n: nat): (r: Bytes)
    requires n < 0x1_0000_0000
    ensures |r| == 4 && Word(r, 0) == Some(n)
  {
    var high, low := n / 0x1_0000, n % 0x1_0000;
    [high / 0x100, high % 0x100, low / 0x100, low % 0x100]
  }

  /** The tokens as they stand in a blob. */
  lemma TokensOnTheWire()
    ensures EncodeWord(BEGIN_NODE) == [0, 0, 0, 1] && EncodeWord(END_NODE) == [0, 0, 0, 2] && EncodeWord(PROP) == [0, 0, 0, 3]
    ensures EncodeWord(NOP) == [0, 0, 0, 4] && EncodeWord(END) == [0, 0, 0, 9] && EncodeWord(0x1234_5678) == [0x12, 0x34, 0x56, 0x78]
  {
  }

  function Pad(n: nat): (r: Bytes)
    ensures n + |r| == Align(n)
  {
    seq(Align(n) - n, _ => NUL)
  }

  /** Names are free of NUL and of the separator, and sizes fit their 32-bit fields. */
  ghost predicate Encodable(item: Item) {
    match item
    case Filler => true
    case Property(name, nameoff, value) => NUL !in name && nameoff < 0x1_0000_0000 && |value| < 0x1_0000_0000
    case Child(name, items) => NUL !in name && forall it :: it in items ==> Encodable(it)
  }

  ghost predicate AllEncodable(items: seq<Item>) {
    forall it :: it in items ==> Encodable(it)
  }

  function Encode(item: Item): Bytes
    requires Encodable(item)
    decreases item, 0
  {
    match item
    case Filler => EncodeWord(NOP)
    case Property(_, nameoff, value) =>
      EncodeWord(PROP) + (EncodeWord(|value|) + (EncodeWord(nameoff) + (value + Pad(|value|))))
    case Child(name, items) =>
      EncodeWord(BEGIN_NODE) + ((name + [NUL] + Pad(|name| + 1)) + (EncodeAll(items) + EncodeWord(END_NODE)))
  }

  function EncodeAll(items: seq<Item>): Bytes
    requires AllEncodable(items)
    decreases items, 1
  {
    if items == [] then [] else Encode(items[0]) + EncodeAll(items[1..])
  }

  /** Tokens are aligned to four bytes. */
  lemma {:induction false} EncodeAligned(item: Item)
    requires Encodable(item)
    ensures |Encode(item)| % 4 == 0
    decreases item, 0
  {
    hide Align, Pad, EncodeWord, EncodeAll, Word;
    match item {
      case Filler =>
      case Property(_, _, value) =>
      case Child(name, items) => EncodeAllAligned(items);
    }
  }

  lemma {:induction false} EncodeAllAligned(items: seq<Item>)
    requires AllEncodable(items)
    ensures |EncodeAll(items)| % 4 == 0
    decreases items, 1
  {
    hide Encode, Encodable;
    if items != [] {
      EncodeAligned(items[0]);
      EncodeAllAligned(items[1..]);
    }
  }

  // ----- Reading it back, token by token -----

  /** s stands in b at position i. */
  ghost predicate At(b: Bytes, i: nat, s: Bytes) {
    i + |s| <= |b| && b[i..i + |s|] == s
  }

  lemma AtSplit(b: Bytes, i: nat, s: Bytes, t: Bytes)
    requires At(b, i, s + t)
    ensures At(b, i, s) && At(b, i + |s|, t)
  {
    assert b[i..i + |s + t|][..|s|] == s;
    assert b[i..i + |s + t|][|s|..] == t;
  }

  lemma WordAt(b: Bytes, i: nat, n: nat)
    requires n < 0x1_0000_0000 && At(b, i, EncodeWord(n))
    ensures Word(b, i) == Some(n)
  {
    var w := EncodeWord(n);
    assert w == b[i..i + 4];
    assert w[0] == b[i] && w[1] == b[i + 1] && w[2] == b[i + 2] && w[3] == b[i + 3];
  }

  lemma {:induction false} FindNulIs(b: Bytes, i: nat, j: nat)
    requires i <= j < |b| && b[j] == NUL && forall k :: i <= k < j ==> b[k] != NUL
    ensures FindNul(b, i) == Some(j)
    decreases j - i
  {
    if i < j {
      FindNulIs(b, i + 1, j);
    }
  }

  lemma NulAt(b: Bytes, i: nat, name: Bytes)
    requires At(b, i, name + [NUL]) && NUL !in name
    ensures FindNul(b, i) == Some(i + |name|)
  {
    var s := name + [NUL];
    forall k | i <= k <= i + |name| ensures b[k] == s[k - i] {
      assert b[i..i + |s|][k - i] == s[k - i];
    }
    forall k | i <= k < i + |name| ensures b[k] != NUL {
      assert b[k] == name[k - i];
    }
    FindNulIs(b, i, i + |name|);
  }

  lemma AlignShift(i: nat, n: nat)
    requires i % 4 == 0
    ensures Align(i + n) == i + Align(n)
  {
  }

  /** The strings block holds every property's name at the offset the property gives. */
  ghost predicate Resolved(item: Item, strings: Bytes) {
    match item
    case Filler => true
    case Property(name, nameoff, _) => At(strings, nameoff, name + [NUL])
    case Child(_, items) => forall it :: it in items ==> Resolved(it, strings)
  }

  ghost predicate AllResolved(items: seq<Item>, strings: Bytes) {
    forall it :: it in items ==> Resolved(it, strings)
  }

  // ----- What the items do to the table -----

  function Build(item: Item, path: seq<Bytes>, nodes: Table): (r: Table)
    ensures nodes.Keys <= r.Keys
    decreases item, 0
  {
    match item
    case Filler => nodes
    case Property(name, _, value) =>
      if PathKey(path) in nodes then nodes[PathKey(path) := nodes[PathKey(path)][name := value]] else nodes
    case Child(name, items) => BuildAll(items, path + [name], Enter(nodes, path + [name]))
  }

  function BuildAll(items: seq<Item>, path: seq<Bytes>, nodes: Table): (r: Table)
    ensures nodes.Keys <= r.Keys
    decreases items, 1
  {
    if items == [] then nodes else BuildAll(items[1..], path, Build(items[0], path, nodes))
  }

  lemma ParseProperty(b: Bytes, strings: Bytes, i: nat, path: seq<Bytes>, nodes: Table, item: Item)
    requires item.Property? && Encodable(item) && Resolved(item, strings)
    requires i % 4 == 0 && At(b, i, Encode(item)) && PathKey(path) in nodes
    ensures Parse(b, strings, i, path, nodes) == Parse(b, strings, i + |Encode(item)|, path, Build(item, path, nodes))
  {
    hide Word, FindNul, Align, EncodeWord, Pad;
    var v := item.value;
    AtSplit(b, i, EncodeWord(PROP), EncodeWord(|v|) + (EncodeWord(item.nameoff) + (v + Pad(|v|))));
    AtSplit(b, i + 4, EncodeWord(|v|), EncodeWord(item.nameoff) + (v + Pad(|v|)));
    AtSplit(b, i + 8, EncodeWord(item.nameoff), v + Pad(|v|));
    AtSplit(b, i + 12, v, Pad(|v|));
    WordAt(b, i, PROP);
    WordAt(b, i + 4, |v|);
    WordAt(b, i + 8, item.nameoff);
    NulAt(strings, item.nameoff, item.name);
    AtSplit(strings, item.nameoff, item.name, [NUL]);
    AlignShift(i + 12, |v|);
  }

  lemma StepBegin(b: Bytes, strings: Bytes, i: nat, path: seq<Bytes>, nodes: Table, end: nat)
    requires Word(b, i) == Some(BEGIN_NODE) && FindNul(b, i + 4) == Some(end)
    ensures end < |b| && i + 4 <= end
    ensures var path' := path + [b[i + 4..end]];
      Parse(b, strings, i, path, nodes) == Parse(b, strings, Align(end + 1), path', Enter(nodes, path'))
  {
  }

  /** A node's opening token enters its path; what follows is its items. */
  lemma ParseBegin(b: Bytes, strings: Bytes, i: nat, path: seq<Bytes>, nodes: Table, name: Bytes, rest: Bytes)
    requires NUL !in name && i % 4 == 0
    requires At(b, i, EncodeWord(BEGIN_NODE) + ((name + [NUL] + Pad(|name| + 1)) + rest))
    ensures var j := i + 4 + Align(|name| + 1);
      && At(b, j, rest)
      && Parse(b, strings, i, path, nodes) == Parse(b, strings, j, path + [name], Enter(nodes, path + [name]))
  {
    hide Parse, Word, FindNul, Align, EncodeWord, Pad;
    AtSplit(b, i, EncodeWord(BEGIN_NODE), (name + [NUL] + Pad(|name| + 1)) + rest);
    AtSplit(b, i + 4, name + [NUL] + Pad(|name| + 1), rest);
    AtSplit(b, i + 4, name + [NUL], Pad(|name| + 1));
    WordAt(b, i, BEGIN_NODE);
    NulAt(b, i + 4, name);
    AtSplit(b, i + 4, name, [NUL]);
    AlignShift(i + 4, |name| + 1);
    StepBegin(b, strings, i, path, nodes, i + 4 + |name|);
  }

  lemma ParseEnd(b: Bytes, strings: Bytes, i: nat, path: seq<Bytes>, nodes: Table, name: Bytes)
    requires At(b, i, EncodeWord(END_NODE))
    ensures Parse(b, strings, i, path + [name], nodes) == Parse(b, strings, i + 4, path, nodes)
  {
    WordAt(b, i, END_NODE);
    assert (path + [name])[..|path|] == path;
  }

  lemma ParseFiller(b: Bytes, strings: Bytes, i: nat, path: seq<Bytes>, nodes: Table)
    requires At(b, i, EncodeWord(NOP))
    ensures Parse(b, strings, i, path, nodes) == Parse(b, strings, i + 4, path, nodes)
  {
    WordAt(b, i, NOP);
  }

  /** A child stands in the blob as its opening, its items and its end. */
  lemma ChildParts(b: Bytes, i: nat, name: Bytes, items: seq<Item>)
    requires Encodable(Child(name, items)) && At(b, i, Encode(Child(name, items)))
    ensures NUL !in name && AllEncodable(items)
    ensures At(b, i, EncodeWord(BEGIN_NODE) + ((name + [NUL] + Pad(|name| + 1)) + (EncodeAll(items) + EncodeWord(END_NODE))))
    ensures |Encode(Child(name, items))| == 4 + Align(|name| + 1) + |EncodeAll(items)| + 4
  {
    hide Align, EncodeAll;
  }

  lemma {:induction false} ParseItem(b: Bytes, strings: Bytes, i: nat, path: seq<Bytes>, nodes: Table, item: Item)
    requires Encodable(item) && Resolved(item, strings)
    requires i % 4 == 0 && At(b, i, Encode(item)) && (item.Property? ==> PathKey(path) in nodes)
    ensures Parse(b, strings, i, path, nodes) == Parse(b, strings, i + |Encode(item)|, path, Build(item, path, nodes))
    decreases item, 2
  {
    match item {
      case Filler => hide Parse; ParseFiller(b, strings, i, path, nodes);
      case Property(_, _, _) => hide *; ParseProperty(b, strings, i, path, nodes, item);
      case Child(name, items) => ParseChild(b, strings, i, path, nodes, name, items);
    }
  }

  lemma {:induction false} ParseChild(b: Bytes, strings: Bytes, i: nat, path: seq<Bytes>, nodes: Table, name: Bytes, items: seq<Item>)
    requires Encodable(Child(name, items)) && Resolved(Child(name, items), strings)
    requires i % 4 == 0 && At(b, i, Encode(Child(name, items)))
    ensures var item := Child(name, items);
      Parse(b, strings, i, path, nodes) == Parse(b, strings, i + |Encode(item)|, path, Build(item, path, nodes))
    decreases Child(name, items), 1
  {
    hide Align, Pad, EncodeWord, EncodeAll, Parse, Encode, At, Encodable;
    ChildParts(b, i, name, items);
    ParseBegin(b, strings, i, path, nodes, name, EncodeAll(items) + EncodeWord(END_NODE));
    var j := i + 4 + Align(|name| + 1);
    EncodeAllAligned(items);
    AtSplit(b, j, EncodeAll(items), EncodeWord(END_NODE));
    ParseItems(b, strings, j, path + [name], Enter(nodes, path + [name]), items);
    ParseEnd(b, strings, j + |EncodeAll(items)|, path, Build(Child(name, items), path, nodes), name);
  }

  lemma {:induction false} ParseItems(b: Bytes, strings: Bytes, i: nat, path: seq<Bytes>, nodes: Table, items: seq<Item>)
    requires AllEncodable(items) && AllResolved(items, strings)
    requires i % 4 == 0 && At(b, i, EncodeAll(items))
    requires PathKey(path) in nodes || forall it :: it in items ==> !it.Property?
    ensures Parse(b, strings, i, path, nodes) == Parse(b, strings, i + |EncodeAll(items)|, path, BuildAll(items, path, nodes))
    decreases items, 1
  {
    hide Parse, Encode, Build;
    if items != [] {
      EncodeAligned(items[0]);
      AtSplit(b, i, Encode(items[0]), EncodeAll(items[1..]));
      ParseItem(b, strings, i, path, nodes, items[0]);
      ParseItems(b, strings, i + |Encode(items[0])|, path, Build(items[0], path, nodes), items[1..]);
    }
  }
}
