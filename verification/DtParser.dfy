/** Reading a flattened device tree: from the token stream to a table of property maps by full path. */
module DtParser {
  import opened Options

  type Byte = x: int | 0 <= x < 256
  type Bytes = seq<Byte>
  type Props = map<Bytes, Bytes>
  type Table = map<Bytes, Props>

  const SLASH: Byte := 47
  const NUL: Byte := 0
  const MAGIC: Bytes := [0xd0, 0x0d, 0xfe, 0xed]
  const BEGIN_NODE := 1
  const END_NODE := 2
  const PROP := 3
  const NOP := 4
  const END := 9

  // ----- Words, strings, paths -----

  /** A big-endian 32-bit word; None stands for the exception on a short read. */
  function Word(b: Bytes, i: nat): (r: Option<nat>)
    ensures r.Some? <==> i + 4 <= |b|
  {
    if i + 4 <= |b| then Some(b[i] as int * 0x100_0000 + b[i + 1] as int * 0x1_0000 + b[i + 2] as int * 0x100 + b[i + 3] as int) else None
  }

  /** The most significant byte comes first. */
  lemma WordIsBigEndian(b: Bytes, i: nat)
    requires i + 4 <= |b|
    ensures Word(b, i) == Some(256 * (256 * (256 * b[i] as int + b[i + 1]) + b[i + 2]) + b[i + 3])
  {
  }

  /** Where the next NUL is, from i on; None stands for the exception if there is none. */
  function FindNul(b: Bytes, i: nat): (r: Option<nat>)
    ensures r.Some? ==> i <= r.value < |b| && b[r.value] == NUL && NUL !in b[i..r.value]
    ensures r.None? && i <= |b| ==> NUL !in b[i..]
    decreases |b| - i
  {
    if i >= |b| then None
    else if b[i] == NUL then Some(i)
    else
      var r := FindNul(b, i + 1);
      assert b[i..] == [b[i]] + b[i + 1..];
      assert r.Some? ==> b[i..r.value] == [b[i]] + b[i + 1..r.value];
      r
  }

  /** Round up to the next multiple of four. */
  function Align(n: nat): (r: nat)
    ensures n <= r < n + 4 && r % 4 == 0
  {
    (n + 3) / 4 * 4
  }

  function Join(path: seq<Bytes>): Bytes {
    if path == [] then [] else if |path| == 1 then path[0] else path[0] + [SLASH] + Join(path[1..])
  }

  function PathKey(path: seq<Bytes>): Bytes {
    if Join(path) == [] then [SLASH] else Join(path)
  }

  /** b[i:i + n], which is cut off at the end of b. */
  function Slice(b: Bytes, i: nat, n: nat): Bytes
    requires i <= |b|
  {
    if i + n <= |b| then b[i..i + n] else b[i..]
  }

  // ----- The parser -----

  function Enter(nodes: Table, path: seq<Bytes>): Table {
    if PathKey(path) in nodes then nodes else nodes[PathKey(path) := map[]]
  }

  /** The result of the token loop from position i; None stands for any exception. */
  function Parse(b: Bytes, strings: Bytes, i: nat, path: seq<Bytes>, nodes: Table): Option<Table>
    decreases |b| - i
  {
    var tok := Word(b, i);
    if tok.None? then None
    else if tok.value == BEGIN_NODE then
      var end := FindNul(b, i + 4);
      if end.None? then None
      else
        var path' := path + [b[i + 4..end.value]];
        Parse(b, strings, Align(end.value + 1), path', Enter(nodes, path'))
    else if tok.value == END_NODE then
      if path == [] then None else Parse(b, strings, i + 4, path[..|path| - 1], nodes)
    else if tok.value == PROP then
      var ln, nameoff := Word(b, i + 4), Word(b, i + 8);
      if ln.None? || nameoff.None? then None
      else
        var end := FindNul(strings, nameoff.value);
        if end.None? || PathKey(path) !in nodes then None
        else
          var name, value := strings[nameoff.value..end.value], Slice(b, i + 12, ln.value);
          Parse(b, strings, Align(i + 12 + ln.value), path, nodes[PathKey(path) := nodes[PathKey(path)][name := value]])
    else if tok.value == END then Some(nodes)
    else Parse(b, strings, i + 4, path, nodes)
  }

  /** The table in a blob, by its header. */
  function LoadSpec(b: Bytes): Option<Table> {
    var offStruct, offStrings, szStrings := Word(b, 8), Word(b, 12), Word(b, 32);
    if offStruct.None? || offStrings.None? || szStrings.None? then None
    else
      var strings := if offStrings.value <= |b| then Slice(b, offStrings.value, szStrings.value) else [];
      Parse(b, strings, offStruct.value, [], map[])
  }

  // ----- Files -----

  predicate MagicAt(b: Bytes, j: int) {
    0 <= j && j + 4 <= |b| && b[j..j + 4] == MAGIC
  }

  /** Where the last magic number that starts before k is; -1 if there is none. */
  function LastMagic(b: Bytes, k: nat): (i: int)
    requires k <= |b|
    ensures -1 <= i < k
    ensures i >= 0 ==> MagicAt(b, i)
    ensures forall j :: i < j < k ==> !MagicAt(b, j)
  {
    if k == 0 then -1
    else if MagicAt(b, k - 1) then k - 1
    else LastMagic(b, k - 1)
  }

  /** b[-1:n - 1], the last byte if that is below n - 1, which is what a search that found nothing leads to. */
  function LastByte(b: Bytes, n: nat): Bytes
    requires b != []
  {
    if n > |b| then b[|b| - 1..] else []
  }

  /** The blob in a file: all of it, or, if it does not start with the magic number, the one it ends with. None
      stands for the exception when the size cannot be read. */
  function Located(b: Bytes): Option<Bytes> {
    if MagicAt(b, 0) then Some(b)
    else
      var i := LastMagic(b, |b|);
      var size := Word(b, i + 4);
      if size.None? then None
      else if i < 0 then Some(LastByte(b, size.value))
      else Some(Slice(b, i, size.value))
  }

  function ReadFile(b: Bytes): Option<Table> {
    var blob := Located(b);
    if blob.None? then None else LoadSpec(blob.value)
  }

  /** A file without a magic number is no device tree: the tool ends with an exception. */
  lemma NoMagicNoTable(b: Bytes)
    requires forall j :: !MagicAt(b, j)
    ensures ReadFile(b) == None
  {
  }

  /** The tool's loader, on any file. */
  method Load(file: Bytes) returns (r: Option<Table>)
    ensures r == ReadFile(file)
  {
    hide Word, FindNul, PathKey, Slice, Parse;
    var b := file;
    if !MagicAt(b, 0) {
      var i := LastMagic(b, |b|);
      var size := Word(b, i + 4);
      if size.None? { return None; }
      b := if i < 0 then LastByte(b, size.value) else Slice(b, i, size.value);
    }
    r := LoadBlob(b);
  }

  /** The token loop. */
  method LoadBlob(b: Bytes) returns (r: Option<Table>)
    ensures r == LoadSpec(b)
  {
    hide Word, FindNul, PathKey, Slice;
    var offStruct, offStrings, szStrings := Word(b, 8), Word(b, 12), Word(b, 32);
    if offStruct.None? || offStrings.None? || szStrings.None? {
      return None;
    }
    var strings := if offStrings.value <= |b| then Slice(b, offStrings.value, szStrings.value) else [];
    var nodes: Table, path: seq<Bytes>, i := map[], [], offStruct.value;
    while true
      invariant LoadSpec(b) == Parse(b, strings, i, path, nodes)
      decreases |b| - i
    {
      var tok := Word(b, i);
      if tok.None? { return None; }
      i := i + 4;
      if tok.value == BEGIN_NODE {
        var end := FindNul(b, i);
        if end.None? { return None; }
        path := path + [b[i..end.value]];
        i := (end.value + 4) / 4 * 4;
        if PathKey(path) !in nodes {
          nodes := nodes[PathKey(path) := map[]];
        }
      } else if tok.value == END_NODE {
        if path == [] { return None; }
        path := path[..|path| - 1];
      } else if tok.value == PROP {
        var ln, nameoff := Word(b, i), Word(b, i + 4);
        if ln.None? || nameoff.None? { return None; }
        i := i + 8;
        var end := FindNul(strings, nameoff.value);
        if end.None? { return None; }
        var name := strings[nameoff.value..end.value];
        if PathKey(path) !in nodes { return None; }
        nodes := nodes[PathKey(path) := nodes[PathKey(path)][name := Slice(b, i, ln.value)]];
        i := (i + ln.value + 3) / 4 * 4;
      } else if tok.value == END {
        return Some(nodes);
      }
    }
  }
}
