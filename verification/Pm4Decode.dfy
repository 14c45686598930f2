/** Splitting a command stream into PM4 packets, and the register state it leaves. */
module Pm4Decode {

  type Word = x: int | 0 <= x < 0x1_0000_0000

  /** A packet as decoded; a type-1 packet carries its header whole. */
  datatype Packet =
    | Type0(reg: nat, one: bool, payload: seq<Word>)
    | Type1(header: Word, payload: seq<Word>)
    | Type2
    | Type3(op: nat, payload: seq<Word>)

  /** A packet and the position of its header in the stream. */
  datatype Placed = Placed(offset: nat, packet: Packet)

  // ----- Decoding -----

  // A header's upper half holds its type and count, the lower half what they apply to.

  function High(h: Word): nat {
    h / 0x1_0000
  }

  function Low(h: Word): nat {
    h % 0x1_0000
  }

  function Type(h: Word): nat {
    High(h) / 0x4000
  }

  function Count(h: Word): nat {
    High(h) % 0x4000 + 1
  }

  function Reg(h: Word): nat {
    Low(h) % 0x8000
  }

  function One(h: Word): bool {
    Low(h) / 0x8000 == 1
  }

  function Op(h: Word): nat {
    Low(h) / 0x100 % 0x80
  }

  /** words[i:i + n], which is cut off at the end. */
  function Slice(words: seq<Word>, i: nat, n: nat): seq<Word>
    requires i <= |words|
  {
    if i + n <= |words| then words[i..i + n] else words[i..]
  }

  /** How many words follow a header. */
  function Length(h: Word): nat {
    match Type(h)
    case 3 => Count(h)
    case 0 => Count(h)
    case 2 => 0
    case _ => 2
  }

  function DecodeOne(words: seq<Word>, i: nat): Packet
    requires i < |words|
  {
    var h := words[i];
    match Type(h)
    case 3 => Type3(Op(h), Slice(words, i + 1, Count(h)))
    case 0 => Type0(Reg(h), One(h), Slice(words, i + 1, Count(h)))
    case 2 => Type2
    case _ => Type1(h, Slice(words, i + 1, 2))
  }

  /** The packets from position i on. */
  function DecodeFrom(words: seq<Word>, i: nat): seq<Placed>
    decreases |words| - i
  {
    if i >= |words| then []
    else [Placed(i, DecodeOne(words, i))] + DecodeFrom(words, i + 1 + Length(words[i]))
  }

  lemma DecodeNext(words: seq<Word>, i: nat)
    ensures i < |words| ==>
      DecodeFrom(words, i) == [Placed(i, DecodeOne(words, i))] + DecodeFrom(words, i + 1 + Length(words[i]))
    ensures i >= |words| ==> DecodeFrom(words, i) == []
  {
  }

  method Packets(words: seq<Word>) returns (out: seq<Placed>)
    ensures out == DecodeFrom(words, 0)
  {
    hide High, Low, Slice, Count, Reg, One, Op, DecodeFrom;
    out := [];
    var i := 0;
    while i < |words|
      invariant DecodeFrom(words, 0) == out + DecodeFrom(words, i)
      decreases |words| - i
    {
      DecodeNext(words, i);
      var h := words[i];
      var t := Type(h);
      if t == 3 {
        var n := Count(h);
        out := out + [Placed(i, Type3(Op(h), Slice(words, i + 1, n)))];
        i := i + 1 + n;
      } else if t == 0 {
        var n := Count(h);
        out := out + [Placed(i, Type0(Reg(h), One(h), Slice(words, i + 1, n)))];
        i := i + 1 + n;
      } else if t == 2 {
        out := out + [Placed(i, Type2)];
        i := i + 1;
      } else {
        out := out + [Placed(i, Type1(h, Slice(words, i + 1, 2)))];
        i := i + 3;
      }
    }
    DecodeNext(words, i);
  }

  /** The n words from position i on, or those there are. */
  ghost predicate CutOff(payload: seq<Word>, words: seq<Word>, i: nat, n: nat) {
    && |payload| == (if i + n <= |words| then n else if i <= |words| then |words| - i else 0)
    && forall k :: 0 <= k < |payload| ==> i + k < |words| && payload[k] == words[i + k]
  }

  /** What a header says, by its bits: the top two tell the type, the next fourteen the number of words less one; of the
      lower half a type-0 header has the register in the low fifteen bits and the repeat flag in the sixteenth, a
      type-3 header the operation in bits 8 to 14. */
  lemma DecodedByBits(words: seq<Word>, i: nat)
    requires i < |words|
    ensures var h, p := words[i], DecodeOne(words, i);
      var n := h / 0x1_0000 % 0x4000 + 1;
      && (h < 0x4000_0000 ==>
        && p.Type0? && p.reg == h % 0x8000 && (p.one <==> h / 0x8000 % 2 == 1)
        && CutOff(p.payload, words, i + 1, n) && Length(h) == n)
      && (0x4000_0000 <= h < 0x8000_0000 ==> p.Type1? && p.header == h && CutOff(p.payload, words, i + 1, 2) && Length(h) == 2)
      && (0x8000_0000 <= h < 0xC000_0000 ==> p == Type2 && Length(h) == 0)
      && (0xC000_0000 <= h ==> p.Type3? && p.op == h / 0x100 % 0x80 && CutOff(p.payload, words, i + 1, n) && Length(h) == n)
  {
    HeaderBits(words[i]);
    hide Type, Count, Reg, One, Op;
  }

  lemma HeaderBits(h: Word)
    ensures Type(h) == (if h < 0x4000_0000 then 0 else if h < 0x8000_0000 then 1 else if h < 0xC000_0000 then 2 else 3)
    ensures Count(h) == h / 0x1_0000 % 0x4000 + 1
    ensures Reg(h) == h % 0x8000 && (One(h) <==> h / 0x8000 % 2 == 1)
    ensures Op(h) == h / 0x100 % 0x80
  {
    LowBits(h);
    hide Low;
  }

  lemma LowBits(h: Word)
    ensures Low(h) % 0x8000 == h % 0x8000 && Low(h) / 0x100 % 0x80 == h / 0x100 % 0x80
    ensures Low(h) / 0x8000 == h / 0x8000 % 2
  {
    LowFifteen(h);
    LowBytes(h);
  }

  lemma LowFifteen(h: Word)
    ensures Low(h) % 0x8000 == h % 0x8000 && Low(h) / 0x8000 == h / 0x8000 % 2
  {
    var t, u := h / 0x8000, h % 0x8000;
    assert h == 0x1_0000 * (t / 2) + (t % 2 * 0x8000 + u);
    assert Low(h) == t % 2 * 0x8000 + u;
  }

  lemma LowBytes(h: Word)
    ensures Low(h) / 0x100 % 0x80 == h / 0x100 % 0x80
  {
    var a, c, d := h / 0x1_0000, h % 0x1_0000 / 0x100, h % 0x1_0000 % 0x100;
    ThreeParts(a, c, d);
    assert h == 0x1_0000 * a + 0x100 * c + d;
    SevenBits(a, c);
  }

  lemma ThreeParts(a: nat, c: nat, d: nat)
    requires d < 0x100
    ensures (0x1_0000 * a + 0x100 * c + d) / 0x100 == 0x100 * a + c
  {
  }

  lemma SevenBits(a: nat, c: nat)
    ensures (0x100 * a + c) % 0x80 == c % 0x80
  {
    var e, f := c / 0x80, c % 0x80;
    assert 0x100 * a + c == 0x80 * (2 * a + e) + f;
  }

  // ----- Any stream is covered, packet after packet -----

  function Payload(p: Packet): seq<Word> {
    if p.Type2? then [] else p.payload
  }

  /** The packets tile the stream from i to its end: each starts where the one before it ended and holds
      the words after its header, all of them unless the stream ends first. */
  ghost predicate Tiles(out: seq<Placed>, words: seq<Word>, i: nat) {
    if out == [] then i >= |words|
    else
      && out[0].offset == i < |words|
      && Payload(out[0].packet) == Slice(words, i + 1, Length(words[i]))
      && Tiles(out[1..], words, i + 1 + Length(words[i]))
  }

  lemma {:induction false} DecodeTiles(words: seq<Word>, i: nat)
    ensures Tiles(DecodeFrom(words, i), words, i)
    decreases |words| - i
  {
    if i < |words| {
      DecodeTiles(words, i + 1 + Length(words[i]));
      assert DecodeFrom(words, i)[1..] == DecodeFrom(words, i + 1 + Length(words[i]));
    }
  }

  lemma TilesFirst(out: seq<Placed>, words: seq<Word>, i: nat)
    requires Tiles(out, words, i) && out != []
    ensures var next := i + 1 + Length(words[i]);
      && i == out[0].offset < |words| && Tiles(out[1..], words, next)
      && (next <= |words| ==> |Payload(out[0].packet)| == next - i - 1)
      && (next > |words| ==> |Payload(out[0].packet)| == |words| - i - 1)
      && (|out| > 1 ==> out[1].offset == next < |words|)
      && (|out| == 1 ==> next >= |words|)
  {
    if |out| > 1 {
      assert out[1..][0] == out[1];
    }
  }

  /** Offsets strictly increase, and all but the last packet are whole. */
  lemma {:induction false} OffsetsIncrease(out: seq<Placed>, words: seq<Word>, i: nat, k: nat)
    requires Tiles(out, words, i) && k < |out|
    ensures i <= out[k].offset < |words|
    ensures k + 1 < |out| ==> out[k + 1].offset == out[k].offset + 1 + |Payload(out[k].packet)|
    ensures k + 1 == |out| ==> out[k].offset + 1 + |Payload(out[k].packet)| == |words|
    decreases k
  {
    hide *;
    TilesFirst(out, words, i);
    if k > 0 {
      OffsetsIncrease(out[1..], words, i + 1 + Length(words[i]), k - 1);
      assert out[1..][k - 1] == out[k] && (k + 1 < |out| ==> out[1..][k] == out[k + 1]);
    }
  }

  // ----- Encoding -----

  ghost predicate WellFormed(p: Packet) {
    match p
    case Type0(reg, _, payload) => reg < 0x8000 && 1 <= |payload| <= 0x4000
    case Type1(header, payload) => Type(header) == 1 && |payload| == 2
    case Type2 => true
    case Type3(op, payload) => op < 0x80 && 1 <= |payload| <= 0x4000
  }

  /** The header of a packet; `spare` fills the bits its type leaves unused. */
  function Header(p: Packet, spare: nat): Word
    requires WellFormed(p)
  {
    match p
    case Type0(reg, one, payload) => Join(|payload| - 1, (if one then 0x8000 else 0) + reg)
    case Type1(header, _) => header
    case Type2 => Join(2 * 0x4000 + spare / 0x1_0000 % 0x4000, spare % 0x1_0000)
    case Type3(op, payload) => Join(3 * 0x4000 + |payload| - 1, spare / 0x100 % 2 * 0x8000 + op * 0x100 + spare % 0x100)
  }

  function Join(high: nat, low: nat): (h: Word)
    requires high < 0x1_0000 && low < 0x1_0000
    ensures High(h) == high && Low(h) == low
  {
    high * 0x1_0000 + low
  }

  ghost predicate AllWellFormed(ps: seq<Packet>) {
    forall i :: 0 <= i < |ps| ==> WellFormed(ps[i])
  }

  function Encode(ps: seq<Packet>, spare: seq<nat>): seq<Word>
    requires AllWellFormed(ps) && |spare| == |ps|
  {
    if ps == [] then [] else [Header(ps[0], spare[0])] + Payload(ps[0]) + Encode(ps[1..], spare[1..])
  }

  /** The packets with the positions their encoding gives them. */
  function Place(ps: seq<Packet>, i: nat): seq<Placed> {
    if ps == [] then [] else [Placed(i, ps[0])] + Place(ps[1..], i + 1 + |Payload(ps[0])|)
  }

  lemma HeaderFields(p: Packet, spare: nat)
    requires WellFormed(p)
    ensures var h := Header(p, spare);
      && Length(h) == |Payload(p)|
      && (p.Type0? ==> Type(h) == 0 && Reg(h) == p.reg && One(h) == p.one)
      && (p.Type1? ==> Type(h) == 1 && h == p.header)
      && (p.Type2? ==> Type(h) == 2)
      && (p.Type3? ==> Type(h) == 3 && Op(h) == p.op)
  {
    hide Join, High, Low;
  }

  lemma DecodesHead(words: seq<Word>, i: nat, p: Packet, spare: nat)
    requires WellFormed(p) && i + 1 + |Payload(p)| <= |words|
    requires words[i] == Header(p, spare) && words[i + 1..i + 1 + |Payload(p)|] == Payload(p)
    ensures DecodeOne(words, i) == p && Length(words[i]) == |Payload(p)|
  {
    HeaderFields(p, spare);
    hide Header, High, Low, Count, Reg, One, Op;
  }

  lemma Parts(words: seq<Word>, i: nat, h: Word, payload: seq<Word>, rest: seq<Word>)
    requires i <= |words| && words[i..] == [h] + payload + rest
    ensures i + 1 + |payload| <= |words| && words[i] == h
    ensures words[i + 1..i + 1 + |payload|] == payload && words[i + 1 + |payload|..] == rest
  {
    var s := words[i..];
    assert s[0] == h && s[1..1 + |payload|] == payload && s[1 + |payload|..] == rest;
  }

  /** The first packet is read back, and what follows it stands right behind it. */
  lemma DecodesFirst(words: seq<Word>, i: nat, p: Packet, spare: nat, rest: seq<Word>)
    requires WellFormed(p) && i <= |words| && words[i..] == [Header(p, spare)] + Payload(p) + rest
    ensures var next := i + 1 + |Payload(p)|;
      next <= |words| && words[next..] == rest && DecodeFrom(words, i) == [Placed(i, p)] + DecodeFrom(words, next)
  {
    hide Header, DecodeOne, Length, WellFormed, Payload, DecodeFrom;
    Parts(words, i, Header(p, spare), Payload(p), rest);
    DecodesHead(words, i, p, spare);
    DecodeNext(words, i);
  }

  lemma EncodesNone(words: seq<Word>, i: nat, ps: seq<Packet>, spare: seq<nat>)
    requires ps == [] && |spare| == 0 && i <= |words| && words[i..] == Encode(ps, spare)
    ensures DecodeFrom(words, i) == Place(ps, i)
  {
  }

  lemma EncodesFirst(ps: seq<Packet>, spare: seq<nat>, i: nat)
    requires AllWellFormed(ps) && |spare| == |ps| && ps != []
    ensures WellFormed(ps[0]) && AllWellFormed(ps[1..])
    ensures Encode(ps, spare) == [Header(ps[0], spare[0])] + Payload(ps[0]) + Encode(ps[1..], spare[1..])
    ensures Place(ps, i) == [Placed(i, ps[0])] + Place(ps[1..], i + 1 + |Payload(ps[0])|)
  {
  }

  lemma {:induction false} DecodesEncoding(words: seq<Word>, i: nat, ps: seq<Packet>, spare: seq<nat>)
    requires AllWellFormed(ps) && |spare| == |ps|
    requires i <= |words| && words[i..] == Encode(ps, spare)
    ensures DecodeFrom(words, i) == Place(ps, i)
    decreases |ps|
  {
    hide *;
    if ps == [] {
      EncodesNone(words, i, ps, spare);
    } else {
      EncodesFirst(ps, spare, i);
      DecodesFirst(words, i, ps[0], spare[0], Encode(ps[1..], spare[1..]));
      DecodesEncoding(words, i + 1 + |Payload(ps[0])|, ps[1..], spare[1..]);
    }
  }

  /** Decoding inverts encoding for every list of well-formed packets, whatever the unused header bits hold. */
  lemma RoundTrip(ps: seq<Packet>, spare: seq<nat>)
    requires AllWellFormed(ps) && |spare| == |ps|
    ensures DecodeFrom(Encode(ps, spare), 0) == Place(ps, 0)
  {
    assert Encode(ps, spare)[0..] == Encode(ps, spare);
    DecodesEncoding(Encode(ps, spare), 0, ps, spare);
  }

  // ----- Register state -----

  datatype Write = Write(reg: nat, value: Word)

  /** The register writes of a packet, in order. */
  function WritesOf(p: Packet): seq<Write> {
    if p.Type0? then seq(|p.payload|, k requires 0 <= k < |p.payload| => Write(if p.one then p.reg else p.reg + k, p.payload[k]))
    else []
  }

  function AllWrites(out: seq<Placed>): seq<Write> {
    if out == [] then [] else AllWrites(out[..|out| - 1]) + WritesOf(out[|out| - 1].packet)
  }

  /** What a register holds after some writes: the value of the last write to it. */
  ghost predicate LastWritten(state: map<nat, Word>, ws: seq<Write>) {
    && (forall k :: 0 <= k < |ws| ==> ws[k].reg in state)
    && (forall r :: r in state ==> exists k :: 0 <= k < |ws| && ws[k] == Write(r, state[r]) && forall j :: k < j < |ws| ==> ws[j].reg != r)
  }

  lemma LastWrittenNext(state: map<nat, Word>, ws: seq<Write>, w: Write)
    requires LastWritten(state, ws)
    ensures LastWritten(state[w.reg := w.value], ws + [w])
  {
    var state', ws' := state[w.reg := w.value], ws + [w];
    forall r | r in state' ensures exists k :: 0 <= k < |ws'| && ws'[k] == Write(r, state'[r]) && forall j :: k < j < |ws'| ==> ws'[j].reg != r {
      if r == w.reg {
        assert ws'[|ws|] == Write(r, state'[r]);
      } else {
        var k :| 0 <= k < |ws| && ws[k] == Write(r, state[r]) && forall j :: k < j < |ws| ==> ws[j].reg != r;
        assert ws'[k] == ws[k];
      }
    }
  }

  /** After a type-0 packet a repeated register holds the packet's last word; otherwise as many registers, from the
      packet's on, hold a word each. Every other register has its value from before. */
  lemma RegistersAfter(state: map<nat, Word>, ws: seq<Write>, p: Packet)
    requires p.Type0? && p.payload != [] && LastWritten(state, ws + WritesOf(p))
    ensures p.one ==> p.reg in state && state[p.reg] == p.payload[|p.payload| - 1]
    ensures !p.one ==> forall r :: p.reg <= r < p.reg + |p.payload| ==> r in state && state[r] == p.payload[r - p.reg]
    ensures forall r :: r in state && (r < p.reg || r >= p.reg + if p.one then 1 else |p.payload|) ==>
      exists k :: 0 <= k < |ws| && ws[k] == Write(r, state[r]) && forall j :: k < j < |ws| ==> ws[j].reg != r
  {
    if p.one {
      RegisterAfter(state, ws, p, |p.payload| - 1);
    } else {
      forall r | p.reg <= r < p.reg + |p.payload| ensures r in state && state[r] == p.payload[r - p.reg] {
        RegisterAfter(state, ws, p, r - p.reg);
      }
    }
    forall r | r in state && (r < p.reg || r >= p.reg + if p.one then 1 else |p.payload|)
      ensures exists k :: 0 <= k < |ws| && ws[k] == Write(r, state[r]) && forall j :: k < j < |ws| ==> ws[j].reg != r
    {
      OtherRegister(state, ws, p, r);
    }
  }

  lemma RegisterAfter(state: map<nat, Word>, ws: seq<Write>, p: Packet, k: nat)
    requires p.Type0? && LastWritten(state, ws + WritesOf(p)) && k < |p.payload| && (p.one ==> k == |p.payload| - 1)
    ensures var r := if p.one then p.reg else p.reg + k; r in state && state[r] == p.payload[k]
  {
    var all := ws + WritesOf(p);
    assert all[|ws| + k] == WritesOf(p)[k];
    assert forall j :: |ws| <= j < |all| ==> all[j] == WritesOf(p)[j - |ws|];
    hide LastWritten;
    LastOf(state, all, |ws| + k);
  }

  lemma OtherRegister(state: map<nat, Word>, ws: seq<Write>, p: Packet, r: nat)
    requires p.Type0? && LastWritten(state, ws + WritesOf(p))
    requires r in state && (r < p.reg || r >= p.reg + if p.one then 1 else |p.payload|)
    ensures exists k :: 0 <= k < |ws| && ws[k] == Write(r, state[r]) && forall j :: k < j < |ws| ==> ws[j].reg != r
  {
    var all := ws + WritesOf(p);
    var k :| 0 <= k < |all| && all[k] == Write(r, state[r]) && forall j :: k < j < |all| ==> all[j].reg != r;
    assert forall j :: |ws| <= j < |all| ==> all[j] == WritesOf(p)[j - |ws|];
    assert forall j :: 0 <= j < |ws| ==> all[j] == ws[j];
  }

  lemma LastOf(state: map<nat, Word>, ws: seq<Write>, k: nat)
    requires LastWritten(state, ws) && k < |ws| && forall j :: k < j < |ws| ==> ws[j].reg != ws[k].reg
    ensures ws[k].reg in state && state[ws[k].reg] == ws[k].value
  {
  }

  /** Apply one type-0 packet. */
  method WriteRegisters(before: map<nat, Word>, p: Packet, ghost ws: seq<Write>) returns (state: map<nat, Word>)
    requires p.Type0? && LastWritten(before, ws)
    ensures LastWritten(state, ws + WritesOf(p))
  {
    hide LastWritten;
    state := before;
    ghost var more := WritesOf(p);
    assert ws + more[..0] == ws;
    for k := 0 to |p.payload|
      invariant LastWritten(state, ws + more[..k])
    {
      LastWrittenNext(state, ws + more[..k], more[k]);
      assert ws + more[..k] + [more[k]] == ws + more[..k + 1];
      var reg := if p.one then p.reg else p.reg + k;
      state := state[reg := p.payload[k]];
    }
    assert more[..|more|] == more;
  }

  /** The state after the register writes of a run of packets: every register holds the last value written to it. */
  method RegisterState(out: seq<Placed>) returns (state: map<nat, Word>)
    ensures LastWritten(state, AllWrites(out))
  {
    state := map[];
    assert out[..0] == [];
    for n := 0 to |out|
      invariant LastWritten(state, AllWrites(out[..n]))
    {
      hide LastWritten;
      var p := out[n].packet;
      assert out[..n + 1][..n] == out[..n];
      if p.Type0? {
        state := WriteRegisters(state, p, AllWrites(out[..n]));
      } else {
        assert AllWrites(out[..n]) + [] == AllWrites(out[..n]);
      }
    }
    assert out[..|out|] == out;
  }
}
