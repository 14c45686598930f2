/** Base-85 text of 32-bit words, as in a device coredump: five characters a word, most significant first,
    with a zero word written 'z' and white space anywhere. */
module Ascii85 {

  const WORD_LIMIT := 0x1_0000_0000
  const BASE := 33

  type Word = x: int | 0 <= x < WORD_LIMIT

  /** White space as Python's regular expressions have it, within ASCII: the separators 28 to 31 belong to it. */
  predicate Space(c: char) {
    c == ' ' || 9 <= c as int <= 13 || 28 <= c as int <= 31
  }

  function Strip(txt: string): string {
    if txt == [] then [] else if Space(txt[0]) then Strip(txt[1..]) else [txt[0]] + Strip(txt[1..])
  }

  /** The value of a group of characters, continuing from v. */
  function Horner(v: int, group: string): int
    decreases |group|
  {
    if group == [] then v else Horner(v * 85 + (group[0] as int - BASE), group[1..])
  }

  function Take(s: string, n: nat): string {
    if n <= |s| then s[..n] else s
  }

  function Drop(s: string, n: nat): string {
    if n <= |s| then s[n..] else []
  }

  /** The words of a text without white space. */
  function Words(txt: string): seq<Word>
    decreases |txt|
  {
    if txt == [] then []
    else if txt[0] == 'z' then [0] + Words(txt[1..])
    else [Horner(0, Take(txt, 5)) % WORD_LIMIT] + Words(Drop(txt, 5))
  }

  lemma {:induction false} HornerSteps(v: int, group: string, k: nat)
    requires k <= |group|
    ensures Horner(v, group) == Horner(Horner(v, group[..k]), group[k..])
    decreases k
  {
    if k == 0 {
      assert group[..0] == [] && group[0..] == group;
    } else {
      HornerSteps(v * 85 + (group[0] as int - BASE), group[1..], k - 1);
      assert group[1..][..k - 1] == group[..k][1..] && group[1..][k - 1..] == group[k..];
    }
  }

  /** Five characters are the five digits of a number in base 85, the first one the most significant and '!' for zero. */
  lemma FiveDigits(g: string)
    requires |g| == 5
    ensures Horner(0, g) ==
      (g[0] as int - 33) * 52200625 + (g[1] as int - 33) * 614125 + (g[2] as int - 33) * 7225
      + (g[3] as int - 33) * 85 + (g[4] as int - 33)
  {
    assert g[1..][1..] == g[2..] && g[2..][1..] == g[3..] && g[3..][1..] == g[4..] && g[4..][1..] == [];
    var d := i requires 0 <= i < 5 => g[i] as int - 33;
    HornerFirst(0, g);
    HornerFirst(d(0), g[1..]);
    HornerFirst(d(0) * 85 + d(1), g[2..]);
    HornerFirst((d(0) * 85 + d(1)) * 85 + d(2), g[3..]);
    HornerFirst(((d(0) * 85 + d(1)) * 85 + d(2)) * 85 + d(3), g[4..]);
    hide Horner;
  }

  lemma HornerFirst(v: int, group: string)
    requires group != []
    ensures Horner(v, group) == Horner(v * 85 + (group[0] as int - 33), group[1..])
    ensures Horner(v, []) == v
    ensures |group| == 1 ==> Horner(v, group) == v * 85 + (group[0] as int - 33)
  {
  }

  /** Stripping takes the white space out wherever it stands, and nothing else. */
  lemma {:induction false} StripsAnywhere(a: string, c: char, b: string)
    ensures Strip(a + [c] + b) == Strip(a) + (if c as int in {9, 10, 11, 12, 13, 28, 29, 30, 31, 32} then [] else [c]) + Strip(b)
    decreases |a|
  {
    if a == [] {
      assert a + [c] + b == [c] + b;
    } else {
      assert (a + [c] + b)[1..] == a[1..] + [c] + b;
      StripsAnywhere(a[1..], c, b);
    }
  }

  method Value(group: string) returns (v: int)
    ensures v == Horner(0, group)
  {
    v := 0;
    var k := 0;
    while k < |group|
      invariant 0 <= k <= |group| && v == Horner(0, group[..k])
    {
      HornerSteps(0, group[..k + 1], k);
      assert group[..k + 1][..k] == group[..k] && group[..k + 1][k..] == [group[k]];
      v := v * 85 + (group[k] as int - BASE);
      k := k + 1;
    }
    assert group[..k] == group;
  }

  /** The decoder of the tool, on any text. */
  method Decode(txt: string) returns (out: seq<Word>)
    ensures out == Words(Strip(txt))
  {
    var s := Strip(txt);
    out := [];
    var i := 0;
    while i < |s|
      invariant 0 <= i
      invariant Words(s) == out + Words(Drop(s, i))
      decreases |s| - i
    {
      assert Drop(s, i) == s[i..] && s[i..][0] == s[i] && s[i..][1..] == Drop(s, i + 1);
      if s[i] == 'z' {
        out := out + [0];
        i := i + 1;
      } else {
        var group := Take(s[i..], 5);
        assert Drop(s[i..], 5) == Drop(s, i + 5);
        var v := Value(group);
        out := out + [v % WORD_LIMIT];
        i := i + 5;
      }
    }
  }

  // ----- Encoding -----

  function Digit(d: nat): char
    requires d < 85
  {
    (d + BASE) as char
  }

  /** The five characters of a word, or 'z' for zero. */
  function Encode(w: Word): string
  {
    if w == 0 then "z"
    else
      var q1: nat := w / 85;
      var q2: nat := q1 / 85;
      var q3: nat := q2 / 85;
      var q4: nat := q3 / 85;
      [Digit(q4), Digit(q3 % 85), Digit(q2 % 85), Digit(q1 % 85), Digit(w % 85)]
  }

  function EncodeAll(words: seq<Word>): string
  {
    if words == [] then [] else Encode(words[0]) + EncodeAll(words[1..])
  }

  lemma DecodesOne(w: Word)
    requires w != 0
    ensures Horner(0, Encode(w)) == w && Encode(w)[0] != 'z'
  {
    var e := Encode(w);
    var q1: nat := w / 85;
    var q2: nat := q1 / 85;
    var q3: nat := q2 / 85;
    var q4: nat := q3 / 85;
    assert q4 < 85 && e[0] as int - BASE == q4;
    assert e[1..][1..] == e[2..] && e[2..][1..] == e[3..] && e[3..][1..] == e[4..] && e[4..][1..] == [];
    calc {
      Horner(0, e);
      Horner(q4, e[1..]);
      { assert q4 * 85 + q3 % 85 == q3; }
      Horner(q3, e[2..]);
      { assert q3 * 85 + q2 % 85 == q2; }
      Horner(q2, e[3..]);
      { assert q2 * 85 + q1 % 85 == q1; }
      Horner(q1, e[4..]);
      { assert q1 * 85 + w % 85 == w; }
      Horner(w, []);
    }
  }

  lemma {:induction false} WordsOfEncoding(words: seq<Word>)
    ensures Words(EncodeAll(words)) == words
  {
    hide Horner;
    if words != [] {
      var e, rest := Encode(words[0]), EncodeAll(words[1..]);
      WordsOfEncoding(words[1..]);
      if words[0] == 0 {
        assert (e + rest)[1..] == rest;
      } else {
        DecodesOne(words[0]);
        assert Take(e + rest, 5) == e && Drop(e + rest, 5) == rest;
      }
    }
  }

  /** Decoding inverts encoding for every sequence of words, whatever white space the text contains. */
  lemma RoundTrip(words: seq<Word>, txt: string)
    requires Strip(txt) == EncodeAll(words)
    ensures Words(Strip(txt)) == words
  {
    WordsOfEncoding(words);
  }
}
