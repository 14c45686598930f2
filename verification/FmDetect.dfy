/** Outlier detection: a frame against the median of the fifteen around it. */
module FmDetect {

  const WIN := 15
  const HALF := 7
  const T_FLIP := 6000
  const T_JUMP := 20000

  type Sample = x: int | -32768 <= x <= 32767

  datatype Frame = Frame(left: Sample, right: Sample) {
    function Channel(ch: nat): Sample {
      if ch == 0 then left else right
    }
  }

  function Abs(x: int): nat {
    if x < 0 then -x else x
  }

  /** The sample with its bit 15 inverted, as a 16-bit two's complement value. */
  function Flip(x: Sample): Sample {
    if x < 0 then x + 32768 else x - 32768
  }

  // ----- The median -----

  function Insert(x: int, w: seq<int>): (r: seq<int>)
    ensures |r| == |w| + 1
  {
    if w == [] || x <= w[0] then [x] + w else [w[0]] + Insert(x, w[1..])
  }

  function Sort(w: seq<int>): (r: seq<int>)
    ensures |r| == |w|
  {
    if w == [] then [] else Insert(w[0], Sort(w[1..]))
  }

  predicate Sorted(w: seq<int>) {
    forall i, j :: 0 <= i < j < |w| ==> w[i] <= w[j]
  }

  lemma {:induction false} InsertPermutes(x: int, w: seq<int>)
    ensures multiset(Insert(x, w)) == multiset(w) + multiset{x}
  {
    if w == [] || x <= w[0] {
    } else {
      InsertPermutes(x, w[1..]);
      assert w == [w[0]] + w[1..];
    }
  }

  lemma {:induction false} InsertAbove(x: int, w: seq<int>, lo: int)
    requires lo <= x && forall i :: 0 <= i < |w| ==> lo <= w[i]
    ensures forall i :: 0 <= i < |Insert(x, w)| ==> lo <= Insert(x, w)[i]
  {
    if w == [] || x <= w[0] {
    } else {
      InsertAbove(x, w[1..], lo);
    }
  }

  lemma {:induction false} InsertSorts(x: int, w: seq<int>)
    requires Sorted(w)
    ensures Sorted(Insert(x, w))
  {
    if w == [] || x <= w[0] {
    } else {
      InsertSorts(x, w[1..]);
      var r := Insert(x, w[1..]);
      InsertAbove(x, w[1..], w[0]);
      hide Insert;
    }
  }

  /** Sort meets the contract of the C library's qsort. */
  lemma {:induction false} SortOk(w: seq<int>)
    ensures Sorted(Sort(w)) && multiset(Sort(w)) == multiset(w)
  {
    if w != [] {
      SortOk(w[1..]);
      InsertSorts(w[0], Sort(w[1..]));
      InsertPermutes(w[0], Sort(w[1..]));
      assert w == [w[0]] + w[1..];
    }
  }

  /** How many values lie below (above) a bound. */
  ghost function Below(w: seq<int>, lo: int): nat {
    if w == [] then 0 else (if w[0] < lo then 1 else 0) + Below(w[1..], lo)
  }

  ghost function Above(w: seq<int>, hi: int): nat {
    if w == [] then 0 else (if w[0] > hi then 1 else 0) + Above(w[1..], hi)
  }

  lemma {:induction false} InsertCounts(x: int, w: seq<int>, b: int)
    ensures Below(Insert(x, w), b) == Below([x] + w, b)
    ensures Above(Insert(x, w), b) == Above([x] + w, b)
  {
    assert ([x] + w)[1..] == w;
    if w == [] || x <= w[0] {
    } else {
      InsertCounts(x, w[1..], b);
      assert ([x] + w[1..])[1..] == w[1..];
      assert ([w[0]] + Insert(x, w[1..]))[1..] == Insert(x, w[1..]);
    }
  }

  lemma {:induction false} SortCounts(w: seq<int>, b: int)
    ensures Below(Sort(w), b) == Below(w, b) && Above(Sort(w), b) == Above(w, b)
  {
    if w != [] {
      SortCounts(w[1..], b);
      InsertCounts(w[0], Sort(w[1..]), b);
      assert ([w[0]] + Sort(w[1..]))[1..] == Sort(w[1..]);
    }
  }

  lemma {:induction false} SortedBelow(w: seq<int>, k: nat, lo: int)
    requires Sorted(w) && k < |w| && w[k] < lo
    ensures Below(w, lo) >= k + 1
  {
    if k > 0 {
      SortedBelow(w[1..], k - 1, lo);
    }
  }

  lemma {:induction false} SortedAbove(w: seq<int>, k: nat, hi: int)
    requires Sorted(w) && k < |w| && w[k] > hi
    ensures Above(w, hi) >= |w| - k
  {
    if k > 0 {
      SortedAbove(w[1..], k - 1, hi);
    } else if |w| > 1 {
      SortedAbove(w[1..], 0, hi);
    }
  }

  lemma {:induction false} NoneBelow(w: seq<int>, lo: int)
    requires forall i :: 0 <= i < |w| ==> w[i] >= lo
    ensures Below(w, lo) == 0
  {
    if w != [] {
      NoneBelow(w[1..], lo);
    }
  }

  lemma {:induction false} NoneAbove(w: seq<int>, hi: int)
    requires forall i :: 0 <= i < |w| ==> w[i] <= hi
    ensures Above(w, hi) == 0
  {
    if w != [] {
      NoneAbove(w[1..], hi);
    }
  }

  lemma {:induction false} SortedNotBelow(w: seq<int>, k: nat, lo: int)
    requires Sorted(w) && k < |w| && w[k] >= lo
    ensures Below(w, lo) <= k
  {
    if k == 0 {
      NoneBelow(w, lo);
    } else {
      SortedNotBelow(w[1..], k - 1, lo);
    }
  }

  lemma {:induction false} AboveAtMost(w: seq<int>, hi: int)
    ensures Above(w, hi) <= |w|
  {
    if w != [] {
      AboveAtMost(w[1..], hi);
    }
  }

  lemma {:induction false} SortedNotAbove(w: seq<int>, k: nat, hi: int)
    requires Sorted(w) && k < |w| && w[k] <= hi
    ensures Above(w, hi) < |w| - k
  {
    AboveAtMost(w[1..], hi);
    if k > 0 {
      SortedNotAbove(w[1..], k - 1, hi);
    }
  }

  function Median(w: seq<int>): int
    requires |w| == WIN
  {
    Sort(w)[HALF]
  }

  /** The median is above at most seven values' worth of low outliers and below as many high ones:
      if no more than seven values lie on either side of a band, it is in the band. */
  lemma MedianInBand(w: seq<int>, lo: int, hi: int)
    requires |w| == WIN && Below(w, lo) <= HALF && Above(w, hi) <= HALF
    ensures lo <= Median(w) <= hi
  {
    SortOk(w);
    SortCounts(w, lo);
    SortCounts(w, hi);
    if Median(w) < lo { SortedBelow(Sort(w), HALF, lo); }
    if Median(w) > hi { SortedAbove(Sort(w), HALF, hi); }
  }

  /** The median is at least a bound exactly when no more than seven values are below it, and likewise above. */
  lemma MedianBounds(w: seq<int>, v: int)
    requires |w| == WIN
    ensures Median(w) >= v <==> Below(w, v) <= HALF
    ensures Median(w) <= v <==> Above(w, v) <= HALF
  {
    SortOk(w);
    SortCounts(w, v);
    if Median(w) < v { SortedBelow(Sort(w), HALF, v); } else { SortedNotBelow(Sort(w), HALF, v); }
    if Median(w) > v { SortedAbove(Sort(w), HALF, v); } else { SortedNotAbove(Sort(w), HALF, v); }
  }

  // ----- Classification -----

  function Window(s: seq<Frame>, n: int, ch: nat): (w: seq<int>)
    requires HALF <= n < |s| - HALF
    ensures |w| == WIN
  {
    seq(WIN, k requires 0 <= k < WIN => s[n - HALF + k].Channel(ch))
  }

  /** The median of a frame's window: of the fifteen samples from seven before it to seven after it, the one with at most
      seven below it and at most seven above it. */
  lemma MedianIs(s: seq<Frame>, n: int, ch: nat, v: int)
    requires HALF <= n < |s| - HALF
    ensures var w := seq(15, k requires 0 <= k < 15 => s[n - 7 + k].Channel(ch));
      Median(Window(s, n, ch)) == v <==> Below(w, v) <= 7 && Above(w, v) <= 7
  {
    var w := seq(15, k requires 0 <= k < 15 => s[n - 7 + k].Channel(ch));
    assert Window(s, n, ch) == w;
    MedianBounds(w, v);
  }

  /** The tests made on one channel, given the sample, its neighbours and its window's median. */
  predicate Suspect(prev: Sample, x: Sample, next: Sample, base: int) {
    var dev := Abs(x - base);
    || dev > T_JUMP
    || (dev > T_FLIP && Abs(Flip(x) - base) * 3 < dev)
    || Abs(2 * x - prev - next) > 2 * T_JUMP
  }

  predicate ChannelOutlier(s: seq<Frame>, n: int, ch: nat)
    requires HALF < n < |s| - HALF
  {
    Suspect(s[n - 1].Channel(ch), s[n].Channel(ch), s[n + 1].Channel(ch), Median(Window(s, n, ch)))
  }

  predicate Outlier(s: seq<Frame>, n: int)
    requires HALF < n < |s| - HALF
  {
    ChannelOutlier(s, n, 0) || ChannelOutlier(s, n, 1)
  }

  /** Flipping is inverting bit 15 of the 16: of all samples, the one that differs by 2^15 modulo 2^16. */
  lemma FlipIsBit15(x: Sample, y: Sample)
    ensures y == Flip(x) <==> (y - x) % 0x1_0000 == 0x8000
  {
  }

  /** The verdict in numbers, from a sample, its neighbours and its window's median: it is more than 20000 from the
      median; or more than 6000, and with bit 15 inverted less than a third as far; or more than 20000 from the middle
      between its neighbours. */
  lemma VerdictInNumbers(s: seq<Frame>, n: int, ch: nat, flipped: Sample)
    requires HALF < n < |s| - HALF && ch < 2 && (flipped - s[n].Channel(ch)) % 0x1_0000 == 0x8000
    ensures var x, base := s[n].Channel(ch), Median(Window(s, n, ch));
      var between := s[n - 1].Channel(ch) + s[n + 1].Channel(ch);
      ChannelOutlier(s, n, ch) <==>
        || x - base > 20000 || base - x > 20000
        || (x - base > 6000 && -(x - base) < 3 * (flipped - base) < x - base)
        || (base - x > 6000 && -(base - x) < 3 * (flipped - base) < base - x)
        || 2 * x > between + 40000 || 2 * x < between - 40000
  {
    FlipIsBit15(s[n].Channel(ch), flipped);
    hide Median;
  }

  /** A frame is an outlier if either of its channels is. */
  lemma EitherChannel(s: seq<Frame>, n: int)
    requires HALF < n < |s| - HALF
    ensures Outlier(s, n) <==> exists ch: nat :: ch < 2 && ChannelOutlier(s, n, ch)
  {
    hide ChannelOutlier;
  }

  // ----- What the tests detect -----

  /** What arrived is what was sent, except that some samples had bit 15 inverted. */
  ghost predicate Corrupted(got: seq<int>, sent: seq<Sample>, flipped: seq<bool>) {
    && |got| == |sent| == |flipped|
    && forall k :: 0 <= k < |got| ==> got[k] == if flipped[k] then Flip(sent[k]) else sent[k]
  }

  ghost function Count(flipped: seq<bool>): nat {
    if flipped == [] then 0 else (if flipped[0] then 1 else 0) + Count(flipped[1..])
  }

  ghost predicate InBand(w: seq<int>, lo: int, hi: int) {
    forall k :: 0 <= k < |w| ==> lo <= w[k] <= hi
  }

  lemma {:induction false} StraysAreFlips(got: seq<int>, sent: seq<Sample>, flipped: seq<bool>, lo: int, hi: int)
    requires Corrupted(got, sent, flipped) && InBand(sent, lo, hi)
    ensures Below(got, lo) <= Count(flipped) && Above(got, hi) <= Count(flipped)
  {
    if got != [] {
      StraysAreFlips(got[1..], sent[1..], flipped[1..], lo, hi);
    }
  }

  /** Detection completeness: if at most 7 of the 15 samples around a frame are flipped and the
      true ones lie in a band at most 12767 wide, the median stays in the band, and a flipped
      sample at the centre is always found. */
  lemma FlipDetected(s: seq<Frame>, n: int, ch: nat, sent: seq<Sample>, flipped: seq<bool>, lo: int, hi: int)
    requires HALF < n < |s| - HALF && ch < 2
    requires Corrupted(Window(s, n, ch), sent, flipped) && InBand(sent, lo, hi)
    requires hi - lo <= 12767 && Count(flipped) <= HALF
    ensures lo <= Median(Window(s, n, ch)) <= hi
    ensures flipped[HALF] ==> Outlier(s, n)
  {
    StraysAreFlips(Window(s, n, ch), sent, flipped, lo, hi);
    MedianInBand(Window(s, n, ch), lo, hi);
    assert s[n].Channel(ch) == Window(s, n, ch)[HALF];
    assert lo <= sent[HALF] <= hi;
    assert flipped[HALF] ==> ChannelOutlier(s, n, ch);
  }

  lemma {:induction false} NoStrays(w: seq<int>, lo: int, hi: int)
    requires InBand(w, lo, hi)
    ensures Below(w, lo) == 0 && Above(w, hi) == 0
  {
    if w != [] {
      NoStrays(w[1..], lo, hi);
    }
  }

  /** A programme that stays within a band of 6000 over each window is never suspected. */
  lemma QuietChannel(s: seq<Frame>, n: int, ch: nat, lo: int, hi: int)
    requires HALF < n < |s| - HALF
    requires InBand(Window(s, n, ch), lo, hi) && hi - lo <= T_FLIP
    ensures !ChannelOutlier(s, n, ch)
  {
    NoStrays(Window(s, n, ch), lo, hi);
    MedianInBand(Window(s, n, ch), lo, hi);
    var w := Window(s, n, ch);
    assert s[n].Channel(ch) == w[HALF] && s[n - 1].Channel(ch) == w[HALF - 1] && s[n + 1].Channel(ch) == w[HALF + 1];
  }

  /** One more than 12767 is too wide: a flipped centre 12768 below constant neighbours is missed. */
  lemma BandIsSharp(s: seq<Frame>, n: int, base: Sample)
    requires HALF < n < |s| - HALF
    requires -20000 <= base <= 12767
    requires forall k :: n - HALF <= k <= n + HALF && k != n ==> s[k] == Frame(base, base)
    requires s[n] == Frame(Flip(base - 12768), Flip(base - 12768))
    ensures !Outlier(s, n)
  {
    forall ch | 0 <= ch < 2 ensures !ChannelOutlier(s, n, ch) {
      var w := Window(s, n, ch);
      forall k | 0 <= k < WIN ensures w[k] == if k == HALF then base + 20000 else base {
        assert w[k] == s[n - HALF + k].Channel(ch);
      }
      NoStrays(w, base, base + 20000);
      OneAbove(w, HALF, base);
      MedianInBand(w, base, base);
    }
  }

  lemma {:induction false} OneAbove(w: seq<int>, k: nat, hi: int)
    requires k < |w| && forall i :: 0 <= i < |w| && i != k ==> w[i] <= hi
    ensures Above(w, hi) <= 1
  {
    if k == 0 {
      NoneAbove(w[1..], hi);
    } else {
      OneAbove(w[1..], k - 1, hi);
    }
  }}
