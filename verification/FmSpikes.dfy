/** Streams made to order: silence with a spike in the left channel wherever an outlier is wanted. */
module FmSpikes {
  import opened FmDetect
  import opened FmTracker
  import opened FmDelivery

  /** Outliers to order: none in the first frames, those within a window of each other in at most seven places in a
      row, and no good frame just between two of them. */
  ghost predicate Clumped(flags: seq<bool>) {
    && QuietStart(flags)
    && (forall i, j :: 0 <= i < j < |flags| && flags[i] && flags[j] && j < i + WIN ==> j < i + HALF)
    && (forall i, j :: 0 <= i && j == i + 2 < |flags| && flags[i] && flags[j] ==> flags[i + 1])
  }

  /** Just high enough to be outliers. */
  function Spiky(flags: seq<bool>): (s: seq<Frame>)
    ensures |s| == |flags| + HALF
  {
    seq(|flags| + HALF, i => if 0 <= i < |flags| && flags[i] then Frame(T_JUMP + 1, 0) else SILENCE)
  }

  /** Values above hi that stand in seven consecutive places are at most seven. */
  lemma {:induction false} AboveSpan(w: seq<int>, hi: int, p: int)
    requires forall i :: 0 <= i < |w| && w[i] > hi ==> p <= i < p + HALF
    ensures Above(w, hi) <= if p >= 0 then HALF else if p + HALF > 0 then p + HALF else 0
  {
    if w != [] {
      AboveSpan(w[1..], hi, p - 1);
    }
  }

  /** The first place above hi, if there is one. */
  ghost function FirstAbove(w: seq<int>, hi: int): (p: nat)
    ensures p <= |w| && (p < |w| ==> w[p] > hi) && forall i :: 0 <= i < p ==> w[i] <= hi
  {
    if w == [] || w[0] > hi then 0 else FirstAbove(w[1..], hi) + 1
  }

  /** The median of every window is zero. */
  lemma SpikyMedian(flags: seq<bool>, n: int, ch: nat)
    requires Clumped(flags) && HALF < n < |Spiky(flags)| - HALF && ch < 2
    ensures Median(Window(Spiky(flags), n, ch)) == 0
  {
    hide Median;
    var s := Spiky(flags);
    var w := Window(s, n, ch);
    forall k | 0 <= k < WIN ensures w[k] == if ch == 0 && n - HALF + k < |flags| && flags[n - HALF + k] then T_JUMP + 1 else 0 {
      assert w[k] == s[n - HALF + k].Channel(ch);
    }
    NoneBelow(w, 0);
    var p := FirstAbove(w, 0);
    forall i | 0 <= i < |w| && w[i] > 0 ensures p <= i < p + HALF {
      if p < i {
        assert flags[n - HALF + p] && flags[n - HALF + i];
      }
    }
    AboveSpan(w, 0, p);
    MedianInBand(w, 0, 0);
  }

  /** The outliers of the stream are those asked for. */
  lemma SpikyOutliers(flags: seq<bool>, n: int)
    requires Clumped(flags) && HALF < n < |flags|
    ensures Outlier(Spiky(flags), n) <==> flags[n]
  {
    hide Median, Window;
    SpikyMedian(flags, n, 0);
    SpikyMedian(flags, n, 1);
  }

  lemma SpikyFlags(flags: seq<bool>)
    requires Clumped(flags)
    ensures Flags(Spiky(flags), |flags|) == flags
  {
    hide Outlier;
    forall i | HALF < i < |flags| ensures Outlier(Spiky(flags), i) == flags[i] {
      SpikyOutliers(flags, i);
    }
  }
}
