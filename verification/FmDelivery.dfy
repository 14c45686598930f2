/** What the plugin delivers for a stream of frames, by reference to the whole history of the
    stream and of the tracker. The ring and the short list of pending intervals that the plugin
    works with are proved to give exactly this in FmRepair. */
module FmDelivery {
  import opened FmDetect
  import opened FmTracker
  import opened Options
  import opened FmSchedule

  const SILENCE := Frame(0, 0)

  // ----- Interpolation -----

  /** Conversion of a floating value to an integer, as in C. */
  function Truncate(v: real): int {
    if v >= 0.0 then v.Floor else -((-v).Floor)
  }

  /** The fraction t of a distance d. */
  function Share(d: real, t: real): real {
    d * t
  }

  /** The value at num/den of the way from one sample to another. */
  function Blend(pa: Sample, pb: Sample, num: int, den: int): int
    requires 0 < num < den
  {
    Truncate(pa as real + Share((pb - pa) as real, num as real / den as real) + 0.5)
  }

  lemma ShareBounded(d: real, t: real)
    requires 0.0 <= t <= 1.0
    ensures if d >= 0.0 then 0.0 <= Share(d, t) <= d else d <= Share(d, t) <= 0.0
  {
    assert d * (1.0 - t) == d - d * t;
    if d >= 0.0 {
      assert d * (1.0 - t) >= 0.0;
    } else {
      assert d * (1.0 - t) <= 0.0;
    }
  }

  lemma RoundBetween(v: real, lo: int, hi: int)
    requires lo as real <= v <= hi as real
    ensures lo <= Truncate(v + 0.5) <= hi + 1
    ensures Truncate(v + 0.5) == hi + 1 ==> hi < 0
  {
  }

  /** An interpolated value lies between its anchors, or one above the higher one when rounding up a
      negative value; so the conversion to 16 bits never wraps. */
  lemma BlendBounded(pa: Sample, pb: Sample, num: int, den: int)
    requires 0 < num < den
    ensures var r, lo, hi := Blend(pa, pb, num, den), if pa < pb then pa else pb, if pa < pb then pb else pa;
      && lo <= r <= hi + 1
      && (r == hi + 1 ==> hi < 0)
      && -32768 <= r <= 32767
  {
    ProperFraction(num, den);
    var d := (pb - pa) as real;
    ShareBounded(d, num as real / den as real);
    var share := Share(d, num as real / den as real);
    if pa <= pb {
      RoundBetween(pa as real + share, pa, pb);
    } else {
      RoundBetween(pa as real + share, pb, pa);
    }
  }

  lemma ProperFraction(num: int, den: int)
    requires 0 < num < den
    ensures 0.0 <= num as real / den as real <= 1.0
  {
  }

  /** r is the point at num/den of the way from pa to pb, rounded to the nearest integer, halves up, or, below -1/2, to
      the next one above that: the ramp from one anchor to the other, in integers. */
  ghost predicate OnRamp(pa: int, pb: int, num: int, den: int, r: int) {
    var n := pa * (den - num) + pb * num;
    if 2 * n + den >= 0 then 2 * n - den < 2 * den * r <= 2 * n + den
    else 2 * n + den <= 2 * den * r < 2 * n + 3 * den
  }

  lemma ScaleUp(x: real, y: real, d: real)
    requires d > 0.0
    ensures x <= y ==> x * d <= y * d
    ensures x < y ==> x * d < y * d
  {
  }

  lemma IntProduct(r: int, d: int)
    ensures r as real * d as real == (r * d) as real
  {
  }

  /** An integer above (below) u is, scaled, above (below) u's numerator. */
  lemma AboveQuotient(u: real, m: int, d: int, r: int)
    requires d > 0 && u * d as real == m as real
    ensures u < r as real ==> m < r * d
    ensures u <= r as real ==> m <= r * d
    ensures r as real <= u ==> r * d <= m
    ensures r as real < u ==> r * d < m
  {
    IntProduct(r, d);
    ScaleUp(u, r as real, d as real);
    ScaleUp(r as real, u, d as real);
  }

  /** Truncating u, which is m/d. */
  lemma TruncatedQuotient(u: real, m: int, d: int)
    requires d > 0 && u * d as real == m as real
    ensures var r := Truncate(u); if m >= 0 then r * d <= m < r * d + d else m <= r * d < m + d
  {
    var r := Truncate(u);
    AboveQuotient(u, m, d, 0);
    AboveQuotient(u, m, d, r);
    AboveQuotient(u, m, d, r + 1);
    AboveQuotient(u, m, d, r - 1);
    assert (r + 1) * d == r * d + d && (r - 1) * d == r * d - d;
  }

  lemma ExactPoint(pa: int, pb: int, num: int, den: int)
    requires 0 < num < den
    ensures var v := pa as real + Share((pb - pa) as real, num as real / den as real);
      (v + 0.5) * (2 * den) as real == (2 * (pa * (den - num) + pb * num) + den) as real
  {
    var t := num as real / den as real;
    assert t * den as real == num as real;
    var d := (pb - pa) as real;
    assert d * t * den as real == d * num as real;
    assert pa * (den - num) + pb * num == pa * den + (pb - pa) * num by {
      assert pa * (den - num) == pa * den - pa * num && (pb - pa) * num == pb * num - pa * num;
    }
    assert (pa * den) as real == pa as real * den as real && ((pb - pa) * num) as real == d * num as real;
  }

  lemma BlendOnRamp(pa: Sample, pb: Sample, num: int, den: int)
    requires 0 < num < den
    ensures OnRamp(pa, pb, num, den, Blend(pa, pb, num, den))
  {
    hide Truncate, Share;
    ExactPoint(pa, pb, num, den);
    var v := pa as real + Share((pb - pa) as real, num as real / den as real);
    TruncatedQuotient(v + 0.5, 2 * (pa * (den - num) + pb * num) + den, 2 * den);
    var r := Blend(pa, pb, num, den);
    assert r * (2 * den) == 2 * den * r;
  }

  function Interpolated(s: seq<Frame>, blank: Blank, m: int): Frame
    requires 1 <= blank.a <= m <= blank.b < |s| - 1
  {
    var pa, pb := s[blank.a - 1], s[blank.b + 1];
    var num, den := m - (blank.a - 1), blank.b + 2 - blank.a;
    BlendBounded(pa.left, pb.left, num, den);
    BlendBounded(pa.right, pb.right, num, den);
    Frame(Blend(pa.left, pb.left, num, den), Blend(pa.right, pb.right, num, den))
  }

  // ----- The reference output -----

  /** The outlier flags of the first n frames. */
  ghost function Flags(s: seq<Frame>, n: nat): (f: seq<bool>)
    requires n == 0 || n + HALF <= |s|
    ensures |f| == n && QuietStart(f)
  {
    seq(n, i requires 0 <= i < n => i > HALF && Outlier(s, i))
  }

  predicate Covers(blank: Blank, m: int) {
    blank.a <= m <= blank.b
  }

  /** The first interval of the log that contains frame m. */
  function FirstCover(log: seq<Entry>, m: int): (r: Option<Blank>)
    ensures r.Some? ==> Covers(r.value, m)
    ensures r.Some? ==> exists k :: 0 <= k < |log| && log[k].blank == r.value && forall j :: 0 <= j < k ==> !Covers(log[j].blank, m)
    ensures r.None? ==> forall k :: 0 <= k < |log| ==> !Covers(log[k].blank, m)
  {
    if log == [] then None
    else if Covers(log[0].blank, m) then
      assert log[0].blank == log[0].blank;
      Some(log[0].blank)
    else
      var r := FirstCover(log[1..], m);
      assert r.Some? ==> exists k :: 1 <= k < |log| && log[k].blank == r.value && forall j :: 0 <= j < k ==> !Covers(log[j].blank, m) by {
        if r.Some? {
          var k :| 0 <= k < |log[1..]| && log[1..][k].blank == r.value && forall j :: 0 <= j < k ==> !Covers(log[1..][j].blank, m);
          assert log[k + 1].blank == r.value;
          forall j | 0 <= j < k + 1 ensures !Covers(log[j].blank, m) {
            assert j > 0 ==> log[j] == log[1..][j - 1];
          }
        }
      }
      r
  }

  /** How many frames are classified by the time frame m is delivered. */
  const LEAD := DELAY - HALF

  /** Everything scheduled by the time frame m is delivered. */
  ghost function LogAt(s: seq<Frame>, m: nat): seq<Entry>
    requires m + DELAY < |s|
  {
    After(Flags(s, m + LEAD)).log
  }

  /** The frames an interval is interpolated between have both arrived when it is needed. */
  lemma AnchorsArrived(s: seq<Frame>, m: nat, blank: Blank)
    requires m + DELAY < |s| && FirstCover(LogAt(s, m), m) == Some(blank)
    ensures 1 <= blank.a <= m <= blank.b < |s| - 1
    ensures blank.b - blank.a <= MAX_BURST + 1 + 2 * MARGIN
  {
    LogInvariant(Flags(s, m + LEAD));
    var k :| 0 <= k < |LogAt(s, m)| && LogAt(s, m)[k].blank == blank;
    assert EntryOk(LogAt(s, m)[k]);
  }

  /** Frame m as delivered: interpolated if an interval scheduled so far contains it. */
  ghost function Delivered(s: seq<Frame>, m: nat): Frame
    requires m + DELAY < |s|
  {
    match FirstCover(LogAt(s, m), m)
    case None => s[m]
    case Some(blank) =>
      AnchorsArrived(s, m, blank);
      Interpolated(s, blank, m)
  }

  /** The whole output for the input s: a fixed delay of silence, then the repaired frames. */
  ghost function Output(s: seq<Frame>): (out: seq<Frame>)
    ensures |out| == |s|
  {
    seq(|s|, k requires 0 <= k < |s| => if k < DELAY then SILENCE else Delivered(s, k - DELAY))
  }
}
