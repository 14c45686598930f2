/** The frames a burst is interpolated between: when they are good ones, and a stream where they are not. */
module FmAnchors {
  import opened FmDetect
  import opened FmTracker
  import opened Options
  import opened FmSchedule
  import opened FmClusters
  import opened FmDelivery
  import opened FmOverdue
  import opened FmRuns
  import opened FmSpikes
  import opened FmTheorems

  ghost predicate OutlierAt(flags: seq<bool>, i: int) {
    0 <= i < |flags| && flags[i]
  }

  ghost predicate OutlierOf(c: Cluster, flags: seq<bool>, f: int) {
    c.first <= f <= c.last && OutlierAt(flags, f)
  }

  /** A cluster closed, for its length, before the frame that serves as its far anchor was seen. */
  ghost predicate CutShort(c: Cluster) {
    c.at < c.last + MARGIN + 1
  }

  /** An outlier of the open cluster or of one that began after c was closed. */
  ghost predicate LaterOutlier(r: Run, flags: seq<bool>, c: Cluster, f: int) {
    || (r.tracker.open && c.at < r.tracker.first <= f && OutlierAt(flags, f))
    || (exists c' :: c' in r.clusters && c.at < c'.first && OutlierOf(c', flags, f))
  }

  /** The frame after a burst's interval is an outlier if and only if the burst was cut short and the next one has that
      outlier; the frame before it if and only if an earlier burst, of which it is an outlier, was. */
  lemma AnchorsGood(flags: seq<bool>, c: Cluster)
    requires QuietStart(flags) && c in After(flags).clusters
    ensures var x := c.last + MARGIN + 1;
      OutlierAt(flags, x) <==> CutShort(c) && LaterOutlier(After(flags), flags, c, x)
    ensures var x := c.first - MARGIN - 1;
      OutlierAt(flags, x) <==> exists c' :: c' in After(flags).clusters && c'.at < c.first && CutShort(c') && OutlierOf(c', flags, x)
  {
    hide After, Steady, ClustersOk, OpenOk, SeenBursts, AcceptedBursts, ClusterOk;
    AllAccounted(flags);
    var cs := After(flags).clusters;
    var k :| 0 <= k < |cs| && cs[k] == c;
    ClusterBounds(cs, flags, k);
    if OutlierAt(flags, c.last + MARGIN + 1) {
      OutlierAfter(flags, k, c.last + MARGIN + 1);
    }
    if OutlierAt(flags, c.first - MARGIN - 1) {
      OutlierBefore(flags, k, c.first - MARGIN - 1);
    }
  }

  lemma OutlierAfter(flags: seq<bool>, k: nat, f: nat)
    requires QuietStart(flags) && k < |After(flags).clusters| && OutlierAt(flags, f) && f > After(flags).clusters[k].at
    ensures LaterOutlier(After(flags), flags, After(flags).clusters[k], f)
  {
    hide After, Steady, ClustersOk, SeenBursts, AcceptedBursts;
    AllAccounted(flags);
    var r := After(flags);
    if InCluster(r.clusters, f) {
      var j :| 0 <= j < |r.clusters| && r.clusters[j].first <= f <= r.clusters[j].last;
      ClusterBounds(r.clusters, flags, j);
      if j < k { ClustersApart(r.clusters, flags, j, k); ClusterBounds(r.clusters, flags, k); }
      if k < j { ClustersApart(r.clusters, flags, k, j); }
      assert OutlierOf(r.clusters[j], flags, f);
    }
  }

  lemma OutlierBefore(flags: seq<bool>, k: nat, f: nat)
    requires QuietStart(flags) && k < |After(flags).clusters| && OutlierAt(flags, f)
    requires f < After(flags).clusters[k].first <= f + MARGIN + 1
    ensures exists c' :: c' in After(flags).clusters && c'.at < After(flags).clusters[k].first && CutShort(c') && OutlierOf(c', flags, f)
  {
    hide After, Steady, ClustersOk, SeenBursts, AcceptedBursts, OpenOk;
    AllAccounted(flags);
    var r := After(flags);
    var c := r.clusters[k];
    ClusterBounds(r.clusters, flags, k);
    assert InCluster(r.clusters, f);
    var j :| 0 <= j < |r.clusters| && r.clusters[j].first <= f <= r.clusters[j].last;
    if j > k { ClustersApart(r.clusters, flags, k, j); }
    ClustersApart(r.clusters, flags, j, k);
    assert r.clusters[j] in r.clusters && CutShort(r.clusters[j]) && OutlierOf(r.clusters[j], flags, f);
  }

  // ----- When a burst is scheduled, is its far anchor safe? -----

  /** The window around a frame, as far as it was heard; the samples still to come are all `fill`. */
  function Filled(heard: seq<Frame>, n: nat, ch: nat, fill: Sample): (w: seq<int>)
    requires n >= HALF
    ensures |w| == WIN
  {
    seq(WIN, k requires 0 <= k < WIN => if n - HALF + k < |heard| then heard[n - HALF + k].Channel(ch) else fill)
  }

  /** A frame that may yet turn out an outlier: its sample is suspect for some median that the samples to come can still
      bring about, from the one they give if all are lowest to the one they give if all are highest. */
  ghost predicate AtRisk(heard: seq<Frame>, n: nat, ch: nat, base: int)
    requires HALF < n < |heard| - 1
  {
    && Median(Filled(heard, n, ch, -32768)) <= base <= Median(Filled(heard, n, ch, 32767))
    && Suspect(heard[n - 1].Channel(ch), heard[n].Channel(ch), heard[n + 1].Channel(ch), base)
  }

  lemma {:induction false} CountsMonotone(w: seq<int>, w': seq<int>, v: int)
    requires |w| == |w'| && forall k :: 0 <= k < |w| ==> w[k] <= w'[k]
    ensures Below(w', v) <= Below(w, v) && Above(w, v) <= Above(w', v)
  {
    if w != [] {
      CountsMonotone(w[1..], w'[1..], v);
    }
  }

  lemma {:induction false} SameBelow(w: seq<int>, w': seq<int>, v: int)
    requires |w| == |w'| && forall k :: 0 <= k < |w| ==> (w[k] < v <==> w'[k] < v)
    ensures Below(w, v) == Below(w', v)
  {
    if w != [] {
      SameBelow(w[1..], w'[1..], v);
    }
  }

  lemma {:induction false} SameAbove(w: seq<int>, w': seq<int>, v: int)
    requires |w| == |w'| && forall k :: 0 <= k < |w| ==> (w[k] > v <==> w'[k] > v)
    ensures Above(w, v) == Above(w', v)
  {
    if w != [] {
      SameAbove(w[1..], w'[1..], v);
    }
  }

  /** A larger window has no smaller a median. */
  lemma MedianMonotone(w: seq<int>, w': seq<int>)
    requires |w| == |w'| == WIN && forall k :: 0 <= k < WIN ==> w[k] <= w'[k]
    ensures Median(w) <= Median(w')
  {
    hide Median, Below, Above;
    var v := Median(w);
    MedianBounds(w, v);
    CountsMonotone(w, w', v);
    MedianBounds(w', v);
  }

  /** Whatever comes, the median stays between the two. */
  lemma MedianToCome(heard: seq<Frame>, s: seq<Frame>, n: nat, ch: nat)
    requires heard <= s && HALF < n < |s| - HALF
    ensures Median(Filled(heard, n, ch, -32768)) <= Median(Window(s, n, ch)) <= Median(Filled(heard, n, ch, 32767))
  {
    hide Median;
    var lo, w, hi := Filled(heard, n, ch, -32768), Window(s, n, ch), Filled(heard, n, ch, 32767);
    forall k | 0 <= k < WIN ensures lo[k] <= w[k] <= hi[k] {
      var x: Sample := s[n - HALF + k].Channel(ch);
      assert n - HALF + k < |heard| ==> heard[n - HALF + k] == s[n - HALF + k];
    }
    MedianMonotone(lo, w);
    MedianMonotone(w, hi);
  }

  lemma MedianIsSample(heard: seq<Frame>, n: nat, ch: nat, fill: Sample)
    requires n >= HALF
    ensures -32768 <= Median(Filled(heard, n, ch, fill)) <= 32767
  {
    hide Median;
    forall k | 0 <= k < WIN ensures -32768 <= Filled(heard, n, ch, fill)[k] <= 32767 {
      var x: Sample := if n - HALF + k < |heard| then heard[n - HALF + k].Channel(ch) else fill;
    }
    NoStrays(Filled(heard, n, ch, fill), -32768, 32767);
    MedianInBand(Filled(heard, n, ch, fill), -32768, 32767);
  }

  /** And every value between them is the median if all that is to come has that value. */
  lemma MedianReached(heard: seq<Frame>, n: nat, ch: nat, base: Sample)
    requires n >= HALF
    requires Median(Filled(heard, n, ch, -32768)) <= base <= Median(Filled(heard, n, ch, 32767))
    ensures Median(Filled(heard, n, ch, base)) == base
  {
    hide Median, Below, Above;
    var w, lo, hi := Filled(heard, n, ch, base), Filled(heard, n, ch, -32768), Filled(heard, n, ch, 32767);
    SameBelow(w, hi, base);
    SameAbove(w, lo, base);
    MedianBounds(hi, base);
    MedianBounds(lo, base);
    MedianBounds(w, base);
  }

  /** Some continuation of what was heard, enough to classify frame n, makes it an outlier. */
  ghost predicate MayBeOutlier(heard: seq<Frame>, n: nat)
    requires n > HALF
  {
    exists s: seq<Frame> :: heard <= s && n < |s| - HALF && Outlier(s, n)
  }

  lemma WindowIsFilled(heard: seq<Frame>, n: nat, ch: nat, base: Sample, more: nat)
    requires HALF <= n < |heard| + more - HALF
    ensures Window(heard + seq(more, _ => Frame(base, base)), n, ch) == Filled(heard, n, ch, base)
  {
    var s := heard + seq(more, _ => Frame(base, base));
    forall k | 0 <= k < WIN ensures Window(s, n, ch)[k] == Filled(heard, n, ch, base)[k] {
      var i := n - HALF + k;
      var w, v := Window(s, n, ch), Filled(heard, n, ch, base);
      assert w[k] == s[i].Channel(ch);
      if i < |heard| {
        assert s[i] == heard[i];
        assert v[k] == heard[i].Channel(ch);
      } else {
        assert s[i] == Frame(base, base);
        assert v[k] == base;
      }
    }
  }

  lemma RiskComes(heard: seq<Frame>, n: nat, ch: nat, base: int)
    requires HALF < n < |heard| - 1 && ch < 2 && AtRisk(heard, n, ch, base)
    ensures MayBeOutlier(heard, n)
  {
    hide Median;
    MedianIsSample(heard, n, ch, -32768);
    MedianIsSample(heard, n, ch, 32767);
    MedianReached(heard, n, ch, base);
    var more: nat := if n + HALF + 1 <= |heard| then 0 else n + HALF + 1 - |heard|;
    var s := heard + seq(more, _ => Frame(base, base));
    WindowIsFilled(heard, n, ch, base, more);
    assert ChannelOutlier(s, n, ch);
    assert Outlier(s, n);
  }

  ghost predicate Risky(heard: seq<Frame>, n: nat)
    requires HALF < n < |heard| - 1
  {
    exists ch: nat, base :: ch < 2 && AtRisk(heard, n, ch, base)
  }

  /** A frame may turn out an outlier if and only if it is at risk in some channel. */
  lemma RiskExactly(heard: seq<Frame>, n: nat)
    requires HALF < n < |heard| - 1
    ensures MayBeOutlier(heard, n) <==> Risky(heard, n)
  {
    hide Median;
    if MayBeOutlier(heard, n) {
      var s :| heard <= s && n < |s| - HALF && Outlier(s, n);
      var ch: nat := if ChannelOutlier(s, n, 0) then 0 else 1;
      MedianToCome(heard, s, n, ch);
      assert AtRisk(heard, n, ch, Median(Window(s, n, ch)));
    }
    if ch: nat, base :| ch < 2 && AtRisk(heard, n, ch, base) {
      RiskComes(heard, n, ch, base);
    }
  }

  lemma NotCutShort(s: seq<Frame>, n: nat, c: Cluster)
    requires n + HALF <= |s| && c in After(Flags(s, n)).clusters && !CutShort(c)
    ensures 0 < HALF < c.last + MARGIN + 1 <= c.at < n && !Outlier(s, c.last + MARGIN + 1)
  {
    hide After, Steady, ClustersOk, SeenBursts, AcceptedBursts, OpenOk, Covered, Outlier;
    AllAccounted(Flags(s, n));
    var cs := After(Flags(s, n)).clusters;
    var k :| 0 <= k < |cs| && cs[k] == c;
    ClusterBounds(cs, Flags(s, n), k);
    assert !Flags(s, n)[c.last + MARGIN + 1];
  }

  lemma Settled(s: seq<Frame>, s': seq<Frame>, m: nat, x: nat)
    requires m + HALF <= |s| && m + HALF <= |s'| && s[..m + HALF] == s'[..m + HALF] && HALF < x < m
    ensures Outlier(s, x) == Outlier(s', x)
  {
    hide Outlier;
    FlagsCausal(s[..m + HALF], s, m);
    FlagsCausal(s[..m + HALF], s', m);
    assert Flags(s, m)[x] == Flags(s', m)[x];
  }

  /** When a burst is closed, by frame c.at, the frames up to c.at + HALF + 1 have arrived. Some continuation of them
      makes the burst's far anchor an outlier if and only if the burst was cut short and that anchor, not classified yet, is at risk. */
  lemma AnchorAtRisk(s: seq<Frame>, n: nat, c: Cluster)
    requires n + HALF <= |s| && c in After(Flags(s, n)).clusters && c.at + HALF + 2 <= |s|
    ensures var x := c.last + MARGIN + 1;
      && 0 < HALF < x && c.at > HALF && x < c.at + HALF + 1
      && (MayBeOutlier(s[..c.at + HALF + 2], x) <==> CutShort(c) && Risky(s[..c.at + HALF + 2], x))
  {
    hide After, Outlier, Risky, Steady, CutShort;
    ClosedAt(Flags(s, n), c);
    var heard, x := s[..c.at + HALF + 2], c.last + MARGIN + 1;
    RiskExactly(heard, x);
    if !CutShort(c) {
      NotCutShort(s, n, c);
      if MayBeOutlier(heard, x) {
        var s' :| heard <= s' && x < |s'| - HALF && Outlier(s', x);
        Settled(s, s', c.at + 2, x);
      }
    }
  }

  lemma ClosedAt(flags: seq<bool>, c: Cluster)
    requires QuietStart(flags) && c in After(flags).clusters
    ensures HALF < c.first <= c.last <= c.at < |flags|
  {
    hide After, Steady, ClustersOk, SeenBursts, AcceptedBursts, OpenOk, Covered;
    AllAccounted(flags);
    var k :| 0 <= k < |After(flags).clusters| && After(flags).clusters[k] == c;
    ClusterBounds(After(flags).clusters, flags, k);
  }

  // ----- A stream with a bad anchor -----

  /** Full-scale samples that change sign every frame. */
  function Alternating(n: nat): (s: seq<Frame>)
    ensures |s| == n
  {
    seq(n, i => if i % 2 == 0 then Frame(20000, 20000) else Frame(-20000, -20000))
  }

  lemma {:induction false} EverySecondBelow(w: seq<int>, lo: int)
    requires forall k :: 0 <= k < |w| && k % 2 == 0 ==> w[k] >= lo
    ensures Below(w, lo) <= |w| / 2
  {
    if |w| > 1 {
      assert w[1..][1..] == w[2..];
      forall k | 0 <= k < |w[2..]| && k % 2 == 0 ensures w[2..][k] >= lo {
        assert w[2..][k] == w[k + 2];
      }
      EverySecondBelow(w[2..], lo);
    }
  }

  lemma {:induction false} EverySecondAbove(w: seq<int>, hi: int)
    requires forall k :: 0 <= k < |w| && k % 2 == 0 ==> w[k] <= hi
    ensures Above(w, hi) <= |w| / 2
  {
    if |w| > 1 {
      assert w[1..][1..] == w[2..];
      forall k | 0 <= k < |w[2..]| && k % 2 == 0 ensures w[2..][k] <= hi {
        assert w[2..][k] == w[k + 2];
      }
      EverySecondAbove(w[2..], hi);
    }
  }

  /** Eight of any fifteen consecutive samples have the sign the middle one has not, so every frame is an outlier. */
  lemma AlternatingOutlier(len: nat, n: int)
    requires HALF < n < len - HALF
    ensures Outlier(Alternating(len), n)
  {
    hide Median;
    var s := Alternating(len);
    var w := Window(s, n, 0);
    forall k | 0 <= k < WIN ensures w[k] == if (n - HALF + k) % 2 == 0 then 20000 else -20000 {
      assert w[k] == s[n - HALF + k].Channel(0);
    }
    EverySecondBelow(w, if n % 2 == 0 then -20000 else 20000);
    EverySecondAbove(w, if n % 2 == 0 then -20000 else 20000);
    MedianInBand(w, if n % 2 == 0 then -20000 else 20000, if n % 2 == 0 then -20000 else 20000);
    assert ChannelOutlier(s, n, 0);
  }

  const FULL := Run(INITIAL.(open := true, first := 8, last := 129, count := 122), [], [])

  lemma FullCloses()
    ensures PeriodOk(FULL.tracker.period)
    ensures Expect(Settle(FULL, 129), 129).clusters == [Cluster(8, 129, 122, 129, None, true)]
  {
  }

  lemma LongBurst(flags: seq<bool>)
    requires |flags| == 130 && forall i :: 0 <= i < |flags| ==> flags[i] == (i > HALF)
    ensures QuietStart(flags) && After(flags).clusters == [Cluster(8, 129, 122, 129, None, true)]
  {
    var none: seq<bool> := [];
    assert After(none) == Run(INITIAL, [], []);
    hide After, Settle, Expect;
    var start := none + Silence(8);
    IdleSilence(none, 8);
    StaysOpen(start, 121);
    var open := start + Outliers(121);
    assert flags == open + [true];
    AfterOne(open, true);
    FullCloses();
  }

  /** A stream in which an accepted burst is cut short, and interpolated towards an outlier. */
  lemma BadAnchorHappens() returns (s: seq<Frame>, n: nat, c: Cluster)
    ensures n + HALF <= |s| && c in After(Flags(s, n)).clusters && c.accepted && CutShort(c)
    ensures HALF < c.last + MARGIN + 1 < |s| - HALF && Outlier(s, c.last + MARGIN + 1)
  {
    hide After, Outlier;
    s, n, c := Alternating(200), 130, Cluster(8, 129, 122, 129, None, true);
    forall i | HALF < i < |s| - HALF ensures Outlier(s, i) {
      AlternatingOutlier(|s|, i);
    }
    LongBurst(Flags(s, n));
  }

  // ----- A burst cut short whose anchor is safe -----

  /** One outlier every forty frames or so: enough for a burst, and never too quiet. */
  predicate Sparse(i: int) {
    i == 100 || i == 140 || i == 180 || i == 215
  }

  const SPARSE_OPEN := Run(INITIAL.(open := true, first := 100, last := 215, count := 4), [], [])

  lemma SparseCloses()
    ensures PeriodOk(SPARSE_OPEN.tracker.period)
    ensures Expect(Settle(SPARSE_OPEN, 221), 221).clusters == [Cluster(100, 215, 4, 221, None, true)]
    ensures var t := Expect(Settle(SPARSE_OPEN, 221), 221).tracker; !t.open && !t.locked
  {
  }

  /** Some silence and one more outlier, within a cluster. */
  lemma OneMore(f: seq<bool>, k: nat) returns (g: seq<bool>)
    requires QuietStart(f) && |f| > HALF && After(f).tracker.open && After(f).tracker.last == |f| - 1
    requires k <= CLUSTER && |f| + k <= After(f).tracker.first + MAX_BURST
    ensures QuietStart(g) && |g| == |f| + k + 1
    ensures forall i :: 0 <= i < |g| ==> g[i] == if i < |f| then f[i] else i == |f| + k
    ensures After(g) == After(f).(tracker := After(f).tracker.(last := |f| + k, count := After(f).tracker.count + 1))
  {
    hide After;
    OpenSilence(f, k);
    Grows(f + Silence(k));
    g := f + Silence(k) + [true];
  }

  lemma SparseStart() returns (f: seq<bool>)
    ensures |f| == 141 && QuietStart(f) && forall i :: 0 <= i < |f| ==> f[i] == Sparse(i)
    ensures After(f) == Run(INITIAL.(open := true, first := 100, last := 140, count := 2), [], [])
  {
    var none: seq<bool> := [];
    assert After(none) == Run(INITIAL, [], []);
    hide After;
    IdleSilence(none, 100);
    Opens(none + Silence(100));
    f := OneMore(none + Silence(100) + [true], 39);
  }

  lemma SparseOpen() returns (f: seq<bool>)
    ensures |f| == 216 && QuietStart(f) && forall i :: 0 <= i < |f| ==> f[i] == Sparse(i)
    ensures After(f) == SPARSE_OPEN
  {
    hide After;
    f := SparseStart();
    f := OneMore(f, 39);
    f := OneMore(f, 34);
  }

  lemma SparseRun() returns (flags: seq<bool>)
    ensures |flags| == 232 && QuietStart(flags) && forall i :: 0 <= i < |flags| ==> flags[i] == Sparse(i)
    ensures After(flags).clusters == [Cluster(100, 215, 4, 221, None, true)]
  {
    hide After, Settle, Expect;
    var f := SparseOpen();
    OpenSilence(f, 5);
    Closes(f + Silence(5));
    SparseCloses();
    var g := f + Silence(5) + [false];
    IdleSilence(g, 10);
    flags := g + Silence(10);
  }

  /** So being cut short is not enough: here the far anchor is an outlier in no continuation of what was heard. */
  lemma SafeAnchorHappens() returns (s: seq<Frame>, n: nat, c: Cluster)
    ensures n + HALF <= |s| && c in After(Flags(s, n)).clusters && c.accepted && CutShort(c) && c.at + HALF + 2 <= |s|
    ensures c.at > HALF && c.last + MARGIN + 1 > HALF && !MayBeOutlier(s[..c.at + HALF + 2], c.last + MARGIN + 1)
  {
    hide After, Outlier;
    var flags := SparseRun();
    assert Clumped(flags);
    SpikyFlags(flags);
    s, n, c := Spiky(flags), 232, Cluster(100, 215, 4, 221, None, true);
    var heard := s[..230];
    if MayBeOutlier(heard, 222) {
      var s' :| heard <= s' && 222 < |s'| - HALF && Outlier(s', 222);
      Settled(s, s', 223, 222);
      SpikyOutliers(flags, 222);
    }
  }
}
