/** Stretches of a run: silence, and a cluster that opens, grows and closes. */
module FmRuns {
  import opened FmDetect
  import opened FmTracker

  function Silence(k: nat): seq<bool> {
    seq(k, _ => false)
  }

  lemma AfterOne(f: seq<bool>, o: bool)
    requires QuietStart(f + [o])
    ensures QuietStart(f) && Steady(After(f).tracker, |f|)
    ensures PeriodOk(Settle(After(f).(tracker := Note(After(f).tracker, |f|, o)), |f|).tracker.period)
    ensures After(f + [o]) == Track(After(f), |f|, o)
  {
    hide After, Steady, Settle, Note, Track, PeriodOk;
    var g := f + [o];
    AfterStep(g);
    assert g[..|f|] == f && g[|f|] == o;
  }

  lemma IdleFrame(f: seq<bool>)
    requires QuietStart(f + [false]) && QuietStart(f) && !After(f).tracker.open
    requires After(f).tracker.locked ==> |f| <= Predicted(After(f).tracker) + PHASE_TOL
    ensures After(f + [false]) == After(f)
  {
    AfterOne(f, false);
    hide After, Steady, Predicted;
  }

  lemma OpenFrame(f: seq<bool>)
    requires QuietStart(f + [false]) && QuietStart(f) && After(f).tracker.open
    requires |f| <= After(f).tracker.last + CLUSTER && |f| <= After(f).tracker.first + MAX_BURST
    ensures After(f + [false]) == After(f)
  {
    AfterOne(f, false);
    hide After, Steady, Predicted;
  }

  lemma SilenceLonger(f: seq<bool>, k: nat)
    requires QuietStart(f + Silence(k))
    ensures k == 0 ==> f + Silence(k) == f
    ensures k > 0 ==> QuietStart(f + Silence(k - 1)) && f + Silence(k) == f + Silence(k - 1) + [false]
    ensures k > 0 ==> |f + Silence(k - 1)| == |f| + k - 1
  {
    if k > 0 {
      var g := f + Silence(k - 1);
      assert forall i :: 0 <= i < |g| ==> g[i] == (f + Silence(k))[i];
    }
  }

  /** Nothing happens in silence until a burst is overdue. */
  lemma {:induction false} IdleSilence(f: seq<bool>, k: nat)
    requires QuietStart(f + Silence(k)) && QuietStart(f) && !After(f).tracker.open
    requires After(f).tracker.locked ==> |f| + k - 1 <= Predicted(After(f).tracker) + PHASE_TOL
    ensures After(f + Silence(k)) == After(f)
  {
    hide *;
    SilenceLonger(f, k);
    if k > 0 {
      IdleSilence(f, k - 1);
      IdleFrame(f + Silence(k - 1));
    }
  }

  /** Nor while a cluster is open and may still grow. */
  lemma {:induction false} OpenSilence(f: seq<bool>, k: nat)
    requires QuietStart(f + Silence(k)) && QuietStart(f) && After(f).tracker.open
    requires |f| + k - 1 <= After(f).tracker.last + CLUSTER && |f| + k - 1 <= After(f).tracker.first + MAX_BURST
    ensures After(f + Silence(k)) == After(f)
  {
    hide *;
    SilenceLonger(f, k);
    if k > 0 {
      OpenSilence(f, k - 1);
      OpenFrame(f + Silence(k - 1));
    }
  }

  lemma Opens(f: seq<bool>)
    requires QuietStart(f + [true]) && QuietStart(f) && !After(f).tracker.open
    ensures var r, n := After(f), |f|;
      After(f + [true]) == r.(tracker := r.tracker.(open := true, first := n, last := n, count := 1))
  {
    AfterOne(f, true);
  }

  lemma Grows(f: seq<bool>)
    requires QuietStart(f + [true]) && QuietStart(f) && After(f).tracker.open && |f| <= After(f).tracker.first + MAX_BURST
    ensures var r, n := After(f), |f|;
      After(f + [true]) == r.(tracker := r.tracker.(last := n, count := r.tracker.count + 1))
  {
    AfterOne(f, true);
  }

  lemma Closes(f: seq<bool>)
    requires QuietStart(f + [false]) && QuietStart(f) && After(f).tracker.open
    ensures PeriodOk(After(f).tracker.period) && PeriodOk(Settle(After(f), |f|).tracker.period)
    ensures After(f + [false]) == Expect(Settle(After(f), |f|), |f|)
  {
    AfterOne(f, false);
    assert After(f).(tracker := Note(After(f).tracker, |f|, false)) == After(f);
  }

  function Outliers(k: nat): seq<bool> {
    seq(k, _ => true)
  }

  /** Outlier after outlier keeps a cluster open until it is too long. */
  lemma {:induction false} StaysOpen(f: seq<bool>, k: nat)
    requires QuietStart(f) && |f| > HALF && !After(f).tracker.open && 1 <= k <= MAX_BURST + 1
    ensures QuietStart(f + Outliers(k))
    ensures After(f + Outliers(k)) ==
      After(f).(tracker := After(f).tracker.(open := true, first := |f|, last := |f| + k - 1, count := k))
  {
    hide After, Steady, PeriodOk;
    if k == 1 {
      assert Outliers(1) == [true];
      Opens(f);
    } else {
      assert f + Outliers(k) == f + Outliers(k - 1) + [true];
      StaysOpen(f, k - 1);
      Grows(f + Outliers(k - 1));
    }
  }

  /** Some outliers in a row, and silence until their cluster is closed. */
  lemma SolidBurst(f: seq<bool>, k: nat) returns (g: seq<bool>)
    requires QuietStart(f) && |f| > HALF && !After(f).tracker.open && 1 <= k <= MAX_BURST - CLUSTER
    ensures QuietStart(g) && |g| == |f| + k + CLUSTER + 1
    ensures forall i :: 0 <= i < |g| ==> g[i] == if i < |f| then f[i] else i < |f| + k
    ensures var n := |g| - 1;
      var r := After(f).(tracker := After(f).tracker.(open := true, first := |f|, last := |f| + k - 1, count := k));
      PeriodOk(r.tracker.period) && PeriodOk(Settle(r, n).tracker.period) && After(g) == Expect(Settle(r, n), n)
  {
    hide After, Settle, Expect;
    StaysOpen(f, k);
    var b := f + Outliers(k);
    OpenSilence(b, CLUSTER);
    g := b + Silence(CLUSTER) + [false];
    Closes(b + Silence(CLUSTER));
  }

  // ----- Silence while locked -----

  /** What silence adds to the log in n frames, while bursts are expected at p and every d frames after it and the
      tracker still has this much patience. */
  function MissedIn(p: int, d: int, n: int, patience: nat): seq<Entry>
    decreases patience
  {
    if patience == 0 || n <= p + 151 then []
    else [Entry(Blank(p - 30, p + 30), p + 151, Missed(p))] + MissedIn(p + d, d, n, patience - 1)
  }

  /** One burst that does not come: noticed 151 frames after its time, blanked there all the same, and counted. */
  lemma OneMiss(f: seq<bool>, p: int)
    requires QuietStart(f) && After(f).tracker.locked && !After(f).tracker.open
    requires -0.5 < p as real - (After(f).tracker.cLast as real + After(f).tracker.period) <= 0.5
    ensures |f| <= p + 151 && QuietStart(f + Silence(p + 152 - |f|))
    ensures var r, r' := After(f), After(f + Silence(p + 152 - |f|));
      && r'.tracker == r.tracker.(cLast := p, misses := r.tracker.misses + 1, locked := r.tracker.misses < 2)
      && r'.log == r.log + [Entry(Blank(p - 30, p + 30), p + 151, Missed(p))] && r'.clusters == r.clusters
  {
    hide After, Silence, Predicted, Track, Steady;
    var k := p + 151 - |f|;
    LockedInSilence(f, p - After(f).tracker.cLast);
    QuietInSilence(f, k + 1);
    SilenceLonger(f, k + 1);
    IdleSilence(f, k);
    AfterOne(f + Silence(k), false);
    MissStep(After(f), p);
  }

  lemma MissStep(r: Run, p: int)
    requires PeriodOk(r.tracker.period) && r.tracker.locked && !r.tracker.open && Predicted(r.tracker) == p && p > 30
    ensures PeriodOk(Settle(r.(tracker := Note(r.tracker, p + 151, false)), p + 151).tracker.period)
    ensures Track(r, p + 151, false) ==
      Run(r.tracker.(cLast := p, misses := r.tracker.misses + 1, locked := r.tracker.misses < 2),
          r.log + [Entry(Blank(p - 30, p + 30), p + 151, Missed(p))], r.clusters)
  {
    hide Predicted;
  }

  lemma QuietInSilence(f: seq<bool>, k: nat)
    requires QuietStart(f)
    ensures QuietStart(f + Silence(k)) && |f + Silence(k)| == |f| + k
  {
  }

  /** Three misses in a row, and no fewer, unlock the tracker: in silence it stays locked until 151 frames after the last
      of the bursts it has patience for, each of which it blanks, a period after the other. */
  lemma {:induction false} SilenceUnlocks(f: seq<bool>, k: nat, d: int)
    requires QuietStart(f) && After(f).tracker.locked && !After(f).tracker.open
    requires -0.5 < d as real - After(f).tracker.period <= 0.5
    ensures QuietStart(f + Silence(k))
    ensures 0 <= After(f).tracker.misses < 3
    ensures var r, r', n := After(f), After(f + Silence(k)), |f| + k;
      var p := r.tracker.cLast + d;
      && (r'.tracker.locked <==> n <= p + (2 - r.tracker.misses) * d + 151)
      && r'.log == r.log + MissedIn(p, d, n, 3 - r.tracker.misses)
      && r'.clusters == r.clusters
    decreases 3 - After(f).tracker.misses
  {
    hide After, Silence, Predicted, Steady, PeriodOk, MissedIn;
    QuietInSilence(f, k);
    var t := After(f).tracker;
    var p, n := t.cLast + d, |f| + k;
    LockedInSilence(f, d);
    Patience(p, d, n, t.misses);
    if n <= p + 151 {
      IdleSilence(f, k);
    } else {
      OneMiss(f, p);
      var m := p + 152 - |f|;
      QuietInSilence(f, m);
      SilenceMore(f, m, k);
      if t.misses < 2 {
        SilenceUnlocks(f + Silence(m), k - m, d);
      } else {
        IdleSilence(f + Silence(m), k - m);
      }
    }
  }

  lemma Patience(p: int, d: int, n: int, misses: int)
    requires 0 <= misses < 3 && d > 0
    ensures n <= p + 151 ==> n <= p + (2 - misses) * d + 151 && MissedIn(p, d, n, 3 - misses) == []
    ensures n > p + 151 ==>
      MissedIn(p, d, n, 3 - misses) == [Entry(Blank(p - 30, p + 30), p + 151, Missed(p))] + MissedIn(p + d, d, n, 2 - misses)
    ensures MissedIn(p + d, d, n, 0) == []
    ensures p + d + (1 - misses) * d == p + (2 - misses) * d
  {
  }

  lemma LockedInSilence(f: seq<bool>, d: int)
    requires QuietStart(f) && After(f).tracker.locked && !After(f).tracker.open
    requires -0.5 < d as real - After(f).tracker.period <= 0.5
    ensures var t := After(f).tracker;
      && 0 <= t.misses < 3 && t.cLast >= 0 && 1050 <= d && Predicted(t) == t.cLast + d && |f| <= t.cLast + d + 151
      && -0.5 < (t.cLast + d) as real - (t.cLast as real + t.period) <= 0.5
  {
    hide After;
    assert Steady(After(f).tracker, |f|);
  }

  lemma SilenceMore(f: seq<bool>, m: nat, k: nat)
    requires m <= k
    ensures f + Silence(m) + Silence(k - m) == f + Silence(k)
  {
  }
}
