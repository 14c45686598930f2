/** Two streams on which a predicted burst is missing and its interval is not honoured. In the first an isolated
    outlier just after the tolerance runs out holds a cluster open, and by the time it is rejected the interval is
    being delivered raw; in the second a strong burst there is accepted in place of the prediction. */
module FmLateMiss {
  import opened FmDetect
  import opened FmTracker
  import opened Options
  import opened FmDelivery
  import opened FmOverdue
  import opened FmRuns
  import opened FmSpikes
  import opened FmTheorems

  // The runs after the first and the second burst of the example, and with the third expected.

  const OPEN1 := Run(INITIAL.(open := true, first := 100, last := 102, count := 3), [], [])
  const SHUT1 := Run(Tracker(false, 100, 102, 3, false, P_INIT, 101, 0),
                     [Entry(Blank(94, 108), 151, Seen(100, 102))],
                     [Cluster(100, 102, 3, 151, None, true)])
  const OPEN2 := SHUT1.(tracker := SHUT1.tracker.(open := true, first := 1252, last := 1254, count := 3))
  const SHUT2 := Run(Tracker(false, 1252, 1254, 3, true, 1152.0, 1253, 0),
                     SHUT1.log + [Entry(Blank(1246, 1260), 1303, Seen(1252, 1254))],
                     SHUT1.clusters + [Cluster(1252, 1254, 3, 1303, None, true)])
  const OPEN3 := SHUT2.(tracker := SHUT2.tracker.(open := true, first := 2556, last := 2556, count := 1))

  lemma FirstBurstCloses()
    ensures PeriodOk(OPEN1.tracker.period) && Expect(Settle(OPEN1, 151), 151) == SHUT1
  {
  }

  lemma SecondBurstCloses()
    ensures PeriodOk(OPEN2.tracker.period) && Expect(Settle(OPEN2, 1303), 1303) == SHUT2
  {
  }

  lemma StrayIsRejected()
    ensures PeriodOk(OPEN3.tracker.period)
    ensures var r := Expect(Settle(OPEN3, 2605), 2605);
      r.log == SHUT2.log + [Entry(Blank(2375, 2435), 2605, Missed(2405))]
  {
  }

  /** The first two bursts, and one more of k outliers. */
  predicate Spike(i: int, third: int, k: int) {
    100 <= i < 103 || 1252 <= i < 1255 || third <= i < third + k
  }

  predicate SpikesAt(flags: seq<bool>, third: int, k: int) {
    forall i :: 0 <= i < |flags| ==> flags[i] == Spike(i, third, k)
  }

  lemma SpikesClumped(flags: seq<bool>, third: int, k: int)
    requires SpikesAt(flags, third, k) && third > 2000 && 0 <= k <= 6
    ensures Clumped(flags)
  {
  }

  lemma FirstBurst() returns (f: seq<bool>)
    ensures QuietStart(f) && |f| == 152 && After(f) == SHUT1 && SpikesAt(f, 2000, 0)
  {
    var none: seq<bool> := [];
    assert After(none) == Run(INITIAL, [], []);
    hide After, Settle, Expect;
    IdleSilence(none, 100);
    f := SolidBurst(none + Silence(100), 3);
    FirstBurstCloses();
  }

  lemma SecondBurst() returns (f: seq<bool>)
    ensures QuietStart(f) && |f| == 1304 && After(f) == SHUT2 && SpikesAt(f, 2000, 0)
  {
    hide After, Settle, Expect;
    var f1 := FirstBurst();
    IdleSilence(f1, 1100);
    f := SolidBurst(f1 + Silence(1100), 3);
    SecondBurstCloses();
  }

  /** Two bursts 1152 frames apart lock the tracker; the third is missing, and one stray outlier at the
      edge of the tolerance delays its notice to 200 frames after its predicted centre. */
  lemma LateMiss() returns (flags: seq<bool>)
    ensures QuietStart(flags) && |flags| == 2606 && SpikesAt(flags, 2556, 1)
    ensures |After(flags).log| == 3 && After(flags).log[2] == Entry(Blank(2375, 2435), 2605, Missed(2405))
  {
    assert Predicted(SHUT2.tracker) == 2405;
    hide After, Settle, Expect, Predicted, Steady;
    var f := SecondBurst();
    IdleSilence(f, 1252);
    flags := SolidBurst(f + Silence(1252), 1);
    StrayIsRejected();
  }

  /** A stream in which the first frame of a missed burst's interval is delivered as it came. */
  lemma LateMissHappens() returns (s: seq<Frame>, n: nat, k: nat)
    ensures n + HALF <= |s| && k < |After(Flags(s, n)).log|
    ensures var e := After(Flags(s, n)).log[k];
      && e.cause.Missed? && e.at == e.cause.pred + 200 >= e.cause.pred + MISS_SLACK
      && 0 <= e.blank.a && e.blank.a + DELAY < |s| && !Repaired(s, e.blank.a)
  {
    hide After, Outlier, Repaired, Steady;
    var flags := LateMiss();
    SpikesClumped(flags, 2556, 1);
    SpikyFlags(flags);
    s, n, k := Spiky(flags), 2606, 2;
    MissedFrame(s, n, k, 2375);
  }

  // ----- A prediction superseded -----

  const OPEN6 := SHUT2.(tracker := SHUT2.tracker.(open := true, first := 2555, last := 2560, count := 6))
  const SHUT6 := Run(Tracker(false, 2555, 2560, 6, true, 1152.0, 2557, 0),
                     SHUT2.log + [Entry(Blank(2549, 2566), 2609, Seen(2555, 2560))],
                     SHUT2.clusters + [Cluster(2555, 2560, 6, 2609, Some(152), true)])

  lemma StrongIsAccepted()
    ensures PeriodOk(OPEN6.tracker.period) && Expect(Settle(OPEN6, 2609), 2609) == SHUT6
  {
  }

  /** The start of the strong burst: the tolerance has just run out, and the tracker is still locked to 2405. */
  lemma StrongStarts() returns (start: seq<bool>)
    ensures QuietStart(start) && |start| == 2555 && After(start) == SHUT2 && SpikesAt(start, 2555, 6)
    ensures QuietStart(start + [true]) && LockedTo(After(start + [true]).tracker, 2405)
  {
    assert Predicted(SHUT2.tracker) == 2405 && Predicted(OPEN6.tracker.(last := 2555, count := 1)) == 2405;
    hide After, Settle, Expect, Predicted, Steady;
    var f := SecondBurst();
    IdleSilence(f, 1251);
    start := f + Silence(1251);
    Opens(start);
  }

  lemma Superseded() returns (flags: seq<bool>)
    ensures QuietStart(flags) && |flags| == 2710 && SpikesAt(flags, 2555, 6) && After(flags) == SHUT6
    ensures LockedTo(Upto(flags, 2556).tracker, 2405)
  {
    assert Predicted(SHUT6.tracker) == 3709;
    hide After, Settle, Expect, Predicted, Steady, LockedTo;
    var start := StrongStarts();
    var g := SolidBurst(start, 6);
    StrongIsAccepted();
    IdleSilence(g, 100);
    flags := g + Silence(100);
    assert flags[..2556] == start + [true];
  }

  /** A stream in which a strong burst just past the tolerance takes the place of the predicted one: every cluster is
      accepted, the miss is never noticed, and the whole predicted interval is delivered as it came. */
  lemma SupersededHappens() returns (s: seq<Frame>, n: nat, pred: nat)
    ensures n + HALF <= |s| && n > pred + LATEST_MISS && LockedTo(Upto(Flags(s, n), pred + PHASE_TOL + 1).tracker, pred)
    ensures forall c :: c in After(Flags(s, n)).clusters ==> c.accepted
    ensures forall m: nat :: pred - PRED_HALF <= m <= pred + PRED_HALF ==> m + DELAY < |s| && !Repaired(s, m)
  {
    hide After, Outlier, Repaired, Steady, LockedTo, Upto;
    var flags := Superseded();
    SpikesClumped(flags, 2555, 6);
    SpikyFlags(flags);
    s, n, pred := Spiky(flags), 2710, 2405;
    forall m: nat | pred - PRED_HALF <= m <= pred + PRED_HALF ensures !Repaired(s, m) {
      LogStable(s, m + LEAD, n);
      assert forall k :: 0 <= k < |LogAt(s, m)| ==> LogAt(s, m)[k] == SHUT6.log[k];
      RepairedOrRaw(s, m);
    }
  }
}
