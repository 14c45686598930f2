/** The tracker on the interference it was made for: bursts that keep coming at a nearly steady distance, and
    silence between them. */
module FmLocking {
  import opened FmDetect
  import opened FmTracker
  import opened Options
  import opened FmSchedule
  import opened FmClusters
  import opened FmDelivery
  import opened FmRuns
  import opened FmTheorems

  /** Some quiet frames, then a burst, from its first outlier to its last. */
  datatype Beat = Beat(quiet: nat, pattern: seq<bool>)

  ghost predicate BurstOk(p: seq<bool>) {
    && 0 < |p| <= MAX_BURST + 1 && p[0] && p[|p| - 1]
    && Dense(p, 0, |p| - 1)
    && Hits(p, 0, |p|) >= MIN_OUTLIERS
  }

  /** The flags of the first k beats. */
  function Play(beats: seq<Beat>, k: nat): seq<bool>
    requires k <= |beats|
    decreases k, 0
  {
    if k == 0 then [] else Lead(beats, k - 1) + beats[k - 1].pattern
  }

  /** And those up to the k-th burst, counting from 0. */
  function Lead(beats: seq<Beat>, k: nat): seq<bool>
    requires k < |beats|
    decreases k, 1
  {
    Play(beats, k) + Silence(beats[k].quiet)
  }

  function First(beats: seq<Beat>, k: nat): nat
    requires k < |beats|
  {
    |Lead(beats, k)|
  }

  function Last(beats: seq<Beat>, k: nat): int
    requires k < |beats|
  {
    |Play(beats, k + 1)| - 1
  }

  function Middle(beats: seq<Beat>, k: nat): int
    requires k < |beats|
  {
    (First(beats, k) + Last(beats, k)) / 2
  }

  /** The bursts start after the first window, and their centres are lo to hi frames apart, which is within the
      tracker's bounds and varies no more than its tolerance. */
  ghost predicate Regular(beats: seq<Beat>, lo: int, hi: int) {
    && P_MIN < lo as real && lo <= hi && (hi as real) < P_MAX && hi - lo <= PHASE_TOL
    && (forall k :: 0 <= k < |beats| ==> BurstOk(beats[k].pattern))
    && (|beats| > 0 ==> beats[0].quiet > HALF)
    && (forall k :: 0 < k < |beats| ==> lo <= Middle(beats, k) - Middle(beats, k - 1) <= hi)
  }

  // ----- One burst -----

  /** While a burst goes on, the cluster is open, from the burst's first outlier to the last one so far. */
  lemma {:induction false} BurstOpens(f: seq<bool>, p: seq<bool>, j: nat) returns (l: nat)
    requires QuietStart(f) && |f| > HALF && !After(f).tracker.open && BurstOk(p) && 0 < j <= |p|
    ensures QuietStart(f + p[..j]) && l < j && p[l] && QuietBetween(p, l + 1, j)
    ensures After(f + p[..j]) ==
      After(f).(tracker := After(f).tracker.(open := true, first := |f|, last := |f| + l, count := Hits(p, 0, j)))
  {
    hide After, Dense;
    if j == 1 {
      assert p[..1] == [true];
      assert Hits(p, 0, 1) == Hits(p, 0, 0) + 1;
      Opens(f);
      l := 0;
    } else {
      l := BurstOpens(f, p, j - 1);
      var g := f + p[..j - 1];
      assert f + p[..j] == g + [p[j - 1]];
      if p[j - 1] {
        Grows(g);
        l := j - 1;
      } else {
        NextWithin(p, 0, |p| - 1, l);
        assert Silence(1) == [false];
        OpenSilence(g, 1);
      }
    }
  }

  /** After a burst and some silence its cluster is closed; what then happens is what the code says of that frame. */
  lemma BurstCloses(g: seq<bool>) returns (m: nat)
    requires QuietStart(g) && After(g).tracker.open && After(g).tracker.last == |g| - 1
    requires After(g).tracker.first <= |g| - 1 <= After(g).tracker.first + MAX_BURST
    ensures 0 < m <= CLUSTER + 1 && QuietStart(g + Silence(m))
    ensures var r, n := After(g), |g| + m - 1;
      && PeriodOk(r.tracker.period) && PeriodOk(Settle(r, n).tracker.period) && Complete(r.tracker, n) && Noted(r.tracker, n)
      && After(g + Silence(m)) == Expect(Settle(r, n), n)
  {
    hide After, Settle, Expect, Noted, Steady, Complete, Predicted, PeriodOk, QuietStart, Silence;
    var t := After(g).tracker;
    m := if t.last + CLUSTER + 1 <= t.first + MAX_BURST + 1 then CLUSTER + 1 else t.first + MAX_BURST + 1 - t.last;
    SilenceSplit(g, m);
    QuietExtends(g, m - 1);
    OpenSilence(g, m - 1);
    var f := g + Silence(m - 1);
    QuietExtends(g, m);
    Closes(f);
    TimeToClose(t, |f|);
  }

  lemma SilenceSplit(g: seq<bool>, m: nat)
    requires m > 0
    ensures g + Silence(m) == g + Silence(m - 1) + [false] && |g + Silence(m - 1)| == |g| + m - 1
  {
  }

  lemma TimeToClose(t: Tracker, n: nat)
    requires Steady(t, n) && t.open && (n > t.last + CLUSTER || n > t.first + MAX_BURST)
    ensures Noted(t, n) && Complete(t, n)
  {
    NoteKeeps(t, n, false);
  }

  // ----- The tracker's response to it -----

  /** The state between bursts: the last one at `centre`, and locked to a period from lo to hi or not locked yet. */
  ghost predicate Tuned(t: Tracker, centre: int, locked: bool, lo: int, hi: int) {
    && !t.open && t.cLast == centre && t.locked == locked
    && (locked ==> lo as real <= t.period <= hi as real)
  }

  /** A burst at the right distance, or the very first, is accepted; from the second on the tracker is locked. */
  lemma BurstTunes(t: Tracker, n: int, was: bool, lo: int, hi: int)
    requires Noted(t, n) && 0 <= n && Complete(t, n) && t.count >= MIN_OUTLIERS
    requires P_MIN < lo as real && lo <= hi && (hi as real) < P_MAX && hi - lo <= PHASE_TOL
    requires Tuned(t.(open := false), t.cLast, was, lo, hi)
    requires t.cLast == 0 || lo <= Centre(t) - t.cLast <= hi
    requires t.cLast == 0 ==> !was
    ensures Accepts(t) && OnPhase(Phase(t))
    ensures Tuned(CloseBurst(t), Centre(t), t.cLast != 0, lo, hi)
    ensures !Overdue(CloseBurst(t), n)
  {
    CloseBurstPredicts(t, n);
    if was {
      Convex(t.period, (Centre(t) - t.cLast) as real, lo as real, hi as real);
    }
  }

  lemma Convex(period: real, d: real, lo: real, hi: real)
    requires lo <= period <= hi && lo <= d <= hi
    ensures lo <= period + 0.15 * (d - period) <= hi
  {
  }

  // ----- All of them -----

  /** The tracker has heard k bursts: it scheduled each of them with its margins, and nothing else. */
  ghost predicate Heard(r: Run, beats: seq<Beat>, k: nat, lo: int, hi: int)
    requires k <= |beats|
  {
    && Tuned(r.tracker, if k == 0 then 0 else Middle(beats, k - 1), k >= 2, lo, hi)
    && |r.log| == |r.clusters| == k
    && forall i :: 0 <= i < k ==>
         && r.log[i].cause == Seen(First(beats, i), Last(beats, i))
         && r.log[i].blank == Blank(First(beats, i) - MARGIN, Last(beats, i) + MARGIN)
         && r.clusters[i].accepted && OnPhase(r.clusters[i].phase)
  }

  lemma FirstBounds(beats: seq<Beat>, k: nat)
    requires k < |beats| && 0 < |beats[k].pattern|
    ensures First(beats, k) == |Play(beats, k)| + beats[k].quiet
    ensures Last(beats, k) == First(beats, k) + |beats[k].pattern| - 1
    ensures First(beats, k) <= Middle(beats, k) <= Last(beats, k)
  {
  }

  lemma FirstBoundsQuiet(beats: seq<Beat>, k: nat)
    requires k < |beats|
    ensures First(beats, k) == |Play(beats, k)| + beats[k].quiet
  {
  }

  /** Each burst starts long after the one before it is closed. */
  lemma LongSilence(beats: seq<Beat>, lo: int, hi: int, k: nat)
    requires Regular(beats, lo, hi) && 0 < k < |beats|
    ensures beats[k].quiet > 800
    ensures First(beats, k) <= Middle(beats, k - 1) + lo + PHASE_TOL
  {
    FirstBounds(beats, k);
    FirstBounds(beats, k - 1);
    assert BurstOk(beats[k].pattern) && BurstOk(beats[k - 1].pattern);
    assert |Play(beats, k)| == Last(beats, k - 1) + 1;
    hide Play, Lead, BurstOk;
  }

  /** Silence after a beat, up to the next burst, changes nothing. */
  lemma HeardInSilence(beats: seq<Beat>, lo: int, hi: int, k: nat, m: nat)
    requires Regular(beats, lo, hi) && k < |beats|
    requires if k == 0 then m == 0 else m <= CLUSTER + 1
    requires QuietStart(Play(beats, k) + Silence(m)) && Heard(After(Play(beats, k) + Silence(m)), beats, k, lo, hi)
    ensures QuietStart(Lead(beats, k)) && Heard(After(Lead(beats, k)), beats, k, lo, hi) && |Lead(beats, k)| > HALF
  {
    hide After, Regular, Dense;
    var f := Play(beats, k) + Silence(m);
    if k > 0 {
      LongSilence(beats, lo, hi, k);
      FirstBoundsQuiet(beats, k);
    } else {
      assert Regular(beats, lo, hi);
      FirstIsLate(beats, lo, hi);
    }
    SilenceMore(Play(beats, k), m, beats[k].quiet);
    QuietExtends(f, beats[k].quiet - m);
    if k > 1 {
      PredictedNear(After(f).tracker, Middle(beats, k - 1), lo, hi);
    }
    IdleSilence(f, beats[k].quiet - m);
  }

  lemma FirstIsLate(beats: seq<Beat>, lo: int, hi: int)
    requires Regular(beats, lo, hi) && |beats| > 0
    ensures beats[0].quiet > HALF
  {
  }

  lemma QuietExtends(f: seq<bool>, k: nat)
    requires QuietStart(f)
    ensures QuietStart(f + Silence(k))
  {
  }

  lemma PredictedNear(t: Tracker, centre: int, lo: int, hi: int)
    requires Tuned(t, centre, true, lo, hi) && lo <= hi
    ensures centre + lo <= Predicted(t) <= centre + hi
  {
  }

  /** The run at the end of a burst: its cluster is open, all else is as before it. */
  ghost predicate Ringing(before: Run, r: Run, first: int, last: int) {
    && r.tracker.count >= MIN_OUTLIERS
    && r == before.(tracker := before.tracker.(open := true, first := first, last := last, count := r.tracker.count))
  }

  lemma BurstRings(beats: seq<Beat>, k: nat)
    requires k < |beats| && BurstOk(beats[k].pattern) && QuietStart(Lead(beats, k)) && |Lead(beats, k)| > HALF
    requires !After(Lead(beats, k)).tracker.open
    ensures QuietStart(Play(beats, k + 1)) && |Play(beats, k + 1)| == Last(beats, k) + 1
    ensures Ringing(After(Lead(beats, k)), After(Play(beats, k + 1)), First(beats, k), Last(beats, k))
    ensures HALF < First(beats, k) <= Last(beats, k) <= First(beats, k) + MAX_BURST
  {
    hide After, Dense, Lead;
    var f, p := Lead(beats, k), beats[k].pattern;
    FirstBounds(beats, k);
    var l := BurstOpens(f, p, |p|);
    assert p[..|p|] == p;
    assert f + p == Play(beats, k + 1);
  }

  /** One more burst is heard. */
  lemma HearBurst(beats: seq<Beat>, lo: int, hi: int, k: nat) returns (m: nat)
    requires Regular(beats, lo, hi) && k < |beats|
    requires QuietStart(Lead(beats, k)) && Heard(After(Lead(beats, k)), beats, k, lo, hi) && |Lead(beats, k)| > HALF
    ensures 0 < m <= CLUSTER + 1 && QuietStart(Play(beats, k + 1) + Silence(m))
    ensures Heard(After(Play(beats, k + 1) + Silence(m)), beats, k + 1, lo, hi)
  {
    hide After, Settle, Expect, BurstOk, Play, Lead, Noted, Complete, First, Last, Middle;
    assert BurstOk(beats[k].pattern);
    BurstRings(beats, k);
    var g := Play(beats, k + 1);
    m := BurstCloses(g);
    HeardNext(After(Lead(beats, k)), After(g), beats, lo, hi, k, |g| + m - 1);
  }

  lemma HeardNext(before: Run, r: Run, beats: seq<Beat>, lo: int, hi: int, k: nat, n: int)
    requires Regular(beats, lo, hi) && k < |beats| && Heard(before, beats, k, lo, hi)
    requires Ringing(before, r, First(beats, k), Last(beats, k)) && HALF < First(beats, k)
    requires 0 <= n && Noted(r.tracker, n) && Complete(r.tracker, n)
    ensures PeriodOk(Settle(r, n).tracker.period)
    ensures Heard(Expect(Settle(r, n), n), beats, k + 1, lo, hi)
  {
    hide CloseBurst, First, Last, Predicted, Noted, Complete;
    MiddlePositive(beats, lo, hi, k);
    BurstTunes(r.tracker, n, k >= 2, lo, hi);
    AcceptedSettles(r, n);
    hide Settle, Expect, Tuned, Regular;
  }

  lemma AcceptedSettles(r: Run, n: int)
    requires 0 <= n && Noted(r.tracker, n) && Complete(r.tracker, n) && Accepts(r.tracker) && !Overdue(CloseBurst(r.tracker), n)
    ensures PeriodOk(r.tracker.period) && PeriodOk(Settle(r, n).tracker.period)
    ensures Expect(Settle(r, n), n) ==
      Run(CloseBurst(r.tracker), r.log + [SeenEntry(r.tracker, n)], r.clusters + [ClusterOf(r.tracker, n)])
  {
    SettleKeeps(r, n);
    hide CloseBurst, Predicted;
  }

  lemma MiddlePositive(beats: seq<Beat>, lo: int, hi: int, k: nat)
    requires Regular(beats, lo, hi) && k < |beats|
    ensures k > 0 ==> Middle(beats, k - 1) > 0 && lo <= Middle(beats, k) - Middle(beats, k - 1) <= hi
  {
    if k > 0 {
      FirstBounds(beats, k - 1);
      if k > 1 {
        MiddlePositive(beats, lo, hi, k - 1);
      }
    }
  }

  lemma {:induction false} AllHeard(beats: seq<Beat>, lo: int, hi: int, k: nat) returns (m: nat)
    requires Regular(beats, lo, hi) && k <= |beats|
    ensures m <= CLUSTER + 1 && QuietStart(Play(beats, k) + Silence(m))
    ensures k == 0 ==> m == 0
    ensures Heard(After(Play(beats, k) + Silence(m)), beats, k, lo, hi)
  {
    if k == 0 {
      m := 0;
      assert Play(beats, 0) + Silence(0) == [];
    } else {
      hide After, Heard, Regular;
      m := AllHeard(beats, lo, hi, k - 1);
      HeardInSilence(beats, lo, hi, k - 1, m);
      m := HearBurst(beats, lo, hi, k - 1);
    }
  }

  // ----- What is delivered -----

  /** An outlier among the flags of some beats is an outlier of one of the bursts. */
  lemma {:induction false} OutlierInBurst(beats: seq<Beat>, k: nat, f: nat) returns (i: nat)
    requires k <= |beats| && f < |Play(beats, k)| && Play(beats, k)[f]
    ensures i < k && First(beats, i) <= f <= Last(beats, i)
  {
    var j := k - 1;
    if f < |Play(beats, j)| {
      i := OutlierInBurst(beats, j, f);
    } else {
      i := j;
    }
  }

  /** A stream is heard as these beats, up to some frame. */
  ghost predicate HeardAs(s: seq<Frame>, n: nat, beats: seq<Beat>) {
    n + HALF <= |s| && Play(beats, |beats|) + Silence(CLUSTER + 1) <= Flags(s, n)
  }

  /** On such a stream the tracker schedules every burst, first to last, with its margins. */
  lemma AllScheduled(s: seq<Frame>, n: nat, beats: seq<Beat>, lo: int, hi: int, i: nat)
    requires HeardAs(s, n, beats) && Regular(beats, lo, hi) && i < |beats|
    ensures var log := After(Flags(s, n)).log;
      && i < |log|
      && log[i].cause == Seen(First(beats, i), Last(beats, i))
      && log[i].blank == Blank(First(beats, i) - MARGIN, Last(beats, i) + MARGIN)
  {
    hide After, Regular, Play, First, Last, Outlier;
    var m := AllHeard(beats, lo, hi, |beats|);
    var g, flags := Play(beats, |beats|) + Silence(m), Flags(s, n);
    assert flags[..|g|] == g;
    LogGrows(flags, |g|);
  }

  /** Steady bursts lock the tracker: every frame of every burst, the first two included, is delivered interpolated,
      margins and all. */
  lemma SteadyBurstsRepaired(s: seq<Frame>, n: nat, beats: seq<Beat>, lo: int, hi: int, i: nat, m: nat)
    requires HeardAs(s, n, beats) && Regular(beats, lo, hi) && i < |beats|
    requires First(beats, i) - MARGIN <= m <= Last(beats, i) + MARGIN && m + DELAY < |s|
    ensures Repaired(s, m)
  {
    hide After, Regular, HeardAs, First, Last, Repaired, Outlier;
    AllScheduled(s, n, beats, lo, hi, i);
    assert n + HALF <= |s| by { Length(s, n, beats); }
    AcceptedBurstRepaired(s, n, i, m);
  }

  lemma Length(s: seq<Frame>, n: nat, beats: seq<Beat>)
    requires HeardAs(s, n, beats)
    ensures n + HALF <= |s| && |Play(beats, |beats|)| <= n
    ensures forall f :: 0 <= f < |Play(beats, |beats|)| ==> Play(beats, |beats|)[f] == Flags(s, n)[f]
  {
    hide Play, Outlier;
    var p := Play(beats, |beats|);
    assert forall f :: 0 <= f < |p| ==> (p + Silence(CLUSTER + 1))[f] == p[f];
  }

  /** So on such a stream every sample with its sign bit flipped is repaired, wherever at most 7 of the 15 samples around
      it are flipped and the true ones stay in a band of 12767. */
  lemma FlipsRepaired(s: seq<Frame>, n: nat, beats: seq<Beat>, lo: int, hi: int,
                      f: nat, ch: nat, sent: seq<Sample>, flipped: seq<bool>, low: int, high: int)
    requires HeardAs(s, n, beats) && Regular(beats, lo, hi)
    requires HALF < f < |Play(beats, |beats|)| && f + DELAY < |s| && ch < 2
    requires Corrupted(Window(s, f, ch), sent, flipped) && InBand(sent, low, high)
    requires high - low <= 12767 && Count(flipped) <= HALF && flipped[HALF]
    ensures Repaired(s, f)
  {
    hide Regular, HeardAs, Repaired, Play, Outlier, Median, First, Last;
    FlipDetected(s, f, ch, sent, flipped, low, high);
    Length(s, n, beats);
    assert Flags(s, n)[f];
    var i := OutlierInBurst(beats, |beats|, f);
    SteadyBurstsRepaired(s, n, beats, lo, hi, i, f);
  }

  /** And the tracker is locked from the second burst on. */
  lemma LockedFromSecond(beats: seq<Beat>, lo: int, hi: int, k: nat) returns (m: nat)
    requires Regular(beats, lo, hi) && 2 <= k <= |beats|
    ensures m <= CLUSTER + 1 && QuietStart(Play(beats, k) + Silence(m))
    ensures var t := After(Play(beats, k) + Silence(m)).tracker;
      t.locked && lo as real <= t.period <= hi as real && t.cLast == Middle(beats, k - 1)
  {
    hide After, Regular, Play, Middle;
    m := AllHeard(beats, lo, hi, k);
  }
}
