/** The burst tracker of the FM capture repair plugin: which intervals are scheduled for
    blanking, as a fold over the outlier flags of the classified frames. */
module FmTracker {
  import opened FmDetect
  import opened Options

  const CLUSTER := 48
  const MIN_OUTLIERS := 3
  const STRONG := 6
  const MAX_BURST := 120
  const MARGIN := 6
  const P_INIT := 1152.0
  const P_MIN := 1050.0
  const P_MAX := 1260.0
  const PHASE_TOL := 150
  const PRED_HALF := 30
  const DELAY := 192

  datatype Blank = Blank(a: int, b: int)

  datatype Tracker = Tracker(
    open: bool, first: int, last: int, count: int,
    locked: bool, period: real, cLast: int, misses: int)

  /** Why an interval was scheduled: a burst that was seen, or one that was predicted and missed. */
  datatype Cause = Seen(first: int, last: int) | Missed(pred: int)

  /** A scheduled interval, with the frame whose classification scheduled it. */
  datatype Entry = Entry(blank: Blank, at: int, cause: Cause)

  /** A closed cluster of outliers; `phase` is its distance from the prediction, if one was locked. */
  datatype Cluster = Cluster(first: int, last: int, count: int, at: int, phase: Option<int>, accepted: bool)

  /** Everything the tracker has done: its state, the intervals ever scheduled, the clusters ever closed. */
  datatype Run = Run(tracker: Tracker, log: seq<Entry>, clusters: seq<Cluster>)

  const INITIAL := Tracker(false, 0, 0, 0, false, P_INIT, 0, 0)

  // ----- The code's steps -----

  /** Where the next burst is expected. */
  function Predicted(t: Tracker): int {
    t.cLast + (t.period + 0.5).Floor
  }

  function ClampBlank(a: int, b: int): Blank {
    Blank(if a < 1 then 1 else a, b)
  }

  function Note(t: Tracker, n: int, outlier: bool): Tracker {
    if !outlier then t
    else if !t.open then t.(open := true, first := n, last := n, count := 1)
    else t.(last := n, count := t.count + 1)
  }

  predicate Complete(t: Tracker, n: int) {
    t.open && (n - t.last > CLUSTER || n - t.first > MAX_BURST)
  }

  function Centre(t: Tracker): int {
    (t.first + t.last) / 2
  }

  function Phase(t: Tracker): Option<int> {
    if t.locked then Some(Centre(t) - Predicted(t)) else None
  }

  predicate OnPhase(phase: Option<int>) {
    phase.None? || -PHASE_TOL <= phase.value <= PHASE_TOL
  }

  predicate Accepts(t: Tracker) {
    t.count >= MIN_OUTLIERS && (OnPhase(Phase(t)) || t.count >= STRONG)
  }

  predicate PeriodOk(period: real) {
    P_MIN < period < P_MAX
  }

  /** The period after a burst accepted while locked, `d` frames after the previous one. */
  function Nudge(period: real, d: real, onPhase: bool): real
    requires PeriodOk(period)
  {
    if P_MIN < d < P_MAX then period + 0.15 * (d - period)
    else if !onPhase && d > 1.5 * P_MIN then
      assert d / period > 1.0;
      period + 0.05 * (d / ((d / period + 0.5).Floor as real) - period)
    else period
  }

  function CloseBurst(t: Tracker): Tracker
    requires PeriodOk(t.period)
  {
    var d := (Centre(t) - t.cLast) as real;
    var shut := t.(open := false);
    if !Accepts(t) then shut
    else if t.locked then
      shut.(period := Nudge(t.period, d, OnPhase(Phase(t))), cLast := Centre(t), misses := 0)
    else if t.cLast != 0 && P_MIN < d < P_MAX then
      shut.(locked := true, period := d, cLast := Centre(t), misses := 0)
    else
      shut.(cLast := Centre(t), misses := 0)
  }

  predicate Overdue(t: Tracker, n: int) {
    t.locked && !t.open && n > Predicted(t) + PHASE_TOL
  }

  function CountMiss(t: Tracker): Tracker {
    t.(cLast := Predicted(t), misses := t.misses + 1, locked := t.misses + 1 < 3)
  }

  function ClusterOf(t: Tracker, n: int): Cluster {
    Cluster(t.first, t.last, t.count, n, Phase(t), Accepts(t))
  }

  function SeenEntry(t: Tracker, n: int): Entry {
    Entry(ClampBlank(t.first - MARGIN, t.last + MARGIN), n, Seen(t.first, t.last))
  }

  function MissedEntry(t: Tracker, n: int): Entry {
    Entry(ClampBlank(Predicted(t) - PRED_HALF, Predicted(t) + PRED_HALF), n, Missed(Predicted(t)))
  }

  function Settle(r: Run, n: int): Run
    requires PeriodOk(r.tracker.period)
  {
    var t := r.tracker;
    if !Complete(t, n) then r
    else Run(CloseBurst(t),
             if Accepts(t) then r.log + [SeenEntry(t, n)] else r.log,
             r.clusters + [ClusterOf(t, n)])
  }

  function Expect(r: Run, n: int): Run {
    var t := r.tracker;
    if !Overdue(t, n) then r
    else Run(CountMiss(t), r.log + [MissedEntry(t, n)], r.clusters)
  }

  /** One classified frame. */
  function Track(r: Run, n: int, outlier: bool): Run
    requires PeriodOk(r.tracker.period)
    requires PeriodOk(Settle(r.(tracker := Note(r.tracker, n, outlier)), n).tracker.period)
  {
    Expect(Settle(r.(tracker := Note(r.tracker, n, outlier)), n), n)
  }

  // ----- What every step keeps -----

  /** What holds of the tracker between frames, when n frames have been classified. */
  ghost predicate Steady(t: Tracker, n: int) {
    && PeriodOk(t.period)
    && 0 <= t.cLast <= n
    && (n > HALF ==> t.cLast < n)
    && (t.open ==>
      && HALF < t.first <= t.last < n
      && t.cLast < t.first
      && n - 1 - t.last <= CLUSTER
      && n - 1 - t.first <= MAX_BURST
      && 1 <= t.count <= t.last - t.first + 1)
    && (t.locked ==>
      && 0 <= t.misses < 3
      && (t.open ==> t.first <= Predicted(t) + PHASE_TOL + 1)
      && (!t.open ==> n - 1 <= Predicted(t) + PHASE_TOL))
  }

  /** A missed burst is noticed at most this long after its predicted centre: a burst that opened just
      after the tolerance ran out may be closed and rejected first. */
  const LATEST_MISS := PHASE_TOL + 1 + MAX_BURST + 1

  /** The same, once frame n's flag is noted. */
  ghost predicate Noted(t: Tracker, n: int) {
    && PeriodOk(t.period)
    && 0 <= t.cLast <= n
    && (n > HALF ==> t.cLast < n)
    && (t.open ==>
      && HALF < t.first <= t.last <= n
      && t.cLast < t.first
      && n - t.last <= CLUSTER + 1
      && n - t.first <= MAX_BURST + 1
      && 1 <= t.count <= t.last - t.first + 1)
    && (t.locked ==>
      && 0 <= t.misses < 3
      && (t.open ==> t.first <= Predicted(t) + PHASE_TOL + 1)
      && (!t.open ==> n <= Predicted(t) + LATEST_MISS))
  }

  lemma NoteKeeps(t: Tracker, n: int, outlier: bool)
    requires 0 <= n && Steady(t, n) && (outlier ==> n > HALF)
    ensures Noted(Note(t, n, outlier), n)
  {
  }

  /** A burst closed while locked lies at most 211 frames after the prediction, so the branch for
      a burst "two periods late" is dead and the period moves by a convex step. */
  lemma LockedCloseIsNear(t: Tracker, n: int)
    requires Noted(t, n) && Complete(t, n) && t.locked
    ensures Centre(t) - Predicted(t) <= 211
    ensures 0 < Centre(t) - t.cLast
    ensures !((Centre(t) - t.cLast) as real > 1.5 * P_MIN)
    ensures PeriodOk(CloseBurst(t).period)
  {
  }

  /** The prediction is the last centre plus the period, to the nearest frame. */
  lemma PredictedIsNearest(t: Tracker)
    ensures -0.5 < Predicted(t) as real - (t.cLast as real + t.period) <= 0.5
  {
  }

  /** What accepting a burst does to a locked tracker: a distance between 1050 and 1260 moves the period to it by 15 parts
      in 100; any other leaves it. The burst's centre is the new reference, and misses are forgotten. */
  lemma PeriodMoves(t: Tracker, n: int)
    requires Noted(t, n) && Complete(t, n) && t.locked && Accepts(t)
    ensures PeriodOk(t.period)
    ensures var t', d := CloseBurst(t), ((t.first + t.last) / 2 - t.cLast) as real;
      && (if 1050.0 < d < 1260.0 then t'.period - d == 0.85 * (t.period - d) else t'.period == t.period)
      && t'.locked && !t'.open && t'.cLast == (t.first + t.last) / 2 && t'.misses == 0
  {
    LockedCloseIsNear(t, n);
  }

  /** And to one that is not: it locks, to the distance, if and only if that lies between 1050 and 1260 and is from an
      earlier burst. */
  lemma LocksExactly(t: Tracker, n: int)
    requires Noted(t, n) && Complete(t, n) && !t.locked && Accepts(t)
    ensures PeriodOk(t.period)
    ensures var t', c := CloseBurst(t), (t.first + t.last) / 2;
      && (t'.locked <==> t.cLast != 0 && 1050 < c - t.cLast < 1260)
      && t'.period == (if t'.locked then (c - t.cLast) as real else t.period)
      && !t'.open && t'.cLast == c && t'.misses == 0
  {
  }

  lemma SettleKeeps(r: Run, n: int)
    requires 0 <= n && Noted(r.tracker, n)
    ensures Noted(Settle(r, n).tracker, n)
    ensures !Complete(Settle(r, n).tracker, n)
  {
    if Complete(r.tracker, n) && r.tracker.locked {
      LockedCloseIsNear(r.tracker, n);
    }
  }

  lemma ExpectKeeps(r: Run, n: int)
    requires 0 <= n && Noted(r.tracker, n) && !Complete(r.tracker, n)
    ensures Steady(Expect(r, n).tracker, n + 1)
  {
  }

  lemma TrackKeeps(r: Run, n: int, outlier: bool)
    requires 0 <= n && Steady(r.tracker, n) && (outlier ==> n > HALF)
    ensures PeriodOk(Settle(r.(tracker := Note(r.tracker, n, outlier)), n).tracker.period)
    ensures Steady(Track(r, n, outlier).tracker, n + 1)
  {
    NoteKeeps(r.tracker, n, outlier);
    var noted := r.(tracker := Note(r.tracker, n, outlier));
    SettleKeeps(noted, n);
    ExpectKeeps(Settle(noted, n), n);
  }

  // ----- Whole runs -----

  /** The plugin never flags the first frames, whose window would start before the stream. */
  ghost predicate QuietStart(flags: seq<bool>) {
    forall i :: 0 <= i < |flags| && i <= HALF ==> !flags[i]
  }

  /** The tracker after all of `flags`. In every run, from start to end, the period stays
      strictly between its bounds and a locked tracker is never far past its prediction. */
  ghost function After(flags: seq<bool>): (r: Run)
    requires QuietStart(flags)
    ensures Steady(r.tracker, |flags|)
  {
    if |flags| == 0 then Run(INITIAL, [], [])
    else
      var n := |flags| - 1;
      var before := After(flags[..n]);
      TrackKeeps(before, n, flags[n]);
      Track(before, n, flags[n])
  }

  /** After one frame more. */
  lemma AfterStep(flags: seq<bool>)
    requires QuietStart(flags) && |flags| > 0
    ensures var n := |flags| - 1; var r := After(flags[..n]);
      && Steady(r.tracker, n)
      && PeriodOk(Settle(r.(tracker := Note(r.tracker, n, flags[n])), n).tracker.period)
      && After(flags) == Track(r, n, flags[n])
  {
    hide Track, Settle, Note, Steady, PeriodOk;
    TrackKeeps(After(flags[..|flags| - 1]), |flags| - 1, flags[|flags| - 1]);
  }

  // ----- The log -----

  ghost predicate EntryOk(e: Entry) {
    match e.cause
    case Seen(f, l) => HALF < f && f + 2 <= l <= e.at && f + 51 <= e.at <= f + MAX_BURST + 1 && e.blank == Blank(f - MARGIN, l + MARGIN)
    case Missed(p) => p >= 1050 && p + PHASE_TOL + 1 <= e.at <= p + LATEST_MISS && e.blank == Blank(p - PRED_HALF, p + PRED_HALF)
  }

  /** Two scheduled intervals: seen bursts do not share frames, and what was
      predicted and missed is most of a period after anything before it. */
  ghost predicate Apart(e: Entry, e': Entry) {
    && e.at < e'.at
    && (e.cause.Seen? && e'.cause.Seen? ==> e.at < e'.cause.first)
    && (e.cause.Missed? && e'.cause.Missed? ==> e.at + 900 <= e'.at)
    && (e.cause.Seen? && e'.cause.Missed? ==> e.cause.last + 900 <= e'.cause.pred)
  }

  ghost predicate LogOk(log: seq<Entry>) {
    && (forall i :: 0 <= i < |log| ==> EntryOk(log[i]))
    && (forall i, j :: 0 <= i < j < |log| ==> Apart(log[i], log[j]))
  }

  /** How the log constrains what the tracker may still schedule. */
  ghost predicate Ahead(t: Tracker, log: seq<Entry>, n: int) {
    forall i :: 0 <= i < |log| ==>
      && log[i].at < n
      && (t.open ==> log[i].at < t.first)
      && (t.locked && log[i].cause.Missed? ==> log[i].at + 900 <= Predicted(t) + PHASE_TOL + 1)
      && (t.locked && log[i].cause.Seen? ==> log[i].cause.last + 900 <= Predicted(t))
  }

  /** Closing a burst puts the next prediction most of a period past its end, or changes nothing if it is rejected. */
  lemma CloseBurstPredicts(t: Tracker, n: int)
    requires 0 <= n && Noted(t, n) && Complete(t, n)
    ensures !CloseBurst(t).open
    ensures Accepts(t) ==> t.last + 900 <= Predicted(CloseBurst(t))
    ensures !Accepts(t) ==> CloseBurst(t) == t.(open := false)
  {
    if t.locked { LockedCloseIsNear(t, n); }
  }

  lemma SettleLogs(r: Run, n: int)
    requires 0 <= n && Noted(r.tracker, n)
    requires LogOk(r.log) && Ahead(r.tracker, r.log, n)
    ensures var r' := Settle(r, n); LogOk(r'.log) && Ahead(r'.tracker, r'.log, n + 1)
    ensures var r' := Settle(r, n); Overdue(r'.tracker, n) ==> r'.log == r.log && Ahead(r'.tracker, r'.log, n)
  {
    if Complete(r.tracker, n) {
      CloseBurstPredicts(r.tracker, n);
      hide CloseBurst, Predicted, Phase;
      assert Accepts(r.tracker) ==> EntryOk(SeenEntry(r.tracker, n));
    }
  }

  lemma ExpectLogs(r: Run, n: int)
    requires 0 <= n && Noted(r.tracker, n) && !Complete(r.tracker, n)
    requires LogOk(r.log) && Ahead(r.tracker, r.log, n + 1)
    requires Overdue(r.tracker, n) ==> Ahead(r.tracker, r.log, n)
    ensures var r' := Expect(r, n); LogOk(r'.log) && Ahead(r'.tracker, r'.log, n + 1)
  {
  }
}
