/** What a whole run of the tracker has scheduled: the log of blank intervals is well spaced,
    grows only at its end, and accounts for every outlier. */
module FmSchedule {
  import opened FmDetect
  import opened FmTracker

  lemma TrackLogs(r: Run, n: int, outlier: bool)
    requires 0 <= n && Steady(r.tracker, n) && (outlier ==> n > HALF)
    requires LogOk(r.log) && Ahead(r.tracker, r.log, n)
    ensures PeriodOk(Settle(r.(tracker := Note(r.tracker, n, outlier)), n).tracker.period)
    ensures var r' := Track(r, n, outlier); LogOk(r'.log) && Ahead(r'.tracker, r'.log, n + 1)
  {
    TrackKeeps(r, n, outlier);
    NoteKeeps(r.tracker, n, outlier);
    var noted := r.(tracker := Note(r.tracker, n, outlier));
    SettleLogs(noted, n);
    SettleKeeps(noted, n);
    ExpectLogs(Settle(noted, n), n);
  }

  lemma EmptyLog(flags: seq<bool>)
    requires flags == []
    ensures var r := After(flags); LogOk(r.log) && Ahead(r.tracker, r.log, 0)
  {
  }

  /** On every run every scheduled interval is where its cause puts it and was scheduled in time,
      seen bursts never overlap and missed ones are at least 900 frames apart. */
  lemma {:induction false} LogInvariant(flags: seq<bool>)
    requires QuietStart(flags)
    ensures var r := After(flags); LogOk(r.log) && Ahead(r.tracker, r.log, |flags|)
  {
    hide After, LogOk, Ahead, Track, Settle, Note, PeriodOk, Steady;
    if flags == [] {
      EmptyLog(flags);
    } else {
      var n := |flags| - 1;
      LogInvariant(flags[..n]);
      AfterStep(flags);
      TrackLogs(After(flags[..n]), n, flags[n]);
    }
  }

  /** The same in numbers. */
  lemma LogInNumbers(flags: seq<bool>, k: nat)
    requires QuietStart(flags) && k < |After(flags).log|
    ensures var e := After(flags).log[k];
      match e.cause
      case Seen(f, l) => e.blank == Blank(f - 6, l + 6) && 7 < f < l && f + 51 <= e.at <= f + 121
      case Missed(p) => e.blank == Blank(p - 30, p + 30) && 1050 <= p && p + 151 <= e.at <= p + 272
  {
    hide After;
    LogInvariant(flags);
    assert EntryOk(After(flags).log[k]);
  }

  lemma TrackAppends(r: Run, n: int, outlier: bool)
    requires 0 <= n && Steady(r.tracker, n) && (outlier ==> n > HALF)
    ensures PeriodOk(Settle(r.(tracker := Note(r.tracker, n, outlier)), n).tracker.period)
    ensures var r' := Track(r, n, outlier);
            && r.log <= r'.log && (forall i :: |r.log| <= i < |r'.log| ==> r'.log[i].at == n)
            && r.clusters <= r'.clusters && (forall i :: |r.clusters| <= i < |r'.clusters| ==> r'.clusters[i].at == n)
  {
    TrackKeeps(r, n, outlier);
  }

  /** Running on only appends to the log and to the clusters, and only what was scheduled or closed from then on. */
  lemma {:induction false} LogGrows(flags: seq<bool>, k: nat)
    requires QuietStart(flags) && k <= |flags|
    ensures After(flags[..k]).log <= After(flags).log
    ensures forall i :: |After(flags[..k]).log| <= i < |After(flags).log| ==> k <= After(flags).log[i].at
    ensures After(flags[..k]).clusters <= After(flags).clusters
    ensures forall i :: |After(flags[..k]).clusters| <= i < |After(flags).clusters| ==> k <= After(flags).clusters[i].at
    decreases |flags|
  {
    if k == |flags| {
      assert flags[..k] == flags;
    } else {
      var n := |flags| - 1;
      LogGrows(flags[..n], k);
      assert flags[..n][..k] == flags[..k];
      TrackAppends(After(flags[..n]), n, flags[n]);
      assert After(flags) == Track(After(flags[..n]), n, flags[n]);
    }
  }

  // ----- At most five intervals are ever pending -----

  const WINDOW := 191

  ghost predicate Recent(log: seq<Entry>, k: int, n: int) {
    0 <= k <= |log| && forall i :: k <= i < |log| ==> n - WINDOW < log[i].at <= n
  }

  /** A seen entry and the next seen one are at least 52 frames apart. */
  lemma SeenGap(log: seq<Entry>, i: int, j: int)
    requires LogOk(log) && 0 <= i < j < |log| && log[i].cause.Seen? && log[j].cause.Seen?
    ensures log[i].at + 52 <= log[j].at
  {
    assert Apart(log[i], log[j]);
  }

  /** Two missed ones are 900 frames apart. */
  lemma MissedGap(log: seq<Entry>, k: nat, i: nat, j: nat, n: nat)
    requires LogOk(log) && k <= i < j <= n < |log| && log[i].cause.Missed? && log[j].cause.Missed?
    ensures log[k].at + 900 <= log[n].at
  {
    assert Apart(log[i], log[j]);
    assert k == i || Apart(log[k], log[i]);
    assert j == n || Apart(log[j], log[n]);
  }

  /** Where the first missed entry from k on is, if it comes before n. */
  ghost function FirstMissed(log: seq<Entry>, k: nat, n: nat): (m: nat)
    requires k <= n <= |log|
    ensures k <= m <= n && (m < n ==> log[m].cause.Missed?)
    ensures forall i :: k <= i < m ==> log[i].cause.Seen?
    decreases n - k
  {
    if k == n || log[k].cause.Missed? then k else FirstMissed(log, k + 1, n)
  }

  /** Of six consecutive entries at most one was missed, unless two are 900 frames apart; five seen ones span four gaps. */
  lemma SixSpread(log: seq<Entry>, k: nat)
    requires LogOk(log) && k + 6 <= |log|
    ensures log[k].at + 208 <= log[k + 5].at
  {
    hide LogOk;
    var m := FirstMissed(log, k, k + 6);
    if m < k + 6 {
      var n := FirstMissed(log, m + 1, k + 6);
      if n < k + 6 {
        MissedGap(log, k, m, n, k + 5);
      } else {
        SpanAround(log, k, m);
      }
    } else {
      SpanAround(log, k, k + 5);
    }
  }

  lemma SpanAround(log: seq<Entry>, k: nat, m: nat)
    requires LogOk(log) && k <= m < k + 6 <= |log|
    requires forall i :: k <= i < k + 6 && i != m ==> log[i].cause.Seen?
    ensures log[k].at + 208 <= log[k + 5].at
  {
    hide *;
    var p := (i: nat) => if m <= i then i + 1 else i;
    FiveSeen(log, p(k), p(k + 1), p(k + 2), p(k + 3), p(k + 4));
    NotBefore(log, k, p(k));
    NotBefore(log, p(k + 4), k + 5);
  }

  lemma NotBefore(log: seq<Entry>, i: nat, j: nat)
    requires LogOk(log) && i <= j < |log|
    ensures log[i].at <= log[j].at
  {
    assert i == j || Apart(log[i], log[j]);
  }

  lemma FiveSeen(log: seq<Entry>, p0: nat, p1: nat, p2: nat, p3: nat, p4: nat)
    requires LogOk(log) && p0 < p1 < p2 < p3 < p4 < |log|
    requires log[p0].cause.Seen? && log[p1].cause.Seen? && log[p2].cause.Seen? && log[p3].cause.Seen? && log[p4].cause.Seen?
    ensures log[p0].at + 208 <= log[p4].at
  {
    hide LogOk;
    SeenGap(log, p0, p1);
    SeenGap(log, p1, p2);
    SeenGap(log, p2, p3);
    SeenGap(log, p3, p4);
  }

  /** In any stretch of WINDOW frames at most five intervals are scheduled. */
  lemma FewRecent(log: seq<Entry>, k: int, n: int)
    requires LogOk(log) && Recent(log, k, n)
    ensures |log| - k <= 5
  {
    if |log| - k > 5 {
      SixSpread(log, k);
    }
  }
}
