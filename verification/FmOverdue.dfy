/** What becomes of a prediction: its burst shows, or it is missed and that is noticed, at once or late, or a
    strong burst off phase takes its place and it is never noticed at all. */
module FmOverdue {
  import opened FmDetect
  import opened FmTracker
  import opened Options
  import opened FmSchedule
  import opened FmClusters
  import opened FmDelivery

  /** How late a missed burst may be noticed for its whole interval to be honoured. */
  const MISS_SLACK := LEAD - PRED_HALF

  /** A rejected cluster that was open when the tolerance ran out, and still too late for the interval. */
  ghost predicate RejectedLate(c: Cluster, pred: int) {
    !c.accepted && c.first <= pred + PHASE_TOL + 1 && pred + MISS_SLACK <= c.at
  }

  lemma DueBefore(flags: seq<bool>, j: nat)
    requires QuietStart(flags) && j < |After(flags).log|
    ensures After(flags).log[j].at < |flags|
  {
    hide After;
    LogInvariant(flags);
  }

  /** One frame that notices a miss leaves no cluster open; if that is later than it could be, it has just closed
      one that was open when the tolerance ran out, and rejected it. */
  lemma StepMissed(r: Run, n: int, outlier: bool, k: nat)
    requires 0 <= n && Steady(r.tracker, n) && (outlier ==> n > HALF)
    requires PeriodOk(Settle(r.(tracker := Note(r.tracker, n, outlier)), n).tracker.period)
    requires var r' := Track(r, n, outlier); |r.log| <= k < |r'.log| && r'.log[k].cause.Missed?
    ensures var r' := Track(r, n, outlier); var pred := r'.log[k].cause.pred;
      && !r'.tracker.open && n > pred + PHASE_TOL
      && (n > pred + PHASE_TOL + 1 ==>
            && |r'.clusters| == |r.clusters| + 1
            && var c := r'.clusters[|r.clusters|]; c.at == n && !c.accepted && c.first <= pred + PHASE_TOL + 1)
  {
    NoteKeeps(r.tracker, n, outlier);
    var noted := r.(tracker := Note(r.tracker, n, outlier));
    SettledMissed(noted, n);
    var settled := Settle(noted, n);
    assert Track(r, n, outlier) == Expect(settled, n);
    assert r.tracker.open ==> Predicted(noted.tracker) == Predicted(r.tracker);
    hide Settle, Predicted;
  }

  lemma SettledMissed(noted: Run, n: int)
    requires 0 <= n && Noted(noted.tracker, n)
    ensures PeriodOk(Settle(noted, n).tracker.period)
    ensures var settled := Settle(noted, n); Overdue(settled.tracker, n) ==>
      && settled.log == noted.log
      && Predicted(settled.tracker) == Predicted(noted.tracker) && noted.tracker.locked
      && if Complete(noted.tracker, n) then settled.clusters == noted.clusters + [ClusterOf(noted.tracker, n)] && !Accepts(noted.tracker)
         else settled == noted
  {
    SettleKeeps(noted, n);
    if Complete(noted.tracker, n) {
      CloseBurstPredicts(noted.tracker, n);
      hide CloseBurst;
    }
  }

  /** The entry for a miss is logged by the frame that notices it. */
  lemma EntryAppended(flags: seq<bool>, k: nat)
    requires QuietStart(flags) && k < |After(flags).log|
    ensures var n := After(flags).log[k].at;
      && 0 <= n < |flags|
      && |After(flags[..n]).log| <= k < |After(flags[..n + 1]).log|
      && After(flags[..n + 1]).log[k] == After(flags).log[k]
      && After(flags[..n + 1]).clusters <= After(flags).clusters
  {
    hide After;
    var n := After(flags).log[k].at;
    DueBefore(flags, k);
    LogInvariant(flags);
    assert EntryOk(After(flags).log[k]);
    LogGrows(flags, n);
    LogGrows(flags, n + 1);
    if k < |After(flags[..n]).log| {
      DueBefore(flags[..n], k);
    }
  }

  lemma NoticedWhenShut(flags: seq<bool>, k: nat)
    requires QuietStart(flags) && k < |After(flags).log| && After(flags).log[k].cause.Missed?
    ensures var e := After(flags).log[k]; var pred := e.cause.pred;
      && 0 <= e.at < |flags| && e.at > pred + PHASE_TOL && !After(flags[..e.at + 1]).tracker.open
      && (e.at > pred + PHASE_TOL + 1 ==>
            exists c :: c in After(flags).clusters && c.at == e.at && !c.accepted && c.first <= pred + PHASE_TOL + 1)
  {
    hide After, Track, Settle, Note, Steady, PeriodOk;
    EntryAppended(flags, k);
    var n := After(flags).log[k].at;
    var pre := flags[..n + 1];
    assert pre[..n] == flags[..n];
    AfterStep(pre);
    StepMissed(After(pre[..n]), n, pre[n], k);
  }

  /** A cluster that is not closed yet is not among those closed so far. */
  lemma NotYetClosed(cs: seq<Cluster>, flags: seq<bool>, k: nat, cs': seq<Cluster>, pre: seq<bool>)
    requires QuietStart(flags) && QuietStart(pre) && ClustersOk(cs, flags) && ClustersOk(cs', pre)
    requires k < |cs| && cs' <= cs && |pre| <= cs[k].at
    ensures !InCluster(cs', cs[k].first)
  {
    hide ClustersOk;
    forall j | 0 <= j < |cs'| ensures !(cs'[j].first <= cs[k].first <= cs'[j].last) {
      ClusterBounds(cs, flags, k);
      ClusterBounds(cs', pre, j);
      if j < k {
        ClustersApart(cs, flags, j, k);
      } else if k < j {
        ClustersApart(cs, flags, k, j);
      }
    }
  }

  lemma ClosedAndCovered(flags: seq<bool>)
    requires QuietStart(flags)
    ensures ClustersOk(After(flags).clusters, flags) && Covered(After(flags), flags)
  {
    hide After;
    AllAccounted(flags);
  }

  lemma QuietPrefixStart(flags: seq<bool>, n: nat)
    requires QuietStart(flags) && n <= |flags|
    ensures QuietStart(flags[..n]) && forall f :: 0 <= f < n ==> flags[..n][f] == flags[f]
  {
  }

  /** From its first outlier until it is closed, a cluster is open. */
  lemma OpenUntilClosed(flags: seq<bool>, c: Cluster, n: int)
    requires QuietStart(flags) && c in After(flags).clusters && c.first <= n < c.at
    ensures 0 <= n < |flags| && QuietStart(flags[..n + 1]) && After(flags[..n + 1]).tracker.open
  {
    hide *;
    var cs := After(flags).clusters;
    ClosedAndCovered(flags);
    var k :| 0 <= k < |cs| && cs[k] == c;
    ClusterBounds(cs, flags, k);
    var pre := flags[..n + 1];
    QuietPrefixStart(flags, n + 1);
    ClosedAndCovered(pre);
    LogGrows(flags, n + 1);
    NotYetClosed(cs, flags, k, After(pre).clusters, pre);
    CoveredOpen(After(pre), pre, c.first);
  }

  lemma CoveredOpen(r: Run, flags: seq<bool>, f: nat)
    requires Covered(r, flags) && f < |flags| && flags[f] && !InCluster(r.clusters, f)
    ensures r.tracker.open
  {
  }

  /** A miss is noticed too late for the whole interval if and only if a cluster held it up. */
  lemma NoticedLate(flags: seq<bool>, k: nat)
    requires QuietStart(flags) && k < |After(flags).log| && After(flags).log[k].cause.Missed?
    ensures var e := After(flags).log[k];
      e.at >= e.cause.pred + MISS_SLACK <==> exists c :: c in After(flags).clusters && RejectedLate(c, e.cause.pred)
  {
    hide After;
    NoticedWhenShut(flags, k);
    var e := After(flags).log[k];
    if e.at < e.cause.pred + MISS_SLACK {
      forall c | c in After(flags).clusters ensures !RejectedLate(c, e.cause.pred) {
        if c.first <= e.at < c.at {
          OpenUntilClosed(flags, c, e.at);
        }
      }
    }
  }

  // ----- The fate of a prediction -----

  ghost predicate LockedTo(t: Tracker, pred: int) {
    t.locked && Predicted(t) == pred
  }

  function MissedAt(pred: int, n: int): Entry {
    Entry(Blank(pred - PRED_HALF, pred + PRED_HALF), n, Missed(pred))
  }

  /** One frame more: a cluster is open, and nothing has happened. */
  ghost predicate Waits(r: Run, r': Run, pred: int) {
    r'.tracker.open && r'.log == r.log && r'.clusters == r.clusters && LockedTo(r'.tracker, pred)
  }

  /** One cluster more was closed, by frame n, and it was open when the tolerance ran out. */
  ghost predicate ClosedOne(r: Run, r': Run, n: int, pred: int) {
    && r.clusters <= r'.clusters && |r'.clusters| == |r.clusters| + 1
    && var c := r'.clusters[|r.clusters|]; c.at == n && c.first <= pred + PHASE_TOL + 1
  }

  /** The burst is noticed as missed, perhaps on rejecting a cluster. */
  ghost predicate Notices(r: Run, r': Run, n: int, pred: int) {
    && !r'.tracker.open && r'.log == r.log + [MissedAt(pred, n)]
    && (r'.clusters == r.clusters || (ClosedOne(r, r', n, pred) && !r'.clusters[|r.clusters|].accepted))
    && (n > pred + PHASE_TOL + 1 ==> r'.clusters != r.clusters)
  }

  /** A cluster is accepted in its place: the burst itself, or one off phase. */
  ghost predicate Accepted(r: Run, r': Run, n: int, pred: int) {
    && !r'.tracker.open && ClosedOne(r, r', n, pred)
    && var c := r'.clusters[|r.clusters|];
       c.accepted && c.phase == Some((c.first + c.last) / 2 - pred) && (n < pred + MISS_SLACK ==> OnPhase(c.phase))
  }

  lemma NothingClosed(noted: Run, n: int, pred: int)
    requires 0 <= n && Noted(noted.tracker, n) && LockedTo(noted.tracker, pred) && n > pred + PHASE_TOL && pred >= 1050
    requires !Complete(noted.tracker, n) && (!noted.tracker.open ==> n <= pred + PHASE_TOL + 1)
    ensures PeriodOk(Settle(noted, n).tracker.period)
    ensures var r' := Expect(Settle(noted, n), n); Waits(noted, r', pred) || Notices(noted, r', n, pred)
  {
    hide CloseBurst, Predicted;
  }

  lemma OpenInTime(t: Tracker, n: int, pred: int)
    requires Noted(t, n) && LockedTo(t, pred) && t.open
    ensures t.first <= pred + PHASE_TOL + 1
  {
  }

  lemma ClosesRejected(noted: Run, n: int, pred: int)
    requires 0 <= n && Noted(noted.tracker, n) && LockedTo(noted.tracker, pred) && n > pred + PHASE_TOL && pred >= 1050
    requires Complete(noted.tracker, n) && !Accepts(noted.tracker)
    ensures PeriodOk(Settle(noted, n).tracker.period)
    ensures Notices(noted, Expect(Settle(noted, n), n), n, pred)
  {
    SettleKeeps(noted, n);
    CloseBurstPredicts(noted.tracker, n);
    OpenInTime(noted.tracker, n, pred);
    hide CloseBurst, Accepts, Phase, Noted;
  }

  /** Before it is too late for the missed burst's interval, only a cluster on phase can be closed and accepted. */
  lemma EarlyIsOnPhase(t: Tracker, n: int, pred: int)
    requires Noted(t, n) && LockedTo(t, pred) && Complete(t, n) && pred + PHASE_TOL < n < pred + MISS_SLACK
    ensures OnPhase(Phase(t))
  {
  }

  lemma ClosesAccepted(noted: Run, n: int, pred: int)
    requires 0 <= n && Noted(noted.tracker, n) && LockedTo(noted.tracker, pred) && n > pred + PHASE_TOL && pred >= 1050
    requires Complete(noted.tracker, n) && Accepts(noted.tracker)
    ensures PeriodOk(Settle(noted, n).tracker.period)
    ensures Accepted(noted, Expect(Settle(noted, n), n), n, pred)
  {
    SettleKeeps(noted, n);
    CloseBurstPredicts(noted.tracker, n);
    OpenInTime(noted.tracker, n, pred);
    if n < pred + MISS_SLACK { EarlyIsOnPhase(noted.tracker, n, pred); }
    hide CloseBurst, Accepts, OnPhase, Noted;
  }

  lemma LockedLate(t: Tracker, n: int, pred: int)
    requires 0 <= n && Steady(t, n) && LockedTo(t, pred)
    ensures pred >= 1050
  {
  }

  lemma NotePredicts(t: Tracker, n: int, outlier: bool, pred: int)
    requires Steady(t, n) && LockedTo(t, pred)
    ensures var t' := Note(t, n, outlier); LockedTo(t', pred) && (!t'.open ==> n <= pred + PHASE_TOL + 1)
  {
  }

  /** Past the tolerance, a frame does one of these. */
  lemma StepLocked(r: Run, n: int, outlier: bool, pred: int)
    requires 0 <= n && Steady(r.tracker, n) && (outlier ==> n > HALF)
    requires PeriodOk(Settle(r.(tracker := Note(r.tracker, n, outlier)), n).tracker.period)
    requires LockedTo(r.tracker, pred) && n > pred + PHASE_TOL
    ensures var r' := Track(r, n, outlier); Waits(r, r', pred) || Notices(r, r', n, pred) || Accepted(r, r', n, pred)
  {
    hide Steady, Noted, LockedTo, Settle, Expect, Note, Complete, Accepts, PeriodOk;
    NoteKeeps(r.tracker, n, outlier);
    NotePredicts(r.tracker, n, outlier, pred);
    LockedLate(r.tracker, n, pred);
    var noted := r.(tracker := Note(r.tracker, n, outlier));
    if !Complete(noted.tracker, n) {
      NothingClosed(noted, n, pred);
    } else if Accepts(noted.tracker) {
      ClosesAccepted(noted, n, pred);
    } else {
      ClosesRejected(noted, n, pred);
    }
  }

  /** The run after n frames of flags. */
  ghost function Upto(flags: seq<bool>, n: nat): Run
    requires QuietStart(flags) && n <= |flags|
  {
    QuietPrefixStart(flags, n);
    After(flags[..n])
  }

  lemma UptoNext(flags: seq<bool>, n: nat)
    requires QuietStart(flags) && n < |flags|
    ensures var r := Upto(flags, n);
      && Steady(r.tracker, n) && (flags[n] ==> n > HALF)
      && PeriodOk(Settle(r.(tracker := Note(r.tracker, n, flags[n])), n).tracker.period)
      && Upto(flags, n + 1) == Track(r, n, flags[n])
  {
    hide After, Track, Settle, Note, Steady, PeriodOk;
    QuietPrefixStart(flags, n + 1);
    assert flags[..n + 1][..n] == flags[..n];
    AfterStep(flags[..n + 1]);
  }

  /** The run is waiting: past the tolerance, still locked to this prediction, with a cluster open. */
  ghost predicate Waiting(r: Run, pred: int, log: seq<Entry>, n: int) {
    LockedTo(r.tracker, pred) && r.log == log && (n > pred + PHASE_TOL + 1 ==> r.tracker.open)
  }

  ghost predicate WaitingFrom(flags: seq<bool>, pred: int, log: seq<Entry>, lo: nat, hi: nat)
    requires QuietStart(flags) && hi <= |flags|
  {
    forall m: nat :: lo <= m <= hi ==> Waiting(Upto(flags, m), pred, log, m)
  }

  /** At the latest when the cluster is too long, the prediction is resolved, by frame e. */
  lemma {:induction false} Resolved(flags: seq<bool>, pred: int, n: nat, log: seq<Entry>) returns (e: nat)
    requires QuietStart(flags) && |flags| > pred + LATEST_MISS && pred >= 0
    requires pred + PHASE_TOL < n <= |flags| && Waiting(Upto(flags, n), pred, log, n)
    ensures n <= e <= pred + LATEST_MISS && e < |flags|
    ensures WaitingFrom(flags, pred, log, n, e)
    ensures Notices(Upto(flags, e), Upto(flags, e + 1), e, pred) || Accepted(Upto(flags, e), Upto(flags, e + 1), e, pred)
    decreases pred + LATEST_MISS + 1 - n
  {
    hide Upto, Notices, Accepted, Waiting, WaitingFrom;
    WaitingEnds(flags, pred, n, log);
    NextFrame(flags, pred, n, log);
    if Waiting(Upto(flags, n + 1), pred, log, n + 1) && n < pred + LATEST_MISS {
      e := Resolved(flags, pred, n + 1, log);
      WaitingLonger(flags, pred, log, n, e);
    } else {
      WaitingNow(flags, pred, log, n);
      e := n;
      if Waiting(Upto(flags, n + 1), pred, log, n + 1) {
        WaitingEnds(flags, pred, n + 1, log);
      }
    }
  }

  lemma NextFrame(flags: seq<bool>, pred: int, n: nat, log: seq<Entry>)
    requires QuietStart(flags) && 0 <= pred && pred + PHASE_TOL < n < |flags| && Waiting(Upto(flags, n), pred, log, n)
    ensures || Waiting(Upto(flags, n + 1), pred, log, n + 1)
            || Notices(Upto(flags, n), Upto(flags, n + 1), n, pred)
            || Accepted(Upto(flags, n), Upto(flags, n + 1), n, pred)
  {
    hide Upto, Track, Settle, Note, Steady, PeriodOk, LockedTo, Notices, Accepted;
    UptoNext(flags, n);
    StepLocked(Upto(flags, n), n, flags[n], pred);
  }

  lemma WaitingNow(flags: seq<bool>, pred: int, log: seq<Entry>, n: nat)
    requires QuietStart(flags) && n <= |flags| && Waiting(Upto(flags, n), pred, log, n)
    ensures WaitingFrom(flags, pred, log, n, n)
  {
    hide Upto, Waiting;
  }

  lemma WaitingLonger(flags: seq<bool>, pred: int, log: seq<Entry>, n: nat, e: nat)
    requires QuietStart(flags) && n < e <= |flags| && Waiting(Upto(flags, n), pred, log, n) && WaitingFrom(flags, pred, log, n + 1, e)
    ensures WaitingFrom(flags, pred, log, n, e)
  {
    hide Upto, Waiting;
  }

  lemma WaitingEnds(flags: seq<bool>, pred: int, n: nat, log: seq<Entry>)
    requires QuietStart(flags) && n <= |flags| && Waiting(Upto(flags, n), pred, log, n)
    ensures n <= pred + LATEST_MISS
  {
    hide After;
    var t := Upto(flags, n).tracker;
    assert Steady(t, n);
  }

  // ----- Whether it is honoured -----

  /** The predicted burst showed: a cluster on phase with this prediction, open when the tolerance ran out, was accepted. */
  ghost predicate Showed(clusters: seq<Cluster>, pred: int) {
    exists c :: c in clusters && c.accepted && OnPhase(c.phase) && c.phase == Some((c.first + c.last) / 2 - pred)
      && c.first <= pred + PHASE_TOL + 1 <= c.at
  }

  /** Some other cluster, rejected or off phase, was open when the tolerance ran out, and still too late for the interval. */
  ghost predicate HeldOpen(c: Cluster, pred: int) {
    !(c.accepted && OnPhase(c.phase)) && c.first <= pred + PHASE_TOL + 1 && pred + MISS_SLACK <= c.at
  }

  /** Only one cluster is there at a time. */
  lemma OneAtATime(flags: seq<bool>, c: Cluster, c': Cluster, n: int)
    requires QuietStart(flags) && c in After(flags).clusters && c' in After(flags).clusters
    requires c.first <= n <= c.at && c'.first <= n <= c'.at
    ensures c == c'
  {
    hide *;
    ClosedAndCovered(flags);
    var cs := After(flags).clusters;
    var j :| 0 <= j < |cs| && cs[j] == c;
    var k :| 0 <= k < |cs| && cs[k] == c';
    if j < k {
      ClustersApart(cs, flags, j, k);
    } else if k < j {
      ClustersApart(cs, flags, k, j);
    }
  }

  lemma UptoGrows(flags: seq<bool>, n: nat)
    requires QuietStart(flags) && n <= |flags|
    ensures Upto(flags, n).log <= After(flags).log && Upto(flags, n).clusters <= After(flags).clusters
  {
    hide After;
    LogGrows(flags, n);
  }

  lemma OpenUpto(flags: seq<bool>, c: Cluster, n: nat)
    requires QuietStart(flags) && c in After(flags).clusters && c.first <= n < c.at && n < |flags|
    ensures Upto(flags, n + 1).tracker.open
  {
    hide After;
    OpenUntilClosed(flags, c, n);
  }

  /** A cluster closed by frame e is one that this frame added. */
  lemma ClosedBy(flags: seq<bool>, c: Cluster, e: nat)
    requires QuietStart(flags) && c in After(flags).clusters && c.at == e < |flags|
    requires |Upto(flags, e + 1).clusters| <= |Upto(flags, e).clusters| + 1
    ensures |Upto(flags, e + 1).clusters| == |Upto(flags, e).clusters| + 1
    ensures c == Upto(flags, e + 1).clusters[|Upto(flags, e).clusters|]
  {
    hide After, ClustersOk, Covered, QuietStart;
    QuietPrefixStart(flags, e + 1);
    LogGrows(flags, e);
    LogGrows(flags, e + 1);
    var k :| 0 <= k < |After(flags).clusters| && After(flags).clusters[k] == c;
    QuietPrefixStart(flags, e);
    ClosedAndCovered(flags[..e]);
    if k < |Upto(flags, e).clusters| {
      ClusterBounds(Upto(flags, e).clusters, flags[..e], k);
    }
  }

  /** A cluster that was open when the tolerance ran out is closed by the frame that resolves the prediction. */
  lemma ClosedInTurn(flags: seq<bool>, pred: int, e: nat, c: Cluster)
    requires QuietStart(flags) && 0 <= pred && pred + PHASE_TOL < e < |flags|
    requires WaitingFrom(flags, pred, Upto(flags, pred + PHASE_TOL + 1).log, pred + PHASE_TOL + 1, e)
    requires !Upto(flags, e + 1).tracker.open
    requires c in After(flags).clusters && c.first <= pred + PHASE_TOL + 1 <= c.at
    ensures c.at == e
  {
    hide Upto, After, WaitingFrom;
    if c.at > e {
      OpenUpto(flags, c, e);
    }
    if c.at < e {
      WaitingAt(flags, pred, e, c.at + 1);
      ShutWhenClosed(flags, c);
    }
  }

  lemma WaitingAt(flags: seq<bool>, pred: int, e: nat, m: nat)
    requires QuietStart(flags) && 0 <= pred && pred + PHASE_TOL < e < |flags| && pred + PHASE_TOL + 1 < m <= e
    requires WaitingFrom(flags, pred, Upto(flags, pred + PHASE_TOL + 1).log, pred + PHASE_TOL + 1, e)
    ensures Upto(flags, m).tracker.open
  {
    hide Upto;
    assert Waiting(Upto(flags, m), pred, Upto(flags, pred + PHASE_TOL + 1).log, m);
  }

  lemma ClusterInRun(flags: seq<bool>, k: nat)
    requires QuietStart(flags) && k < |After(flags).clusters|
    ensures 0 <= After(flags).clusters[k].first <= After(flags).clusters[k].at < |flags|
  {
    hide After;
    ClosedAndCovered(flags);
    ClusterBounds(After(flags).clusters, flags, k);
  }

  lemma AddedBy(flags: seq<bool>, c: Cluster)
    requires QuietStart(flags) && c in After(flags).clusters
    ensures 0 <= c.at < |flags| && |Upto(flags, c.at).clusters| < |Upto(flags, c.at + 1).clusters|
  {
    hide After;
    var k :| 0 <= k < |After(flags).clusters| && After(flags).clusters[k] == c;
    ClusterInRun(flags, k);
    LogGrows(flags, c.at);
    LogGrows(flags, c.at + 1);
    QuietPrefixStart(flags, c.at);
    if k < |Upto(flags, c.at).clusters| {
      ClusterInRun(flags[..c.at], k);
    }
  }

  /** The frame that closes a cluster leaves none open. */
  lemma ShutWhenClosed(flags: seq<bool>, c: Cluster)
    requires QuietStart(flags) && c in After(flags).clusters
    ensures 0 <= c.at < |flags| && !Upto(flags, c.at + 1).tracker.open
  {
    hide *;
    AddedBy(flags, c);
    UptoNext(flags, c.at);
    StepCloses(Upto(flags, c.at), c.at, flags[c.at]);
  }

  lemma StepCloses(r: Run, n: int, outlier: bool)
    requires 0 <= n && Steady(r.tracker, n) && (outlier ==> n > HALF)
    requires PeriodOk(Settle(r.(tracker := Note(r.tracker, n, outlier)), n).tracker.period)
    ensures var r' := Track(r, n, outlier); r'.clusters != r.clusters ==> !r'.tracker.open
  {
    hide Nudge, Predicted;
  }

  lemma NoticedFate(flags: seq<bool>, pred: int, e: nat)
    requires QuietStart(flags) && pred + PHASE_TOL < e < |flags| && 0 <= pred
    requires WaitingFrom(flags, pred, Upto(flags, pred + PHASE_TOL + 1).log, pred + PHASE_TOL + 1, e)
    requires Notices(Upto(flags, e), Upto(flags, e + 1), e, pred)
    ensures var cs := After(flags).clusters;
      && MissedAt(pred, e) in After(flags).log && !Showed(cs, pred)
      && ((exists c :: c in cs && HeldOpen(c, pred)) <==> e >= pred + MISS_SLACK)
  {
    hide Upto, After, WaitingFrom;
    UptoGrows(flags, e + 1);
    var r, r', cs := Upto(flags, e), Upto(flags, e + 1), After(flags).clusters;
    assert r'.log[|r.log|] == MissedAt(pred, e) && After(flags).log[|r.log|] == r'.log[|r.log|];
    forall c | c in cs && c.first <= pred + PHASE_TOL + 1 <= c.at ensures c.at == e && !c.accepted {
      ClosedInTurn(flags, pred, e, c);
      ClosedBy(flags, c, e);
    }
    if e > pred + PHASE_TOL + 1 {
      assert cs[|r.clusters|] == r'.clusters[|r.clusters|] && cs[|r.clusters|] in cs;
    }
  }

  lemma AcceptedFate(flags: seq<bool>, pred: int, e: nat)
    requires QuietStart(flags) && pred + PHASE_TOL < e < |flags| && 0 <= pred
    requires WaitingFrom(flags, pred, Upto(flags, pred + PHASE_TOL + 1).log, pred + PHASE_TOL + 1, e)
    requires Accepted(Upto(flags, e), Upto(flags, e + 1), e, pred)
    ensures var cs := After(flags).clusters;
      && (Showed(cs, pred) || e >= pred + MISS_SLACK)
      && ((exists c :: c in cs && HeldOpen(c, pred)) <==> !Showed(cs, pred))
  {
    hide Upto, After, WaitingFrom;
    UptoGrows(flags, e + 1);
    var r, r', cs := Upto(flags, e), Upto(flags, e + 1), After(flags).clusters;
    var d := r'.clusters[|r.clusters|];
    assert cs[|r.clusters|] == d && d in cs;
    forall c | c in cs && c.first <= pred + PHASE_TOL + 1 <= c.at ensures c == d {
      ClosedInTurn(flags, pred, e, c);
      ClosedBy(flags, c, e);
    }
  }

  /** What becomes of a prediction the tracker is still locked to when its tolerance runs out. Frame e resolves it.
      Either that is a miss, logged then, or a cluster is accepted in its place: the burst itself, or one off phase,
      and then it is too late for the interval. A cluster that was not the burst held it up exactly if the miss is
      noticed too late or never. */
  ghost predicate Fate(flags: seq<bool>, pred: int, e: nat)
    requires QuietStart(flags) && pred + PHASE_TOL < |flags| && 0 <= pred
  {
    var cs := After(flags).clusters;
    && pred + PHASE_TOL < e <= pred + LATEST_MISS && e < |flags|
    && WaitingFrom(flags, pred, Upto(flags, pred + PHASE_TOL + 1).log, pred + PHASE_TOL + 1, e)
    && (|| (MissedAt(pred, e) in After(flags).log && !Showed(cs, pred)
            && ((exists c :: c in cs && HeldOpen(c, pred)) <==> e >= pred + MISS_SLACK))
        || ((Showed(cs, pred) || e >= pred + MISS_SLACK)
            && ((exists c :: c in cs && HeldOpen(c, pred)) <==> !Showed(cs, pred))))
  }

  lemma PredictionFate(flags: seq<bool>, pred: int) returns (e: nat)
    requires QuietStart(flags) && |flags| > pred + LATEST_MISS && 0 <= pred
    requires LockedTo(Upto(flags, pred + PHASE_TOL + 1).tracker, pred)
    ensures Fate(flags, pred, e)
  {
    hide Upto, After, WaitingFrom, LockedTo, HeldOpen, Showed, Notices, Accepted;
    e := Resolved(flags, pred, pred + PHASE_TOL + 1, Upto(flags, pred + PHASE_TOL + 1).log);
    if Notices(Upto(flags, e), Upto(flags, e + 1), e, pred) {
      NoticedFate(flags, pred, e);
    } else {
      AcceptedFate(flags, pred, e);
    }
  }

  // ----- Before its tolerance runs out -----

  lemma StepPredicts(r: Run, n: int, outlier: bool, pred: int)
    requires 0 <= n && Steady(r.tracker, n) && (outlier ==> n > HALF)
    requires PeriodOk(Settle(r.(tracker := Note(r.tracker, n, outlier)), n).tracker.period)
    requires LockedTo(r.tracker, pred) && n <= pred + PHASE_TOL
    ensures var r' := Track(r, n, outlier);
      || LockedTo(r'.tracker, pred)
      || (&& r.clusters <= r'.clusters && |r'.clusters| == |r.clusters| + 1
          && var c := r'.clusters[|r.clusters|]; c.accepted && c.at == n && c.phase == Some((c.first + c.last) / 2 - pred))
  {
    NoteKeeps(r.tracker, n, outlier);
    NotePredicts(r.tracker, n, outlier, pred);
    var noted := r.(tracker := Note(r.tracker, n, outlier));
    SettleKeeps(noted, n);
    if Complete(noted.tracker, n) {
      CloseBurstPredicts(noted.tracker, n);
    }
    hide CloseBurst, Note, Noted, Steady, Nudge;
  }

  /** A cluster closed from frame lo on and before hi was accepted, on or off phase with this prediction. */
  ghost predicate GivenUp(clusters: seq<Cluster>, pred: int, lo: nat, hi: nat) {
    exists c :: c in clusters && c.accepted && lo <= c.at < hi && c.phase == Some((c.first + c.last) / 2 - pred)
  }

  lemma KeptOneFrame(flags: seq<bool>, pred: int, n: nat)
    requires QuietStart(flags) && n < |flags| && n <= pred + PHASE_TOL && LockedTo(Upto(flags, n).tracker, pred)
    ensures LockedTo(Upto(flags, n + 1).tracker, pred) || GivenUp(After(flags).clusters, pred, n, n + 1)
  {
    hide Upto, After, LockedTo, Track, Settle, Note, Steady, PeriodOk;
    UptoNext(flags, n);
    StepPredicts(Upto(flags, n), n, flags[n], pred);
    UptoGrows(flags, n + 1);
    var r, r', cs := Upto(flags, n), Upto(flags, n + 1), After(flags).clusters;
    if !LockedTo(r'.tracker, pred) {
      assert cs[|r.clusters|] == r'.clusters[|r.clusters|] && cs[|r.clusters|] in cs;
    }
  }

  lemma GivenUpWider(clusters: seq<Cluster>, pred: int, lo: nat, lo': nat, hi: nat, hi': nat)
    requires GivenUp(clusters, pred, lo, hi) && lo' <= lo && hi <= hi'
    ensures GivenUp(clusters, pred, lo', hi')
  {
  }

  /** Until then a prediction is given up for one reason only: an accepted cluster, whose phase is its distance from it. */
  lemma {:induction false} PredictionKept(flags: seq<bool>, pred: int, lo: nat, hi: nat)
    requires QuietStart(flags) && lo <= hi <= |flags| && hi <= pred + PHASE_TOL + 1
    requires LockedTo(Upto(flags, lo).tracker, pred)
    ensures LockedTo(Upto(flags, hi).tracker, pred) || GivenUp(After(flags).clusters, pred, lo, hi)
    decreases hi
  {
    hide Upto, After, LockedTo, GivenUp;
    if lo < hi {
      PredictionKept(flags, pred, lo, hi - 1);
      if LockedTo(Upto(flags, hi - 1).tracker, pred) {
        KeptOneFrame(flags, pred, hi - 1);
        if GivenUp(After(flags).clusters, pred, hi - 1, hi) {
          GivenUpWider(After(flags).clusters, pred, hi - 1, lo, hi, hi);
        }
      } else {
        GivenUpWider(After(flags).clusters, pred, lo, lo, hi - 1, hi);
      }
    }
  }
}
