/** What the delivered stream guarantees, for every input stream. */
module FmTheorems {
  import opened FmDetect
  import opened FmTracker
  import opened Options
  import opened FmSchedule
  import opened FmClusters
  import opened FmDelivery
  import opened FmOverdue

  // ----- Causality: the output never depends on how the input is cut up -----

  lemma FlagsCausal(s: seq<Frame>, s': seq<Frame>, n: nat)
    requires s <= s' && (n == 0 || n + HALF <= |s|)
    ensures Flags(s, n) == Flags(s', n)
  {
    forall i | HALF < i < n ensures Outlier(s, i) == Outlier(s', i) {
      assert Window(s, i, 0) == Window(s', i, 0);
      assert Window(s, i, 1) == Window(s', i, 1);
    }
  }

  lemma DeliveredCausal(s: seq<Frame>, s': seq<Frame>, m: nat)
    requires s <= s' && m + DELAY < |s|
    ensures Delivered(s, m) == Delivered(s', m)
  {
    FlagsCausal(s, s', m + LEAD);
    var r := FirstCover(LogAt(s, m), m);
    if r.Some? {
      AnchorsArrived(s, m, r.value);
      InterpolatedCausal(s, s', r.value, m);
    }
  }

  lemma InterpolatedCausal(s: seq<Frame>, s': seq<Frame>, blank: Blank, m: int)
    requires s <= s' && 1 <= blank.a <= m <= blank.b < |s| - 1
    ensures Interpolated(s, blank, m) == Interpolated(s', blank, m)
  {
  }

  /** Feeding more frames never changes what was already delivered. */
  lemma OutputCausal(s: seq<Frame>, more: seq<Frame>)
    ensures Output(s) == Output(s + more)[..|s|]
  {
    forall k | DELAY <= k < |s| ensures Output(s)[k] == Output(s + more)[k] {
      DeliveredCausal(s, s + more, k - DELAY);
    }
  }

  /** What transfer calls return, one after the other, when the input comes in these pieces. */
  ghost function Transfers(sofar: seq<Frame>, pieces: seq<seq<Frame>>): seq<Frame>
    decreases |pieces|
  {
    if pieces == [] then []
    else Output(sofar + pieces[0])[|sofar|..] + Transfers(sofar + pieces[0], pieces[1..])
  }

  ghost function Concat(pieces: seq<seq<Frame>>): seq<Frame> {
    if pieces == [] then [] else pieces[0] + Concat(pieces[1..])
  }

  lemma {:induction false} TransfersFrom(sofar: seq<Frame>, pieces: seq<seq<Frame>>)
    ensures Output(sofar) + Transfers(sofar, pieces) == Output(sofar + Concat(pieces))
    decreases |pieces|
  {
    hide Output;
    if pieces == [] {
      assert sofar + Concat(pieces) == sofar;
    } else {
      var next := sofar + pieces[0];
      var later, rest := Output(next)[|sofar|..], Transfers(next, pieces[1..]);
      OutputCausal(sofar, pieces[0]);
      assert Output(sofar) + later == Output(next);
      assert Output(sofar) + (later + rest) == (Output(sofar) + later) + rest;
      TransfersFrom(next, pieces[1..]);
      assert next + Concat(pieces[1..]) == sofar + Concat(pieces);
    }
  }

  /** Any cutting of an input into transfer calls gives the same output. */
  lemma CuttingIrrelevant(pieces: seq<seq<Frame>>, pieces': seq<seq<Frame>>)
    requires Concat(pieces) == Concat(pieces')
    ensures Transfers([], pieces) == Transfers([], pieces')
  {
    TransfersFrom([], pieces);
    TransfersFrom([], pieces');
    assert [] + Concat(pieces) == Concat(pieces);
    assert [] + Concat(pieces') == Concat(pieces');
    assert Output([]) + Transfers([], pieces) == Transfers([], pieces);
    assert Output([]) + Transfers([], pieces') == Transfers([], pieces');
  }

  // ----- Repair -----

  /** Frame m is delivered by interpolation between two frames of the input, either side of a scheduled interval around it. */
  ghost predicate Repaired(s: seq<Frame>, m: nat)
    requires m + DELAY < |s|
  {
    exists blank: Blank ::
      && FirstCover(LogAt(s, m), m) == Some(blank)
      && 1 <= blank.a <= m <= blank.b < |s| - 1 && Delivered(s, m) == Interpolated(s, blank, m)
  }

  /** What a repaired frame is: on each channel, the point of the straight line between the frame before the first
      interval that covers it and the frame after that interval, at its place between them. */
  lemma RepairedOnRamp(s: seq<Frame>, m: nat)
    requires m + DELAY < |s| && Repaired(s, m)
    ensures exists k :: 0 <= k < |LogAt(s, m)| && var a, b := LogAt(s, m)[k].blank.a, LogAt(s, m)[k].blank.b;
      && 1 <= a <= m <= b < |s| - 1 && (forall j :: 0 <= j < k ==> !(LogAt(s, m)[j].blank.a <= m <= LogAt(s, m)[j].blank.b))
      && OnRamp(s[a - 1].left, s[b + 1].left, m - (a - 1), (b + 1) - (a - 1), Delivered(s, m).left)
      && OnRamp(s[a - 1].right, s[b + 1].right, m - (a - 1), (b + 1) - (a - 1), Delivered(s, m).right)
  {
    hide After, OnRamp, Blend, LogAt;
    var log := LogAt(s, m);
    var blank :| FirstCover(log, m) == Some(blank) && 1 <= blank.a <= m <= blank.b < |s| - 1 && Delivered(s, m) == Interpolated(s, blank, m);
    var k :| 0 <= k < |log| && log[k].blank == blank && forall j :: 0 <= j < k ==> !Covers(log[j].blank, m);
    var pa, pb := s[blank.a - 1], s[blank.b + 1];
    var num, den := m - (blank.a - 1), blank.b + 2 - blank.a;
    BlendOnRamp(pa.left, pb.left, num, den);
    BlendOnRamp(pa.right, pb.right, num, den);
  }

  /** Every frame is delivered repaired or as it came. */
  lemma RepairedOrRaw(s: seq<Frame>, m: nat)
    requires m + DELAY < |s|
    ensures Repaired(s, m) <==> FirstCover(LogAt(s, m), m).Some?
    ensures !Repaired(s, m) ==> Delivered(s, m) == s[m]
  {
    var r := FirstCover(LogAt(s, m), m);
    if r.Some? {
      AnchorsArrived(s, m, r.value);
      assert Delivered(s, m) == Interpolated(s, r.value, m);
    }
  }

  lemma FlagsPrefix(s: seq<Frame>, k: nat, n: nat)
    requires k <= n && n + HALF <= |s|
    ensures Flags(s, n)[..k] == Flags(s, k)
  {
  }

  lemma LogStable(s: seq<Frame>, n: nat, n': nat)
    requires n <= n' && n' + HALF <= |s|
    ensures After(Flags(s, n)).log <= After(Flags(s, n')).log
    ensures forall i :: |After(Flags(s, n)).log| <= i < |After(Flags(s, n')).log| ==> n <= After(Flags(s, n')).log[i].at
  {
    FlagsPrefix(s, n, n');
    LogGrows(Flags(s, n'), n);
  }

  /** An interval scheduled before frame m is delivered, and containing it, is honoured. */
  lemma CoveredIsRepaired(s: seq<Frame>, m: nat, k: nat)
    requires m + DELAY < |s|
    requires k < |LogAt(s, m)| && Covers(LogAt(s, m)[k].blank, m)
    ensures Repaired(s, m)
  {
    RepairedOrRaw(s, m);
  }

  /** Every frame of a seen burst's interval is due only after the burst was closed. */
  lemma ScheduledInTime(e: Entry, m: int)
    requires EntryOk(e) && e.cause.Seen? && Covers(e.blank, m)
    ensures e.at < m + LEAD
  {
  }

  lemma EntryInvariant(flags: seq<bool>, k: nat)
    requires QuietStart(flags) && k < |After(flags).log|
    ensures EntryOk(After(flags).log[k])
  {
    hide After;
    LogInvariant(flags);
  }

  /** An interval of the log that was scheduled before frame m was due is honoured at m. */
  lemma LoggedIsRepaired(s: seq<Frame>, n: nat, k: nat, m: nat)
    requires n + HALF <= |s| && k < |After(Flags(s, n)).log|
    requires Covers(After(Flags(s, n)).log[k].blank, m) && After(Flags(s, n)).log[k].at < m + LEAD
    requires m + DELAY < |s|
    ensures Repaired(s, m)
  {
    hide After, LogOk, Ahead, Steady, Outlier;
    var e := After(Flags(s, n)).log[k];
    assert k < |LogAt(s, m)| && LogAt(s, m)[k] == e by {
      if m + LEAD <= n {
        LogStable(s, m + LEAD, n);
      } else {
        LogStable(s, n, m + LEAD);
      }
    }
    CoveredIsRepaired(s, m, k);
  }

  /** A burst is closed, and its interval scheduled, before its first frame is due: every frame of
      every burst ever accepted, margins included, is delivered interpolated. */
  lemma AcceptedBurstRepaired(s: seq<Frame>, n: nat, k: nat, m: nat)
    requires n + HALF <= |s| && k < |After(Flags(s, n)).log|
    requires After(Flags(s, n)).log[k].cause.Seen? && Covers(After(Flags(s, n)).log[k].blank, m)
    requires m + DELAY < |s|
    ensures Repaired(s, m)
  {
    hide After, LogOk, Ahead, Steady, Outlier;
    EntryInvariant(Flags(s, n), k);
    ScheduledInTime(After(Flags(s, n)).log[k], m);
    LoggedIsRepaired(s, n, k, m);
  }

  /** Nothing scheduled earlier reaches into a missed burst's interval. */
  lemma MissedAlone(log: seq<Entry>, k: nat, j: nat, m: int)
    requires LogOk(log) && j < k < |log| && log[k].cause.Missed? && Covers(log[k].blank, m)
    ensures !Covers(log[j].blank, m)
  {
    assert Apart(log[j], log[k]) && EntryOk(log[j]) && EntryOk(log[k]);
  }

  /** A frame of a missed burst's interval is repaired if and only if the miss was noticed before the frame was due. */
  lemma MissedFrame(s: seq<Frame>, n: nat, k: nat, m: nat)
    requires n + HALF <= |s| && k < |After(Flags(s, n)).log| && After(Flags(s, n)).log[k].cause.Missed?
    requires Covers(After(Flags(s, n)).log[k].blank, m) && m + DELAY < |s|
    ensures Repaired(s, m) <==> After(Flags(s, n)).log[k].at < m + LEAD
  {
    hide After, LogOk, Ahead, Steady, Outlier, Repaired;
    var log := After(Flags(s, n)).log;
    if log[k].at < m + LEAD {
      LoggedIsRepaired(s, n, k, m);
    } else {
      LogInvariant(Flags(s, n));
      DueBefore(Flags(s, n), k);
      LogStable(s, m + LEAD, n);
      var due := LogAt(s, m);
      forall j | 0 <= j < |due| ensures !Covers(due[j].blank, m) {
        DueBefore(Flags(s, m + LEAD), j);
        assert j < |log| && due[j] == log[j];
        InOrder(log, k, j);
        MissedAlone(log, k, j, m);
      }
      RepairedOrRaw(s, m);
    }
  }

  lemma InOrder(log: seq<Entry>, k: nat, j: nat)
    requires LogOk(log) && k < |log| && j < |log| && log[j].at < log[k].at
    ensures j < k
  {
    if k < j { assert false; }
  }

  /** A miss that was noticed has its whole interval repaired unless a cluster was open from the end of the tolerance until it was
      too late, and was then rejected: while a cluster is open no miss is noticed. */
  lemma NoticedMissRepaired(s: seq<Frame>, n: nat, k: nat)
    requires n + HALF <= |s| && k < |After(Flags(s, n)).log| && After(Flags(s, n)).log[k].cause.Missed?
    ensures var e := After(Flags(s, n)).log[k];
      (forall m: nat :: Covers(e.blank, m) && m + DELAY < |s| ==> Repaired(s, m)) <==>
      !exists c :: c in After(Flags(s, n)).clusters && RejectedLate(c, e.cause.pred)
  {
    hide After, LogOk, Ahead, Steady, Outlier, Repaired, RejectedLate;
    EntryInvariant(Flags(s, n), k);
    DueBefore(Flags(s, n), k);
    NoticedLate(Flags(s, n), k);
    var e := After(Flags(s, n)).log[k];
    if e.at < e.cause.pred + MISS_SLACK {
      forall m: nat | Covers(e.blank, m) && m + DELAY < |s| ensures Repaired(s, m) {
        MissedFrame(s, n, k, m);
      }
    } else {
      assert Covers(e.blank, e.blank.a);
      MissedFrame(s, n, k, e.blank.a);
    }
  }

  /** Nothing scheduled while the tracker was locked to a prediction reaches into its interval. */
  lemma NothingReaches(t: Tracker, log: seq<Entry>, n: int, pred: int, m: int)
    requires Steady(t, n) && LogOk(log) && Ahead(t, log, n) && LockedTo(t, pred) && n <= pred + PHASE_TOL + 1
    requires pred - PRED_HALF <= m <= pred + PRED_HALF
    ensures forall j :: 0 <= j < |log| ==> !Covers(log[j].blank, m)
  {
    forall j | 0 <= j < |log| ensures !Covers(log[j].blank, m) {
      assert EntryOk(log[j]);
    }
  }

  /** While the prediction was waiting to be resolved, no interval at its first frame was in force. */
  lemma WaitingIsRaw(s: seq<Frame>, n: nat, pred: int, e: nat)
    requires n + HALF <= |s| && n > pred + LATEST_MISS && 0 <= pred
    requires LockedTo(Upto(Flags(s, n), pred + PHASE_TOL + 1).tracker, pred)
    requires pred + MISS_SLACK <= e < n
    requires WaitingFrom(Flags(s, n), pred, Upto(Flags(s, n), pred + PHASE_TOL + 1).log, pred + PHASE_TOL + 1, e)
    ensures pred >= PRED_HALF && !Repaired(s, pred - PRED_HALF)
  {
    hide After, LogOk, Ahead, Steady, Outlier, Repaired;
    var flags, lo, hi := Flags(s, n), pred + PHASE_TOL + 1, pred + MISS_SLACK;
    FlagsPrefix(s, lo, n);
    FlagsPrefix(s, hi, n);
    LogInvariant(Flags(s, lo));
    LockedLate(Upto(flags, lo).tracker, lo, pred);
    NothingReaches(Upto(flags, lo).tracker, Upto(flags, lo).log, lo, pred, pred - PRED_HALF);
    assert Waiting(Upto(flags, hi), pred, Upto(flags, lo).log, hi);
    RepairedOrRaw(s, pred - PRED_HALF);
  }

  /** Every prediction the tracker is still locked to when its tolerance has run out is honoured, by the burst's
      showing on phase or by repair of the whole predicted interval, if and only if no other cluster, rejected or
      off phase, was open from then until it was too late. */
  lemma MissedBurstRepaired(s: seq<Frame>, n: nat, pred: int)
    requires n + HALF <= |s| && n > pred + LATEST_MISS && 0 <= pred
    requires LockedTo(Upto(Flags(s, n), pred + PHASE_TOL + 1).tracker, pred)
    ensures var cs := After(Flags(s, n)).clusters;
      (Showed(cs, pred) ||
       forall m: nat :: pred - PRED_HALF <= m <= pred + PRED_HALF ==> m + DELAY < |s| && Repaired(s, m)) <==>
      !exists c :: c in cs && HeldOpen(c, pred)
  {
    hide Upto, After, WaitingFrom, LockedTo, HeldOpen, Showed, Repaired, Outlier;
    var flags := Flags(s, n);
    var e := PredictionFate(flags, pred);
    if MissedAt(pred, e) in After(flags).log && e < pred + MISS_SLACK {
      var k :| 0 <= k < |After(flags).log| && After(flags).log[k] == MissedAt(pred, e);
      forall m: nat | pred - PRED_HALF <= m <= pred + PRED_HALF ensures m + DELAY < |s| && Repaired(s, m) {
        MissedFrame(s, n, k, m);
      }
    } else if e >= pred + MISS_SLACK {
      WaitingIsRaw(s, n, pred, e);
    }
  }

  /** The verdict on every outlier that has been delivered: the tracker closed a cluster around it, which the stream
      determines as ClusterOk says, and if that cluster was accepted it was delivered interpolated. */
  lemma EveryOutlierJudged(s: seq<Frame>, f: nat) returns (k: nat)
    requires f + DELAY < |s| && HALF < f && Outlier(s, f)
    ensures var flags := Flags(s, f + LEAD); var cs := After(flags).clusters;
      && k < |cs| && cs[k].first <= f <= cs[k].last
      && ClusterOk(cs[k], flags, Start(cs, k))
      && (cs[k].accepted ==> Repaired(s, f))
  {
    hide After, Steady, ClusterOk, Repaired, Outlier;
    var flags := Flags(s, f + LEAD);
    assert flags[f];
    k := ClusterAround(flags, f);
    var c := After(flags).clusters[k];
    if c.accepted {
      var j := EntryFor(flags, c);
      AcceptedBurstRepaired(s, f + LEAD, j, f);
    }
  }

  lemma ClusterAround(flags: seq<bool>, f: nat) returns (k: nat)
    requires QuietStart(flags) && f + LEAD <= |flags| && flags[f]
    ensures var cs := After(flags).clusters; k < |cs| && cs[k].first <= f <= cs[k].last && ClusterOk(cs[k], flags, Start(cs, k))
  {
    hide After, ClusterOk;
    var r := After(flags);
    AllAccounted(flags);
    assert InCluster(r.clusters, f);
    k :| 0 <= k < |r.clusters| && r.clusters[k].first <= f <= r.clusters[k].last;
  }

  lemma EntryFor(flags: seq<bool>, c: Cluster) returns (j: nat)
    requires QuietStart(flags) && c in After(flags).clusters && c.accepted
    ensures j < |After(flags).log| && After(flags).log[j].cause == Seen(c.first, c.last)
    ensures After(flags).log[j].blank == Blank(c.first - MARGIN, c.last + MARGIN)
  {
    hide After, Steady, ClustersOk, OpenOk, Covered;
    var r := After(flags);
    AllAccounted(flags);
    LogInvariant(flags);
    AcceptedIsBurst(r.clusters, c);
    j := BurstIsLogged(r.log, Burst(c.first, c.last, c.at));
    assert EntryOk(r.log[j]);
  }

  // ----- Transparency -----

  ghost predicate Calm(s: seq<Frame>) {
    forall n, ch {:trigger Window(s, n, ch)} :: HALF < n < |s| - HALF && 0 <= ch < 2 ==>
      exists lo, hi :: hi - lo <= T_FLIP && InBand(Window(s, n, ch), lo, hi)
  }

  lemma CalmHasNoOutliers(s: seq<Frame>, n: int)
    requires Calm(s) && HALF < n < |s| - HALF
    ensures !Outlier(s, n)
  {
    forall ch | 0 <= ch < 2 ensures !ChannelOutlier(s, n, ch) {
      var w := Window(s, n, ch);
      var lo, hi :| hi - lo <= T_FLIP && InBand(w, lo, hi);
      QuietChannel(s, n, ch, lo, hi);
    }
  }

  lemma {:induction false} QuietRun(flags: seq<bool>)
    requires forall i :: 0 <= i < |flags| ==> !flags[i]
    ensures QuietStart(flags) && After(flags) == Run(INITIAL, [], [])
  {
    if |flags| > 0 {
      QuietRun(flags[..|flags| - 1]);
    }
  }

  /** If every fifteen consecutive frames of each channel lie in a band 6000 wide, the output is the
      delay's silence followed by the input, bit for bit. */
  lemma Transparent(s: seq<Frame>)
    requires Calm(s)
    ensures forall k :: 0 <= k < |s| ==> Output(s)[k] == if k < 192 then Frame(0, 0) else s[k - 192]
  {
    forall k | DELAY <= k < |s| ensures Output(s)[k] == s[k - DELAY] {
      var m := k - DELAY;
      forall i | HALF < i < m + LEAD ensures !Outlier(s, i) {
        CalmHasNoOutliers(s, i);
      }
      QuietRun(Flags(s, m + LEAD));
      assert Output(s)[k] == Delivered(s, m);
    }
  }
}
