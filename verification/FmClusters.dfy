/** The verdict on every outlier: each belongs to exactly one cluster, and an interval is
    scheduled for exactly the accepted clusters. */
module FmClusters {
  import opened FmDetect
  import opened FmTracker
  import opened Options

  /** The number of outliers among frames lo..hi-1. */
  ghost function Hits(flags: seq<bool>, lo: int, hi: int): (h: nat)
    requires 0 <= lo && hi <= |flags|
    ensures h <= if lo < hi then hi - lo else 0
    decreases hi
  {
    if hi <= lo then 0 else Hits(flags, lo, hi - 1) + (if flags[hi - 1] then 1 else 0)
  }

  lemma {:induction false} HitsPrefix(flags: seq<bool>, n: nat, lo: nat, hi: int)
    requires hi <= n <= |flags|
    ensures Hits(flags[..n], lo, hi) == Hits(flags, lo, hi)
    decreases hi
  {
    if lo < hi {
      HitsPrefix(flags, n, lo, hi - 1);
    }
  }

  lemma {:induction false} HitsOverQuiet(flags: seq<bool>, lo: nat, mid: nat, hi: nat)
    requires lo <= mid <= hi <= |flags| && forall i :: mid <= i < hi ==> !flags[i]
    ensures Hits(flags, lo, hi) == Hits(flags, lo, mid)
    decreases hi
  {
    if mid < hi {
      HitsOverQuiet(flags, lo, mid, hi - 1);
    }
  }

  ghost predicate QuietBetween(flags: seq<bool>, lo: int, hi: int) {
    forall i :: 0 <= i < |flags| && lo <= i < hi ==> !flags[i]
  }

  /** No more than CLUSTER quiet frames in a row between two frames. */
  ghost predicate Dense(flags: seq<bool>, first: int, last: int) {
    forall i, j :: first < i && j == i + CLUSTER + 1 && j <= last ==> !QuietBetween(flags, i, j)
  }

  /** Where a closed cluster lies: it starts at the first outlier after `from`, goes on while no more than CLUSTER
      quiet frames follow one another, ends with an outlier, and is closed by the first frame that makes the
      silence or the cluster too long. */
  ghost predicate ExtentOk(c: Cluster, flags: seq<bool>, from: nat) {
    && from <= c.first <= c.last <= c.at < |flags|
    && QuietBetween(flags, from, c.first) && flags[c.first]
    && Dense(flags, c.first, c.last)
    && flags[c.last] && QuietBetween(flags, c.last + 1, c.at + 1)
    && c.at <= c.last + CLUSTER + 1 && c.at <= c.first + MAX_BURST + 1
    && (c.at == c.last + CLUSTER + 1 || c.at == c.first + MAX_BURST + 1)
  }

  /** Its distance from the tracker's prediction when it was closed. */
  ghost function PhaseAt(flags: seq<bool>, c: Cluster): Option<int>
    requires QuietStart(flags) && 0 <= c.at < |flags|
  {
    var t := After(flags[..c.at]).tracker;
    if t.locked then Some((c.first + c.last) / 2 - Predicted(t)) else None
  }

  /** A closed cluster is accepted exactly when it has enough outliers for its phase. */
  ghost predicate ClusterOk(c: Cluster, flags: seq<bool>, from: nat)
    requires QuietStart(flags)
  {
    && ExtentOk(c, flags, from)
    && c.count == Hits(flags, c.first, c.last + 1)
    && c.phase == PhaseAt(flags, c)
    && (c.accepted <==> c.count >= MIN_OUTLIERS && (OnPhase(c.phase) || c.count >= STRONG))
  }

  /** Where the k-th cluster may start: after the one before it was closed. */
  ghost function Start(clusters: seq<Cluster>, k: nat): nat
    requires k <= |clusters|
  {
    if k == 0 || clusters[k - 1].at < 0 then 0 else clusters[k - 1].at + 1
  }

  /** The cluster under construction, likewise. */
  ghost predicate OpenOk(t: Tracker, flags: seq<bool>, from: nat) {
    t.open ==>
      && HALF < t.first <= t.last < |flags| && from <= t.first
      && QuietBetween(flags, from, t.first) && flags[t.first]
      && Dense(flags, t.first, t.last)
      && flags[t.last] && QuietBetween(flags, t.last + 1, |flags|)
      && t.count == Hits(flags, t.first, t.last + 1)
  }

  /** A burst that was blanked, and when that was decided. */
  datatype Burst = Burst(first: int, last: int, at: int)

  ghost function SeenBursts(log: seq<Entry>): seq<Burst> {
    if log == [] then []
    else
      var e := log[|log| - 1];
      SeenBursts(log[..|log| - 1]) + if e.cause.Seen? then [Burst(e.cause.first, e.cause.last, e.at)] else []
  }

  ghost function AcceptedBursts(clusters: seq<Cluster>): seq<Burst> {
    if clusters == [] then []
    else
      var c := clusters[|clusters| - 1];
      AcceptedBursts(clusters[..|clusters| - 1]) + if c.accepted then [Burst(c.first, c.last, c.at)] else []
  }

  lemma {:induction false} AcceptedIsBurst(clusters: seq<Cluster>, c: Cluster)
    requires c in clusters && c.accepted
    ensures Burst(c.first, c.last, c.at) in AcceptedBursts(clusters)
  {
    if c != clusters[|clusters| - 1] {
      AcceptedIsBurst(clusters[..|clusters| - 1], c);
    }
  }

  lemma {:induction false} BurstIsLogged(log: seq<Entry>, b: Burst) returns (k: nat)
    requires b in SeenBursts(log)
    ensures k < |log| && log[k].cause == Seen(b.first, b.last) && log[k].at == b.at
  {
    var e := log[|log| - 1];
    if e.cause.Seen? && b == Burst(e.cause.first, e.cause.last, e.at) {
      k := |log| - 1;
    } else {
      k := BurstIsLogged(log[..|log| - 1], b);
    }
  }

  ghost predicate InCluster(clusters: seq<Cluster>, f: int) {
    exists k :: 0 <= k < |clusters| && clusters[k].first <= f <= clusters[k].last
  }

  ghost predicate ClustersOk(clusters: seq<Cluster>, flags: seq<bool>)
    requires QuietStart(flags)
  {
    && (forall k :: 0 <= k < |clusters| ==> ClusterOk(clusters[k], flags, Start(clusters, k)))
    && (forall j, k :: 0 <= j < k < |clusters| ==> clusters[j].at < clusters[k].first)
  }

  ghost predicate Covered(r: Run, flags: seq<bool>) {
    && (r.tracker.open ==> forall k :: 0 <= k < |r.clusters| ==> r.clusters[k].at < r.tracker.first)
    && (forall f :: 0 <= f < |flags| && flags[f] ==>
          (r.tracker.open && r.tracker.first <= f) || InCluster(r.clusters, f))
  }

  /** The run accounts for all of `flags`. */
  ghost predicate Accounted(r: Run, flags: seq<bool>)
    requires QuietStart(flags)
  {
    && OpenOk(r.tracker, flags, Start(r.clusters, |r.clusters|))
    && ClustersOk(r.clusters, flags)
    && SeenBursts(r.log) == AcceptedBursts(r.clusters)
    && Covered(r, flags)
  }

  lemma QuietPrefix(flags: seq<bool>, n: nat, lo: int, hi: int)
    requires hi <= n <= |flags|
    ensures QuietBetween(flags[..n], lo, hi) <==> QuietBetween(flags, lo, hi)
  {
    assert forall i :: 0 <= i < n ==> flags[..n][i] == flags[i];
  }

  lemma DensePrefix(flags: seq<bool>, n: nat, first: int, last: int)
    requires last <= n <= |flags|
    ensures Dense(flags[..n], first, last) <==> Dense(flags, first, last)
  {
    hide QuietBetween;
    forall i, j | first < i && j == i + CLUSTER + 1 && j <= last
      ensures QuietBetween(flags[..n], i, j) <==> QuietBetween(flags, i, j)
    {
      QuietPrefix(flags, n, i, j);
    }
  }

  lemma ExtentStays(c: Cluster, flags: seq<bool>, n: nat, from: nat)
    requires n <= |flags| && c.at < n
    ensures ExtentOk(c, flags[..n], from) <==> ExtentOk(c, flags, from)
  {
    hide QuietBetween, Dense;
    if from <= c.first <= c.last <= c.at {
      QuietPrefix(flags, n, from, c.first);
      QuietPrefix(flags, n, c.last + 1, c.at + 1);
      DensePrefix(flags, n, c.first, c.last);
    }
  }

  lemma PhaseStays(c: Cluster, flags: seq<bool>, n: nat)
    requires QuietStart(flags) && 0 <= c.at < n <= |flags|
    ensures PhaseAt(flags[..n], c) == PhaseAt(flags, c)
  {
    hide After;
    assert flags[..n][..c.at] == flags[..c.at];
  }

  lemma ClusterStays(c: Cluster, flags: seq<bool>, n: nat, from: nat)
    requires QuietStart(flags) && n <= |flags| && ClusterOk(c, flags[..n], from)
    ensures ClusterOk(c, flags, from)
  {
    hide QuietBetween, Dense, PhaseAt;
    HitsPrefix(flags, n, c.first, c.last + 1);
    ExtentStays(c, flags, n, from);
    PhaseStays(c, flags, n);
  }

  /** One more outlier keeps a cluster dense, unless the silence before it was already too long. */
  lemma DenseGrows(flags: seq<bool>, first: int, last: int, n: int)
    requires Dense(flags, first, last) && first <= last < n < |flags| && 0 <= first
    requires flags[last] && n <= last + CLUSTER + 1
    ensures Dense(flags, first, n)
  {
    forall i, j | first < i && j == i + CLUSTER + 1 && j <= n ensures !QuietBetween(flags, i, j) {
      if last < j {
        assert i <= last < j;
      }
    }
  }

  /** With no cluster open, everything since the last close is quiet. */
  lemma QuietSince(r: Run, flags: seq<bool>)
    requires QuietStart(flags) && ClustersOk(r.clusters, flags) && Covered(r, flags) && !r.tracker.open
    ensures QuietBetween(flags, Start(r.clusters, |r.clusters|), |flags|)
  {
    hide ClusterOk, ClustersOk;
    forall f | 0 <= f < |flags| && Start(r.clusters, |r.clusters|) <= f ensures !flags[f] {
      if flags[f] {
        var k :| 0 <= k < |r.clusters| && r.clusters[k].first <= f <= r.clusters[k].last;
        var m := |r.clusters| - 1;
        ClusterBounds(r.clusters, flags, k);
        ClusterBounds(r.clusters, flags, m);
        if k < m {
          ClustersApart(r.clusters, flags, k, m);
        }
      }
    }
  }

  lemma ClosedBefore(c: Cluster, flags: seq<bool>, from: nat)
    requires QuietStart(flags) && ClusterOk(c, flags, from)
    ensures 0 <= c.first <= c.last <= c.at < |flags|
  {
  }

  lemma NoteAccounts(r: Run, flags: seq<bool>)
    requires |flags| > 0 && QuietStart(flags)
    requires Steady(r.tracker, |flags| - 1) && Accounted(r, flags[..|flags| - 1])
    ensures OpenOk(Note(r.tracker, |flags| - 1, flags[|flags| - 1]), flags, Start(r.clusters, |r.clusters|))
  {
    hide PeriodOk, Predicted, SeenBursts, AcceptedBursts, ClustersOk, Covered;
    var n, t, from := |flags| - 1, r.tracker, Start(r.clusters, |r.clusters|);
    assert forall i :: 0 <= i < n ==> flags[..n][i] == flags[i];
    if t.open {
      HitsPrefix(flags, n, t.first, t.last + 1);
      QuietPrefix(flags, n, from, t.first);
      DensePrefix(flags, n, t.first, t.last);
      if flags[n] {
        HitsOverQuiet(flags, t.first, t.last + 1, n);
        assert Hits(flags, t.first, n + 1) == Hits(flags, t.first, n) + 1;
        DenseGrows(flags, t.first, t.last, n);
      }
    } else if flags[n] {
      QuietSince(r, flags[..n]);
      StartBefore(r, flags[..n]);
      assert Hits(flags, n, n + 1) == Hits(flags, n, n) + 1;
    }
  }

  lemma StartBefore(r: Run, flags: seq<bool>)
    requires QuietStart(flags) && ClustersOk(r.clusters, flags)
    ensures Start(r.clusters, |r.clusters|) <= |flags|
  {
    hide ClusterOk;
    var m := |r.clusters| - 1;
    if m >= 0 {
      ClosedBefore(r.clusters[m], flags, Start(r.clusters, m));
    }
  }

  lemma SettleMatches(r: Run, n: int)
    requires 0 <= n && Noted(r.tracker, n)
    requires SeenBursts(r.log) == AcceptedBursts(r.clusters)
    ensures SeenBursts(Settle(r, n).log) == AcceptedBursts(Settle(r, n).clusters)
  {
    var t, r' := r.tracker, Settle(r, n);
    if Complete(t, n) {
      assert r'.clusters[..|r.clusters|] == r.clusters;
      if Accepts(t) {
        assert r'.log[..|r.log|] == r.log;
      }
    }
  }

  /** The tracker at frame n has the prediction it had before. */
  ghost predicate SamePrediction(t: Tracker, flags: seq<bool>)
    requires QuietStart(flags) && |flags| > 0
  {
    var t' := After(flags[..|flags| - 1]).tracker;
    t.locked == t'.locked && Predicted(t) == Predicted(t')
  }

  /** Closing the cluster, if it is complete, moves its outliers from the open cluster to a closed one. */
  lemma SettleAccounts(r: Run, flags: seq<bool>)
    requires |flags| > 0 && QuietStart(flags) && Noted(r.tracker, |flags| - 1) && Accounted(r, flags)
    requires SamePrediction(r.tracker, flags)
    ensures Accounted(Settle(r, |flags| - 1), flags)
  {
    hide ClusterOk, ClustersOk, SeenBursts, AcceptedBursts, Nudge, SamePrediction, QuietBetween, Dense;
    var n := |flags| - 1;
    if Complete(r.tracker, n) {
      ClosedOk(r, flags);
      SettleMatches(r, n);
      ClosedCovers(r, flags);
    }
  }

  lemma ClosedExtent(t: Tracker, flags: seq<bool>, from: nat)
    requires |flags| > 0 && Noted(t, |flags| - 1) && Complete(t, |flags| - 1) && OpenOk(t, flags, from)
    ensures ExtentOk(ClusterOf(t, |flags| - 1), flags, from)
  {
    hide QuietBetween, Dense, Predicted, PeriodOk;
  }

  lemma ClosedIsOk(t: Tracker, flags: seq<bool>, from: nat)
    requires |flags| > 0 && QuietStart(flags) && Noted(t, |flags| - 1) && Complete(t, |flags| - 1)
    requires OpenOk(t, flags, from) && SamePrediction(t, flags)
    ensures var c := ClusterOf(t, |flags| - 1); ClusterOk(c, flags, from) && c.first == t.first && c.at == |flags| - 1
  {
    hide ExtentOk, Noted, Predicted, QuietBetween, Dense;
    ClosedExtent(t, flags, from);
  }

  lemma ClosedOk(r: Run, flags: seq<bool>)
    requires |flags| > 0 && QuietStart(flags) && Noted(r.tracker, |flags| - 1) && Complete(r.tracker, |flags| - 1)
    requires OpenOk(r.tracker, flags, Start(r.clusters, |r.clusters|)) && ClustersOk(r.clusters, flags) && Covered(r, flags)
    requires SamePrediction(r.tracker, flags)
    ensures ClustersOk(r.clusters + [ClusterOf(r.tracker, |flags| - 1)], flags)
  {
    hide Predicted, Dense, QuietBetween, Hits, ClusterOk, ClusterOf;
    var n, t, cs := |flags| - 1, r.tracker, r.clusters + [ClusterOf(r.tracker, |flags| - 1)];
    ClosedIsOk(t, flags, Start(r.clusters, |r.clusters|));
    hide OpenOk, Noted, SamePrediction;
    forall k | 0 <= k < |cs| ensures ClusterOk(cs[k], flags, Start(cs, k)) {
      assert Start(cs, k) == Start(r.clusters, k);
    }
  }

  lemma ClosedCovers(r: Run, flags: seq<bool>)
    requires |flags| > 0 && Noted(r.tracker, |flags| - 1) && Complete(r.tracker, |flags| - 1)
    requires OpenOk(r.tracker, flags, Start(r.clusters, |r.clusters|)) && Covered(r, flags)
    ensures Covered(Settle(r, |flags| - 1), flags)
  {
    hide Dense;
    var n := |flags| - 1;
    var t, r' := r.tracker, Settle(r, n);
    assert r'.clusters[|r.clusters|] == ClusterOf(t, n);
    forall f | 0 <= f < |flags| && flags[f] ensures InCluster(r'.clusters, f) {
      if InCluster(r.clusters, f) {
        var k :| 0 <= k < |r.clusters| && r.clusters[k].first <= f <= r.clusters[k].last;
        assert r'.clusters[k] == r.clusters[k];
      } else {
        assert t.first <= f <= t.last;
      }
    }
  }

  /** A missed burst adds an entry but no cluster. */
  lemma ExpectAccounts(r: Run, flags: seq<bool>, n: int)
    requires QuietStart(flags) && Accounted(r, flags)
    ensures Accounted(Expect(r, n), flags)
  {
    hide ClustersOk;
    if Overdue(r.tracker, n) {
      assert Expect(r, n).log[..|r.log|] == r.log;
    }
  }

  lemma NotedAccounts(r: Run, flags: seq<bool>)
    requires QuietStart(flags) && |flags| > 0
    requires Steady(r.tracker, |flags| - 1) && Accounted(r, flags[..|flags| - 1])
    ensures Accounted(r.(tracker := Note(r.tracker, |flags| - 1, flags[|flags| - 1])), flags)
  {
    var n := |flags| - 1;
    hide SeenBursts, AcceptedBursts, ClusterOk, OpenOk;
    var r' := r.(tracker := Note(r.tracker, n, flags[n]));
    NoteAccounts(r, flags);
    forall k | 0 <= k < |r.clusters| ensures ClusterOk(r.clusters[k], flags, Start(r.clusters, k)) && r.clusters[k].at < n {
      ClusterStays(r.clusters[k], flags, n, Start(r.clusters, k));
      ClosedBefore(r.clusters[k], flags[..n], Start(r.clusters, k));
    }
    forall f | 0 <= f < |flags| && flags[f] ensures (r'.tracker.open && r'.tracker.first <= f) || InCluster(r'.clusters, f) {
      if f < n {
        assert flags[..n][f];
      }
    }
  }

  lemma TrackAccounts(flags: seq<bool>)
    requires QuietStart(flags) && |flags| > 0
    requires Accounted(After(flags[..|flags| - 1]), flags[..|flags| - 1])
    ensures Accounted(After(flags), flags)
  {
    hide Accounted, After;
    var n := |flags| - 1;
    var r := After(flags[..n]);
    NoteKeeps(r.tracker, n, flags[n]);
    NotedAccounts(r, flags);
    var noted := r.(tracker := Note(r.tracker, n, flags[n]));
    SettleAccounts(noted, flags);
    ExpectAccounts(Settle(noted, n), flags, n);
    AfterStep(flags);
  }

  /** Every outlier of every run is in the open cluster or in a closed one, closed clusters
      are as ClusterOk says, and the intervals scheduled for seen bursts are those of the accepted ones. */
  lemma {:induction false} AllAccounted(flags: seq<bool>)
    requires QuietStart(flags)
    ensures Accounted(After(flags), flags)
  {
    if |flags| > 0 {
      hide Accounted, After;
      AllAccounted(flags[..|flags| - 1]);
      TrackAccounts(flags);
    } else {
      assert After(flags) == Run(INITIAL, [], []);
    }
  }

  lemma ClusterBounds(cs: seq<Cluster>, flags: seq<bool>, k: nat)
    requires QuietStart(flags) && ClustersOk(cs, flags) && k < |cs|
    ensures 0 <= HALF < cs[k].first <= cs[k].last <= cs[k].at < |flags|
    ensures flags[cs[k].first] && forall i :: cs[k].last < i <= cs[k].at ==> !flags[i]
  {
  }

  lemma ClustersApart(cs: seq<Cluster>, flags: seq<bool>, j: nat, k: nat)
    requires QuietStart(flags) && ClustersOk(cs, flags) && j < k < |cs|
    ensures cs[j].at < cs[k].first
  {
  }

  ghost predicate InNumbers(c: Cluster, flags: seq<bool>)
    requires QuietStart(flags) && 0 <= c.first <= c.last <= c.at < |flags|
  {
    var t := After(flags[..c.at]).tracker;
    && (c.accepted <==> c.count >= 6 || (c.count >= 3 && (c.phase == None || -150 <= c.phase.value <= 150)))
    && c.at == (if c.last + 49 < c.first + 121 then c.last + 49 else c.first + 121)
    && c.count == Hits(flags, c.first, c.last + 1)
    && c.phase == (if t.locked then Some((c.first + c.last) / 2 - Predicted(t)) else None)
  }

  lemma OkInNumbers(c: Cluster, flags: seq<bool>, from: nat)
    requires QuietStart(flags) && ClusterOk(c, flags, from)
    ensures 0 <= c.first <= c.last <= c.at < |flags| && InNumbers(c, flags)
  {
    hide After, Dense, QuietBetween, Predicted, Hits;
  }

  /** The verdict on a closed cluster in numbers: at least six outliers, or at least three if it lies within 150 frames
      of the prediction or there was none. It was closed 49 frames after its last outlier or 121 after its first,
      whichever came first. */
  lemma ClusterInNumbers(flags: seq<bool>, k: nat)
    requires QuietStart(flags) && k < |After(flags).clusters|
    ensures var c := After(flags).clusters[k]; 7 < c.first <= c.last <= c.at < |flags| && InNumbers(c, flags)
  {
    hide After, ClusterOk, InNumbers, SeenBursts, AcceptedBursts, Covered;
    AllAccounted(flags);
    var cs := After(flags).clusters;
    ClusterBounds(cs, flags, k);
    OkInNumbers(cs[k], flags, Start(cs, k));
  }

  // ----- The flags determine the clusters -----

  /** Nothing after the last of these clusters is a closed cluster. */
  ghost predicate NoMore(clusters: seq<Cluster>, flags: seq<bool>) {
    forall c :: !ExtentOk(c, flags, Start(clusters, |clusters|))
  }

  /** A cluster starts at one outlier only. */
  lemma SameFirst(c: Cluster, c': Cluster, flags: seq<bool>, from: nat)
    requires ExtentOk(c, flags, from) && ExtentOk(c', flags, from)
    ensures c.first == c'.first
  {
  }

  /** A dense cluster that goes on for more than CLUSTER frames after k has an outlier among them. */
  lemma NextWithin(flags: seq<bool>, first: int, last: int, k: int)
    requires Dense(flags, first, last) && first <= k
    ensures k + CLUSTER + 2 <= last ==> !QuietBetween(flags, k + 1, k + CLUSTER + 2)
  {
  }

  /** Of two closed clusters with the same start, neither is closed earlier. */
  lemma NotEarlier(c: Cluster, c': Cluster, flags: seq<bool>, from: nat)
    requires ExtentOk(c, flags, from) && ExtentOk(c', flags, from)
    ensures c.at >= c'.at
  {
    SameFirst(c, c', flags, from);
    NextWithin(flags, c'.first, c'.last, c.last);
    hide Dense;
  }

  lemma SameExtent(c: Cluster, c': Cluster, flags: seq<bool>, from: nat)
    requires ExtentOk(c, flags, from) && ExtentOk(c', flags, from)
    ensures c.first == c'.first && c.last == c'.last && c.at == c'.at
  {
    SameFirst(c, c', flags, from);
    NotEarlier(c, c', flags, from);
    NotEarlier(c', c, flags, from);
  }

  /** An open cluster is not yet a closed one. */
  lemma OpenIsNotClosed(t: Tracker, flags: seq<bool>, from: nat, c: Cluster)
    requires t.open && Steady(t, |flags|) && OpenOk(t, flags, from)
    ensures !ExtentOk(c, flags, from)
  {
    hide PeriodOk, Predicted;
    if c.first == t.first && c.first <= c.last {
      NextWithin(flags, t.first, t.last, c.last);
    }
    hide Dense;
  }

  lemma NoMoreClosed(flags: seq<bool>)
    requires QuietStart(flags)
    ensures NoMore(After(flags).clusters, flags)
  {
    hide After, Steady, ClustersOk, OpenOk, ExtentOk, QuietBetween;
    var r := After(flags);
    AllAccounted(flags);
    forall c ensures !ExtentOk(c, flags, Start(r.clusters, |r.clusters|)) {
      if r.tracker.open {
        OpenIsNotClosed(r.tracker, flags, Start(r.clusters, |r.clusters|), c);
      } else {
        QuietSince(r, flags);
        QuietIsEmpty(c, flags, Start(r.clusters, |r.clusters|));
      }
    }
  }

  lemma QuietIsEmpty(c: Cluster, flags: seq<bool>, from: nat)
    requires QuietBetween(flags, from, |flags|)
    ensures !ExtentOk(c, flags, from)
  {
  }

  lemma SameCluster(c: Cluster, c': Cluster, flags: seq<bool>, from: nat)
    requires QuietStart(flags) && ClusterOk(c, flags, from) && ClusterOk(c', flags, from)
    ensures c == c'
  {
    SameExtent(c, c', flags, from);
  }

  /** The flags alone determine the clusters: a list of clusters each as ClusterOk says, after which nothing more is
      closed, is the tracker's. */
  lemma ClustersDetermined(flags: seq<bool>, cs: seq<Cluster>)
    requires QuietStart(flags) && ClustersOk(cs, flags) && NoMore(cs, flags)
    ensures cs == After(flags).clusters
  {
    hide After, ClusterOk;
    AllAccounted(flags);
    NoMoreClosed(flags);
    SamePrefix(flags, cs, After(flags).clusters, Shorter(|cs|, |After(flags).clusters|));
    SameLength(flags, cs, After(flags).clusters);
    SameLength(flags, After(flags).clusters, cs);
  }

  ghost function Shorter(m: nat, n: nat): nat {
    if m < n then m else n
  }

  lemma ClusterAt(cs: seq<Cluster>, flags: seq<bool>, k: nat)
    requires QuietStart(flags) && ClustersOk(cs, flags) && k < |cs|
    ensures ClusterOk(cs[k], flags, Start(cs, k))
  {
  }

  lemma {:induction false} SamePrefix(flags: seq<bool>, cs: seq<Cluster>, cs': seq<Cluster>, k: nat)
    requires QuietStart(flags) && ClustersOk(cs, flags) && ClustersOk(cs', flags) && k <= |cs| && k <= |cs'|
    ensures cs[..k] == cs'[..k]
  {
    hide ClusterOk, ClustersOk;
    if k > 0 {
      SamePrefix(flags, cs, cs', k - 1);
      ClusterAt(cs, flags, k - 1);
      ClusterAt(cs', flags, k - 1);
      assert Start(cs, k - 1) == Start(cs', k - 1) by {
        if k > 1 { assert cs[k - 2] == cs[..k - 1][k - 2] == cs'[..k - 1][k - 2] == cs'[k - 2]; }
      }
      SameCluster(cs[k - 1], cs'[k - 1], flags, Start(cs, k - 1));
      assert cs[..k] == cs[..k - 1] + [cs[k - 1]] && cs'[..k] == cs'[..k - 1] + [cs'[k - 1]];
    }
  }

  lemma NoMoreAt(cs: seq<Cluster>, flags: seq<bool>, c: Cluster)
    requires NoMore(cs, flags)
    ensures !ExtentOk(c, flags, Start(cs, |cs|))
  {
  }

  lemma ExtentAt(cs: seq<Cluster>, flags: seq<bool>, k: nat)
    requires QuietStart(flags) && ClustersOk(cs, flags) && k < |cs|
    ensures ExtentOk(cs[k], flags, Start(cs, k))
  {
  }

  lemma StartOfPrefix(cs: seq<Cluster>, cs': seq<Cluster>)
    requires cs <= cs'
    ensures Start(cs', |cs|) == Start(cs, |cs|)
  {
  }

  lemma SameLength(flags: seq<bool>, cs: seq<Cluster>, cs': seq<Cluster>)
    requires QuietStart(flags) && ClustersOk(cs', flags) && NoMore(cs, flags)
    requires cs[..Shorter(|cs|, |cs'|)] == cs'[..Shorter(|cs|, |cs'|)]
    ensures |cs| >= |cs'|
  {
    hide ClustersOk, NoMore, ExtentOk, Start;
    if |cs| < |cs'| {
      assert cs[..|cs|] == cs;
      StartOfPrefix(cs, cs');
      NoMoreAt(cs, flags, cs'[|cs|]);
      ExtentAt(cs', flags, |cs|);
    }
  }
}
