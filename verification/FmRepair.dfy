/** The plugin itself: a ring of recent frames, the tracker's fields and a short array of pending
    intervals, updated in place frame by frame. Its output is exactly FmDelivery.Output. */
module FmRepair {
  import opened FmDetect
  import opened FmTracker
  import opened Options
  import opened FmSchedule
  import opened FmDelivery
  import opened FmTheorems

  const RING := 4096
  const MAX_BLANKS := 16

  function BlanksOf(log: seq<Entry>): (b: seq<Blank>)
    ensures |b| == |log|
  {
    seq(|log|, i requires 0 <= i < |log| => log[i].blank)
  }

  /** The first k entries of the log end before frame m. */
  ghost predicate Passed(log: seq<Entry>, k: nat, m: int) {
    k <= |log| && forall i :: 0 <= i < k ==> log[i].blank.b < m
  }

  lemma AfterNext(s: seq<Frame>, n: nat)
    requires n + 1 + HALF <= |s|
    ensures var before, o := After(Flags(s, n)), n > HALF && Outlier(s, n);
      && Steady(before.tracker, n)
      && PeriodOk(Settle(before.(tracker := Note(before.tracker, n, o)), n).tracker.period)
      && After(Flags(s, n + 1)) == FmTracker.Track(before, n, o)
  {
    var flags := Flags(s, n + 1);
    FlagsPrefix(s, n, n + 1);
    assert flags[n] == (n > HALF && Outlier(s, n));
    TrackKeeps(After(flags[..n]), n, flags[n]);
  }

  /** Intervals whose end is not yet behind frame m were scheduled recently. */
  lemma StillRecent(log: seq<Entry>, k: nat, m: nat)
    requires LogOk(log) && k <= |log|
    requires k < |log| ==> m <= log[k].blank.b
    requires forall i :: 0 <= i < |log| ==> log[i].at < m + LEAD
    ensures Recent(log, k, m + LEAD - 1)
  {
    forall i | k <= i < |log| ensures m + LEAD - 1 - WINDOW < log[i].at {
      assert EntryOk(log[k]);
      assert i == k || Apart(log[k], log[i]);
    }
  }

  lemma {:induction false} FirstCoverIs(log: seq<Entry>, k: nat, m: int)
    requires k <= |log|
    requires forall i :: 0 <= i < k ==> !Covers(log[i].blank, m)
    requires k < |log| ==> Covers(log[k].blank, m)
    ensures FirstCover(log, m) == if k < |log| then Some(log[k].blank) else None
  {
    if k > 0 {
      FirstCoverIs(log[1..], k - 1, m);
    }
  }

  /** The C library's qsort, by its contract; the body is this model's. */
  method Qsort(w: array<int>)
    modifies w
    ensures w[..] == Sort(old(w[..]))
  {
    var sorted := Sort(w[..]);
    forall i | 0 <= i < w.Length {
      w[i] := sorted[i];
    }
  }

  class FmRepair {
    const ring: array<Frame>
    var nIn: nat
    var nOut: nat
    var nCls: nat
    var open: bool
    var first: int
    var last: int
    var count: int
    var locked: bool
    var period: real
    var cLast: int
    var misses: int
    const blanks: array<Blank>
    var nblanks: nat

    ghost var stream: seq<Frame>  // every frame received
    ghost var run: Run            // everything the tracker did
    ghost var dropped: nat        // entries of the log no longer pending

    /** The tracker's fields as a value. */
    function State(): Tracker
      reads this
    {
      Tracker(open, first, last, count, locked, period, cLast, misses)
    }

    ghost predicate Shape()
      reads this, ring, blanks
    {
      ring.Length == RING && blanks.Length == MAX_BLANKS && nblanks <= MAX_BLANKS
    }

    /** The ring holds the last RING frames of the stream. */
    ghost predicate Holds()
      reads this, ring
    {
      && ring.Length == RING
      && nIn == |stream|
      && forall i :: 0 <= i < nIn && nIn - RING <= i ==> ring[i % RING] == stream[i]
    }

    /** The fields are the run's tracker, and the array its log less the dropped entries. */
    ghost predicate Mirrors()
      reads this, ring, blanks
    {
      && Shape()
      && State() == run.tracker
      && dropped <= |run.log|
      && blanks[..nblanks] == BlanksOf(run.log[dropped..])
    }

    /** What holds between transfers, and between the frames of one. */
    ghost predicate Valid()
      reads this, ring, blanks
    {
      && Holds() && Mirrors()
      && nCls == (if nIn < HALF + 1 then 0 else nIn - HALF - 1)
      && nOut == (if nIn < DELAY then 0 else nIn - DELAY)
      && run == After(Flags(stream, nCls))
      && Recent(run.log, dropped, nCls - 1)
      && Passed(run.log, dropped, nOut)
    }

    constructor ()
      ensures Valid() && fresh(ring) && fresh(blanks) && stream == []
    {
      ring := new Frame[RING](_ => SILENCE);
      blanks := new Blank[MAX_BLANKS](_ => Blank(0, 0));
      nIn, nOut, nCls := 0, 0, 0;
      open, first, last, count := false, 0, 0, 0;
      locked, period, cLast, misses := false, P_INIT, 0, 0;
      nblanks := 0;
      stream, run, dropped := [], Run(INITIAL, [], []), 0;
    }

    function FrameAt(n: nat): Frame
      requires ring.Length == RING
      reads ring
    {
      ring[n % RING]
    }

    method ReadWindow(n: nat, ch: nat) returns (w: array<int>)
      requires Holds() && HALF <= n && n + HALF < nIn <= n + RING - HALF
      ensures fresh(w) && w[..] == Window(stream, n, ch)
    {
      w := new int[WIN];
      var k := 0;
      while k < WIN
        invariant 0 <= k <= WIN
        invariant forall j :: 0 <= j < k ==> w[j] == Window(stream, n, ch)[j]
        invariant Holds()
      {
        w[k] := FrameAt(n - HALF + k).Channel(ch);
        k := k + 1;
      }
      assert w[..] == Window(stream, n, ch);
    }

    method Classify(n: nat) returns (out: bool)
      requires Holds() && HALF < n && n + HALF < nIn <= n + RING - HALF
      ensures out == Outlier(stream, n)
    {
      out := false;
      var ch := 0;
      while ch < 2 && !out
        invariant 0 <= ch <= 2
        invariant out <==> exists c :: 0 <= c < ch && ChannelOutlier(stream, n, c)
      {
        var w := ReadWindow(n, ch);
        var x: int := FrameAt(n).Channel(ch);
        Qsort(w);
        var base := w[HALF];
        assert base == Median(Window(stream, n, ch));
        var dev := Abs(x - base);
        if dev > T_JUMP {
          out := true;
        } else if dev > T_FLIP && Abs(Flip(x) - base) * 3 < dev {
          out := true;
        } else {
          var prev: int, next: int := FrameAt(n - 1).Channel(ch), FrameAt(n + 1).Channel(ch);
          if Abs(2 * x - prev - next) > 2 * T_JUMP {
            out := true;
          }
        }
        assert out == ChannelOutlier(stream, n, ch);
        ch := ch + 1;
      }
    }

    /** Overwrite the oldest pending interval by those after it. */
    method ShiftBlanks()
      requires Shape() && nblanks > 0
      modifies this`nblanks, blanks
      ensures Shape() && nblanks == old(nblanks) - 1
      ensures blanks[..nblanks] == old(blanks[1..nblanks])
    {
      forall i | 0 <= i < nblanks - 1 {
        blanks[i] := blanks[i + 1];
      }
      nblanks := nblanks - 1;
    }

    method AddBlank(a: int, b: int)
      requires Shape()
      modifies this`nblanks, blanks
      ensures Shape()
      ensures blanks[..nblanks] == (if old(nblanks) == MAX_BLANKS then old(blanks[1..nblanks]) else old(blanks[..nblanks])) + [ClampBlank(a, b)]
    {
      var start := if a < 1 then 1 else a;
      if nblanks == MAX_BLANKS {
        ShiftBlanks();
      }
      blanks[nblanks] := Blank(start, b);
      nblanks := nblanks + 1;
    }

    /** Move the period towards the distance d to an accepted burst; one that was off phase may be two periods late. */
    method MovePeriod(d: real, offPhase: bool)
      requires PeriodOk(period)
      modifies this`period
      ensures period == Nudge(old(period), d, !offPhase)
    {
      if d > P_MIN && d < P_MAX {
        period := period + 0.15 * (d - period);
      } else if offPhase && d > 1.5 * P_MIN {
        assert d / period > 1.0;
        period := period + 0.05 * (d / ((d / period + 0.5).Floor as real) - period);
      }
    }

    /** The open burst has enough outliers: update the tracker and schedule its interval, or reject it. */
    method CloseBurst()
      requires Shape() && nblanks < MAX_BLANKS
      requires PeriodOk(period) && count >= MIN_OUTLIERS
      modifies this`open, this`locked, this`period, this`cLast, this`misses, this`nblanks, blanks
      ensures Shape()
      ensures State() == FmTracker.CloseBurst(old(State()))
      ensures blanks[..nblanks] == old(blanks[..nblanks]) +
              if Accepts(old(State())) then [ClampBlank(first - MARGIN, last + MARGIN)] else []
    {
      hide Nudge;
      var centre := (first + last) / 2;
      var accept := true;
      open := false;
      if locked {
        var pred := cLast + (period + 0.5).Floor;
        var off := centre - pred;
        if off < -PHASE_TOL || off > PHASE_TOL {
          accept := count >= STRONG;
          if accept {
            MovePeriod((centre - cLast) as real, true);
          }
        } else {
          MovePeriod((centre - cLast) as real, false);
        }
        if accept {
          cLast := centre;
          misses := 0;
        }
      } else {
        var d := (centre - cLast) as real;
        if cLast != 0 && d > P_MIN && d < P_MAX {
          locked := true;
          period := d;
        }
        cLast := centre;
        misses := 0;
      }
      assert State() == FmTracker.CloseBurst(old(State())) && accept == Accepts(old(State()));
      assert blanks[..nblanks] == old(blanks[..nblanks]);
      if accept {
        AddBlank(first - MARGIN, last + MARGIN);
      }
    }

    lemma MirrorsMore(log: seq<Entry>, e: Entry, k: nat)
      requires k <= |log|
      ensures BlanksOf((log + [e])[k..]) == BlanksOf(log[k..]) + [e.blank]
    {
    }

    method NoteOutlier(n: nat)
      modifies this`open, this`first, this`last, this`count
      ensures State() == Note(old(State()), n, true)
    {
      if !open {
        open, first, last, count := true, n, n, 1;
      } else {
        last := n;
        count := count + 1;
      }
    }

    method CloseIfComplete(n: nat)
      requires Mirrors() && nblanks < MAX_BLANKS && PeriodOk(period)
      modifies this`open, this`locked, this`period, this`cLast, this`misses, this`nblanks, this`run, blanks
      ensures Mirrors() && nblanks <= old(nblanks) + 1
      ensures run == Settle(old(run), n)
    {
      hide Nudge;
      ghost var settled := Settle(run, n);
      if open && (n - last > CLUSTER || n - first > MAX_BURST) {
        MirrorsMore(run.log, SeenEntry(State(), n), dropped);
        if count >= MIN_OUTLIERS {
          CloseBurst();
        } else {
          open := false;
        }
      }
      run := settled;
    }

    /** A predicted burst that never showed is blanked anyway. */
    method BlankIfOverdue(n: nat)
      requires Mirrors() && nblanks < MAX_BLANKS
      modifies this`locked, this`cLast, this`misses, this`nblanks, this`run, blanks
      ensures Mirrors() && nblanks <= old(nblanks) + 1
      ensures run == Expect(old(run), n)
    {
      if locked && !open {
        var pred := cLast + (period + 0.5).Floor;
        if n > pred + PHASE_TOL {
          MirrorsMore(run.log, MissedEntry(State(), n), dropped);
          run := Expect(run, n);
          AddBlank(pred - PRED_HALF, pred + PRED_HALF);
          cLast := pred;
          misses := misses + 1;
          if misses >= 3 {
            locked := false;
          }
        }
      }
    }

    /** One classified frame, as the tracker sees it. */
    method Track(n: nat, outlier: bool)
      requires Mirrors() && nblanks <= 5
      requires Steady(run.tracker, n) && (outlier ==> n > HALF)
      modifies this`open, this`first, this`last, this`count, this`locked, this`period, this`cLast, this`misses
      modifies this`nblanks, this`run, blanks
      ensures Mirrors()
      ensures PeriodOk(Settle(old(run).(tracker := Note(old(run).tracker, n, outlier)), n).tracker.period)
      ensures run == FmTracker.Track(old(run), n, outlier)
    {
      TrackKeeps(run, n, outlier);
      if outlier {
        NoteOutlier(n);
      }
      run := run.(tracker := Note(run.tracker, n, outlier));
      CloseIfComplete(n);
      BlankIfOverdue(n);
    }

    method DropHead()
      requires Mirrors() && nblanks > 0
      modifies this`nblanks, this`dropped, blanks
      ensures Mirrors() && dropped == old(dropped) + 1 && nblanks == old(nblanks) - 1
    {
      assert BlanksOf(run.log[dropped + 1..]) == BlanksOf(run.log[dropped..])[1..];
      assert blanks[1..nblanks] == blanks[..nblanks][1..];
      ShiftBlanks();
      dropped := dropped + 1;
    }

    lemma Pending(i: nat)
      requires Mirrors() && i < nblanks
      ensures dropped + i < |run.log| && blanks[i] == run.log[dropped + i].blank
    {
      assert blanks[..nblanks][i] == BlanksOf(run.log[dropped..])[i];
    }

    /** Drop from the head the intervals that are behind frame m. */
    method DropPast(m: nat)
      requires Mirrors()
      requires Passed(run.log, dropped, m)
      modifies this`nblanks, this`dropped, blanks
      ensures Mirrors()
      ensures Passed(run.log, dropped, m)
      ensures dropped < |run.log| ==> m <= run.log[dropped].blank.b
    {
      hide BlanksOf, State;
      while nblanks > 0 && blanks[0].b < m
        invariant Mirrors()
        invariant Passed(run.log, dropped, m)
        decreases nblanks
      {
        Pending(0);
        DropHead();
      }
      if nblanks > 0 { Pending(0); }
      assert |blanks[..nblanks]| == |run.log| - dropped;
    }

    method Interpolate(blank: Blank, m: nat) returns (out: Frame)
      requires Holds() && 1 <= blank.a <= m <= blank.b < nIn - 1 && nIn - RING < blank.a
      ensures out == Interpolated(stream, blank, m)
    {
      hide Blend;
      var pa, pb := FrameAt(blank.a - 1), FrameAt(blank.b + 1);
      var num, den := m - (blank.a - 1), blank.b + 2 - blank.a;
      BlendBounded(pa.left, pb.left, num, den);
      BlendBounded(pa.right, pb.right, num, den);
      out := Frame(Blend(pa.left, pb.left, num, den), Blend(pa.right, pb.right, num, den));
    }

    /** The first pending interval that contains frame m; no dropped one does. */
    method FindPending(m: nat) returns (r: Option<Blank>)
      requires Mirrors() && Passed(run.log, dropped, m)
      ensures r == FirstCover(run.log, m)
    {
      assert |blanks[..nblanks]| == nblanks == |run.log| - dropped;
      var i := 0;
      while i < nblanks
        invariant 0 <= i <= nblanks
        invariant forall k :: 0 <= k < dropped + i ==> !Covers(run.log[k].blank, m)
      {
        Pending(i);
        if m >= blanks[i].a && m <= blanks[i].b {
          FirstCoverIs(run.log, dropped + i, m);
          return Some(blanks[i]);
        }
        i := i + 1;
      }
      FirstCoverIs(run.log, |run.log|, m);
      r := None;
    }

    /** Deliver frame m: passed through, or interpolated inside the first pending interval that contains it. */
    method Emit(m: nat) returns (out: Frame)
      requires Holds() && Mirrors()
      requires m + DELAY + 1 == nIn && run == After(Flags(stream, m + LEAD))
      requires Passed(run.log, dropped, m)
      modifies this`nblanks, this`dropped, blanks
      ensures Mirrors()
      ensures out == Delivered(stream, m)
      ensures Passed(run.log, dropped, m)
      ensures dropped < |run.log| ==> m <= run.log[dropped].blank.b
    {
      hide After, Interpolated, Outlier, FirstCover;
      DropPast(m);
      var r := FindPending(m);
      if r.Some? {
        AnchorsArrived(stream, m, r.value);
        out := Interpolate(r.value, m);
      } else {
        out := FrameAt(m);
      }
    }

    method Receive(f: Frame)
      requires Holds()
      modifies this`nIn, this`stream, ring
      ensures Holds() && stream == old(stream) + [f]
    {
      ring[nIn % RING] := f;
      nIn := nIn + 1;
      stream := stream + [f];
    }

    method ClassifyNext()
      requires Holds() && Mirrors() && nblanks <= 5
      requires nCls + HALF + 1 < nIn <= nCls + RING - HALF
      requires run == After(Flags(stream, nCls))
      modifies this`open, this`first, this`last, this`count, this`locked, this`period, this`cLast, this`misses
      modifies this`nblanks, this`run, this`nCls, blanks
      ensures Mirrors() && nCls == old(nCls) + 1
      ensures run == After(Flags(stream, nCls)) && old(run.log) <= run.log
    {
      hide After, Outlier;
      var n := nCls;
      var o := false;
      if n > HALF {
        o := Classify(n);
      }
      AfterNext(stream, n);
      TrackAppends(run, n, o);
      Track(n, o);
      nCls := nCls + 1;
    }

    /** The tracker has seen every frame whose window has arrived. */
    ghost predicate Caught()
      reads this, ring, blanks
    {
      && Holds() && Mirrors()
      && nCls == (if nIn < HALF + 1 then 0 else nIn - HALF - 1)
      && run == After(Flags(stream, nCls))
    }

    /** Classify the frame whose whole window has now arrived. */
    method CatchUp()
      requires Holds() && Mirrors() && nblanks <= 5
      requires nCls == (if nIn < HALF + 2 then 0 else nIn - HALF - 2)
      requires run == After(Flags(stream, nCls))
      modifies this`open, this`first, this`last, this`count, this`locked, this`period, this`cLast, this`misses
      modifies this`nblanks, this`run, this`nCls, blanks
      ensures Caught() && old(run.log) <= run.log
    {
      hide After;
      while nCls + HALF + 1 < nIn
        invariant Holds() && Mirrors()
        invariant nCls == old(nCls) || (nIn >= HALF + 2 && nCls == nIn - HALF - 1)
        invariant nCls == old(nCls) ==> nblanks <= 5
        invariant run == After(Flags(stream, nCls))
        invariant old(run.log) <= run.log
      {
        ClassifyNext();
      }
    }

    /** At most five intervals are pending between frames, so adding one never evicts another. */
    lemma FewPending()
      requires Valid()
      ensures nblanks <= 5
    {
      hide After;
      LogInvariant(Flags(stream, nCls));
      FewRecent(run.log, dropped, nCls - 1);
      assert |blanks[..nblanks]| == |run.log| - dropped;
    }

    method Advance(f: Frame)
      requires Valid()
      modifies this, ring, blanks
      ensures Caught() && stream == old(stream) + [f] && nOut == old(nOut) && dropped == old(dropped)
      ensures old(run.log) <= run.log
    {
      hide After;
      FewPending();
      FlagsCausal(stream, stream + [f], nCls);
      Receive(f);
      CatchUp();
    }

    method Deliver() returns (out: Frame)
      requires Caught() && nIn > DELAY && nOut == nIn - DELAY - 1
      requires Passed(run.log, dropped, nOut)
      modifies this`nOut, this`nblanks, this`dropped, blanks
      ensures Valid()
      ensures out == Delivered(stream, nIn - DELAY - 1)
    {
      hide After, Delivered;
      LogInvariant(Flags(stream, nCls));
      out := Emit(nOut);
      StillRecent(run.log, dropped, nOut);
      nOut := nOut + 1;
    }

    /** One frame in, one frame out. */
    method Step(f: Frame) returns (out: Frame)
      requires Valid()
      modifies this, ring, blanks
      ensures Valid()
      ensures stream == old(stream) + [f]
      ensures out == Output(stream)[|stream| - 1]
    {
      hide After, Delivered;
      Advance(f);
      if nIn > DELAY {
        out := Deliver();
      } else {
        out := SILENCE;
        LogInvariant(Flags(stream, nCls));
      }
    }

    /** One transfer call: `size` frames from src are repaired into dst. */
    method Transfer(dst: array<Frame>, dstOffset: nat, src: array<Frame>, srcOffset: nat, size: nat)
      requires Valid()
      requires dstOffset + size <= dst.Length && srcOffset + size <= src.Length
      requires dst != src && dst != ring && src != ring
      modifies this, ring, blanks, dst
      ensures Valid()
      ensures stream == old(stream) + src[srcOffset..srcOffset + size]
      ensures dst[dstOffset..dstOffset + size] == Output(stream)[|old(stream)|..]
      ensures dst[..dstOffset] == old(dst[..dstOffset]) && dst[dstOffset + size..] == old(dst[dstOffset + size..])
    {
      hide After, Delivered, Holds, Mirrors, Recent, Passed, Flags;
      var i := 0;
      while i < size
        invariant 0 <= i <= size
        invariant Valid()
        invariant stream == old(stream) + src[srcOffset..srcOffset + i]
        invariant dst[dstOffset..dstOffset + i] == Output(stream)[|old(stream)|..]
        invariant dst[..dstOffset] == old(dst[..dstOffset]) && dst[dstOffset + size..] == old(dst[dstOffset + size..])
      {
        ghost var before := stream;
        var out := Step(src[srcOffset + i]);
        OutputCausal(before, [src[srcOffset + i]]);
        dst[dstOffset + i] := out;
        i := i + 1;
      }
    }
  }
}
