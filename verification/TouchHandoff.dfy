/** The touch controller's report hand-off: one shared report buffer, lent to up to five readers at a
    time. Each step below is one section that the source runs under its mutex, or one wait that ends;
    the steps of any number of propagators and readers interleave freely. */
module TouchHandoff {

  const READERS_MAX := 5
  const ANY_REPORT := 0xFFFF

  type Tid = nat

  /** A reader slot; reportId 0 means free. `owner` is the thread that registered it. */
  datatype Slot = Slot(reportId: nat, sem: nat, passed: nat, owner: Tid)

  /** Where a reader is: outside, blocked on its slot, woken or timed out but not yet under the
      mutex again, or back from get_report with a grant it must return by release_report. */
  datatype Phase = Outside | Waiting(slot: nat) | Woken(slot: nat, ok: bool) | Holding

  /** How many grants a thread was given, and how many it returned. */
  datatype Ledger = Ledger(granted: nat, returned: nat)

  /** The contents of the report buffer; `id` is its word 1. */
  datatype Report = Report(id: nat, words: seq<nat>)

  datatype State = State(
    reportSem: nat,
    outstanding: nat,            // 8 bits wide
    inside: nat,                 // propagators past the semaphore, not yet done
    rx: Report,
    slots: seq<Slot>,
    phase: map<Tid, Phase>,      // absent means Outside
    holders: set<Tid>,           // history: threads with a grant not yet returned
    ledger: map<Tid, Ledger>)    // history: absent means nothing yet

  datatype Step =
    | Enter
    | Incomplete(rx: Report)
    | Propagate(rx: Report)
    | Register(t: Tid, id: nat)
    | Wake(t: Tid)
    | GiveUp(t: Tid)
    | Leave(t: Tid)
    | Release(t: Tid)

  function PhaseOf(s: State, t: Tid): Phase {
    if t in s.phase then s.phase[t] else Outside
  }

  function LedgerOf(s: State, t: Tid): Ledger {
    if t in s.ledger then s.ledger[t] else Ledger(0, 0)
  }

  function Init(rx: Report): State {
    State(1, 0, 0, rx, seq(READERS_MAX, i => Slot(0, 0, 0, 0)), map[], {}, map[])
  }

  // ----- The sections under the mutex -----

  predicate Matches(slot: Slot, rx: Report) {
    slot.reportId == ANY_REPORT || (rx.id != 0 && slot.reportId == rx.id)
  }

  /** Hand the report to the reader in slot i. */
  function GrantSlot(s: State, i: nat): State
    requires i < |s.slots|
  {
    var slot := s.slots[i];
    var l := LedgerOf(s, slot.owner);
    s.(slots := s.slots[i := slot.(sem := slot.sem + 1, passed := slot.passed + 1)],
       outstanding := (s.outstanding + 1) % 256,
       holders := s.holders + {slot.owner},
       ledger := s.ledger[slot.owner := l.(granted := l.granted + 1)])
  }

  /** The loop over the reader slots, from slot i on. */
  function GrantFrom(s: State, i: nat): State
    requires i <= |s.slots|
    decreases |s.slots| - i
  {
    if i == |s.slots| then s
    else GrantFrom(if Matches(s.slots[i], s.rx) then GrantSlot(s, i) else s, i + 1)
  }

  /** up(report_sem) if no grant is outstanding. */
  function Reopen(s: State): State {
    if s.outstanding == 0 then s.(reportSem := s.reportSem + 1) else s
  }

  /** One grant comes back. */
  function GiveBack(s: State, t: Tid): State {
    var l := LedgerOf(s, t);
    Reopen(s.(outstanding := (s.outstanding - 1) % 256,
              holders := s.holders - {t},
              ledger := s.ledger[t := l.(returned := l.returned + 1)]))
  }

  predicate HasFree(slots: seq<Slot>) {
    exists i :: 0 <= i < |slots| && slots[i].reportId == 0
  }

  /** The first free slot. */
  function FirstFree(slots: seq<Slot>): (i: nat)
    requires HasFree(slots)
    ensures i < |slots| && slots[i].reportId == 0
  {
    if slots[0].reportId == 0 then 0
    else
      assert HasFree(slots[1..]) by {
        var i :| 0 <= i < |slots| && slots[i].reportId == 0;
        assert slots[1..][i - 1].reportId == 0;
      }
      FirstFree(slots[1..]) + 1
  }

  /** A wait fails only while its semaphore is down: the kernel's down calls take one that is up, and a waiter that
      was chosen by up() succeeds even if its time ran out or a signal came meanwhile. */
  predicate Enabled(s: State, step: Step) {
    match step
    case Enter => s.reportSem > 0
    case Incomplete(_) => s.inside > 0
    case Propagate(_) => s.inside > 0
    case Register(t, id) => PhaseOf(s, t).Outside? && id != 0 && HasFree(s.slots)
    case Wake(t) => PhaseOf(s, t).Waiting? && PhaseOf(s, t).slot < |s.slots| && s.slots[PhaseOf(s, t).slot].sem > 0
    case GiveUp(t) => PhaseOf(s, t).Waiting? && PhaseOf(s, t).slot < |s.slots| && s.slots[PhaseOf(s, t).slot].sem == 0
    case Leave(t) => PhaseOf(s, t).Woken? && PhaseOf(s, t).slot < |s.slots|
    case Release(t) => PhaseOf(s, t).Holding?
  }

  function Apply(s: State, step: Step): State
    requires Enabled(s, step)
  {
    match step
    case Enter =>
      s.(reportSem := s.reportSem - 1, inside := s.inside + 1)
    case Incomplete(rx) =>
      s.(rx := rx, reportSem := s.reportSem + 1, inside := s.inside - 1)
    case Propagate(rx) =>
      Reopen(GrantFrom(s.(rx := rx, inside := s.inside - 1), 0))
    case Register(t, id) =>
      var i := FirstFree(s.slots);
      s.(slots := s.slots[i := Slot(id, 0, 0, t)], phase := s.phase[t := Waiting(i)])
    case Wake(t) =>
      var i := PhaseOf(s, t).slot;
      s.(slots := s.slots[i := s.slots[i].(sem := s.slots[i].sem - 1)], phase := s.phase[t := Woken(i, true)])
    case GiveUp(t) =>
      s.(phase := s.phase[t := Woken(PhaseOf(s, t).slot, false)])
    case Leave(t) =>
      var Woken(i, ok) := PhaseOf(s, t);
      var returned := if !ok && s.slots[i].passed > 0 then GiveBack(s, t) else s;
      returned.(slots := returned.slots[i := returned.slots[i].(reportId := 0)],
                phase := returned.phase[t := if ok then Holding else Outside])
    case Release(t) =>
      GiveBack(s, t).(phase := s.phase[t := Outside])
  }

  // ----- The invariant -----

  /** A reader registered in a slot, and the slot's state for each place the reader can be. */
  ghost predicate Registered(s: State, i: nat)
    requires i < |s.slots|
  {
    var slot := s.slots[i];
    slot.reportId != 0 ==>
      && slot.passed <= 1
      && (slot.owner in s.holders <==> slot.passed == 1)
      && (|| (PhaseOf(s, slot.owner) == Waiting(i) && slot.sem == slot.passed)
          || PhaseOf(s, slot.owner) == Woken(i, false)
          || (PhaseOf(s, slot.owner) == Woken(i, true) && slot.passed == 1))
  }

  ghost predicate ThreadOk(s: State, t: Tid) {
    && (match PhaseOf(s, t)
        case Outside => t !in s.holders
        case Waiting(i) => i < |s.slots| && s.slots[i].reportId != 0 && s.slots[i].owner == t
        case Woken(i, _) => i < |s.slots| && s.slots[i].reportId != 0 && s.slots[i].owner == t
        case Holding => t in s.holders)
    && LedgerOf(s, t).granted == LedgerOf(s, t).returned + if t in s.holders then 1 else 0
  }

  ghost predicate Inv(s: State) {
    && |s.slots| == READERS_MAX
    && s.outstanding == |s.holders| <= READERS_MAX
    && s.reportSem + s.inside + (if s.outstanding > 0 then 1 else 0) == 1
    && (forall i :: 0 <= i < READERS_MAX ==> Registered(s, i))
    && (forall t :: ThreadOk(s, t))
  }

  // ----- Every step keeps it -----

  /** Midway through the grant loop: slots before i are done, and the later ones have no grant yet. */
  ghost predicate Granting(s: State, i: nat) {
    && i <= |s.slots| == READERS_MAX
    && s.outstanding == |s.holders| <= i
    && s.reportSem == 0 && s.inside == 0
    && (forall j :: 0 <= j < READERS_MAX ==> Registered(s, j))
    && (forall j :: i <= j < READERS_MAX && s.slots[j].reportId != 0 ==> s.slots[j].passed == 0)
    && (forall t :: ThreadOk(s, t))
  }

  lemma GrantSlotKeeps(s: State, i: nat)
    requires i < READERS_MAX && Granting(s, i) && Matches(s.slots[i], s.rx)
    ensures Granting(GrantSlot(s, i), i + 1)
  {
    var s' := GrantSlot(s, i);
    var t := s.slots[i].owner;
    assert Registered(s, i) && ThreadOk(s, t);
    assert t !in s.holders && |s'.holders| == |s.holders| + 1;
    forall j | 0 <= j < READERS_MAX ensures Registered(s', j) {
      assert Registered(s, j);
    }
    forall u ensures ThreadOk(s', u) {
      assert ThreadOk(s, u);
    }
  }

  lemma {:induction false} GrantFromKeeps(s: State, i: nat)
    requires i <= READERS_MAX && Granting(s, i)
    ensures Granting(GrantFrom(s, i), READERS_MAX)
    decreases READERS_MAX - i
  {
    if i < READERS_MAX {
      if Matches(s.slots[i], s.rx) {
        GrantSlotKeeps(s, i);
        GrantFromKeeps(GrantSlot(s, i), i + 1);
      } else {
        GrantFromKeeps(s, i + 1);
      }
    }
  }

  lemma NobodyHolds(s: State)
    requires Inv(s) && s.outstanding == 0
    ensures s.holders == {}
    ensures forall j :: 0 <= j < READERS_MAX && s.slots[j].reportId != 0 ==> s.slots[j].passed == 0
  {
    forall j | 0 <= j < READERS_MAX && s.slots[j].reportId != 0 ensures s.slots[j].passed == 0 {
      assert Registered(s, j);
    }
  }

  lemma PropagateKeeps(s: State, rx: Report)
    requires Inv(s) && Enabled(s, Propagate(rx))
    ensures Inv(Apply(s, Propagate(rx)))
  {
    NobodyHolds(s);
    var start := s.(rx := rx, inside := s.inside - 1);
    forall j | 0 <= j < READERS_MAX ensures Registered(start, j) {
      assert Registered(s, j);
    }
    forall t ensures ThreadOk(start, t) {
      assert ThreadOk(s, t);
    }
    GrantFromKeeps(start, 0);
    var granted := GrantFrom(start, 0);
    forall j | 0 <= j < READERS_MAX ensures Registered(Reopen(granted), j) {
      assert Registered(granted, j);
    }
    forall t ensures ThreadOk(Reopen(granted), t) {
      assert ThreadOk(granted, t);
    }
  }

  /** Steps that change neither readers nor grants. */
  lemma QuietStepKeeps(s: State, step: Step)
    requires Inv(s) && Enabled(s, step) && (step.Enter? || step.Incomplete?)
    ensures Inv(Apply(s, step))
  {
    var s' := Apply(s, step);
    forall j | 0 <= j < READERS_MAX ensures Registered(s', j) {
      assert Registered(s, j);
    }
    forall t ensures ThreadOk(s', t) {
      assert ThreadOk(s, t);
    }
  }

  lemma WaitStepKeeps(s: State, step: Step)
    requires Inv(s) && Enabled(s, step) && (step.Register? || step.Wake? || step.GiveUp?)
    ensures Inv(Apply(s, step))
  {
    var s' := Apply(s, step);
    assert ThreadOk(s, step.t);
    forall j | 0 <= j < READERS_MAX ensures Registered(s', j) {
      assert Registered(s, j);
      assert ThreadOk(s, s.slots[j].owner);
    }
    forall u ensures ThreadOk(s', u) {
      assert ThreadOk(s, u);
    }
  }

  lemma LeaveKeeps(s: State, t: Tid)
    requires Inv(s) && Enabled(s, Leave(t))
    ensures Inv(Apply(s, Leave(t)))
  {
    var s' := Apply(s, Leave(t));
    assert ThreadOk(s, t);
    assert Registered(s, PhaseOf(s, t).slot);
    forall j | 0 <= j < READERS_MAX ensures Registered(s', j) {
      assert Registered(s, j);
      assert ThreadOk(s, s.slots[j].owner);
    }
    forall u ensures ThreadOk(s', u) {
      assert ThreadOk(s, u);
    }
  }

  lemma ReleaseKeeps(s: State, t: Tid)
    requires Inv(s) && Enabled(s, Release(t))
    ensures Inv(Apply(s, Release(t)))
  {
    var s' := Apply(s, Release(t));
    assert ThreadOk(s, t);
    forall j | 0 <= j < READERS_MAX ensures Registered(s', j) {
      assert Registered(s, j);
    }
    forall u ensures ThreadOk(s', u) {
      assert ThreadOk(s, u);
    }
  }

  lemma StepKeeps(s: State, step: Step)
    requires Inv(s) && Enabled(s, step)
    ensures Inv(Apply(s, step))
  {
    match step {
      case Enter => QuietStepKeeps(s, step);
      case Incomplete(_) => QuietStepKeeps(s, step);
      case Propagate(rx) => PropagateKeeps(s, rx);
      case Register(_, _) => WaitStepKeeps(s, step);
      case Wake(_) => WaitStepKeeps(s, step);
      case GiveUp(_) => WaitStepKeeps(s, step);
      case Leave(t) => LeaveKeeps(s, t);
      case Release(t) => ReleaseKeeps(s, t);
    }
  }

  // ----- Whole runs -----

  ghost predicate Legal(s: State, steps: seq<Step>)
    decreases |steps|
  {
    steps == [] || (Enabled(s, steps[0]) && Legal(Apply(s, steps[0]), steps[1..]))
  }

  ghost function Exec(s: State, steps: seq<Step>): State
    requires Legal(s, steps)
    decreases |steps|
  {
    if steps == [] then s else Exec(Apply(s, steps[0]), steps[1..])
  }

  lemma InitOk(rx: Report)
    ensures Inv(Init(rx))
  {
  }

  lemma {:induction false} RunKeeps(s: State, steps: seq<Step>)
    requires Inv(s) && Legal(s, steps)
    ensures Inv(Exec(s, steps))
    decreases |steps|
  {
    if steps != [] {
      StepKeeps(s, steps[0]);
      RunKeeps(Apply(s, steps[0]), steps[1..]);
    }
  }

  /** In every state of every interleaving: the counter is the number of readers with a grant not yet
      returned and never wraps; the semaphore is 1 exactly when that is zero and no propagator is inside;
      nobody is granted twice without returning, and whoever is outside has returned every grant. */
  lemma AlwaysBalanced(rx: Report, steps: seq<Step>, t: Tid)
    requires Legal(Init(rx), steps)
    ensures var s := Exec(Init(rx), steps);
      && s.outstanding == |s.holders| <= READERS_MAX
      && (s.reportSem == 1 <==> s.outstanding == 0 && s.inside == 0)
      && s.reportSem <= 1 && s.inside <= 1
      && (t in s.holders <==> LedgerOf(s, t).granted == LedgerOf(s, t).returned + 1)
      && (t !in s.holders <==> LedgerOf(s, t).granted == LedgerOf(s, t).returned)
      && (PhaseOf(s, t).Outside? ==> t !in s.holders)
      && (PhaseOf(s, t).Holding? ==> t in s.holders)
  {
    InitOk(rx);
    RunKeeps(Init(rx), steps);
    assert ThreadOk(Exec(Init(rx), steps), t);
  }

  ghost predicate HoldsThroughout(s: State, steps: seq<Step>, t: Tid)
    requires Legal(s, steps)
    decreases |steps|
  {
    t in s.holders && (steps == [] || HoldsThroughout(Apply(s, steps[0]), steps[1..], t))
  }

  /** The report buffer does not change between a grant and its return. */
  lemma {:induction false} ReportStable(s: State, steps: seq<Step>, t: Tid)
    requires Inv(s) && Legal(s, steps) && HoldsThroughout(s, steps, t)
    ensures Exec(s, steps).rx == s.rx
    decreases |steps|
  {
    if steps != [] {
      assert s.holders != {};
      StepKeeps(s, steps[0]);
      ReportStable(Apply(s, steps[0]), steps[1..], t);
    }
  }

  /** A reader whose wait has failed returns a grant if and only if it was given one; it returns it once, and is then
      outside with none. */
  lemma TimeoutRace(s: State, t: Tid, i: nat)
    requires Inv(s) && PhaseOf(s, t) == Woken(i, false)
    ensures Enabled(s, Leave(t))
    ensures var s', l := Apply(s, Leave(t)), LedgerOf(s, t);
      && PhaseOf(s', t) == Outside && s'.holders == s.holders - {t}
      && s'.outstanding == s.outstanding - (if t in s.holders then 1 else 0)
      && LedgerOf(s', t) == l.(returned := l.returned + if t in s.holders then 1 else 0)
      && LedgerOf(s', t).granted == LedgerOf(s', t).returned
  {
    assert ThreadOk(s, t) && Registered(s, i);
    StepKeeps(s, Leave(t));
    assert ThreadOk(Apply(s, Leave(t)), t);
  }

  /** A wait can fail if and only if its reader has been given nothing, and it leaves it with nothing. */
  lemma FailedWait(s: State, t: Tid, i: nat)
    requires Inv(s) && PhaseOf(s, t) == Waiting(i)
    ensures Enabled(s, GiveUp(t)) <==> t !in s.holders
    ensures Enabled(s, GiveUp(t)) ==>
      var s' := Apply(s, GiveUp(t));
      && Inv(s') && PhaseOf(s', t) == Woken(i, false)
      && s'.holders == s.holders && s'.outstanding == s.outstanding && LedgerOf(s', t) == LedgerOf(s, t)
  {
    assert ThreadOk(s, t) && Registered(s, i);
    if Enabled(s, GiveUp(t)) {
      StepKeeps(s, GiveUp(t));
    }
  }

  /** The k-th step of a run gives thread t its grant: it is a report handed out. */
  ghost predicate GrantedAt(s: State, steps: seq<Step>, t: Tid, k: nat)
    requires Legal(s, steps)
    decreases |steps|
  {
    k < |steps| &&
    if k == 0 then steps[0].Propagate? && t !in s.holders && t in Apply(s, steps[0]).holders
    else GrantedAt(Apply(s, steps[0]), steps[1..], t, k - 1)
  }

  lemma OnlyPropagateGrants(s: State, step: Step, t: Tid)
    requires Inv(s) && Enabled(s, step) && t !in s.holders && t in Apply(s, step).holders
    ensures step.Propagate?
  {
  }

  /** Whoever holds a grant was given it by a report handed out since it held none. */
  lemma {:induction false} GrantComesFrom(s: State, steps: seq<Step>, t: Tid) returns (k: nat)
    requires Inv(s) && Legal(s, steps) && t !in s.holders && t in Exec(s, steps).holders
    ensures GrantedAt(s, steps, t, k)
    decreases |steps|
  {
    StepKeeps(s, steps[0]);
    if t in Apply(s, steps[0]).holders {
      OnlyPropagateGrants(s, steps[0], t);
      k := 0;
    } else {
      k := GrantComesFrom(Apply(s, steps[0]), steps[1..], t);
      k := k + 1;
    }
  }

  /** So any grant a failed reader holds was given after its wait failed and before it took the mutex. */
  lemma GrantedAfterFailure(s: State, t: Tid, i: nat, steps: seq<Step>) returns (k: nat)
    requires Inv(s) && PhaseOf(s, t) == Waiting(i) && Enabled(s, GiveUp(t))
    requires Legal(Apply(s, GiveUp(t)), steps) && t in Exec(Apply(s, GiveUp(t)), steps).holders
    ensures GrantedAt(Apply(s, GiveUp(t)), steps, t, k)
  {
    FailedWait(s, t, i);
    k := GrantComesFrom(Apply(s, GiveUp(t)), steps, t);
  }

  /** And that happens: a report handed out to a reader whose wait has just failed. */
  lemma LateGrantHappens(rx: Report, t: Tid, id: nat, next: Report)
    requires id != 0 && next.id == id
    ensures Enabled(Init(rx), Register(t, id))
    ensures Enabled(Apply(Init(rx), Register(t, id)), Enter)
    ensures var s := Apply(Apply(Init(rx), Register(t, id)), Enter);
      && Enabled(s, GiveUp(t)) && Enabled(Apply(s, GiveUp(t)), Propagate(next))
      && var late := Apply(Apply(s, GiveUp(t)), Propagate(next));
         t in late.holders && PhaseOf(late, t) == Woken(0, false)
  {
    hide GrantFrom, Inv;
    InitOk(rx);
    assert Init(rx).slots[0].reportId == 0;
    StepKeeps(Init(rx), Register(t, id));
    var s1 := Apply(Init(rx), Register(t, id));
    StepKeeps(s1, Enter);
    var s := Apply(s1, Enter);
    assert s.slots[0] == Slot(id, 0, 0, t);
    StepKeeps(s, GiveUp(t));
    Wanted(Apply(s, GiveUp(t)), next, 0);
  }

  /** Handing out a report leaves every reader where it is. */
  lemma {:induction false} GrantKeepsPhases(s: State, i: nat)
    requires i <= |s.slots|
    ensures GrantFrom(s, i).phase == s.phase
    decreases |s.slots| - i
  {
    if i < |s.slots| {
      GrantKeepsPhases(if Matches(s.slots[i], s.rx) then GrantSlot(s, i) else s, i + 1);
    }
  }

  lemma Wanted(s: State, rx: Report, i: nat)
    requires Inv(s) && Enabled(s, Propagate(rx)) && i < READERS_MAX && Matches(s.slots[i], rx)
    ensures var s' := Apply(s, Propagate(rx)); s.slots[i].owner in s'.holders && s'.phase == s.phase
  {
    hide GrantFrom;
    GrantsExactlyTheWanting(s, rx);
    assert s.slots[i].owner in Wanting(s.(rx := rx), 0);
    GrantKeepsPhases(s.(rx := rx, inside := s.inside - 1), 0);
  }

  /** The owners of the slots from i on that want this report. */
  ghost function Wanting(s: State, i: nat): set<Tid>
    requires i <= |s.slots|
  {
    set j | i <= j < |s.slots| && Matches(s.slots[j], s.rx) :: s.slots[j].owner
  }

  lemma {:induction false} GrantFromHolders(s: State, i: nat)
    requires i <= |s.slots|
    ensures GrantFrom(s, i).holders == s.holders + Wanting(s, i)
    decreases |s.slots| - i
  {
    if i < |s.slots| {
      var s' := if Matches(s.slots[i], s.rx) then GrantSlot(s, i) else s;
      GrantFromHolders(s', i + 1);
      assert forall j :: i < j < |s.slots| ==> s'.slots[j] == s.slots[j];
      assert Wanting(s', i + 1) == Wanting(s, i + 1);
      assert Wanting(s, i) == Wanting(s, i + 1) + if Matches(s.slots[i], s.rx) then {s.slots[i].owner} else {};
    }
  }

  /** A complete report is granted to exactly the readers that asked for it, or for any. */
  lemma GrantsExactlyTheWanting(s: State, rx: Report)
    requires Inv(s) && Enabled(s, Propagate(rx))
    ensures var s' := Apply(s, Propagate(rx)); s'.rx == rx && s'.holders == Wanting(s.(rx := rx), 0)
  {
    NobodyHolds(s);
    var start := s.(rx := rx, inside := s.inside - 1);
    GrantFromHolders(start, 0);
    GrantKeepsReport(start, 0);
    assert Wanting(start, 0) == Wanting(s.(rx := rx), 0);
  }

  /** In the slots' own terms: exactly the registered readers that asked for 0xFFFF, any report, or for this report's
      nonzero id, are granted it, and nobody else holds a grant. */
  lemma GrantedByRequest(s: State, rx: Report)
    requires Inv(s) && Enabled(s, Propagate(rx))
    ensures var s' := Apply(s, Propagate(rx));
      && (forall i :: 0 <= i < |s.slots| && s.slots[i].reportId != 0 ==>
            (s.slots[i].owner in s'.holders <==> s.slots[i].reportId == 0xFFFF || (rx.id != 0 && s.slots[i].reportId == rx.id)))
      && (forall t :: t in s'.holders ==>
            exists i :: 0 <= i < |s.slots| && s.slots[i].owner == t
              && (s.slots[i].reportId == 0xFFFF || (rx.id != 0 && s.slots[i].reportId == rx.id)))
  {
    GrantsExactlyTheWanting(s, rx);
    forall i | 0 <= i < |s.slots| && s.slots[i].reportId != 0
      ensures s.slots[i].owner in Wanting(s.(rx := rx), 0) <==> Matches(s.slots[i], rx)
    {
      if s.slots[i].owner in Wanting(s.(rx := rx), 0) {
        var j :| 0 <= j < |s.slots| && Matches(s.slots[j], rx) && s.slots[j].owner == s.slots[i].owner;
        OneSlotEach(s, i, j);
      }
    }
  }

  /** A thread is registered in one slot at most. */
  lemma OneSlotEach(s: State, i: nat, j: nat)
    requires Inv(s) && i < |s.slots| && j < |s.slots| && s.slots[i].owner == s.slots[j].owner
    requires s.slots[i].reportId != 0 && s.slots[j].reportId != 0
    ensures i == j
  {
    assert Registered(s, i) && Registered(s, j);
  }

  /** A reader gets the first free slot, if there is one, with the id it asked for. */
  lemma RegistersFirstFree(s: State, t: Tid, id: nat)
    requires Inv(s) && PhaseOf(s, t) == Outside && id != 0
    ensures Enabled(s, Register(t, id)) <==> exists i :: 0 <= i < 5 && s.slots[i].reportId == 0
    ensures Enabled(s, Register(t, id)) ==> exists i ::
      && 0 <= i < 5 && s.slots[i].reportId == 0 && (forall j :: 0 <= j < i ==> s.slots[j].reportId != 0)
      && Apply(s, Register(t, id)).slots == s.slots[i := Slot(id, 0, 0, t)]
      && PhaseOf(Apply(s, Register(t, id)), t) == Waiting(i)
  {
    if HasFree(s.slots) { FirstIsFree(s.slots); }
  }

  lemma {:induction false} FirstIsFree(slots: seq<Slot>)
    requires HasFree(slots)
    ensures forall j :: 0 <= j < FirstFree(slots) ==> slots[j].reportId != 0
  {
    if slots[0].reportId != 0 {
      var i :| 0 <= i < |slots| && slots[i].reportId == 0;
      assert slots[1..][i - 1].reportId == 0;
      FirstIsFree(slots[1..]);
      assert forall j :: 1 <= j < |slots| ==> slots[j] == slots[1..][j - 1];
    }
  }

  /** A request stands as it was made until the reader itself leaves its slot. */
  lemma RequestStands(s: State, step: Step, i: nat)
    requires Inv(s) && Enabled(s, step) && i < |s.slots| && s.slots[i].reportId != 0 && step != Leave(s.slots[i].owner)
    ensures var s' := Apply(s, step);
      i < |s'.slots| && s'.slots[i].reportId == s.slots[i].reportId && s'.slots[i].owner == s.slots[i].owner
  {
    match step {
      case Propagate(rx) =>
        GrantKeepsRequest(s.(rx := rx, inside := s.inside - 1), 0, i);
      case Leave(t) =>
        assert ThreadOk(s, t);
      case _ =>
    }
  }

  lemma {:induction false} GrantKeepsRequest(s: State, k: nat, i: nat)
    requires i < |s.slots| && k <= |s.slots|
    ensures var s' := GrantFrom(s, k);
      i < |s'.slots| && s'.slots[i].reportId == s.slots[i].reportId && s'.slots[i].owner == s.slots[i].owner
    decreases |s.slots| - k
  {
    if k < |s.slots| {
      GrantKeepsRequest(if Matches(s.slots[k], s.rx) then GrantSlot(s, k) else s, k + 1, i);
    }
  }

  lemma {:induction false} GrantKeepsReport(s: State, i: nat)
    requires i <= |s.slots|
    ensures GrantFrom(s, i).rx == s.rx
    decreases |s.slots| - i
  {
    if i < |s.slots| {
      GrantKeepsReport(if Matches(s.slots[i], s.rx) then GrantSlot(s, i) else s, i + 1);
    }
  }

  /** The hand-off is never stuck: unless the next report can be taken in, a propagator can finish or
      every holder of a grant has a step of its own that brings it closer to returning it. */
  lemma NeverStuck(s: State)
    requires Inv(s)
    ensures Enabled(s, Enter) || (forall rx :: Enabled(s, Propagate(rx))) ||
            (s.holders != {} && forall t :: t in s.holders ==> Enabled(s, Wake(t)) || Enabled(s, Leave(t)) || Enabled(s, Release(t)))
  {
    forall t | t in s.holders ensures Enabled(s, Wake(t)) || Enabled(s, Leave(t)) || Enabled(s, Release(t)) {
      assert ThreadOk(s, t);
      if PhaseOf(s, t).Waiting? { assert Registered(s, PhaseOf(s, t).slot); }
    }
  }
}
