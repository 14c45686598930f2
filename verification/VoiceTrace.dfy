/** What the voice driver may tell the DSP, as a discipline on the trace of commands it has issued:
    ENABLE, ATTACH and START nest, and everything issued is undone in reverse order before the next
    ENABLE and before any session is created or destroyed; and nothing is raised before the manager's
    session has taken dual control. */
module VoiceTrace {
  import opened Options

  /** The voice manager and the voice processor. */
  datatype Service = Mvm | Cvp

  datatype Up = Enabled | Attached | Started

  datatype Kind =
    | Create(svc: Service, handle: nat)  // handle: what the reply assigned, 0 if none came
    | Destroy(svc: Service)
    | DualControl
    | Raise(up: Up)                      // ENABLE, ATTACH_VOCPROC, START_VOICE
    | Undo(up: Up)                       // DISABLE, DETACH_VOCPROC, STOP_VOICE
    | Mute

  /** A command and whether it succeeded. */
  datatype Event = Event(kind: Kind, ok: bool)

  datatype Layer = Layer(up: Up, ok: bool)

  /** What has been raised and not undone, which sessions exist, and whether the manager's is under dual control. */
  datatype Dsp = Dsp(stack: seq<Layer>, live: set<Service>, dual: bool)

  const IDLE := Dsp([], {}, false)
  const RUNNING := [Layer(Enabled, true), Layer(Attached, true), Layer(Started, true)]

  /** What must be up before a layer is raised. */
  function Under(up: Up): seq<Layer> {
    match up
    case Enabled => []
    case Attached => [Layer(Enabled, true)]
    case Started => [Layer(Enabled, true), Layer(Attached, true)]
  }

  function Level(up: Up): nat {
    match up case Enabled => 0 case Attached => 1 case Started => 2
  }

  predicate Allowed(d: Dsp, kind: Kind) {
    match kind
    case Create(svc, _) => d.stack == [] && svc !in d.live
    case Destroy(svc) => d.stack == [] && svc in d.live
    case DualControl => d.stack == [] && Mvm in d.live
    case Raise(up) => d.stack == Under(up) && Mvm in d.live && Cvp in d.live && d.dual
    case Undo(up) => d.stack != [] && d.stack[|d.stack| - 1].up == up
    case Mute => d.stack == RUNNING
  }

  function Do(d: Dsp, e: Event): Dsp
    requires Allowed(d, e.kind)
  {
    match e.kind
    case Create(svc, handle) => if handle != 0 then d.(live := d.live + {svc}) else d
    case Destroy(svc) => d.(live := d.live - {svc}, dual := d.dual && svc != Mvm)
    case DualControl => d.(dual := d.dual || e.ok)
    case Raise(up) => d.(stack := d.stack + [Layer(up, e.ok)])
    case Undo(_) => d.(stack := d.stack[..|d.stack| - 1])
    case Mute => d
  }

  /** The DSP after a disciplined trace; None if the trace breaks the discipline. */
  function Replay(trace: seq<Event>): Option<Dsp> {
    if trace == [] then Some(IDLE)
    else
      var e := trace[|trace| - 1];
      match Replay(trace[..|trace| - 1])
      case None => None
      case Some(d) => if Allowed(d, e.kind) then Some(Do(d, e)) else None
  }

  lemma ReplayNext(trace: seq<Event>, e: Event)
    requires Replay(trace).Some? && Allowed(Replay(trace).value, e.kind)
    ensures Replay(trace + [e]) == Some(Do(Replay(trace).value, e))
  {
    assert (trace + [e])[..|trace|] == trace;
  }

  lemma {:induction false} ReplayPrefix(trace: seq<Event>, n: nat)
    requires n <= |trace| && Replay(trace).Some?
    ensures Replay(trace[..n]).Some?
    decreases |trace|
  {
    if n == |trace| {
      assert trace[..n] == trace;
    } else {
      ReplayPrefix(trace[..|trace| - 1], n);
      assert trace[..|trace| - 1][..n] == trace[..n];
    }
  }

  /** Layers are raised in order, so a layer's place in the stack is its level. */
  lemma {:induction false} StackOrdered(trace: seq<Event>)
    requires Replay(trace).Some?
    ensures var stack := Replay(trace).value.stack; |stack| <= 3 && forall i :: 0 <= i < |stack| ==> Level(stack[i].up) == i
  {
    if trace != [] {
      StackOrdered(trace[..|trace| - 1]);
    }
  }

  lemma LastAllowed(trace: seq<Event>)
    requires Replay(trace).Some? && trace != []
    ensures var k := |trace| - 1; Replay(trace[..k]).Some? && Allowed(Replay(trace[..k]).value, trace[k].kind)
    ensures var k := |trace| - 1; Replay(trace).value == Do(Replay(trace[..k]).value, trace[k])
  {
  }

  ghost predicate IsRaised(d: Dsp, up: Up) {
    |d.stack| > Level(up) && d.stack[Level(up)].up == up
  }

  lemma StepStaysRaised(d: Dsp, e: Event, up: Up)
    requires Allowed(d, e.kind) && e.kind != Undo(up)
    requires |d.stack| <= 3 && forall i :: 0 <= i < |d.stack| ==> Level(d.stack[i].up) == i
    requires e.kind == Raise(up) || IsRaised(d, up)
    ensures IsRaised(Do(d, e), up)
  {
  }

  /** A raised layer stays until it is undone. */
  lemma {:induction false} StaysRaised(trace: seq<Event>, i: nat, j: nat, up: Up)
    requires Replay(trace).Some? && i < j <= |trace| && trace[i].kind == Raise(up)
    requires forall k :: i < k < j ==> trace[k].kind != Undo(up)
    ensures Replay(trace[..j]).Some?
    ensures IsRaised(Replay(trace[..j]).value, up)
    decreases j
  {
    hide Replay, Allowed, Do, IsRaised;
    ReplayPrefix(trace, j);
    LastAllowed(trace[..j]);
    assert trace[..j][..j - 1] == trace[..j - 1];
    StackOrdered(trace[..j - 1]);
    if j > i + 1 {
      StaysRaised(trace, i, j - 1, up);
    }
    StepStaysRaised(Replay(trace[..j - 1]).value, trace[j - 1], up);
  }

  lemma AllowedAt(trace: seq<Event>, k: nat)
    requires Replay(trace).Some? && k < |trace|
    ensures Replay(trace[..k]).Some? && Allowed(Replay(trace[..k]).value, trace[k].kind)
  {
    hide Replay, Allowed;
    ReplayPrefix(trace, k + 1);
    LastAllowed(trace[..k + 1]);
    assert trace[..k + 1][..k] == trace[..k];
  }

  /** Between issuing ENABLE, ATTACH or START and the next time a session is created or destroyed, or
      ENABLE is issued again, that very command is undone. */
  lemma UndoneBefore(trace: seq<Event>, i: nat, j: nat, up: Up)
    requires Replay(trace).Some? && i < j < |trace| && trace[i].kind == Raise(up)
    requires trace[j].kind.Create? || trace[j].kind.Destroy? || trace[j].kind == Raise(Enabled)
    ensures exists k :: i < k < j && trace[k].kind == Undo(up)
  {
    AllowedAt(trace, j);
    if forall k :: i < k < j ==> trace[k].kind != Undo(up) {
      StaysRaised(trace, i, j, up);
    }
  }

  /** And in reverse order: when a layer is undone, whatever was raised above it has been undone before. */
  lemma UndoneInReverse(trace: seq<Event>, j: nat, k: nat, low: Up, high: Up)
    requires Replay(trace).Some? && j < k < |trace| && Level(low) < Level(high)
    requires trace[j].kind == Raise(high) && trace[k].kind == Undo(low)
    ensures exists m :: j < m < k && trace[m].kind == Undo(high)
  {
    AllowedAt(trace, k);
    StackOrdered(trace[..k]);
    if forall m :: j < m < k ==> trace[m].kind != Undo(high) {
      hide Replay;
      StaysRaised(trace, j, k, high);
    }
  }

  ghost predicate TookControl(trace: seq<Event>, i: int, j: int) {
    && 0 <= i < j <= |trace| && trace[i] == Event(DualControl, true)
    && forall k :: i < k < j ==> trace[k].kind != Destroy(Mvm)
  }

  lemma {:induction false} ControlTaken(trace: seq<Event>)
    requires Replay(trace).Some? && Replay(trace).value.dual
    ensures exists i :: TookControl(trace, i, |trace|)
  {
    var n := |trace| - 1;
    if trace[n] == Event(DualControl, true) {
      assert TookControl(trace, n, |trace|);
    } else {
      ControlTaken(trace[..n]);
      var i :| TookControl(trace[..n], i, n);
      assert TookControl(trace, i, |trace|);
    }
  }

  lemma RaiseNeedsControl(d: Dsp, kind: Kind)
    requires Allowed(d, kind) && kind.Raise?
    ensures d.dual
  {
  }

  /** Whatever is enabled, attached or started, the manager's session took dual control before it, and that session
      has not been destroyed since. */
  lemma ControlledFirst(trace: seq<Event>, j: nat)
    requires Replay(trace).Some? && j < |trace| && trace[j].kind.Raise?
    ensures exists i :: TookControl(trace, i, j)
  {
    hide Replay, Allowed;
    AllowedAt(trace, j);
    RaiseNeedsControl(Replay(trace[..j]).value, trace[j].kind);
    ControlTaken(trace[..j]);
    var i :| TookControl(trace[..j], i, j);
    assert TookControl(trace, i, j);
  }

  /** `low` was raised at i with success, and not undone before j. */
  ghost predicate UpFrom(trace: seq<Event>, low: Up, i: int, j: int) {
    && 0 <= i < j <= |trace| && trace[i] == Event(Raise(low), true)
    && forall k :: i < k < j ==> trace[k].kind != Undo(low)
  }

  lemma StoodOrRaised(d: Dsp, e: Event, low: Up)
    requires Allowed(d, e.kind) && forall i :: 0 <= i < |d.stack| ==> Level(d.stack[i].up) == i
    requires Layer(low, true) in Do(d, e).stack && e != Event(Raise(low), true)
    ensures Layer(low, true) in d.stack && e.kind != Undo(low)
  {
    if e.kind.Undo? {
      assert forall i :: 0 <= i < |d.stack| - 1 ==> d.stack[i].up != d.stack[|d.stack| - 1].up;
    }
  }

  lemma {:induction false} RaisedWell(trace: seq<Event>, low: Up)
    requires Replay(trace).Some? && Layer(low, true) in Replay(trace).value.stack
    ensures exists i :: UpFrom(trace, low, i, |trace|)
  {
    if trace != [] {
      hide Replay, Allowed, Do;
      LastAllowed(trace);
      var n := |trace| - 1;
      if trace[n] == Event(Raise(low), true) {
        assert UpFrom(trace, low, n, |trace|);
      } else {
        StackOrdered(trace[..n]);
        StoodOrRaised(Replay(trace[..n]).value, trace[n], low);
        RaisedWell(trace[..n], low);
        var i :| UpFrom(trace[..n], low, i, n);
        assert UpFrom(trace, low, i, |trace|);
      }
    }
  }

  /** ATTACH is issued only while ENABLE has succeeded and stands; START only while both have. */
  lemma RaisedInOrder(trace: seq<Event>, j: nat)
    requires Replay(trace).Some? && j < |trace|
    ensures trace[j].kind == Raise(Attached) ==> exists i :: UpFrom(trace, Enabled, i, j)
    ensures trace[j].kind == Raise(Started) ==>
      (exists i :: UpFrom(trace, Enabled, i, j)) && (exists i :: UpFrom(trace, Attached, i, j))
  {
    AllowedAt(trace, j);
    if trace[j].kind == Raise(Attached) || trace[j].kind == Raise(Started) {
      assert Under(trace[j].kind.up)[0] == Layer(Enabled, true);
      StoodBefore(trace, j, Enabled);
    }
    if trace[j].kind == Raise(Started) {
      assert Under(Started)[1] == Layer(Attached, true);
      StoodBefore(trace, j, Attached);
    }
  }

  lemma StoodBefore(trace: seq<Event>, j: nat, low: Up)
    requires j < |trace| && Replay(trace[..j]).Some? && Layer(low, true) in Replay(trace[..j]).value.stack
    ensures exists i :: UpFrom(trace, low, i, j)
  {
    hide Replay;
    RaisedWell(trace[..j], low);
    var i :| UpFrom(trace[..j], low, i, j);
    assert UpFrom(trace, low, i, j);
  }

  lemma RaisedAndUndone(d: Dsp, up: Up, ok: bool, undone: bool)
    requires Allowed(d, Raise(up))
    ensures var d' := Do(d, Event(Raise(up), ok));
      && d' == d.(stack := d.stack + [Layer(up, ok)])
      && Allowed(d', Undo(up)) && Do(d', Event(Undo(up), undone)) == d
  {
    assert (d.stack + [Layer(up, ok)])[..|d.stack|] == d.stack;
  }

  /** One layer more on a path that is running so far: whether or not it succeeds it can be undone, which restores
      what was. */
  lemma EitherWay(d: Dsp, up: Up)
    requires d.stack == Under(up) && d.live == {Mvm, Cvp} && d.dual
    ensures Allowed(d, Raise(up))
    ensures forall ok :: Allowed(Do(d, Event(Raise(up), ok)), Undo(up))
    ensures forall ok, undone :: Do(Do(d, Event(Raise(up), ok)), Event(Undo(up), undone)) == d
    ensures Do(d, Event(Raise(up), true)) == d.(stack := Under(up) + [Layer(up, true)])
  {
    assert Allowed(d, Raise(up));
    hide Allowed, Do, Under;
    forall ok, undone
      ensures Allowed(Do(d, Event(Raise(up), ok)), Undo(up)) && Do(Do(d, Event(Raise(up), ok)), Event(Undo(up), undone)) == d
    {
      RaisedAndUndone(d, up, ok, undone);
    }
    RaisedAndUndone(d, up, true, true);
  }
}
