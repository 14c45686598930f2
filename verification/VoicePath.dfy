/** Starting and stopping the two directions of a voice path, with require_both on and attach_stream off.
    The DSP answers each command as it likes; memory and services may be missing at any time. */
module VoicePath {
  import opened Options
  import opened VoiceTrace

  const EALREADY := -114
  const ENOMEM := -12
  const ENODEV := -19
  const EBUSY := -16
  const EIO := -5

  /** What came of a command: the code the sender returns, and the handle a reply brought, if any. */
  datatype Outcome = Outcome(ret: int, handle: nat)

  datatype Session = Session(svc: Service, handle: nat)

  function Bit(capture: bool): bv2 {
    if capture then 2 else 1
  }

  datatype Call = StartCall(capture: bool) | StopCall(capture: bool)

  class VoicePath {
    const dsp: nat -> Outcome     // the outcome of the n-th command
    const memory: nat -> bool     // whether the n-th allocation succeeds
    const present: nat -> bool    // whether the service is there at the n-th lookup
    const unmute: bool

    var sent: seq<Event>
    var allocations: nat
    var lookups: nat

    var hasRuntime: bool
    var started: bv2
    var sessions: map<Service, Session>  // the runtime's sessions
    var table: map<Service, Session>     // the service tables' entries for this path

    ghost var state: Dsp

    constructor (dsp: nat -> Outcome, memory: nat -> bool, present: nat -> bool, unmute: bool)
      ensures Valid() && !hasRuntime && sent == []
    {
      this.dsp, this.memory, this.present, this.unmute := dsp, memory, present, unmute;
      sent, allocations, lookups := [], 0, 0;
      hasRuntime, started, sessions, table := false, 0, map[], map[];
      state := IDLE;
    }

    /** The trace is disciplined, and the sessions it leaves on the DSP are those in the service tables. */
    ghost predicate Tracked()
      reads this
    {
      && Replay(sent) == Some(state)
      && state.live == table.Keys
      && (state.dual ==> Mvm in state.live)
      && forall svc :: svc in table ==> table[svc].handle != 0 && table[svc].svc == svc
    }

    /** The manager's session is there before the processor's, and under dual control. */
    ghost predicate Settled()
      reads this
    {
      (Cvp in sessions ==> Mvm in sessions) && (Mvm in sessions ==> state.dual)
    }

    /** The voice path runs if and only if both directions are started; otherwise nothing is left raised.
        Without a runtime no session of the path is in any service table. */
    ghost predicate Valid()
      reads this
    {
      && Tracked()
      && table == sessions
      && Settled()
      && state.stack == (if started == 3 then RUNNING else [])
      && (started == 3 ==> Cvp in sessions)
      && (hasRuntime <==> started != 0)
      && (!hasRuntime ==> sessions == map[])
    }

    method Send(kind: Kind) returns (ret: int)
      requires Tracked() && Allowed(state, kind) && !kind.Create? && !kind.Destroy?
      modifies this`sent, this`state
      ensures Tracked() && state == Do(old(state), Event(kind, ret == 0))
      ensures sent == old(sent) + [Event(kind, ret == 0)] && ret == dsp(|old(sent)|).ret
    {
      ret := dsp(|sent|).ret;
      Issue(Event(kind, ret == 0));
    }

    ghost predicate Traced()
      reads this
    {
      Replay(sent) == Some(state)
    }

    method Issue(e: Event)
      requires Traced() && Allowed(state, e.kind)
      modifies this`sent, this`state
      ensures Traced() && state == Do(old(state), e) && sent == old(sent) + [e]
    {
      ReplayNext(sent, e);
      sent := sent + [e];
      state := Do(state, e);
    }

    /** Destroy the session on the DSP if it ever got a handle, and take it out of its table. */
    method SessionRelease(svc: Service, handle: nat)
      requires Traced() && state.stack == [] && svc in table
      requires svc in state.live <==> handle != 0
      modifies this`sent, this`state, this`table
      requires state.dual ==> Mvm in state.live
      ensures Traced() && state == old(state).(live := old(state).live - {svc}, dual := old(state).dual && svc != Mvm)
      ensures table == old(table) - {svc}
      ensures if handle != 0 then |sent| == |old(sent)| + 1 && old(sent) < sent && sent[|old(sent)|].kind == Destroy(svc) else sent == old(sent)
    {
      if handle != 0 {
        var ret := dsp(|sent|).ret;
        Issue(Event(Destroy(svc), ret == 0));
      } else {
        assert state.live - {svc} == state.live;
      }
      table := table - {svc};
    }

    method SessionCreate(svc: Service) returns (ret: int, s: Session)
      requires Tracked() && state.stack == []
      modifies this`sent, this`state, this`table, this`allocations, this`lookups
      ensures Tracked() && state.stack == [] && state.dual == old(state).dual && old(sent) <= sent
      ensures !present(old(lookups)) ==> ret == ENODEV && sent == old(sent)
      ensures present(old(lookups)) && !memory(old(allocations)) ==> ret == ENOMEM && sent == old(sent)
      ensures present(old(lookups)) && memory(old(allocations)) && svc in old(table) ==> ret == EBUSY && sent == old(sent)
      ensures present(old(lookups)) && memory(old(allocations)) && svc !in old(table) ==> Asked(old(sent), svc)
      ensures present(old(lookups)) && memory(old(allocations)) && svc !in old(table) ==> ret == Answer(|old(sent)|)
      ensures lookups == old(lookups) + 1 && old(allocations) <= allocations
      ensures present(old(lookups)) ==> allocations == old(allocations) + 1
      ensures ret == 0 ==> svc !in old(table) && table == old(table)[svc := s] && s.svc == svc && s.handle != 0
      ensures ret != 0 ==> table == old(table)
    {
      s := Session(svc, 0);
      lookups := lookups + 1;
      if !present(lookups - 1) {
        return ENODEV, s;
      }
      allocations := allocations + 1;
      if !memory(allocations - 1) {
        return ENOMEM, s;
      }
      if svc in table {
        return EBUSY, s;
      }
      ret, s := Handshake(svc);
    }

    /** Since `before`, the DSP was asked for a session, and to destroy it again if it gave a handle but failed. */
    ghost predicate Asked(before: seq<Event>, svc: Service)
      reads this
    {
      && before < sent && sent[|before|].kind.Create? && sent[|before|].kind.svc == svc
      && if sent[|before|].ok || sent[|before|].kind.handle == 0 then |sent| == |before| + 1
         else |sent| == |before| + 2 && sent[|before| + 1].kind == Destroy(svc)
    }

    /** What comes of asking for a session with the n-th command: its code, or an I/O error if there is no handle. */
    ghost function Answer(n: nat): int {
      if dsp(n).ret == 0 && dsp(n).handle == 0 then EIO else dsp(n).ret
    }

    /** Enter a session in its table, have the DSP create it, and take it out again if that fails. */
    method Handshake(svc: Service) returns (ret: int, s: Session)
      requires Tracked() && state.stack == [] && svc !in table
      modifies this`sent, this`state, this`table
      ensures Tracked() && state.stack == [] && state.dual == old(state).dual && Asked(old(sent), svc) && ret == Answer(|old(sent)|)
      ensures ret == 0 ==> table == old(table)[svc := s] && s.svc == svc && s.handle != 0
      ensures ret != 0 ==> table == old(table)
    {
      hide Replay;
      ghost var before, idle := table, state;
      table := table[svc := Session(svc, 0)];
      var outcome := dsp(|sent|);
      Issue(Event(Create(svc, outcome.handle), outcome.ret == 0));
      s := Session(svc, outcome.handle);
      table := table[svc := s];
      assert table == before[svc := s];
      ret := outcome.ret;
      if ret == 0 && s.handle == 0 {
        ret := EIO;
      }
      if ret != 0 {
        AddThenRemove(before, svc, s);
        assert idle.live + {svc} - {svc} == idle.live && idle.live - {svc} == idle.live;
        SessionRelease(svc, s.handle);
      }
    }

    static lemma AddThenRemove(m: map<Service, Session>, svc: Service, s: Session)
      requires svc !in m
      ensures m[svc := s] - {svc} == m
    {
    }

    /** Every command succeeds and brings a handle, and memory and services are always there. */
    ghost predicate AllWell() {
      && (forall n :: dsp(n).ret == 0 && dsp(n).handle != 0)
      && (forall n :: memory(n)) && (forall n :: present(n))
    }

    /** The code comes from a service that was not there, an allocation that failed, a command the DSP failed, or a
        session for which it gave no handle, all of them since these counts. */
    ghost predicate Blamed(ret: int, commands: nat, allocs: nat, looks: nat)
      reads this
    {
      || (ret == ENODEV && exists n :: looks <= n < lookups && !present(n))
      || (ret == ENOMEM && exists n :: allocs <= n < allocations && !memory(n))
      || (exists n :: commands <= n < |sent| && (ret == dsp(n).ret != 0 || (ret == EIO && dsp(n).handle == 0 && sent[n].kind.Create?)))
    }

    method PathStart() returns (ret: int)
      requires Tracked() && table == sessions && state.stack == [] && Settled()
      modifies this`sent, this`state, this`table, this`sessions, this`allocations, this`lookups
      ensures AllWell() ==> ret == 0
      ensures ret != 0 ==> Blamed(ret, |old(sent)|, old(allocations), old(lookups))
      ensures Tracked() && table == sessions && Settled()
      ensures ret == 0 ==> Cvp in sessions && state.stack == RUNNING
      ensures ret != 0 ==> state.stack == []
    {
      ret := ManagerReady();
      if ret != 0 {
        return;
      }
      ret := ProcessorReady();
      if ret != 0 {
        return;
      }
      ghost var n := |sent|;
      ret := RaiseAll();
      assert ret == dsp(n).ret || ret == dsp(n + 1).ret || ret == dsp(n + 2).ret;
    }

    /** What the preparations for raising a path keep, and how they may end. */
    twostate predicate Readied(ret: int)
      reads this
    {
      && Tracked() && table == sessions && state.stack == [] && Settled()
      && old(sent) <= sent && old(allocations) <= allocations && old(lookups) <= lookups
      && (AllWell() ==> ret == 0)
      && (ret != 0 ==> Blamed(ret, |old(sent)|, old(allocations), old(lookups)))
    }

    /** The manager's session, which takes dual control as soon as it is there. */
    method ManagerReady() returns (ret: int)
      requires Tracked() && table == sessions && state.stack == [] && Settled()
      modifies this`sent, this`state, this`table, this`sessions, this`allocations, this`lookups
      ensures Readied(ret)
      ensures ret == 0 ==> Mvm in sessions
    {
      ret := 0;
      if Mvm !in sessions {
        var mvm;
        ret, mvm := SessionCreate(Mvm);
        if ret != 0 {
          return;
        }
        ret := Send(DualControl);
        if ret != 0 {
          SessionRelease(Mvm, mvm.handle);
          assert table == sessions;
          return;
        }
        sessions := sessions[Mvm := mvm];
      }
    }

    method ProcessorReady() returns (ret: int)
      requires Tracked() && table == sessions && state.stack == [] && Settled() && Mvm in sessions
      modifies this`sent, this`state, this`table, this`sessions, this`allocations, this`lookups
      ensures Readied(ret) && Mvm in sessions
      ensures ret == 0 ==> Cvp in sessions
    {
      ret := 0;
      if Cvp !in sessions {
        var cvp;
        ret, cvp := SessionCreate(Cvp);
        if ret != 0 {
          return;
        }
        sessions := sessions[Cvp := cvp];
      }
    }

    /** What raising the layers from the n-th command on comes to. */
    ghost function RaiseCode(n: nat): int {
      if dsp(n).ret != 0 then dsp(n).ret else if dsp(n + 1).ret != 0 then dsp(n + 1).ret else dsp(n + 2).ret
    }

    /** ENABLE, ATTACH, START; on a failure what was issued is undone. */
    method RaiseAll() returns (ret: int)
      requires Tracked() && state.stack == [] && Mvm in table && Cvp in table && state.dual
      modifies this`sent, this`state
      ensures Tracked() && state == old(state).(stack := if ret == 0 then RUNNING else [])
      ensures old(sent) < sent && ret == RaiseCode(|old(sent)|)
      ensures ret != 0 ==> |sent| == |old(sent)| + (if dsp(|old(sent)|).ret != 0 then 2 else if dsp(|old(sent)| + 1).ret != 0 then 4 else 6)
      ensures ret == 0 ==> old(sent) + [Event(Raise(Enabled), true), Event(Raise(Attached), true), Event(Raise(Started), true)] <= sent
      ensures ret == 0 ==> sent[|sent| - 1].kind == if unmute then Mute else Raise(Started)
    {
      hide Replay, Allowed, Do, Tracked, Under, RUNNING;
      BothServices();
      LayerByLayer();
      ghost var idle := state;
      EitherWay(state, Enabled);
      ret := Send(Raise(Enabled));
      if ret == 0 {
        ghost var enabled := state;
        EitherWay(state, Attached);
        ret := Send(Raise(Attached));
        if ret == 0 {
          ghost var attached := state;
          EitherWay(state, Started);
          ret := Send(Raise(Started));
          if ret == 0 {
            assert state.stack == RUNNING;
            if unmute {
              var _ := SetMute();
            }
            return 0;
          }
          var _ := Send(Undo(Started));
          assert state == attached;
        }
        var _ := Send(Undo(Attached));
        assert state == enabled;
      }
      var _ := Send(Undo(Enabled));
      assert state == idle;
    }

    static lemma LayerByLayer()
      ensures Under(Enabled) == [] && Under(Attached) == Under(Enabled) + [Layer(Enabled, true)]
      ensures Under(Started) == Under(Attached) + [Layer(Attached, true)] && RUNNING == Under(Started) + [Layer(Started, true)]
    {
    }

    lemma BothServices()
      requires Tracked() && Mvm in table && Cvp in table
      ensures state.live == {Mvm, Cvp}
    {
      forall svc | svc in table.Keys ensures svc == Mvm || svc == Cvp {}
    }

    /** Both directions, until one fails; the caller does not care. */
    method SetMute() returns (ret: int)
      requires Tracked() && state.stack == RUNNING
      modifies this`sent, this`state
      ensures Tracked() && state == old(state)
      ensures sent == old(sent) + if |sent| == |old(sent)| + 1 then [Event(Mute, false)] else [Event(Mute, true), Event(Mute, ret == 0)]
      ensures ret == 0 ==> |sent| == |old(sent)| + 2
    {
      ret := Send(Mute);
      if ret == 0 {
        ret := Send(Mute);
      }
    }

    /** Start one direction. */
    method Start(capture: bool) returns (ret: int)
      requires Valid()
      modifies this
      ensures Valid()
      ensures old(started) & Bit(capture) != 0 ==> ret == EALREADY && started == old(started) && sent == old(sent) && sessions == old(sessions)
      ensures ret == 0 ==> started == old(started) | Bit(capture)
      ensures ret != 0 ==> started == old(started)
      ensures old(started) & Bit(capture) == 0 && AllWell() ==> ret == 0
      ensures old(started) & Bit(capture) == 0 && ret != 0 ==> Blamed(ret, |old(sent)|, old(allocations), old(lookups))
      ensures ret == 0 && started != 3 ==> sent == old(sent)
    {
      if !hasRuntime {
        allocations := allocations + 1;
        if !memory(allocations - 1) {
          return ENOMEM;
        }
        hasRuntime := true;
      }
      if started & Bit(capture) != 0 {
        return EALREADY;
      }
      started := started | Bit(capture);
      if started != 3 {
        return 0;
      }
      ret := PathStart();
      if ret != 0 {
        started := started & !Bit(capture);
      }
    }

    /** Undo in reverse order whatever the results. */
    method PathStop()
      requires Tracked() && state.stack == RUNNING
      modifies this`sent, this`state
      ensures Tracked() && state == old(state).(stack := [])
    {
      var _ := Send(Undo(Started));
      var _ := Send(Undo(Attached));
      var _ := Send(Undo(Enabled));
    }

    /** Release every session, the manager's first, and the runtime. */
    method PathDestroy()
      requires Tracked() && table == sessions && state.stack == []
      modifies this`sent, this`state, this`table, this`sessions, this`hasRuntime
      ensures Tracked() && table == sessions == map[] && state == IDLE && !hasRuntime
      ensures Mvm in old(sessions) && Cvp in old(sessions) ==>
        var n := |old(sent)|; |sent| == n + 2 && old(sent) <= sent && sent[n].kind == Destroy(Mvm) && sent[n + 1].kind == Destroy(Cvp)
    {
      if Mvm in sessions {
        SessionRelease(Mvm, sessions[Mvm].handle);
      }
      if Cvp in sessions {
        SessionRelease(Cvp, sessions[Cvp].handle);
      }
      assert table.Keys == {} by {
        forall svc | svc in table ensures svc == Mvm || svc == Cvp {}
      }
      sessions := map[];
      hasRuntime := false;
    }

    /** Stop one direction. */
    method Stop(capture: bool) returns (ret: int)
      requires Valid()
      modifies this
      ensures Valid() && ret == 0
      ensures started == old(started) & !Bit(capture)
      ensures old(started) & Bit(capture) == 0 ==> sent == old(sent)
      ensures started == 0 ==> table == map[] && state == IDLE
    {
      ret := 0;
      if !hasRuntime || started & Bit(capture) == 0 {
        return;
      }
      if started == 3 {
        PathStop();
      }
      started := started & !Bit(capture);
      if started == 0 {
        PathDestroy();
      }
    }

    /** Any sequence of calls: the discipline holds of everything sent, the path runs exactly when both
        directions are started, and once none is, no session is left on the DSP or in a table. */
    method Calls(calls: seq<Call>) returns (rets: seq<int>)
      requires Valid()
      modifies this
      ensures Valid() && |rets| == |calls|
      ensures Replay(sent) == Some(state)
      ensures state.stack == RUNNING <==> started == 3
      ensures started == 0 ==> table == map[] && state == IDLE
    {
      rets := [];
      for i := 0 to |calls|
        invariant Valid() && |rets| == i
      {
        var ret;
        match calls[i] {
          case StartCall(capture) => ret := Start(capture);
          case StopCall(capture) => ret := Stop(capture);
        }
        rets := rets + [ret];
      }
    }
  }
}
