/** Commands to the DSP and its asynchronous replies: sessions in service tables, one sender each, and
    callbacks that run at any time. Each step is one section the source runs under a lock, or one
    access outside it; all interleavings of any number of sessions and callbacks are covered. */
module VoiceSession {

  type Sid = nat   // a session, for ever
  type Cid = nat   // a callback in progress

  /** The service and the path of a session. */
  datatype Key = Key(service: nat, path: nat)

  /** A basic result: the command it answers, its status, and the port it came from. */
  datatype Reply = Reply(opcode: nat, status: nat, srcPort: nat)

  datatype Outcome = Success | Failure | NotSent | TimedOut

  /** Where the owner of a session is in q6voice_common_send or q6voice_session_release. */
  datatype Owner =
    | Ready(last: Outcome)            // between commands
    | Published(opcode: nat)          // expects a reply
    | Expired(opcode: nat)            // gave up, not yet reset
    | Answered(opcode: nat)           // saw that nothing is expected any more
    | Unlinked                        // out of the table, its reference not yet dropped
    | Gone

  datatype Session = Session(key: Key, handle: nat, expected: nat, result: nat, refs: nat, freed: bool,
                             owner: Owner, published: nat)

  datatype Event =
    | Publish(sid: Sid, opcode: nat)
    | Accept(sid: Sid, reply: Reply, handle: nat)  // handle: the session's, once the reply is taken

  /** A callback holding a session. */
  datatype Callback = Callback(sid: Sid, reply: Reply, done: bool)

  datatype State = State(
    sessions: map<Sid, Session>,
    table: map<Key, Sid>,
    callbacks: map<Cid, Callback>,
    history: seq<Event>)

  datatype Step =
    | Create(sid: Sid, key: Key)
    | Send(sid: Sid, opcode: nat)
    | Refused(sid: Sid)
    | Observe(sid: Sid)
    | Expire(sid: Sid)
    | Reset(sid: Sid)
    | Collect(sid: Sid)
    | Unlink(sid: Sid)
    | Drop(sid: Sid)
    | Arrive(cid: Cid, key: Key, reply: Reply)
    | Process(cid: Cid)
    | Finish(cid: Cid)

  const INIT := State(map[], map[], map[], [])

  // ----- The steps -----

  function Put(ss: Session): Session
    requires ss.refs > 0
  {
    ss.(refs := ss.refs - 1, freed := ss.refs == 1)
  }

  function WithSession(s: State, sid: Sid, ss: Session): State {
    s.(sessions := s.sessions[sid := ss])
  }

  /** The tests q6voice_session_callback makes under the session's lock. */
  predicate Accepts(ss: Session, reply: Reply) {
    reply.opcode == ss.expected && (ss.handle == 0 || ss.handle == reply.srcPort)
  }

  /** The first accepted reply fixes the handle. */
  function Taken(ss: Session, reply: Reply): Session
    requires Accepts(ss, reply)
  {
    ss.(handle := if ss.handle == 0 then reply.srcPort else ss.handle, result := reply.status, expected := 0)
  }

  predicate Enabled(s: State, step: Step) {
    match step
    case Create(sid, key) => sid !in s.sessions && key !in s.table
    case Send(sid, opcode) => sid in s.sessions && s.sessions[sid].owner.Ready? && opcode != 0
    case Refused(sid) => sid in s.sessions && s.sessions[sid].owner.Published?
    case Observe(sid) => sid in s.sessions && s.sessions[sid].owner.Published? && s.sessions[sid].expected == 0
    case Expire(sid) => sid in s.sessions && s.sessions[sid].owner.Published? && s.sessions[sid].expected != 0
    case Reset(sid) => sid in s.sessions && s.sessions[sid].owner.Expired?
    case Collect(sid) => sid in s.sessions && s.sessions[sid].owner.Answered?
    case Unlink(sid) => sid in s.sessions && s.sessions[sid].owner.Ready?
    case Drop(sid) => sid in s.sessions && s.sessions[sid].owner.Unlinked? && s.sessions[sid].refs > 0
    case Arrive(cid, key, _) => cid !in s.callbacks && key in s.table && s.table[key] in s.sessions
    case Process(cid) => cid in s.callbacks && !s.callbacks[cid].done && s.callbacks[cid].sid in s.sessions
    case Finish(cid) => cid in s.callbacks && s.callbacks[cid].done && s.callbacks[cid].sid in s.sessions && s.sessions[s.callbacks[cid].sid].refs > 0
  }

  function Apply(s: State, step: Step): State
    requires Enabled(s, step)
  {
    match step
    case Create(sid, key) =>
      WithSession(s, sid, Session(key, 0, 0, 0, 1, false, Ready(NotSent), 0)).(table := s.table[key := sid])
    case Send(sid, opcode) =>
      WithSession(s, sid, s.sessions[sid].(expected := opcode, result := 0, owner := Published(opcode), published := |s.history|))
        .(history := s.history + [Publish(sid, opcode)])
    case Refused(sid) =>
      WithSession(s, sid, s.sessions[sid].(owner := Ready(NotSent)))
    case Observe(sid) =>
      WithSession(s, sid, s.sessions[sid].(owner := Answered(s.sessions[sid].owner.opcode)))
    case Expire(sid) =>
      WithSession(s, sid, s.sessions[sid].(owner := Expired(s.sessions[sid].owner.opcode)))
    case Reset(sid) =>
      WithSession(s, sid, s.sessions[sid].(expected := 0, owner := Ready(TimedOut)))
    case Collect(sid) =>
      WithSession(s, sid, s.sessions[sid].(owner := Ready(if s.sessions[sid].result > 0 then Failure else Success)))
    case Unlink(sid) =>
      var key := s.sessions[sid].key;
      WithSession(s, sid, s.sessions[sid].(owner := Unlinked))
        .(table := if key in s.table && s.table[key] == sid then s.table - {key} else s.table)
    case Drop(sid) =>
      WithSession(s, sid, Put(s.sessions[sid]).(owner := Gone))
    case Arrive(cid, key, reply) =>
      var sid := s.table[key];
      WithSession(s, sid, s.sessions[sid].(refs := s.sessions[sid].refs + 1))
        .(callbacks := s.callbacks[cid := Callback(sid, reply, false)])
    case Process(cid) =>
      var Callback(sid, reply, _) := s.callbacks[cid];
      var ss := s.sessions[sid];
      var done := s.(callbacks := s.callbacks[cid := Callback(sid, reply, true)]);
      if Accepts(ss, reply) then
        WithSession(done, sid, Taken(ss, reply)).(history := s.history + [Accept(sid, reply, Taken(ss, reply).handle)])
      else done
    case Finish(cid) =>
      var sid := s.callbacks[cid].sid;
      WithSession(s, sid, Put(s.sessions[sid])).(callbacks := s.callbacks - {cid})
  }

  // ----- References -----

  ghost function Holders(s: State, sid: Sid): set<Cid> {
    set c | c in s.callbacks && s.callbacks[c].sid == sid
  }

  ghost predicate RefsOk(s: State, sid: Sid)
    requires sid in s.sessions
  {
    var ss := s.sessions[sid];
    && ss.refs == |Holders(s, sid)| + (if ss.owner.Gone? then 0 else 1)
    && (ss.freed <==> ss.refs == 0)
  }

  /** A session its owner has not let go of is the one in its table. */
  ghost predicate TableOk(s: State, sid: Sid)
    requires sid in s.sessions
  {
    var ss := s.sessions[sid];
    if ss.owner.Gone? || ss.owner.Unlinked? then ss.key in s.table ==> s.table[ss.key] != sid
    else ss.key in s.table && s.table[ss.key] == sid
  }

  ghost predicate Kept(s: State) {
    && (forall sid :: sid in s.sessions ==> RefsOk(s, sid) && TableOk(s, sid))
    && (forall key :: key in s.table ==> s.table[key] in s.sessions && s.sessions[s.table[key]].key == key)
    && (forall cid :: cid in s.callbacks ==> s.callbacks[cid].sid in s.sessions)
  }

  /** The sessions a step reads or writes. */
  ghost function Touched(s: State, step: Step): set<Sid>
    requires Enabled(s, step)
  {
    match step
    case Create(_, _) => {}
    case Arrive(_, key, _) => {s.table[key]}
    case Process(cid) => {s.callbacks[cid].sid}
    case Finish(cid) => {s.callbacks[cid].sid}
    case _ => {step.sid}
  }

  lemma HoldersAdd(s: State, s': State, sid: Sid, cid: Cid)
    requires cid !in s.callbacks && cid in s'.callbacks && s'.callbacks == s.callbacks[cid := s'.callbacks[cid]]
    ensures |Holders(s', sid)| == |Holders(s, sid)| + if s'.callbacks[cid].sid == sid then 1 else 0
  {
    if s'.callbacks[cid].sid == sid {
      assert Holders(s', sid) == Holders(s, sid) + {cid};
    } else {
      assert Holders(s', sid) == Holders(s, sid);
    }
  }

  lemma HoldersRemove(s: State, s': State, sid: Sid, cid: Cid)
    requires cid in s.callbacks && s'.callbacks == s.callbacks - {cid}
    ensures |Holders(s', sid)| == |Holders(s, sid)| - if s.callbacks[cid].sid == sid then 1 else 0
  {
    assert Holders(s', sid) == Holders(s, sid) - if s.callbacks[cid].sid == sid then {cid} else {};
  }

  lemma HoldersSame(s: State, s': State, sid: Sid)
    requires s'.callbacks.Keys == s.callbacks.Keys
    requires forall c :: c in s.callbacks ==> s'.callbacks[c].sid == s.callbacks[c].sid
    ensures Holders(s', sid) == Holders(s, sid)
  {
  }

  lemma CreateKeeps(s: State, sid: Sid, key: Key)
    requires Kept(s) && Enabled(s, Create(sid, key))
    ensures Kept(Apply(s, Create(sid, key)))
  {
    var s' := Apply(s, Create(sid, key));
    assert Holders(s', sid) == {} by {
      forall c | c in s.callbacks ensures s.callbacks[c].sid != sid {}
    }
    forall x | x in s'.sessions ensures RefsOk(s', x) && TableOk(s', x) {
      HoldersSame(s, s', x);
      if x != sid { assert RefsOk(s, x) && TableOk(s, x); }
    }
  }

  predicate SameShape(a: Session, b: Session) {
    a.key == b.key && a.refs == b.refs && a.freed == b.freed && (a.owner.Gone? <==> b.owner.Gone?) && (a.owner.Unlinked? <==> b.owner.Unlinked?)
  }

  /** No reference, no table entry and no owner's hold has changed. */
  ghost predicate SameFrame(s: State, s': State) {
    && s'.table == s.table && s'.sessions.Keys == s.sessions.Keys && s'.callbacks.Keys == s.callbacks.Keys
    && (forall c :: c in s.callbacks ==> s'.callbacks[c].sid == s.callbacks[c].sid)
    && (forall x :: x in s.sessions ==> SameShape(s'.sessions[x], s.sessions[x]))
  }

  lemma FrameKeeps(s: State, s': State)
    requires Kept(s) && SameFrame(s, s')
    ensures Kept(s')
  {
    forall x | x in s'.sessions ensures RefsOk(s', x) && TableOk(s', x) {
      hide Holders;
      assert RefsOk(s, x) && TableOk(s, x) && SameShape(s'.sessions[x], s.sessions[x]);
      HoldersSame(s, s', x);
    }
  }

  /** The owner's own steps while it keeps the session, and processing a reply. */
  lemma FrameSteps(s: State, step: Step)
    requires Enabled(s, step)
    requires step.Send? || step.Refused? || step.Observe? || step.Expire? || step.Reset? || step.Collect? || step.Process?
    ensures SameFrame(s, Apply(s, step))
  {
  }

  /** Taking a session out of its table. */
  lemma UnlinkKeeps(s: State, sid: Sid)
    requires Kept(s) && Enabled(s, Unlink(sid))
    ensures Kept(Apply(s, Unlink(sid)))
  {
    var s' := Apply(s, Unlink(sid));
    assert RefsOk(s, sid) && TableOk(s, sid);
    forall x | x in s'.sessions ensures RefsOk(s', x) && TableOk(s', x) {
      HoldersSame(s, s', x);
      hide Holders;
      assert RefsOk(s, x) && TableOk(s, x);
    }
  }

  /** Letting go of it. */
  lemma DropKeeps(s: State, sid: Sid)
    requires Kept(s) && Enabled(s, Drop(sid))
    ensures Kept(Apply(s, Drop(sid)))
  {
    var s' := Apply(s, Drop(sid));
    assert RefsOk(s, sid) && TableOk(s, sid);
    forall x | x in s'.sessions ensures RefsOk(s', x) && TableOk(s', x) {
      HoldersSame(s, s', x);
      hide Holders;
      assert RefsOk(s, x) && TableOk(s, x);
    }
  }

  lemma ArriveKeeps(s: State, cid: Cid, key: Key, reply: Reply)
    requires Kept(s) && Enabled(s, Arrive(cid, key, reply))
    ensures Kept(Apply(s, Arrive(cid, key, reply)))
  {
    var s' := Apply(s, Arrive(cid, key, reply));
    forall x | x in s'.sessions ensures RefsOk(s', x) && TableOk(s', x) {
      assert RefsOk(s, x) && TableOk(s, x);
      HoldersAdd(s, s', x, cid);
    }
  }

  lemma FinishKeeps(s: State, cid: Cid)
    requires Kept(s) && Enabled(s, Finish(cid))
    ensures Kept(Apply(s, Finish(cid)))
  {
    var s' := Apply(s, Finish(cid));
    forall x | x in s'.sessions ensures RefsOk(s', x) && TableOk(s', x) {
      assert RefsOk(s, x) && TableOk(s, x);
      HoldersRemove(s, s', x, cid);
    }
  }

  lemma StepKeeps(s: State, step: Step)
    requires Kept(s) && Enabled(s, step)
    ensures Kept(Apply(s, step))
  {
    hide Kept, SameFrame;
    match step {
      case Create(sid, key) => CreateKeeps(s, sid, key);
      case Arrive(cid, key, reply) => ArriveKeeps(s, cid, key, reply);
      case Finish(cid) => FinishKeeps(s, cid);
      case Unlink(sid) => UnlinkKeeps(s, sid);
      case Drop(sid) => DropKeeps(s, sid);
      case _ =>
        FrameSteps(s, step);
        FrameKeeps(s, Apply(s, step));
    }
  }

  /** A callback's session is not freed while it holds it, nor any session before its owner has let go;
      so no step ever touches a freed session. */
  lemma NothingFreedTouched(s: State, step: Step, sid: Sid)
    requires Kept(s) && Enabled(s, step) && sid in Touched(s, step)
    ensures sid in s.sessions && !s.sessions[sid].freed && s.sessions[sid].refs > 0
  {
    assert RefsOk(s, sid) && TableOk(s, sid);
    if step.Process? || step.Finish? {
      assert step.cid in Holders(s, sid);
    }
  }

  /** Dropping a reference is always possible when it is due: the count never runs below zero. */
  lemma CountNeverRunsOut(s: State)
    requires Kept(s)
    ensures forall sid :: sid in s.sessions && s.sessions[sid].owner.Unlinked? ==> Enabled(s, Drop(sid))
    ensures forall cid :: cid in s.callbacks && s.callbacks[cid].done ==> Enabled(s, Finish(cid))
  {
    forall sid | sid in s.sessions && s.sessions[sid].owner.Unlinked? ensures Enabled(s, Drop(sid)) {
      assert RefsOk(s, sid);
    }
    forall cid | cid in s.callbacks && s.callbacks[cid].done ensures Enabled(s, Finish(cid)) {
      var sid := s.callbacks[cid].sid;
      assert RefsOk(s, sid) && cid in Holders(s, sid);
    }
  }

  ghost predicate Registered(s: State, sid: Sid) {
    sid in s.sessions && !s.sessions[sid].owner.Unlinked? && !s.sessions[sid].owner.Gone?
  }

  /** At most one session is registered per service and path. */
  lemma OnePerKey(s: State, a: Sid, b: Sid)
    requires Kept(s) && Registered(s, a) && Registered(s, b) && s.sessions[a].key == s.sessions[b].key
    ensures a == b
  {
    assert TableOk(s, a) && TableOk(s, b);
  }

  // ----- What a result means -----

  predicate IsAccept(e: Event, sid: Sid) {
    e.Accept? && e.sid == sid
  }

  ghost predicate NoAccept(history: seq<Event>, sid: Sid, lo: int, hi: int)
    requires 0 <= lo && hi <= |history|
  {
    forall k :: lo <= k < hi ==> !IsAccept(history[k], sid)
  }

  /** Since the command was published at p, replies were accepted first at i, for that very command, and
      last at j; any but the first answered "command 0", which is what an idle session expects. */
  ghost predicate Replied(history: seq<Event>, sid: Sid, p: int, i: int, j: int, opcode: nat, result: nat, handle: nat) {
    && 0 <= p < i <= j < |history|
    && NoAccept(history, sid, p + 1, i) && NoAccept(history, sid, j + 1, |history|)
    && IsAccept(history[i], sid) && history[i].reply.opcode == opcode
    && IsAccept(history[j], sid) && history[j].reply.status == result
    && (i < j ==> history[j].reply.opcode == 0)
    && (forall k :: i < k <= j && IsAccept(history[k], sid) ==> history[k].reply.opcode == 0)
    && (forall k :: i <= k <= j && IsAccept(history[k], sid) ==>
          history[k].handle == history[k].reply.srcPort && (history[k].handle != 0 ==> handle == history[k].handle))
  }

  ghost predicate Evidence(s: State, sid: Sid)
    requires sid in s.sessions
  {
    var ss := s.sessions[sid];
    (ss.owner.Published? || ss.owner.Expired? || ss.owner.Answered?) ==>
      && ss.owner.opcode != 0
      && ss.published < |s.history| && s.history[ss.published] == Publish(sid, ss.owner.opcode)
      && (ss.owner.Answered? ==> ss.expected == 0)
      && (ss.expected == 0 || ss.expected == ss.owner.opcode)
      && (ss.expected != 0 ==> NoAccept(s.history, sid, ss.published + 1, |s.history|))
      && (ss.expected == 0 ==>
            exists i, j :: Replied(s.history, sid, ss.published, i, j, ss.owner.opcode, ss.result, ss.handle))
  }

  ghost predicate Traceable(s: State) {
    forall sid :: sid in s.sessions ==> Evidence(s, sid)
  }

  lemma RepliedStays(history: seq<Event>, e: Event, sid: Sid, p: int, i: int, j: int, opcode: nat, result: nat, handle: nat)
    requires Replied(history, sid, p, i, j, opcode, result, handle) && !IsAccept(e, sid)
    ensures Replied(history + [e], sid, p, i, j, opcode, result, handle)
  {
  }

  lemma EvidenceStays(s: State, s': State, e: Event, sid: Sid)
    requires sid in s.sessions && Evidence(s, sid) && sid in s'.sessions && s'.sessions[sid] == s.sessions[sid]
    requires s'.history == s.history + [e] && !IsAccept(e, sid)
    ensures Evidence(s', sid)
  {
    var ss := s.sessions[sid];
    if (ss.owner.Published? || ss.owner.Expired? || ss.owner.Answered?) && ss.expected == 0 {
      var i, j :| Replied(s.history, sid, ss.published, i, j, ss.owner.opcode, ss.result, ss.handle);
      RepliedStays(s.history, e, sid, ss.published, i, j, ss.owner.opcode, ss.result, ss.handle);
    }
  }

  /** Taking a reply: the first one since the command must be for it, a later one for command 0. */
  lemma AcceptTraced(s: State, sid: Sid, reply: Reply)
    requires sid in s.sessions && Evidence(s, sid) && Accepts(s.sessions[sid], reply)
    requires var o := s.sessions[sid].owner; o.Published? || o.Expired? || o.Answered?
    ensures var ss, ss' := s.sessions[sid], Taken(s.sessions[sid], reply);
      exists i, j :: Replied(s.history + [Accept(sid, reply, ss'.handle)], sid, ss.published, i, j, ss.owner.opcode, ss'.result, ss'.handle)
  {
    var ss, ss' := s.sessions[sid], Taken(s.sessions[sid], reply);
    var h, n := s.history + [Accept(sid, reply, ss'.handle)], |s.history|;
    if ss.expected != 0 {
      assert Replied(h, sid, ss.published, n, n, ss.owner.opcode, ss'.result, ss'.handle);
    } else {
      var i, j :| Replied(s.history, sid, ss.published, i, j, ss.owner.opcode, ss.result, ss.handle);
      assert Replied(h, sid, ss.published, i, n, ss.owner.opcode, ss'.result, ss'.handle);
    }
  }

  lemma QuietStepTraces(s: State, step: Step)
    requires Traceable(s) && Enabled(s, step) && !step.Send? && !step.Process?
    ensures Traceable(Apply(s, step))
  {
    var s' := Apply(s, step);
    assert s'.history == s.history;
    forall sid | sid in s'.sessions ensures Evidence(s', sid) {
      hide Replied, NoAccept;
      if sid in s.sessions {
        assert Evidence(s, sid);
      }
    }
  }

  lemma SendTraces(s: State, sid: Sid, opcode: nat)
    requires Traceable(s) && Enabled(s, Send(sid, opcode))
    ensures Traceable(Apply(s, Send(sid, opcode)))
  {
    var s' := Apply(s, Send(sid, opcode));
    forall x | x in s'.sessions ensures Evidence(s', x) {
      if x != sid {
        EvidenceStays(s, s', Publish(sid, opcode), x);
      }
    }
  }

  lemma ProcessTraces(s: State, cid: Cid)
    requires Traceable(s) && Enabled(s, Process(cid))
    ensures Traceable(Apply(s, Process(cid)))
  {
    var s' := Apply(s, Process(cid));
    var Callback(sid, reply, _) := s.callbacks[cid];
    forall x | x in s'.sessions ensures Evidence(s', x) {
      assert Evidence(s, x);
      if Accepts(s.sessions[sid], reply) {
        var o := s.sessions[sid].owner;
        if x != sid {
          EvidenceStays(s, s', s'.history[|s.history|], x);
        } else if o.Published? || o.Expired? || o.Answered? {
          AcceptTraced(s, sid, reply);
        }
      }
    }
  }

  lemma StepTraces(s: State, step: Step)
    requires Traceable(s) && Enabled(s, step)
    ensures Traceable(Apply(s, step))
  {
    match step {
      case Send(sid, opcode) => SendTraces(s, sid, opcode);
      case Process(cid) => ProcessTraces(s, cid);
      case _ => QuietStepTraces(s, step);
    }
  }

  // ----- Whole runs -----

  ghost predicate Legal(s: State, steps: seq<Step>)
    decreases |steps|
  {
    steps == [] || (Enabled(s, steps[0]) && Legal(Apply(s, steps[0]), steps[1..]))
  }

  ghost function Exec(s: State, steps: seq<Step>): State
    requires Legal(s, steps)
    decreases |steps|
  {
    if steps == [] then s else Exec(Apply(s, steps[0]), steps[1..])
  }

  lemma {:induction false} RunKeeps(s: State, steps: seq<Step>)
    requires Kept(s) && Traceable(s) && Legal(s, steps)
    ensures Kept(Exec(s, steps)) && Traceable(Exec(s, steps))
    decreases |steps|
  {
    if steps != [] {
      StepKeeps(s, steps[0]);
      StepTraces(s, steps[0]);
      RunKeeps(Apply(s, steps[0]), steps[1..]);
    }
  }

  /** In every reachable state no enabled step touches a freed session, and registered sessions are unique. */
  lemma AlwaysSafe(steps: seq<Step>)
    requires Legal(INIT, steps)
    ensures var s := Exec(INIT, steps);
      && (forall step, sid :: Enabled(s, step) && sid in Touched(s, step) ==> sid in s.sessions && !s.sessions[sid].freed)
      && (forall a, b :: Registered(s, a) && Registered(s, b) && s.sessions[a].key == s.sessions[b].key ==> a == b)
  {
    RunKeeps(INIT, steps);
    var s := Exec(INIT, steps);
    forall step, sid | Enabled(s, step) && sid in Touched(s, step) ensures sid in s.sessions && !s.sessions[sid].freed {
      NothingFreedTouched(s, step, sid);
    }
    forall a, b | Registered(s, a) && Registered(s, b) && s.sessions[a].key == s.sessions[b].key ensures a == b {
      OnePerKey(s, a, b);
    }
  }

  /** A session's handle, once set, never changes. */
  lemma {:induction false} HandleFixed(s: State, steps: seq<Step>, sid: Sid)
    requires Legal(s, steps) && sid in s.sessions && s.sessions[sid].handle != 0
    ensures sid in Exec(s, steps).sessions && Exec(s, steps).sessions[sid].handle == s.sessions[sid].handle
    decreases |steps|
  {
    if steps != [] {
      HandleFixed(Apply(s, steps[0]), steps[1..], sid);
    }
  }

  /** A reply to the command published at p, accepted since, with this status and from the session's own port. */
  ghost predicate AnsweredBy(s: State, sid: Sid, status: nat)
    requires sid in s.sessions && s.sessions[sid].owner.Answered?
  {
    var ss := s.sessions[sid];
    exists k :: ss.published < k < |s.history| && IsAccept(s.history[k], sid)
      && s.history[k].reply.opcode == ss.owner.opcode && s.history[k].reply.status == status
      && s.history[k].handle == s.history[k].reply.srcPort
      && (s.history[k].handle != 0 ==> ss.handle == s.history[k].handle)
  }

  /** Nothing answered "command 0" to this session since its command was published. */
  ghost predicate NoStray(s: State, sid: Sid)
    requires sid in s.sessions && s.sessions[sid].published < |s.history|
  {
    forall k :: s.sessions[sid].published < k < |s.history| && IsAccept(s.history[k], sid) ==> s.history[k].reply.opcode != 0
  }

  /** The reply that answered the command: the first one taken since it was published. */
  ghost predicate FirstTaken(s: State, sid: Sid, i: int)
    requires sid in s.sessions
  {
    var p := s.sessions[sid].published;
    p < i < |s.history| && IsAccept(s.history[i], sid) && NoAccept(s.history, sid, p + 1, i)
  }

  /** The reply whose status the sender reads: the last one taken. */
  ghost predicate LastTaken(s: State, sid: Sid, j: int) {
    0 <= j < |s.history| && IsAccept(s.history[j], sid) && NoAccept(s.history, sid, j + 1, |s.history|)
  }

  /** What the result of an answered send means, given the reply that answered it and the last one taken. */
  ghost predicate Explained(s: State, sid: Sid, i: nat, j: nat)
    requires Enabled(s, Collect(sid))
  {
    var success := Apply(s, Collect(sid)).sessions[sid].owner == Ready(Success);
    && FirstTaken(s, sid, i) && LastTaken(s, sid, j) && i <= j
    && var answer, last := s.history[i].reply, s.history[j].reply;
       && (i < j ==> last.opcode == 0)
       && (forall status :: AnsweredBy(s, sid, status) <==> status == answer.status)
       && (success <==> last.status == 0)
       && ((success ==> AnsweredBy(s, sid, 0)) <==> !(answer.status != 0 && last.opcode == 0 && last.status == 0))
       && ((success <==> AnsweredBy(s, sid, 0)) <==> (answer.status == 0 <==> last.status == 0))
  }

  lemma ResultExplained(s: State, sid: Sid) returns (i: nat, j: nat)
    requires Traceable(s) && Enabled(s, Collect(sid))
    ensures Explained(s, sid, i, j)
  {
    var ss := s.sessions[sid];
    assert Evidence(s, sid);
    i, j :| Replied(s.history, sid, ss.published, i, j, ss.owner.opcode, ss.result, ss.handle);
    forall status ensures AnsweredBy(s, sid, status) <==> status == s.history[i].reply.status {
      OneAnswer(s, sid, i, j, status);
    }
  }

  /** A send's result, after any run. The first reply taken since the command was published, i, answers it; the
      last one, j, gives the result, and is either the same or a stray for command 0. So the send succeeds when j
      has status 0, and that is false news if and only if j is a stray that replaced a failure. */
  lemma SuccessMeansReply(steps: seq<Step>, sid: Sid) returns (i: nat, j: nat)
    requires Legal(INIT, steps) && Enabled(Exec(INIT, steps), Collect(sid))
    ensures Explained(Exec(INIT, steps), sid, i, j)
  {
    hide Explained, Enabled, Kept, Traceable;
    RunKeeps(INIT, steps);
    i, j := ResultExplained(Exec(INIT, steps), sid);
  }

  lemma OneAnswer(s: State, sid: Sid, i: nat, j: nat, status: nat)
    requires sid in s.sessions && s.sessions[sid].owner.Answered? && s.sessions[sid].owner.opcode != 0
    requires var ss := s.sessions[sid]; Replied(s.history, sid, ss.published, i, j, ss.owner.opcode, ss.result, ss.handle)
    ensures AnsweredBy(s, sid, status) <==> status == s.history[i].reply.status
  {
    if AnsweredBy(s, sid, status) {
      var k :| s.sessions[sid].published < k < |s.history| && IsAccept(s.history[k], sid)
        && s.history[k].reply.opcode == s.sessions[sid].owner.opcode && s.history[k].reply.status == status;
      assert k == i;
    }
  }

  /** In particular, when nothing answered command 0 since, a send succeeds if and only if a reply of status 0 to
      its command, from the session's port, was taken after the command was published. */
  lemma SuccessWithoutStray(steps: seq<Step>, sid: Sid)
    requires Legal(INIT, steps) && Enabled(Exec(INIT, steps), Collect(sid))
    ensures var s := Exec(INIT, steps);
      && s.sessions[sid].published < |s.history|
      && (NoStray(s, sid) ==>
            (Apply(s, Collect(sid)).sessions[sid].owner == Ready(Success) <==> AnsweredBy(s, sid, 0)))
  {
    var i, j := SuccessMeansReply(steps, sid);
  }

  /** The owner is in the middle of a send. */
  predicate Sending(ss: Session) {
    ss.owner.Published? || ss.owner.Expired? || ss.owner.Answered?
  }

  /** A reply with this status was taken since the command was published. */
  ghost predicate TookStatus(s: State, sid: Sid, good: bool)
    requires sid in s.sessions
  {
    exists k :: s.sessions[sid].published < k < |s.history| && IsAccept(s.history[k], sid) && (s.history[k].reply.status == 0 <==> good)
  }

  /** No reply was. */
  ghost predicate TookNone(s: State, sid: Sid)
    requires sid in s.sessions
  {
    forall k :: s.sessions[sid].published < k < |s.history| ==> !IsAccept(s.history[k], sid)
  }

  /** What may be said of a send that ends by this step. */
  ghost predicate EndsRight(s: State, step: Step, sid: Sid)
    requires Enabled(s, step) && sid in s.sessions && sid in Apply(s, step).sessions && Apply(s, step).sessions[sid].owner.Ready?
  {
    var last := Apply(s, step).sessions[sid].owner.last;
    && (last == Success ==> TookStatus(s, sid, true))
    && (last == Failure ==> TookStatus(s, sid, false))
    && (last == NotSent <==> step == Refused(sid)) && (last == TimedOut <==> step == Reset(sid))
    && (TookNone(s, sid) && step != Refused(sid) ==> last == TimedOut && s.sessions[sid].owner.Expired?)
  }

  lemma EndsBy(s: State, step: Step, sid: Sid)
    requires Enabled(s, step) && sid in s.sessions && Sending(s.sessions[sid])
    requires sid in Apply(s, step).sessions && Apply(s, step).sessions[sid].owner.Ready?
    ensures step == Refused(sid) || step == Reset(sid) || step == Collect(sid)
  {
  }

  lemma CollectEnds(s: State, sid: Sid)
    requires Traceable(s) && Enabled(s, Collect(sid))
    ensures EndsRight(s, Collect(sid), sid)
  {
    var i, j := ResultExplained(s, sid);
    hide Explained, AnsweredBy, NoAccept;
    LastIsTaken(s, sid, i, j);
  }

  lemma LastIsTaken(s: State, sid: Sid, i: nat, j: nat)
    requires Enabled(s, Collect(sid)) && Explained(s, sid, i, j)
    ensures s.sessions[sid].published < j < |s.history| && IsAccept(s.history[j], sid)
    ensures var last := Apply(s, Collect(sid)).sessions[sid].owner.last;
      last == if s.history[j].reply.status == 0 then Success else Failure
  {
  }

  /** However a send ends, in any run: it reports success only if a reply of status 0 was taken since its command was
      published, and failure only if one of another status was. If none was taken it reports that it was not sent,
      when it was refused, and otherwise that it timed out; and it reports the first of these exactly when refused. */
  lemma SendEnds(steps: seq<Step>, step: Step, sid: Sid)
    requires Legal(INIT, steps) && Enabled(Exec(INIT, steps), step)
    requires var s := Exec(INIT, steps); sid in s.sessions && Sending(s.sessions[sid])
    requires var s := Exec(INIT, steps); sid in Apply(s, step).sessions && Apply(s, step).sessions[sid].owner.Ready?
    ensures EndsRight(Exec(INIT, steps), step, sid)
  {
    RunKeeps(INIT, steps);
    hide Legal, Exec, Traceable, Kept, TookStatus, TookNone;
    var s := Exec(INIT, steps);
    EndsBy(s, step, sid);
    if step == Collect(sid) {
      CollectEnds(s, sid);
    }
  }

  /** In particular, if the DSP never answers, the send ends with a timeout. */
  lemma SilenceTimesOut(sid: Sid, key: Key, opcode: nat)
    requires opcode != 0
    ensures Enabled(INIT, Create(sid, key)) && Enabled(Apply(INIT, Create(sid, key)), Send(sid, opcode))
    ensures var s := Apply(Apply(INIT, Create(sid, key)), Send(sid, opcode));
      Enabled(s, Expire(sid)) && !Enabled(s, Observe(sid)) && Enabled(Apply(s, Expire(sid)), Reset(sid))
    ensures var s := Apply(Apply(INIT, Create(sid, key)), Send(sid, opcode));
      Apply(Apply(s, Expire(sid)), Reset(sid)).sessions[sid].owner == Ready(TimedOut)
  {
  }

  /** A reply to the command a session expects, from the session's port or from any while it has none, is taken: it fixes
      the port and is all the session expected. Any other leaves the session and the record of what was taken alone. */
  lemma ReplyTaken(s: State, cid: Cid)
    requires Enabled(s, Process(cid))
    ensures var cb, s' := s.callbacks[cid], Apply(s, Process(cid));
      var ss, reply := s.sessions[cb.sid], cb.reply;
      if reply.opcode == ss.expected && (ss.handle == 0 || ss.handle == reply.srcPort) then
        && s'.sessions[cb.sid] == ss.(handle := reply.srcPort, result := reply.status, expected := 0)
        && s'.history == s.history + [Accept(cb.sid, reply, reply.srcPort)]
      else s'.sessions[cb.sid] == ss && s'.history == s.history
  {
  }

  /** So a command that is answered while its sender waits is not given up, and is done if and only if the status is 0. */
  lemma AnswerEnds(s: State, cid: Cid)
    requires Enabled(s, Process(cid))
    requires var cb := s.callbacks[cid]; var ss := s.sessions[cb.sid];
      ss.owner.Published? && cb.reply.opcode == ss.expected && (ss.handle == 0 || ss.handle == cb.reply.srcPort)
    ensures var sid, s' := s.callbacks[cid].sid, Apply(s, Process(cid));
      && !Enabled(s', Expire(sid)) && Enabled(s', Observe(sid)) && Enabled(Apply(s', Observe(sid)), Collect(sid))
      && Apply(Apply(s', Observe(sid)), Collect(sid)).sessions[sid].owner ==
           Ready(if s.callbacks[cid].reply.status == 0 then Success else Failure)
  {
    ReplyTaken(s, cid);
  }

  /** It does happen: an idle session takes a reply for command 0, and its status
      replaces the one just received, so a command the DSP rejected is reported as done. */
  lemma StrayHidesFailure(sid: Sid, key: Key, opcode: nat, status: nat, port: nat) returns (steps: seq<Step>)
    requires opcode != 0 && status != 0 && port != 0
    ensures Legal(INIT, steps) && Enabled(Exec(INIT, steps), Collect(sid))
    ensures var s := Exec(INIT, steps);
      && AnsweredBy(s, sid, status) && !AnsweredBy(s, sid, 0)
      && Apply(s, Collect(sid)).sessions[sid].owner == Ready(Success)
  {
    var failure, stray := Reply(opcode, status, port), Reply(0, 0, port);
    hide Legal, Exec, AnsweredBy, Apply, Enabled;
    CreateOne(sid, key);
    var s1 := Apply(INIT, Create(sid, key));
    SendOne(s1, sid, opcode);
    var s2 := Apply(s1, Send(sid, opcode));
    ArriveOne(s2, 0, key, failure);
    var s3 := Apply(s2, Arrive(0, key, failure));
    ProcessOne(s3, 0);
    var s4 := Apply(s3, Process(0));
    var tail := StrayTail(s4, sid, key, failure, stray);
    Chain(s3, Process(0), tail, s4);
    Chain(s2, Arrive(0, key, failure), [Process(0)] + tail, s3);
    Chain(s1, Send(sid, opcode), [Arrive(0, key, failure)] + ([Process(0)] + tail), s2);
    steps := [Create(sid, key)] + ([Send(sid, opcode)] + ([Arrive(0, key, failure)] + ([Process(0)] + tail)));
    Chain(INIT, Create(sid, key), steps[1..], s1);
  }

  lemma StrayTail(s: State, sid: Sid, key: Key, failure: Reply, stray: Reply) returns (tail: seq<Step>)
    requires s.table == map[key := sid] && s.sessions.Keys == {sid} && 1 !in s.callbacks
    requires failure.opcode != 0 && failure.status != 0 && stray == Reply(0, 0, failure.srcPort) && failure.srcPort != 0
    requires var ss := s.sessions[sid];
      ss.owner == Published(failure.opcode) && ss.published == 0 && ss.expected == 0 && ss.handle == failure.srcPort
    requires s.history == [Publish(sid, failure.opcode), Accept(sid, failure, failure.srcPort)]
    ensures Legal(s, tail) && Enabled(Exec(s, tail), Collect(sid))
    ensures AnsweredBy(Exec(s, tail), sid, failure.status) && !AnsweredBy(Exec(s, tail), sid, 0)
    ensures Apply(Exec(s, tail), Collect(sid)).sessions[sid].owner == Ready(Success)
  {
    hide Legal, Exec, AnsweredBy, Apply;
    tail := [Arrive(1, key, stray), Process(1), Observe(sid)];
    ArriveOne(s, 1, key, stray);
    var s5 := Apply(s, Arrive(1, key, stray));
    ProcessOne(s5, 1);
    var s6 := Apply(s5, Process(1));
    ObserveOne(s6, sid);
    var s7 := Apply(s6, Observe(sid));
    assert [Observe(sid)] + [] == [Observe(sid)];
    assert [Process(1)] + [Observe(sid)] == [Process(1), Observe(sid)];
    assert [Arrive(1, key, stray)] + [Process(1), Observe(sid)] == tail;
    Chain(s6, Observe(sid), [], s7);
    Chain(s5, Process(1), [Observe(sid)], s6);
    Chain(s, Arrive(1, key, stray), [Process(1), Observe(sid)], s5);
    StrayVerdict(s7, sid, failure, stray);
  }

  lemma CreateOne(sid: Sid, key: Key)
    ensures Enabled(INIT, Create(sid, key))
    ensures Apply(INIT, Create(sid, key)) == State(map[sid := Session(key, 0, 0, 0, 1, false, Ready(NotSent), 0)], map[key := sid], map[], [])
  {
  }

  lemma SendOne(s: State, sid: Sid, opcode: nat)
    requires s.sessions.Keys == {sid} && s.sessions[sid].owner.Ready? && opcode != 0
    ensures Enabled(s, Send(sid, opcode))
    ensures Apply(s, Send(sid, opcode)) == s.(
        sessions := map[sid := s.sessions[sid].(expected := opcode, result := 0, owner := Published(opcode), published := |s.history|)],
        history := s.history + [Publish(sid, opcode)])
  {
  }

  lemma ArriveOne(s: State, cid: Cid, key: Key, reply: Reply)
    requires key in s.table && s.sessions.Keys == {s.table[key]} && cid !in s.callbacks
    ensures Enabled(s, Arrive(cid, key, reply))
    ensures var sid := s.table[key]; Apply(s, Arrive(cid, key, reply)) == s.(
        sessions := map[sid := s.sessions[sid].(refs := s.sessions[sid].refs + 1)],
        callbacks := s.callbacks[cid := Callback(sid, reply, false)])
  {
  }

  lemma ProcessOne(s: State, cid: Cid)
    requires cid in s.callbacks && !s.callbacks[cid].done && s.sessions.Keys == {s.callbacks[cid].sid}
    requires Accepts(s.sessions[s.callbacks[cid].sid], s.callbacks[cid].reply)
    ensures Enabled(s, Process(cid))
    ensures var cb := s.callbacks[cid]; var ss := Taken(s.sessions[cb.sid], cb.reply); Apply(s, Process(cid)) == s.(
        sessions := map[cb.sid := ss],
        callbacks := s.callbacks[cid := cb.(done := true)],
        history := s.history + [Accept(cb.sid, cb.reply, ss.handle)])
  {
  }

  lemma ObserveOne(s: State, sid: Sid)
    requires s.sessions.Keys == {sid} && s.sessions[sid].owner.Published? && s.sessions[sid].expected == 0
    ensures Enabled(s, Observe(sid))
    ensures Apply(s, Observe(sid)) == s.(sessions := map[sid := s.sessions[sid].(owner := Answered(s.sessions[sid].owner.opcode))])
  {
  }

  lemma StrayVerdict(s: State, sid: Sid, failure: Reply, stray: Reply)
    requires sid in s.sessions && s.sessions[sid].owner == Answered(failure.opcode) && s.sessions[sid].published == 0
    requires failure.opcode != 0 && failure.status != 0 && stray.opcode == 0
    requires s.sessions[sid].handle == failure.srcPort && s.sessions[sid].result == 0
    requires s.history == [Publish(sid, failure.opcode), Accept(sid, failure, failure.srcPort), Accept(sid, stray, failure.srcPort)]
    ensures AnsweredBy(s, sid, failure.status) && !AnsweredBy(s, sid, 0)
    ensures Apply(s, Collect(sid)).sessions[sid].owner == Ready(Success)
  {
    assert IsAccept(s.history[1], sid);
  }

  lemma Chain(s: State, step: Step, rest: seq<Step>, next: State)
    requires Enabled(s, step) && Apply(s, step) == next && (rest == [] || Legal(next, rest))
    ensures Legal(s, [step] + rest) && Legal(next, rest) && Exec(s, [step] + rest) == Exec(next, rest)
    ensures rest == [] ==> Exec(next, rest) == next
  {
    assert ([step] + rest)[1..] == rest;
  }
}
