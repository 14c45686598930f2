/** Routing of the codec's SLIMbus channels: mixer controls move channels between the lists of the audio
    interfaces, and the lists are flattened into channel maps and port masks. */
module CodecRouting {
  import opened IntrusiveLists
  import opened Options

  const DAIS := 8
  const RX_MAX := 13
  const TX_MAX := 16
  const RX_START := 16
  const PORTS := RX_START + RX_MAX
  const NODES := DAIS + PORTS
  const CH_OFFSET := 128
  const EINVAL := -22
  const ENOMEM := -12

  // ----- Numbering: interfaces are the list heads, then one node per port -----

  function Node(port: nat): nat {
    DAIS + port
  }

  function RxNode(p: nat): nat {
    Node(RX_START + p)
  }

  function PortOf(node: nat): nat {
    if node < DAIS then 0 else node - DAIS
  }

  function ChNum(node: nat): nat {
    PortOf(node) + CH_OFFSET
  }

  predicate Playback(dai: nat) {
    dai == 0 || dai == 2 || dai == 4
  }

  predicate Capture(dai: nat) {
    dai == 1 || dai == 3 || dai == 5
  }

  /** The playback interface a mux value selects. */
  function Selected(value: nat): Option<nat> {
    if 1 <= value <= 3 then Some(2 * (value - 1)) else None
  }

  // ----- The invariant -----

  /** An RX port is on the list of exactly the interface its mux selects. */
  ghost predicate RxRouted(chains: seq<seq<nat>>, rx: seq<nat>) {
    && |rx| == RX_MAX
    && forall p: nat, k: nat :: p < RX_MAX ==> (On(chains, k, RxNode(p)) <==> Selected(rx[p]) == Some(k))
  }

  /** A TX port is on a capture list if and only if its bit is set, and on no other list. */
  ghost predicate TxRouted(chains: seq<seq<nat>>, tx: set<nat>) {
    && (forall q: nat :: q in tx ==> q < TX_MAX)
    && (forall q: nat :: q < TX_MAX ==> (q in tx <==> Linked(chains, Node(q))))
    && (forall q: nat, k: nat :: q < TX_MAX && On(chains, k, Node(q)) ==> Capture(k))
  }

  /** Every list is in the order in which its ports were last selected. */
  ghost predicate InOrder(c: seq<nat>, since: seq<nat>) {
    forall i, j :: 0 <= i < j < |c| && PortOf(c[i]) < |since| && PortOf(c[j]) < |since| ==> since[PortOf(c[i])] < since[PortOf(c[j])]
  }

  ghost predicate Ordered(chains: seq<seq<nat>>, since: seq<nat>, clock: nat) {
    && |since| == PORTS
    && (forall p :: 0 <= p < PORTS ==> since[p] < clock)
    && (forall k :: 0 <= k < |chains| ==> InOrder(chains[k], since))
  }

  // ----- What the writes do to the lists -----

  /** Take a node off its list and put it at the end of another, if any. */
  function Moved(chains: seq<seq<nat>>, node: nat, target: Option<nat>): seq<seq<nat>> {
    var rest := AllWithout(chains, node);
    if target.Some? && target.value < |chains| then rest[target.value := rest[target.value] + [node]] else rest
  }

  lemma MovedMembers(chains: seq<seq<nat>>, node: nat, target: Option<nat>, k: nat, n: nat)
    requires target.Some? ==> target.value < |chains|
    ensures On(Moved(chains, node, target), k, n) <==> if n == node then target == Some(k) else On(chains, k, n)
  {
    if k < |chains| {
      WithoutMembers(chains[k], node);
    }
  }

  lemma {:induction false} WithoutOrdered(c: seq<nat>, n: nat, since: seq<nat>)
    requires InOrder(c, since)
    ensures InOrder(Without(c, n), since)
  {
    if c != [] {
      WithoutOrdered(c[1..], n, since);
      WithoutMembers(c[1..], n);
      var r := Without(c[1..], n);
      forall i | 0 <= i < |r| && PortOf(c[0]) < |since| && PortOf(r[i]) < |since| ensures since[PortOf(c[0])] < since[PortOf(r[i])] {
        assert r[i] in r;
        var j :| 0 <= j < |c[1..]| && c[1..][j] == r[i];
        assert c[j + 1] == r[i];
      }
    }
  }

  lemma LaterSince(c: seq<nat>, since: seq<nat>, port: nat, clock: nat)
    requires InOrder(c, since) && port < |since| && (forall i :: 0 <= i < |c| ==> PortOf(c[i]) != port)
    ensures InOrder(c, since[port := clock])
  {
  }

  /** The lists stay in order when a port is moved at the current time. */
  lemma MovedOrdered(chains: seq<seq<nat>>, port: nat, target: Option<nat>, since: seq<nat>, clock: nat)
    requires Ordered(chains, since, clock) && port < PORTS && (target.Some? ==> target.value < |chains|)
    requires forall k: nat, n: nat :: On(chains, k, n) ==> DAIS <= n < NODES
    ensures Ordered(Moved(chains, Node(port), target), since[port := clock], clock + 1)
  {
    var chains', node := Moved(chains, Node(port), target), Node(port);
    forall k | 0 <= k < |chains| ensures InOrder(chains'[k], since[port := clock]) {
      var c := Without(chains[k], node);
      WithoutOrdered(chains[k], node, since);
      WithoutMembers(chains[k], node);
      forall i | 0 <= i < |c| ensures PortOf(c[i]) != port && PortOf(c[i]) < PORTS {
        assert c[i] in c && On(chains, k, c[i]);
      }
      LaterSince(c, since, port, clock);
      assert InOrder(c + [node], since[port := clock]);
    }
  }

  lemma MovedRouted(chains: seq<seq<nat>>, rx: seq<nat>, tx: set<nat>, p: nat, value: nat)
    requires |chains| == DAIS && RxRouted(chains, rx) && TxRouted(chains, tx) && p < RX_MAX
    ensures RxRouted(Moved(chains, RxNode(p), Selected(value)), rx[p := value])
    ensures TxRouted(Moved(chains, RxNode(p), Selected(value)), tx)
  {
    var chains' := Moved(chains, RxNode(p), Selected(value));
    forall k: nat, n: nat ensures On(chains', k, n) <==> if n == RxNode(p) then Selected(value) == Some(k) else On(chains, k, n) {
      MovedMembers(chains, RxNode(p), Selected(value), k, n);
    }
  }

  /** In the hardware's own terms: mux value 1 puts an RX port on AIF1_PB, which is 0, value 2 on AIF2_PB, which is 2,
      and value 3 on AIF3_PB, which is 4; any other value on no list. */
  ghost predicate RxByValue(chains: seq<seq<nat>>, rx: seq<nat>) {
    && |rx| == 13
    && forall p: nat, k: nat :: p < 13 ==>
         (On(chains, k, RxNode(p)) <==> (rx[p] == 1 && k == 0) || (rx[p] == 2 && k == 2) || (rx[p] == 3 && k == 4))
  }

  lemma RoutedByValue(chains: seq<seq<nat>>, rx: seq<nat>)
    ensures RxRouted(chains, rx) <==> RxByValue(chains, rx)
  {
    if |rx| == RX_MAX {
      forall p: nat, k: nat | p < RX_MAX
        ensures Selected(rx[p]) == Some(k) <==> (rx[p] == 1 && k == 0) || (rx[p] == 2 && k == 2) || (rx[p] == 3 && k == 4)
      {
      }
      hide On, Selected, RxNode;
      if RxRouted(chains, rx) {
        forall p: nat, k: nat | p < RX_MAX
          ensures On(chains, k, RxNode(p)) <==> (rx[p] == 1 && k == 0) || (rx[p] == 2 && k == 2) || (rx[p] == 3 && k == 4)
        {
          assert On(chains, k, RxNode(p)) <==> Selected(rx[p]) == Some(k);
        }
      }
      if RxByValue(chains, rx) {
        forall p: nat, k: nat | p < RX_MAX ensures On(chains, k, RxNode(p)) <==> Selected(rx[p]) == Some(k) {
          assert Selected(rx[p]) == Some(k) <==> (rx[p] == 1 && k == 0) || (rx[p] == 2 && k == 2) || (rx[p] == 3 && k == 4);
        }
      }
    }
  }

  /** An entry's channel number: 144 + p for RX port p, 128 + q for TX port q; its port's bit: 16 + p, or q. */
  lemma Numbers(p: nat)
    ensures ChNum(RxNode(p)) == 144 + p && PortOf(RxNode(p)) == 16 + p
    ensures ChNum(Node(p)) == 128 + p && PortOf(Node(p)) == p
  {
  }

  lemma InChannels(chains: seq<seq<nat>>, k: nat, n: nat)
    requires k < |chains| && n >= DAIS && forall m: nat :: On(chains, k, m) ==> DAIS <= m < NODES
    ensures ChNum(n) in ChannelNumbers(chains[k]) <==> On(chains, k, n)
  {
    var c := chains[k];
    forall i | 0 <= i < |c| ensures ChNum(c[i]) == ChNum(n) ==> c[i] == n {
      assert On(chains, k, c[i]);
    }
    if On(chains, k, n) {
      var i :| 0 <= i < |c| && c[i] == n;
      assert ChannelNumbers(c)[i] == ChNum(n);
    }
  }

  lemma TxOnCapture(chains: seq<seq<nat>>, tx: set<nat>, q: nat)
    requires |chains| == DAIS && TxRouted(chains, tx) && q < TX_MAX
    ensures q in tx <==> On(chains, 1, Node(q)) || On(chains, 3, Node(q)) || On(chains, 5, Node(q))
    ensures !On(chains, 0, Node(q)) && !On(chains, 2, Node(q)) && !On(chains, 4, Node(q))
  {
    hide On, Node;
    assert q in tx <==> Linked(chains, Node(q));
    forall k: nat | On(chains, k, Node(q)) ensures Capture(k) {}
    if q in tx {
      var k: nat :| On(chains, k, Node(q));
      assert Capture(k);
    }
  }

  /** The channels each interface is given: 144 + p exactly on the one that RX port p's mux value means, and 128 + q
      on some capture interface exactly if TX port q is switched on, and never on another. */
  lemma ChannelsByValue(chains: seq<seq<nat>>, rx: seq<nat>, tx: set<nat>, p: nat)
    requires |chains| == DAIS && RxRouted(chains, rx) && TxRouted(chains, tx)
    requires forall k: nat, n: nat :: On(chains, k, n) ==> DAIS <= n < NODES
    ensures p < 13 ==>
      && (144 + p in ChannelNumbers(chains[0]) <==> rx[p] == 1)
      && (144 + p in ChannelNumbers(chains[2]) <==> rx[p] == 2)
      && (144 + p in ChannelNumbers(chains[4]) <==> rx[p] == 3)
    ensures p < 16 ==>
      && (128 + p in ChannelNumbers(chains[1]) || 128 + p in ChannelNumbers(chains[3]) || 128 + p in ChannelNumbers(chains[5]) <==> p in tx)
      && 128 + p !in ChannelNumbers(chains[0]) && 128 + p !in ChannelNumbers(chains[2]) && 128 + p !in ChannelNumbers(chains[4])
  {
    RoutedByValue(chains, rx);
    Numbers(p);
    if p < 13 {
      InChannels(chains, 0, RxNode(p));
      InChannels(chains, 2, RxNode(p));
      InChannels(chains, 4, RxNode(p));
    }
    if p < 16 {
      forall k: nat | k < 6 ensures 128 + p in ChannelNumbers(chains[k]) <==> On(chains, k, Node(p)) {
        InChannels(chains, k, Node(p));
      }
      TxOnCapture(chains, tx, p);
    }
  }

  lemma SwitchedRouted(chains: seq<seq<nat>>, rx: seq<nat>, tx: set<nat>, q: nat, target: Option<nat>)
    requires |chains| == DAIS && RxRouted(chains, rx) && TxRouted(chains, tx) && q < TX_MAX
    requires target.Some? ==> Capture(target.value)
    ensures RxRouted(Moved(chains, Node(q), target), rx)
    ensures TxRouted(Moved(chains, Node(q), target), if target.Some? then tx + {q} else tx - {q})
  {
    var chains', tx' := Moved(chains, Node(q), target), if target.Some? then tx + {q} else tx - {q};
    forall k: nat, n: nat ensures On(chains', k, n) <==> if n == Node(q) then target == Some(k) else On(chains, k, n) {
      MovedMembers(chains, Node(q), target, k, n);
    }
    forall r: nat | r < TX_MAX ensures r in tx' <==> Linked(chains', Node(r)) {
      if r == q {
        assert target.Some? ==> On(chains', target.value, Node(q));
      } else if Linked(chains, Node(r)) {
        var k: nat :| On(chains, k, Node(r));
        assert On(chains', k, Node(r));
      }
    }
  }

  // ----- Flattening -----

  function ChannelNumbers(c: seq<nat>): (r: seq<nat>)
    ensures |r| == |c|
  {
    seq(|c|, i requires 0 <= i < |c| => ChNum(c[i]))
  }

  ghost function Ports(c: seq<nat>): set<nat> {
    set i | 0 <= i < |c| :: PortOf(c[i])
  }

  /** Distinct nodes have distinct ports, so there are as many ports as nodes. */
  lemma {:induction false} PortsCount(c: seq<nat>)
    requires NoRepeats(c) && forall i :: 0 <= i < |c| ==> DAIS <= c[i]
    ensures |Ports(c)| == |c|
  {
    if c != [] {
      var n := |c| - 1;
      PortsCount(c[..n]);
      assert Ports(c) == Ports(c[..n]) + {PortOf(c[n])};
      assert PortOf(c[n]) !in Ports(c[..n]);
    }
  }

  lemma {:induction false} RangeSize(lo: nat, hi: nat, s: set<nat>)
    requires lo <= hi && forall x :: x in s ==> lo <= x < hi
    ensures |s| <= hi - lo
  {
    if lo == hi {
      assert s == {};
    } else {
      RangeSize(lo, hi - 1, s - {hi - 1});
    }
  }

  /** A playback list holds only RX ports and a capture list only TX ports, so neither overflows its map. */
  lemma ListFits(chains: seq<seq<nat>>, rx: seq<nat>, tx: set<nat>, k: nat)
    requires |chains| == DAIS && RxRouted(chains, rx) && TxRouted(chains, tx)
    requires k < DAIS && NoRepeats(chains[k])
    requires forall n: nat :: On(chains, k, n) ==> DAIS <= n < NODES
    ensures Playback(k) ==> |chains[k]| <= RX_MAX && forall n: nat :: On(chains, k, n) ==> PortOf(n) >= RX_START
    ensures Capture(k) ==> |chains[k]| <= TX_MAX && forall n: nat :: On(chains, k, n) ==> PortOf(n) < TX_MAX
  {
    var c := chains[k];
    forall i | 0 <= i < |c| ensures On(chains, k, c[i]) {}
    PortsCount(c);
    forall n: nat | On(chains, k, n) ensures if PortOf(n) < TX_MAX then Capture(k) else Playback(k) {
      if PortOf(n) < TX_MAX {
        assert n == Node(PortOf(n));
      } else {
        var p: nat := PortOf(n) - RX_START;
        assert n == RxNode(p) && Selected(rx[p]) == Some(k);
      }
    }
    if Playback(k) {
      RangeSize(RX_START, PORTS, Ports(c));
    } else if Capture(k) {
      RangeSize(0, TX_MAX, Ports(c));
    }
  }

  // ----- The codec -----

  class Codec {
    const links: Links
    const rxPortValue: array<nat>
    var txPortValue: set<nat>  // the set bits of the mask
    ghost var since: seq<nat>  // when each port was last moved
    ghost var clock: nat

    ghost predicate Valid()
      reads this, links, links.next, links.prev, rxPortValue
    {
      && links.Valid() && rxPortValue != links.next && rxPortValue != links.prev
      && links.next.Length == NODES && |links.chains| == DAIS && rxPortValue.Length == RX_MAX
      && RxRouted(links.chains, rxPortValue[..])
      && TxRouted(links.chains, txPortValue)
      && Ordered(links.chains, since, clock)
    }

    constructor ()
      ensures Valid() && fresh(links) && fresh(links.next) && fresh(links.prev) && fresh(rxPortValue)
      ensures links.chains == seq(DAIS, _ => []) && txPortValue == {}
    {
      links := new Links(DAIS, NODES);
      rxPortValue := new nat[RX_MAX](_ => 0);
      txPortValue := {};
      since, clock := seq(PORTS, _ => 0), 1;
    }

    /** Write the mux of an RX port. */
    method SlimRxMuxPut(portId: nat, value: nat) returns (ret: int)
      requires Valid() && portId < RX_MAX
      modifies this, links, links.next, links.prev, rxPortValue
      ensures Valid()
      ensures rxPortValue[..] == old(rxPortValue[..])[portId := value] && txPortValue == old(txPortValue)
      ensures links.chains == if old(rxPortValue[portId]) == value then old(links.chains)
                              else Moved(old(links.chains), RxNode(portId), Selected(value))
      ensures ret == if old(rxPortValue[portId]) != value && value > 3 then EINVAL else 0
      ensures RxByValue(links.chains, rxPortValue[..])
    {
      if rxPortValue[portId] == value {
        assert rxPortValue[..] == rxPortValue[..][portId := value];
        RoutedByValue(links.chains, rxPortValue[..]);
        return 0;
      }
      NodesInRange();
      MovedRouted(links.chains, rxPortValue[..], txPortValue, portId, value);
      MovedOrdered(links.chains, RX_START + portId, Selected(value), since, clock);
      rxPortValue[portId] := value;
      links.ListDelInit(RxNode(portId));
      ret := 0;
      match value {
        case 0 =>
        case 1 => links.ListAddTail(RxNode(portId), 0);
        case 2 => links.ListAddTail(RxNode(portId), 2);
        case 3 => links.ListAddTail(RxNode(portId), 4);
        case _ => ret := EINVAL;
      }
      since, clock := since[RX_START + portId := clock], clock + 1;
      RoutedByValue(links.chains, rxPortValue[..]);
      assert rxPortValue[..] == old(rxPortValue[..])[portId := value];
    }

    /** Write the switch of a TX port in the mixer of one capture interface. */
    method SlimTxMixerPut(daiId: nat, portId: nat, enable: bool) returns (ret: int)
      requires Valid() && portId < TX_MAX
      modifies this, links, links.next, links.prev
      ensures Valid() && rxPortValue[..] == old(rxPortValue[..])
      ensures ret == if daiId == 1 || daiId == 3 || daiId == 5 then 0 else EINVAL
      ensures txPortValue == if !Capture(daiId) then old(txPortValue) else if enable then old(txPortValue) + {portId} else old(txPortValue) - {portId}
      ensures links.chains == if !Capture(daiId) || (enable <==> portId in old(txPortValue)) then old(links.chains)
                              else Moved(old(links.chains), Node(portId), if enable then Some(daiId) else None)
    {
      if !Capture(daiId) {
        return EINVAL;
      }
      ret := 0;
      if enable && portId !in txPortValue {
        SwitchOn(daiId, portId);
      } else if !enable && portId in txPortValue {
        SwitchOff(portId);
      }
    }

    method SwitchOn(daiId: nat, portId: nat)
      requires Valid() && portId < TX_MAX && Capture(daiId) && portId !in txPortValue
      modifies this, links, links.next, links.prev
      ensures Valid() && rxPortValue[..] == old(rxPortValue[..]) && txPortValue == old(txPortValue) + {portId}
      ensures links.chains == Moved(old(links.chains), Node(portId), Some(daiId))
    {
      NodesInRange();
      SwitchedRouted(links.chains, rxPortValue[..], txPortValue, portId, Some(daiId));
      MovedOrdered(links.chains, portId, Some(daiId), since, clock);
      LooseMoves(Node(portId), daiId);
      txPortValue := txPortValue + {portId};
      links.ListAddTail(Node(portId), daiId);
      since, clock := since[portId := clock], clock + 1;
    }

    method SwitchOff(portId: nat)
      requires Valid() && portId < TX_MAX && portId in txPortValue
      modifies this, links, links.next, links.prev
      ensures Valid() && rxPortValue[..] == old(rxPortValue[..]) && txPortValue == old(txPortValue) - {portId}
      ensures links.chains == Moved(old(links.chains), Node(portId), None)
    {
      NodesInRange();
      SwitchedRouted(links.chains, rxPortValue[..], txPortValue, portId, None);
      MovedOrdered(links.chains, portId, None, since, clock);
      txPortValue := txPortValue - {portId};
      links.ListDelInit(Node(portId));
      since, clock := since[portId := clock], clock + 1;
    }

    lemma NodesInRange()
      requires Valid()
      ensures forall k: nat, n: nat :: On(links.chains, k, n) ==> DAIS <= n < NODES
    {
    }

    lemma LooseMoves(n: nat, k: nat)
      requires |links.chains| == DAIS && !Linked(links.chains, n) && k < DAIS
      ensures Moved(links.chains, n, Some(k)) == links.chains[k := links.chains[k] + [n]]
    {
      forall l: nat | l < DAIS ensures AllWithout(links.chains, n)[l] == links.chains[l] {
        assert !On(links.chains, l, n);
        WithoutAbsent(links.chains[l], n);
      }
      assert AllWithout(links.chains, n) == links.chains;
    }

    /** One step of list_for_each_entry: from the head or the (n-1)-th node of a list to what follows it. */
    method Advance(head: nat, cur: nat, ghost n: nat) returns (after: nat)
      requires Valid() && head < DAIS && n <= |links.chains[head]|
      requires cur == if n == 0 then head else links.chains[head][n - 1]
      ensures after == if n == |links.chains[head]| then head else links.chains[head][n]
      ensures after == head <==> n == |links.chains[head]|
    {
      links.Follow(head, n);
      after := links.next[cur];
    }

    lemma ListFacts(k: nat)
      requires Valid() && k < DAIS
      ensures var c := links.chains[k]; NoRepeats(c) && |Ports(c)| == |c| && forall n: nat :: n in c ==> DAIS <= n < NODES
      ensures Playback(k) ==> |links.chains[k]| <= RX_MAX
      ensures Capture(k) ==> |links.chains[k]| <= TX_MAX
    {
      ListFits(links.chains, rxPortValue[..], txPortValue, k);
      forall n: nat | n in links.chains[k] ensures DAIS <= n < NODES {
        assert On(links.chains, k, n);
      }
      assert forall i :: 0 <= i < |links.chains[k]| ==> links.chains[k][i] in links.chains[k];
      PortsCount(links.chains[k]);
    }

    /** The channel numbers of an interface, in the order the ports were selected. Other interfaces have none to give. */
    method GetChannelMap(daiId: nat) returns (slots: Option<seq<nat>>)
      requires Valid() && daiId < DAIS
      ensures slots.None? <==> daiId >= 6
      ensures slots.Some? ==> slots.value == ChannelNumbers(links.chains[daiId]) && NoRepeats(slots.value)
      ensures slots.Some? ==> |slots.value| <= if Playback(daiId) then RX_MAX else TX_MAX
    {
      hide WellFormed, RxRouted, TxRouted, Ordered, Ports;
      if !Playback(daiId) && !Capture(daiId) {
        return None;
      }
      ghost var c := links.chains[daiId];
      ListFacts(daiId);
      var max := if Playback(daiId) then RX_MAX else TX_MAX;
      var r: seq<nat> := [];
      var cur := Advance(daiId, daiId, 0);
      while cur != daiId && |r| != max
        invariant |r| <= |c| && cur == if |r| == |c| then daiId else c[|r|]
        invariant cur == daiId <==> |r| == |c|
        invariant r == ChannelNumbers(c[..|r|])
        decreases |c| - |r|
      {
        r := r + [ChNum(cur)];
        cur := Advance(daiId, cur, |r|);
      }
      assert c[..|r|] == c;
      DistinctChannels(c);
      slots := Some(r);
    }

    /** The stream configuration for an interface: count, channels, and the bits of the port mask. */
    method SlimSetHwParams(daiId: nat, memory: bool) returns (ret: int, chCount: nat, portMask: set<nat>, chs: seq<nat>)
      requires Valid() && daiId < DAIS
      ensures ret == if memory then 0 else ENOMEM
      ensures chCount == |links.chains[daiId]| == |portMask|
      ensures portMask == Ports(links.chains[daiId])
      ensures ret == 0 ==> chs == ChannelNumbers(links.chains[daiId])
    {
      hide WellFormed, RxRouted, TxRouted, Ordered;
      ghost var c := links.chains[daiId];
      ListFacts(daiId);
      chCount, portMask, chs := 0, {}, [];
      var cur := Advance(daiId, daiId, 0);
      while cur != daiId
        invariant chCount <= |c| && cur == if chCount == |c| then daiId else c[chCount]
        invariant cur == daiId <==> chCount == |c|
        invariant portMask == Ports(c[..chCount])
        decreases |c| - chCount
      {
        PortsNext(c, chCount);
        chCount := chCount + 1;
        portMask := portMask + {PortOf(cur)};
        cur := Advance(daiId, cur, chCount);
      }
      assert c[..chCount] == c;
      if !memory {
        return ENOMEM, chCount, portMask, [];
      }
      cur := Advance(daiId, daiId, 0);
      while cur != daiId
        invariant |chs| <= |c| && cur == if |chs| == |c| then daiId else c[|chs|]
        invariant cur == daiId <==> |chs| == |c|
        invariant chs == ChannelNumbers(c[..|chs|])
        decreases |c| - |chs|
      {
        chs := chs + [ChNum(cur)];
        cur := Advance(daiId, cur, |chs|);
      }
      assert c[..|chs|] == c;
      ret := 0;
    }
  }

  lemma DistinctChannels(c: seq<nat>)
    requires NoRepeats(c) && forall n: nat :: n in c ==> DAIS <= n
    ensures NoRepeats(ChannelNumbers(c))
  {
    assert forall i :: 0 <= i < |c| ==> c[i] in c;
  }

  lemma PortsNext(c: seq<nat>, i: nat)
    requires i < |c|
    ensures Ports(c[..i + 1]) == Ports(c[..i]) + {PortOf(c[i])}
  {
    assert c[..i + 1] == c[..i] + [c[i]];
    forall x | x in Ports(c[..i]) ensures x in Ports(c[..i + 1]) {
      var j :| 0 <= j < |c[..i]| && PortOf(c[..i][j]) == x;
      assert PortOf(c[..i + 1][j]) == x;
    }
    assert PortOf(c[..i + 1][i]) == PortOf(c[i]);
  }
}
