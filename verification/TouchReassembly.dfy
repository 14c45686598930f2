/** Reports of the touch controller that span several packets, put back together in one buffer;
    and commands to it, cut into packets. */
module TouchReassembly {

  const RPT_LEN_MAX := 1000
  const PACKET_BUFFER := 246
  const PER_PACKET := 244
  const ONE_PACKET := 0x11
  const RAW_IMAGE := 0x0800

  type Word = x: int | 0 <= x <= 0xFFFF

  datatype Code = Complete | Again | IoError

  /** The receive buffer, the report length, and how many packets of the report it holds. */
  datatype Assembly = Assembly(rx: seq<Word>, len: nat, combined: nat)

  // ----- Headers -----

  function Size(header: Word): nat {
    header % 256
  }

  function SeqNum(header: Word): nat {
    header / 256
  }

  function Total(header: Word): nat {
    SeqNum(header) / 16
  }

  function Number(header: Word): nat {
    SeqNum(header) % 16
  }

  function Header(total: nat, number: nat, size: nat): Word
    requires total < 16 && number < 16 && size < 256
  {
    total * 4096 + number * 256 + size
  }

  lemma HeaderFields(total: nat, number: nat, size: nat)
    requires total < 16 && number < 16 && size < 256
    ensures var h := Header(total, number, size); Total(h) == total && Number(h) == number && Size(h) == size
    ensures SeqNum(Header(total, number, size)) == total * 16 + number
    ensures var h := Header(total, number, size); h / 4096 == total && h / 256 % 16 == number && h % 256 == size
  {
  }

  // ----- Combining, on values -----

  /** s with the words of w, if any, written from position at. */
  function Overwrite(s: seq<Word>, at: nat, w: seq<Word>): (r: seq<Word>)
    requires w == [] || at + |w| <= |s|
    ensures |r| == |s|
  {
    if w == [] then s else s[..at] + w + s[at + |w|..]
  }

  /** Which words of a packet are copied where. */
  datatype Copying = NoCopy | Copying(to: nat, from: nat, len: nat)

  function CopyOf(a: Assembly, packet: seq<Word>): Copying
    requires |packet| == PACKET_BUFFER
  {
    var h, size := packet[0], Size(packet[0]);
    if SeqNum(h) == ONE_PACKET then Copying(0, 0, size + 1)
    else if Number(h) == 1 then if packet[1] == RAW_IMAGE then Copying(0, 0, size + 1) else NoCopy
    else if Number(h) == a.combined + 1 then Copying((Number(h) - 1) * PER_PACKET + 1, 1, size)
    else NoCopy
  }

  /** What is copied lies inside the packet buffer and the report buffer. The source does not look, so it is its caller
      and the device that must see to it. */
  predicate Fits(a: Assembly, packet: seq<Word>) {
    && |packet| == PACKET_BUFFER
    && match CopyOf(a, packet)
       case NoCopy => true
       case Copying(to, from, len) => len == 0 || (from + len <= PACKET_BUFFER && to + len <= RPT_LEN_MAX)
  }

  /** Which packets those are, by their headers: sizes up to the 245 words that the reading of a packet admits, except
      that the fifth packet of a report may carry 23 words at most and a later one none. */
  lemma FitsExactly(a: Assembly, packet: seq<Word>)
    requires |packet| == PACKET_BUFFER
    ensures var h, size := packet[0], Size(packet[0]);
      Fits(a, packet) <==>
        if SeqNum(h) == ONE_PACKET || (Number(h) == 1 && packet[1] == RAW_IMAGE) then size < PACKET_BUFFER
        else if Number(h) == 1 || Number(h) != a.combined + 1 then true
        else size < PACKET_BUFFER && (Number(h) == 5 ==> size <= 23) && (Number(h) > 5 ==> size == 0)
  {
    hide SeqNum, Number, Size;
    assert forall k: nat :: k > 4 ==> k * PER_PACKET >= 5 * PER_PACKET;
  }

  /** A packet that fits whatever is in already. */
  predicate Acceptable(packet: seq<Word>) {
    && |packet| == PACKET_BUFFER
    && Size(packet[0]) < PACKET_BUFFER
    && (Number(packet[0]) - 1) * PER_PACKET + 1 + Size(packet[0]) <= RPT_LEN_MAX
  }

  lemma AcceptableFits(a: Assembly, packet: seq<Word>)
    requires Acceptable(packet)
    ensures Fits(a, packet)
  {
    hide SeqNum, Number, Size;
  }

  function Combine(a: Assembly, packet: seq<Word>): (r: (Assembly, Code))
    requires |a.rx| == RPT_LEN_MAX && Fits(a, packet)
    ensures |r.0.rx| == RPT_LEN_MAX
  {
    var h, size := packet[0], Size(packet[0]);
    if SeqNum(h) == ONE_PACKET then
      (Assembly(Overwrite(a.rx, 0, packet[..size + 1]), size, 1), Complete)
    else if Number(h) == 1 then
      if packet[1] == RAW_IMAGE then
        (Assembly(Overwrite(a.rx, 0, packet[..size + 1]), (packet[2] as int + 2) % 0x10000, 1), Again)
      else (a, IoError)
    else if Number(h) == a.combined + 1 then
      (Assembly(Overwrite(a.rx, (Number(h) - 1) * PER_PACKET + 1, packet[1..size + 1]), a.len, a.combined + 1),
       if Total(h) == Number(h) then Complete else IoError)
    else (a, IoError)
  }

  class Receiver {
    const rxReport: array<Word>
    var rxReportLen: Word
    var packetSeqCombined: Word

    function Value(): Assembly
      reads this, rxReport
    {
      Assembly(rxReport[..], rxReportLen, packetSeqCombined)
    }

    constructor ()
      ensures fresh(rxReport) && rxReport.Length == RPT_LEN_MAX
    {
      rxReport := new Word[RPT_LEN_MAX](_ => 0);
      rxReportLen, packetSeqCombined := 0, 0;
    }

    method CombineMultipacketReport(report: seq<Word>) returns (ret: Code)
      requires rxReport.Length == RPT_LEN_MAX && Fits(Value(), report)
      modifies this, rxReport
      ensures (Value(), ret) == Combine(old(Value()), report)
    {
      var h := report[0];
      var packetSeqNum, packetSize := h / 256, h % 256;
      if packetSeqNum == ONE_PACKET {
        Copy(0, report[..packetSize + 1]);
        rxReportLen := packetSize;
        packetSeqCombined := 1;
        return Complete;
      }
      var totalPackets, thisPacket := packetSeqNum / 16, packetSeqNum % 16;
      if thisPacket == 1 {
        if report[1] == RAW_IMAGE {
          rxReportLen := (report[2] as int + 2) % 0x10000;
          packetSeqCombined := 1;
          Copy(0, report[..packetSize + 1]);
          return Again;
        } else {
          return IoError;
        }
      } else if thisPacket == packetSeqCombined + 1 {
        packetSeqCombined := packetSeqCombined + 1;
        var offset := (thisPacket - 1) * PER_PACKET + 1;
        Copy(offset, report[1..packetSize + 1]);
        if totalPackets == thisPacket {
          return Complete;
        } else {
          return IoError;
        }
      }
      return IoError;
    }

    /** memcpy into the report buffer. */
    method Copy(at: nat, w: seq<Word>)
      requires w == [] || at + |w| <= rxReport.Length
      modifies rxReport
      ensures rxReport[..] == Overwrite(old(rxReport[..]), at, w)
    {
      forall i | 0 <= i < |w| {
        rxReport[at + i] := w[i];
      }
    }
  }

  // ----- What the device sends -----

  function Min(a: nat, b: nat): nat {
    if a < b then a else b
  }

  /** How many packets a report of n words takes. */
  function Packets(n: nat): nat {
    (n + PER_PACKET - 1) / PER_PACKET
  }

  /** As many as it takes and no more. */
  lemma JustEnough(n: nat)
    ensures (Packets(n) - 1) * 244 < n <= Packets(n) * 244
  {
  }

  /** A raw-image report: its id, the number of words that follow, and those words. */
  ghost predicate RawImage(report: seq<Word>) {
    2 <= |report| < RPT_LEN_MAX && report[0] == RAW_IMAGE && report[1] == |report| - 2
  }

  function Chunk(report: seq<Word>, j: nat): seq<Word>
    requires 1 <= j <= Packets(|report|)
  {
    report[(j - 1) * PER_PACKET..Min(j * PER_PACKET, |report|)]
  }

  /** packet carries the j-th chunk of the report; what follows it in the packet buffer is arbitrary. */
  ghost predicate Carries(packet: seq<Word>, report: seq<Word>, j: nat)
    requires RawImage(report)
  {
    && 1 <= j <= Packets(|report|)
    && |packet| == PACKET_BUFFER
    && var w := Chunk(report, j);
       packet[0] == Header(Packets(|report|), j, |w|) && packet[1..|w| + 1] == w
  }

  lemma CarriesAcceptable(packet: seq<Word>, report: seq<Word>, j: nat)
    requires RawImage(report) && Carries(packet, report, j)
    ensures Acceptable(packet)
    ensures var h := packet[0]; Total(h) == Packets(|report|) && Number(h) == j && Size(h) == |Chunk(report, j)|
    ensures SeqNum(packet[0]) == ONE_PACKET <==> Packets(|report|) == 1
  {
    HeaderFields(Packets(|report|), j, |Chunk(report, j)|);
  }

  // ----- Reassembly -----

  /** The buffer holds the first k chunks of the report, and nothing else of it is claimed. */
  ghost predicate Holding(a: Assembly, report: seq<Word>, k: nat) {
    && |a.rx| == RPT_LEN_MAX && |report| < RPT_LEN_MAX
    && a.combined == k && a.len == |report|
    && a.rx[1..Min(k * PER_PACKET, |report|) + 1] == report[..Min(k * PER_PACKET, |report|)]
  }

  /** The first packet starts the report whatever the buffer held before. */
  lemma FirstPacket(a: Assembly, packet: seq<Word>, report: seq<Word>)
    requires |a.rx| == RPT_LEN_MAX && RawImage(report) && Carries(packet, report, 1)
    ensures Acceptable(packet) && Fits(a, packet)
    ensures var (a', code) := Combine(a, packet);
      Holding(a', report, 1) && code == if Packets(|report|) == 1 then Complete else Again
  {
    hide Fits, Total, Number, Size, SeqNum, Header;
    CarriesAcceptable(packet, report, 1);
    AcceptableFits(a, packet);
    var w := Chunk(report, 1);
    assert packet[1..|w| + 1][0] == RAW_IMAGE && packet[1..|w| + 1][1] == |report| - 2;
    var a' := Combine(a, packet).0;
    assert a'.rx == Overwrite(a.rx, 0, packet[..|w| + 1]);
    BehindHeader(a.rx, packet, |w|);
  }

  lemma BehindHeader(rx: seq<Word>, packet: seq<Word>, n: nat)
    requires n < |packet| && n < |rx|
    ensures Overwrite(rx, 0, packet[..n + 1])[1..n + 1] == packet[1..n + 1]
  {
    var w := packet[..n + 1];
    assert Overwrite(rx, 0, w) == w + rx[n + 1..];
    assert (w + rx[n + 1..])[..n + 1] == w;
  }

  /** The next packet extends it; it completes the report exactly when it is the last. */
  lemma NextPacket(a: Assembly, packet: seq<Word>, report: seq<Word>, k: nat)
    requires RawImage(report) && 1 <= k < Packets(|report|)
    requires Holding(a, report, k) && Carries(packet, report, k + 1)
    ensures Acceptable(packet) && Fits(a, packet)
    ensures var (a', code) := Combine(a, packet);
      Holding(a', report, k + 1) && code == if k + 1 == Packets(|report|) then Complete else IoError
  {
    hide Fits, Total, Number, Size, SeqNum, Header;
    CarriesAcceptable(packet, report, k + 1);
    AcceptableFits(a, packet);
    var w := Chunk(report, k + 1);
    var at := k * PER_PACKET + 1;
    assert Combine(a, packet).0.rx == Overwrite(a.rx, at, w);
    Extended(a.rx, at, w);
    assert report[..k * PER_PACKET] + w == report[..Min((k + 1) * PER_PACKET, |report|)];
  }

  lemma Extended(rx: seq<Word>, at: nat, w: seq<Word>)
    requires 1 <= at && at + |w| <= |rx|
    ensures Overwrite(rx, at, w)[1..at + |w|] == rx[1..at] + w
  {
  }

  /** A report of any kind that takes one packet, which is numbered 1 of 1: it is complete at once, and stands in the
      buffer behind its header whatever the buffer held before. */
  lemma OnePacketReport(a: Assembly, packet: seq<Word>, report: seq<Word>)
    requires |a.rx| == RPT_LEN_MAX && |packet| == PACKET_BUFFER && |report| < PACKET_BUFFER
    requires packet[0] == 0x1100 + |report| && packet[1..|report| + 1] == report
    ensures Fits(a, packet)
    ensures Combine(a, packet) ==
      (Assembly([packet[0]] + report + a.rx[|report| + 1..], |report|, 1), Complete)
  {
    var n := |report|;
    assert packet[0] / 256 == 0x11 && packet[0] % 256 == n;
    assert packet[..n + 1] == [packet[0]] + report;
    assert Combine(a, packet).0.rx == [packet[0]] + report + a.rx[n + 1..];
  }

  /** Of several packets, a first one that does not begin a raw image is refused, and so is a later one whose number is
      not the next; neither leaves a trace. */
  lemma Refused(a: Assembly, packet: seq<Word>)
    requires |a.rx| == RPT_LEN_MAX && |packet| == PACKET_BUFFER && packet[0] / 256 != 0x11
    requires var number := packet[0] / 256 % 16; if number == 1 then packet[1] != 0x0800 else number != a.combined + 1
    ensures Fits(a, packet) && Combine(a, packet) == (a, IoError)
  {
  }

  /** A packet that is already in is ignored, the first one excepted. */
  lemma RepeatedPacket(a: Assembly, packet: seq<Word>, report: seq<Word>, k: nat, j: nat)
    requires RawImage(report) && 2 <= j <= k
    requires Holding(a, report, k) && Carries(packet, report, j)
    ensures Acceptable(packet) && Fits(a, packet) && Combine(a, packet) == (a, IoError)
  {
    hide Fits, Total, Number, Size, SeqNum, Header;
    CarriesAcceptable(packet, report, j);
    AcceptableFits(a, packet);
  }

  /** The packets in order, each new one possibly preceded by repeats of packets 2..k already in; k counts those in. */
  ghost predicate InOrder(order: seq<nat>, k: nat, n: nat) {
    if order == [] then true
    else if order[0] == k + 1 <= n then InOrder(order[1..], k + 1, n)
    else 2 <= order[0] <= k && InOrder(order[1..], k, n)
  }

  ghost predicate Delivery(packets: seq<seq<Word>>, report: seq<Word>, order: seq<nat>)
    requires RawImage(report)
  {
    && |packets| == |order|
    && forall i :: 0 <= i < |order| ==> Carries(packets[i], report, order[i])
  }

  ghost predicate AllAcceptable(packets: seq<seq<Word>>) {
    forall i :: 0 <= i < |packets| ==> Acceptable(packets[i])
  }

  ghost function Feed(a: Assembly, packets: seq<seq<Word>>): (r: (Assembly, seq<Code>))
    requires |a.rx| == RPT_LEN_MAX && AllAcceptable(packets)
    ensures |r.1| == |packets| && |r.0.rx| == RPT_LEN_MAX
    decreases |packets|
  {
    if packets == [] then (a, [])
    else
      AcceptableFits(a, packets[0]);
      var (a', code) := Combine(a, packets[0]);
      var (a'', codes) := Feed(a', packets[1..]);
      (a'', [code] + codes)
  }

  lemma DeliveryAcceptable(packets: seq<seq<Word>>, report: seq<Word>, order: seq<nat>)
    requires RawImage(report) && Delivery(packets, report, order)
    ensures AllAcceptable(packets)
  {
    forall i | 0 <= i < |packets| ensures Acceptable(packets[i]) {
      CarriesAcceptable(packets[i], report, order[i]);
    }
  }

  /** How many packets are in after this delivery. */
  ghost function Reached(order: seq<nat>, k: nat): nat {
    if order == [] then k else Reached(order[1..], if order[0] == k + 1 then k + 1 else k)
  }

  /** All n packets, in order, with repeats. */
  ghost predicate Whole(order: seq<nat>, n: nat) {
    |order| > 0 && InOrder(order, 0, n) && Reached(order, 0) == n
  }

  /** The outcome is Complete on the packet that brings in the last chunk and on no other; before that the first packet
      asks for more, and any later one fails. */
  ghost predicate CodesRight(codes: seq<Code>, order: seq<nat>, k: nat, n: nat)
    requires |codes| == |order|
  {
    if order == [] then true
    else
      && codes[0] == (if k + 1 == n && order[0] == n then Complete else if k == 0 then Again else IoError)
      && CodesRight(codes[1..], order[1..], if order[0] == k + 1 then k + 1 else k, n)
  }

  ghost function Completions(codes: seq<Code>): nat {
    if codes == [] then 0 else (if codes[0] == Complete then 1 else 0) + Completions(codes[1..])
  }

  lemma {:induction false} CompletedOnce(codes: seq<Code>, order: seq<nat>, k: nat, n: nat)
    requires |codes| == |order| && k <= n && InOrder(order, k, n) && CodesRight(codes, order, k, n)
    ensures Reached(order, k) <= n
    ensures Completions(codes) == if k < n && Reached(order, k) == n then 1 else 0
    decreases |order|
  {
    if order != [] {
      CompletedOnce(codes[1..], order[1..], if order[0] == k + 1 then k + 1 else k, n);
      ReachedGrows(order[1..], if order[0] == k + 1 then k + 1 else k);
    }
  }

  lemma {:induction false} ReachedGrows(order: seq<nat>, k: nat)
    ensures k <= Reached(order, k)
    decreases |order|
  {
    if order != [] {
      ReachedGrows(order[1..], if order[0] == k + 1 then k + 1 else k);
    }
  }

  lemma {:induction false} FeedRest(a: Assembly, packets: seq<seq<Word>>, report: seq<Word>, order: seq<nat>, k: nat)
    requires RawImage(report) && Delivery(packets, report, order)
    requires 1 <= k <= Packets(|report|) && Holding(a, report, k)
    requires InOrder(order, k, Packets(|report|))
    ensures AllAcceptable(packets)
    ensures var (a', codes) := Feed(a, packets);
      Holding(a', report, Reached(order, k)) && CodesRight(codes, order, k, Packets(|report|))
    decreases |order|
  {
    hide Carries, Acceptable, Combine, Fits, RawImage, Packets;
    DeliveryAcceptable(packets, report, order);
    if order != [] {
      AcceptableFits(a, packets[0]);
      var (a', code) := Combine(a, packets[0]);
      if order[0] == k + 1 {
        NextPacket(a, packets[0], report, k);
        FeedRest(a', packets[1..], report, order[1..], k + 1);
      } else {
        RepeatedPacket(a, packets[0], report, k, order[0]);
        FeedRest(a', packets[1..], report, order[1..], k);
      }
    }
  }

  /** Reassembly: whatever the buffer held before, a raw-image report delivered in order, with arbitrary
      repeats, is completed exactly once, on its last packet, and then stands in the buffer word for word. */
  lemma Reassembles(a: Assembly, packets: seq<seq<Word>>, report: seq<Word>, order: seq<nat>)
    requires |a.rx| == RPT_LEN_MAX && RawImage(report) && Delivery(packets, report, order)
    requires Whole(order, Packets(|report|))
    ensures AllAcceptable(packets)
    ensures var (a', codes) := Feed(a, packets);
      && a'.rx[1..|report| + 1] == report && a'.len == |report|
      && CodesRight(codes, order, 0, Packets(|report|)) && Completions(codes) == 1
  {
    hide Carries, Acceptable, Combine, Fits;
    DeliveryAcceptable(packets, report, order);
    FirstPacket(a, packets[0], report);
    FeedRest(Combine(a, packets[0]).0, packets[1..], report, order[1..], 1);
    CompletedOnce(Feed(a, packets).1, order, 0, Packets(|report|));
  }

  // ----- Commands -----

  const CMD_PER_PACKET := 9
  const CMD_LEN_MAX := 15 * CMD_PER_PACKET
  const CMD_LEN_MIN := 2
  const CMD_ID_AND_SIZE := 2
  const CMD_START_ADDR := 0x0000

  datatype SendCode = Sent | Invalid | TransferFailed

  function CmdPackets(n: nat): nat {
    (n + CMD_PER_PACKET - 1) / CMD_PER_PACKET
  }

  /** The i-th packet of a command: the address, a header that numbers it from 1, and its words. */
  function CmdPacket(cmd: seq<Word>, i: nat): (p: seq<Word>)
    requires |cmd| <= CMD_LEN_MAX && i < CmdPackets(|cmd|)
    ensures |p| >= 2
  {
    var w := cmd[i * CMD_PER_PACKET..Min((i + 1) * CMD_PER_PACKET, |cmd|)];
    [CMD_START_ADDR, Header(CmdPackets(|cmd|), i + 1, |w|)] + w
  }

  /** A packet on the wire: the address 0, a header of the number of packets, this one's place from 1 and its size, and up
      to nine words, fewer in the last only. */
  lemma CmdOnTheWire(cmd: seq<Word>, i: nat)
    requires |cmd| <= CMD_LEN_MAX && i < CmdPackets(|cmd|)
    ensures var p, n := CmdPacket(cmd, i), CmdPackets(|cmd|);
      && (n - 1) * 9 < |cmd| <= n * 9
      && p[0] == 0 && p[1] / 4096 == n && p[1] / 256 % 16 == i + 1 && p[1] % 256 == |p| - 2
      && (i < n - 1 ==> |p| == 11) && 3 <= |p| <= 11
  {
    var w := cmd[i * CMD_PER_PACKET..Min((i + 1) * CMD_PER_PACKET, |cmd|)];
    HeaderFields(CmdPackets(|cmd|), i + 1, |w|);
    hide Header;
  }

  /** These are the command's first packets, in order. */
  ghost predicate Begins(cmd: seq<Word>, sent: seq<seq<Word>>) {
    && |cmd| <= CMD_LEN_MAX && |sent| <= CmdPackets(|cmd|)
    && forall i :: 0 <= i < |sent| ==> sent[i] == CmdPacket(cmd, i)
  }

  /** The words carried by a run of packets. */
  function Payloads(packets: seq<seq<Word>>): seq<Word>
    requires forall i :: 0 <= i < |packets| ==> |packets[i]| >= 2
  {
    if packets == [] then [] else Payloads(packets[..|packets| - 1]) + packets[|packets| - 1][2..]
  }

  /** The first n packets carry the command's first words, in order and once each. */
  lemma {:induction false} CommandCarried(cmd: seq<Word>, n: nat)
    requires |cmd| <= CMD_LEN_MAX && n <= CmdPackets(|cmd|)
    ensures Payloads(seq(n, i requires 0 <= i < n => CmdPacket(cmd, i))) == cmd[..Min(n * CMD_PER_PACKET, |cmd|)]
  {
    var ps := seq(n, i requires 0 <= i < n => CmdPacket(cmd, i));
    if n > 0 {
      CommandCarried(cmd, n - 1);
      assert ps[..n - 1] == seq(n - 1, i requires 0 <= i < n - 1 => CmdPacket(cmd, i));
      assert ps[n - 1][2..] == cmd[(n - 1) * CMD_PER_PACKET..Min(n * CMD_PER_PACKET, |cmd|)];
    }
  }

  lemma PacketBuilt(buf: seq<Word>, len: nat, i: nat, size: nat)
    requires len <= |buf| && len <= CMD_LEN_MAX && i < CmdPackets(len)
    requires size == if i == CmdPackets(len) - 1 then len - i * CMD_PER_PACKET else CMD_PER_PACKET
    ensures 0 < size <= CMD_PER_PACKET && i * CMD_PER_PACKET + size <= len
    ensures 0 <= CmdPackets(len) * 4096 + (i + 1) * 256 + size <= 0xFFFF
    ensures [CMD_START_ADDR, CmdPackets(len) * 4096 + (i + 1) * 256 + size] + buf[i * CMD_PER_PACKET..i * CMD_PER_PACKET + size]
         == CmdPacket(buf[..len], i)
  {
    assert buf[..len][i * CMD_PER_PACKET..i * CMD_PER_PACKET + size] == buf[i * CMD_PER_PACKET..i * CMD_PER_PACKET + size];
  }

  /** Cut the command at the start of buf into packets and transmit them, up to the first one the bus refuses. */
  method SendMtpCommand(buf: seq<Word>, len: nat, accepts: nat -> bool) returns (ret: SendCode, sent: seq<seq<Word>>)
    requires |buf| >= 2 && len <= |buf|
    ensures ret == Invalid <==> len < CMD_LEN_MIN || len > CMD_LEN_MAX || buf[1] as int + CMD_ID_AND_SIZE != len
    ensures ret == Invalid ==> sent == []
    ensures ret != Invalid ==> Begins(buf[..len], sent)
    ensures ret == Sent ==> |sent| == CmdPackets(len) && Payloads(sent) == buf[..len] && forall i :: 0 <= i < |sent| ==> accepts(i)
    ensures ret == TransferFailed ==> |sent| > 0 && !accepts(|sent| - 1) && forall i :: 0 <= i < |sent| - 1 ==> accepts(i)
  {
    hide CmdPacket, Payloads, Header;
    sent := [];
    if len < CMD_LEN_MIN || len > CMD_LEN_MAX || buf[1] as int + CMD_ID_AND_SIZE != len {
      return Invalid, [];
    }
    var packets := len / CMD_PER_PACKET;
    if len % CMD_PER_PACKET != 0 {
      packets := packets + 1;
    }
    var left := len;
    var i := 0;
    while i < packets
      invariant 0 <= i <= packets == CmdPackets(len)
      invariant i < packets ==> left == len - i * CMD_PER_PACKET
      invariant |sent| == i && Begins(buf[..len], sent)
      invariant forall k :: 0 <= k < i ==> accepts(k)
    {
      var size := if i == packets - 1 then left else CMD_PER_PACKET;
      PacketBuilt(buf, len, i, size);
      var tx := [CMD_START_ADDR, packets * 4096 + (i + 1) * 256 + size] + buf[i * CMD_PER_PACKET..i * CMD_PER_PACKET + size];
      sent := sent + [tx];
      if !accepts(i) {
        return TransferFailed, sent;
      }
      left := (left - CMD_PER_PACKET) % 0x10000;
      i := i + 1;
    }
    CommandCarried(buf[..len], packets);
    assert sent == seq(packets, i requires 0 <= i < packets => CmdPacket(buf[..len], i));
    ret := Sent;
  }
}
