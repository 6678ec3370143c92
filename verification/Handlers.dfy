// Submission, packet handlers and timeouts of the reliable protocol
// (keemash_mesh_core.c:472-565, 805-891, 989-1093, 1185-1333, 1403-1450).
module Handlers {
  import opened Base
  import opened Serial
  import opened Slots
  import opened MeshTypes
  import opened Reliable
  import PL = PendingLost

  // ---- Admission of outgoing fragments

  function PeerLimit(cfg: Config, priority: nat): nat {
    if priority < PRIORITY_CONTROL then
      if cfg.perPeerTx > cfg.perPeerControlReserve then cfg.perPeerTx - cfg.perPeerControlReserve else 0
    else cfg.perPeerTx
  }

  // tx_available
  function TxAvailable(e: Endpoint, priority: nat): nat {
    var free := Count(e.tx, TxVacant());
    if priority < PRIORITY_CONTROL && free <= e.cfg.reservedControl then 0
    else
      var usable := if priority < PRIORITY_CONTROL then free - e.cfg.reservedControl else free;
      var used := Count(e.tx, TxMine(e.peer));
      var limit := PeerLimit(e.cfg, priority);
      var peerFree := if used < limit then limit - used else 0;
      if usable > peerFree then peerFree else usable
  }

  // tx_alloc: the slot to use, or |tx| when there is none.
  function TxAlloc(e: Endpoint, priority: nat): (k: nat)
    ensures k <= |e.tx|
    ensures k < |e.tx| ==> e.tx[k].TxFree?
  {
    var used := Count(e.tx, TxMine(e.peer));
    if priority <= PRIORITY_CONTROL && used >= PeerLimit(e.cfg, priority) then |e.tx|
    else if priority < PRIORITY_CONTROL && Count(e.tx, TxVacant()) <= e.cfg.reservedControl then |e.tx|
    else First(e.tx, TxVacant())
  }

  // One use of a slot that tx_alloc handed out.
  function Occupy(e: Endpoint, k: nat, priority: nat, f: Frag): (r: Endpoint)
    requires WF(e) && k < |e.tx| && FragOk(f)
    ensures WF(r)
  {
    e.(tx := e.tx[k := TxUsed(e.peer, priority, 0, f)],
       next := e.next[f.channel := Plus(e.next[f.channel], 1)])
  }

  // When tx_available reports room, tx_alloc succeeds, and one slot less is available afterwards.
  lemma {:induction false} AvailableForetellsAlloc(e: Endpoint, priority: nat, f: Frag)
    requires WF(e) && FragOk(f) && TxAvailable(e, priority) > 0
    ensures TxAlloc(e, priority) < |e.tx|
    ensures TxAvailable(Occupy(e, TxAlloc(e, priority), priority, f), priority) ==
            TxAvailable(e, priority) - 1
  {
    var k := First(e.tx, TxVacant());
    if k == |e.tx| {
      CountZero(e.tx, TxVacant());
    }
    CountUpdate(e.tx, TxVacant(), k, TxUsed(e.peer, priority, 0, f));
    CountUpdate(e.tx, TxMine(e.peer), k, TxUsed(e.peer, priority, 0, f));
  }

  // ---- keemash_rel_submit

  function FragOf(ch: nat, sn: SeqNum, stream: u32, bytes: Bytes, i: nat): (f: Frag)
    requires ValidChannel(ch) && 0 < |bytes| <= MESSAGE_MAX && i < Fragments(|bytes|)
    ensures FragOk(f)
  {
    Frag(ch, sn, i, Fragments(|bytes|), stream, Chunk(bytes, i), bytes)
  }

  // The slots of fragments i.. of a message, filled in order.
  function Fill(e: Endpoint, ch: nat, stream: u32, bytes: Bytes, priority: nat, i: nat): (r: Endpoint)
    requires WF(e) && ValidChannel(ch) && 0 < |bytes| <= MESSAGE_MAX && i <= Fragments(|bytes|)
    requires TxAvailable(e, priority) >= Fragments(|bytes|) - i
    ensures WF(r)
    decreases Fragments(|bytes|) - i
  {
    if i == Fragments(|bytes|) then e
    else
      var f := FragOf(ch, e.next[ch], stream, bytes, i);
      AvailableForetellsAlloc(e, priority, f);
      Fill(Occupy(e, TxAlloc(e, priority), priority, f), ch, stream, bytes, priority, i + 1)
  }

  // raw_send of fragments i.. in order
  function SendFrags(e: Endpoint, ch: nat, first: SeqNum, stream: u32, bytes: Bytes, i: nat): (r: Endpoint)
    requires ValidChannel(ch) && 0 < |bytes| <= MESSAGE_MAX && i <= Fragments(|bytes|)
    ensures r == e.(log := e.log.(sent := r.log.sent))
    decreases Fragments(|bytes|) - i
  {
    if i == Fragments(|bytes|) then e
    else
      SendFrags(Send(e, DataOf(e, FragOf(ch, Plus(first, i), stream, bytes, i))),
                ch, first, stream, bytes, i + 1)
  }

  // send_lost: report a loss of one's own numbers and tell the other end
  function SendLost(e: Endpoint, ch: nat, reason: Reason, first: SeqNum, last: SeqNum): Endpoint {
    Send(Record(e, true, ch, reason, first, last), Lost(e.binding, ch, reason, false, first, last))
  }

  function NextStream(s: u32): u32 {
    (s + 1) % MOD
  }

  function Submit(e: Endpoint, ch: nat, bytes: Bytes, priority: nat): (r: (Endpoint, Err))
    requires WF(e)
    ensures WF(r.0)
  {
    if |bytes| == 0 || ch == 0 || ch >= CHANNELS || |bytes| > MESSAGE_MAX then (e, InvalidArg)
    else if !e.ready then (e, InvalidState)
    else
      var n := Fragments(|bytes|);
      var first := e.next[ch];
      var stream := if e.nextStream == 0 then NextStream(0) else e.nextStream;
      var e := e.(nextStream := NextStream(stream));
      if TxAvailable(e, priority) < n then
        (SendLost(e.(next := e.next[ch := Plus(first, n)]), ch, Overflow, first, Plus(first, n - 1)),
         NoMem)
      else
        var filled := Fill(e, ch, stream, bytes, priority, 0);
        var noted := filled.(log := filled.log.(submitted := filled.log.submitted +
                                                [Msg(ch, first.n, stream, bytes)]));
        (if e.routeUp then SendFrags(noted, ch, first, stream, bytes, 0) else noted, Ok)
  }

  // ---- Retransmission

  // retransmit_slot; the retry counter is a uint8_t
  function Retransmit(e: Endpoint, k: nat): (r: Endpoint)
    requires WF(e) && k < |e.tx| && e.tx[k].TxUsed?
    ensures WF(r)
  {
    Send(e.(tx := e.tx[k := e.tx[k].(retries := (e.tx[k].retries + 1) % 256)]),
         DataOf(e, e.tx[k].frag))
  }

  // ---- Acknowledgements

  function SackBits(e: Endpoint, ch: nat, bits: nat): (r: set<nat>)
    requires WF(e) && ValidChannel(ch)
    ensures forall b :: b in r ==> b < bits
  {
    if bits == 0 then {}
    else if First(e.rx, RxAt(e.peer, ch, Plus(e.expected[ch], bits - 1))) < |e.rx| then
      SackBits(e, ch, bits - 1) + {bits - 1}
    else SackBits(e, ch, bits - 1)
  }

  lemma {:induction false} SackBitsUnfolds(e: Endpoint, ch: nat, bits: nat)
    requires WF(e) && ValidChannel(ch)
    ensures SackBits(e, ch, 0) == {}
    ensures SackBits(e, ch, bits + 1) ==
            if First(e.rx, RxAt(e.peer, ch, Plus(e.expected[ch], bits))) < |e.rx| then SackBits(e, ch, bits) + {bits}
            else SackBits(e, ch, bits)
  {
  }

  // send_ack
  function SendAck(e: Endpoint, ch: nat, nack: bool): (r: Endpoint)
    requires WF(e) && ValidChannel(ch)
    ensures WF(r)
  {
    Send(e, Ack(e.binding, ch, Minus(e.expected[ch], 1), SackBits(e, ch, WINDOW), nack,
                if nack then e.expected[ch] else Seq(0, 0)))
  }

  predicate Accepts(ack: SeqNum, sack: set<nat>, sn: SeqNum) {
    !Before(ack, sn) ||
    var delta := (sn.w - ack.w - 1) % MOD;
    delta < 32 && delta in sack
  }

  function TxKeptByAck(e: Endpoint, ch: nat, ack: SeqNum, sack: set<nat>, s: TxSlot): TxSlot {
    if s.TxUsed? && s.frag.channel == ch && s.peer == e.peer && Accepts(ack, sack, s.frag.sn)
    then TxFree else s
  }

  // ack_slots
  function AckSlots(e: Endpoint, ch: nat, ack: SeqNum, sack: set<nat>): (r: Endpoint)
    requires WF(e)
    ensures WF(r)
  {
    e.(tx := seq(|e.tx|, i requires 0 <= i < |e.tx| => TxKeptByAck(e, ch, ack, sack, e.tx[i])))
  }

  // handle_ack_packet
  function HandleAck(e: Endpoint, p: Packet): (r: (Endpoint, Err))
    requires WF(e) && p.Ack?
    ensures WF(r.0)
  {
    if !e.ready || p.binding != e.binding || !ValidChannel(p.channel) then (e, InvalidState)
    else
      var e := AckSlots(e.(routeUp := true), p.channel, p.ack, p.sack);
      if p.isNack && p.nack.w != 0 then
        var k := First(e.tx, TxAt(e.peer, p.channel, p.nack));
        (if k < |e.tx| then Retransmit(e, k) else SendLost(e, p.channel, Overflow, p.nack, p.nack), Ok)
      else (e, Ok)
  }

  // ---- LOST packets

  function TxKeptByLoss(e: Endpoint, ch: nat, first: SeqNum, last: SeqNum, s: TxSlot): TxSlot {
    if s.TxUsed? && s.frag.channel == ch && s.peer == e.peer && InRange(s.frag.sn, first, last)
    then TxFree else s
  }

  // handle_lost_packet
  function HandleLost(e: Endpoint, p: Packet): (r: (Endpoint, Err))
    requires WF(e) && p.Lost?
    ensures WF(r.0)
  {
    var ch := p.channel;
    if !e.ready || p.binding != e.binding || !ValidChannel(ch) then (e, InvalidState)
    else if p.receiverDrop then
      var tx := seq(|e.tx|, i requires 0 <= i < |e.tx| => TxKeptByLoss(e, ch, p.first, p.last, e.tx[i]));
      (Record(e.(tx := tx), true, ch, p.reason, p.first, p.last), Ok)
    else if InRange(e.expected[ch], p.first, p.last) then
      (Record(Consume(SetExpected(e, ch, Plus(p.last, 1)), ch), false, ch, p.reason, p.first, p.last), Ok)
    else if Before(e.expected[ch], p.first) then
      var (pend, ok) := PL.Add(e.pend, ch, p.first, p.last);
      AddKeepsOk(e.pend, ch, p.first, p.last);
      if ok then (Record(e.(pend := pend), false, ch, p.reason, p.first, p.last), Ok)
      else (ClearPeer(e.(pend := pend), Overflow), NoMem)
    else (Record(e, false, ch, p.reason, p.first, p.last), Ok)
  }

  // ---- DATA packets

  // A LATEST packet ahead of the expected number discards what it overtakes.
  function JumpToLatest(e: Endpoint, ch: nat, sn: SeqNum): (r: Endpoint)
    requires WF(e) && ValidChannel(ch)
    ensures WF(r)
  {
    var rx := seq(|e.rx|, i requires 0 <= i < |e.rx| =>
                    if RxMine(e.peer)(e.rx[i]) && e.rx[i].frag.channel == ch then RxFree else e.rx[i]);
    var pend := seq(|e.pend|, i requires 0 <= i < |e.pend| =>
                      if e.pend[i].PendUsed? && e.pend[i].channel == ch then PendFree else e.pend[i]);
    e.(rx := rx, pend := pend, expected := e.expected[ch := sn])
  }

  // rx_alloc
  function RxAlloc(e: Endpoint): (k: nat)
    ensures k <= |e.rx|
    ensures k < |e.rx| ==> e.rx[k].RxFree?
  {
    if Count(e.rx, RxMine(e.peer)) >= e.cfg.perPeerRx then |e.rx| else First(e.rx, RxVacant())
  }

  // handle_data, after its checks
  function AcceptData(e: Endpoint, f: Frag): (r: (Endpoint, Err))
    requires WF(e) && FragOk(f)
    ensures WF(r.0)
  {
    var ch := f.channel;
    var expected := e.expected[ch];
    if Before(f.sn, expected) then (SendAck(e, ch, false), Ok)
    else if Same(f.sn, expected) then
      (SendAck(Consume(Deliver(SetExpected(e, ch, Plus(expected, 1)), f), ch), ch, false), Ok)
    else if (f.sn.w - expected.w) % MOD >= WINDOW then (SendAck(e, ch, true), Ok)
    else if First(e.rx, RxAt(e.peer, ch, f.sn)) < |e.rx| then (SendAck(e, ch, true), Ok)
    else
      var k := RxAlloc(e);
      if k == |e.rx| then (Drop(e, ch, Overflow, f.sn, f.sn), NoMem)
      else (SendAck(e.(rx := e.rx[k := RxUsed(e.peer, f)]), ch, true), Ok)
  }

  predicate DataFormed(p: Packet)
    requires p.Data?
  {
    FragOk(p.frag) && (p.frag.count > 1 ==> p.fragmented)
  }

  // handle_data
  function HandleData(e: Endpoint, p: Packet): (r: (Endpoint, Err))
    requires WF(e) && p.Data?
    ensures WF(r.0)
  {
    if !DataFormed(p) then (e, InvalidArg)
    else if !e.ready || p.binding != e.binding then (e, InvalidState)
    else
      var e := e.(routeUp := true);
      var f := p.frag;
      if p.latest && (f.channel != TIME_CHANNEL || f.count != 1) then (e, InvalidArg)
      else if p.latest && Before(e.expected[f.channel], f.sn) then
        AcceptData(JumpToLatest(e, f.channel, f.sn), f)
      else AcceptData(e, f)
  }

  // keemash_rel_handle_rx, for the packets an epoch exchanges
  function Receive(e: Endpoint, p: Packet): (r: (Endpoint, Err))
    requires WF(e)
    ensures WF(r.0)
  {
    match p
    case Data(_, _, _, _) => HandleData(e, p)
    case Ack(_, _, _, _, _, _) => HandleAck(e, p)
    case Lost(_, _, _, _, _, _) => HandleLost(e, p)
  }

  // ---- keemash_rel_poll

  // A reassembly slot of the peer has waited too long.
  function Expire(e: Endpoint, k: nat): (r: Endpoint)
    requires WF(e) && k < |e.re| && ReMine(e.peer)(e.re[k])
    ensures WF(r)
  {
    var s := e.re[k];
    var last := Minus(Plus(s.first, s.count), 1);
    Send(Record(e, false, s.channel, FragmentTimeout, s.first, last),
         Lost(e.binding, s.channel, FragmentTimeout, true, s.first, last))
    .(re := e.re[k := ReFree])
  }

  // A slot has used up its retries: the last LOST packet, then the end of the epoch.
  function Exhaust(e: Endpoint, k: nat): (r: Endpoint)
    requires WF(e) && k < |e.tx| && e.tx[k].TxUsed?
    ensures WF(r) && !r.ready
  {
    var f := e.tx[k].frag;
    ClearPeer(Send(e, Lost(e.binding, f.channel, RetryExhausted, false, f.sn, f.sn)), RetryExhausted)
  }

  // keemash_rel_supersede_channel
  function Supersede(e: Endpoint, ch: nat): (r: Endpoint)
    requires WF(e)
    ensures WF(r)
  {
    e.(tx := seq(|e.tx|, i requires 0 <= i < |e.tx| =>
                   if TxMine(e.peer)(e.tx[i]) && e.tx[i].frag.channel == ch then TxFree else e.tx[i]))
  }
}
