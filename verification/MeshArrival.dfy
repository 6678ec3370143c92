// What the packets that arrive in an epoch do, for all that may have happened before.
module MeshArrival {
  import opened Base
  import opened Serial
  import opened Slots
  import opened MeshTypes
  import opened Reliable
  import opened Handlers
  import opened MeshInvariant
  import opened MeshReceive
  import opened MeshConsume
  import opened MeshHandlers
  import opened MeshSystem
  import opened MeshAccount
  import opened MeshReorder
  import opened MeshPacket
  import opened MeshGap
  import opened MeshTight
  import opened MeshAcks
  import opened MeshLoss
  import G = MeshGuarantees

  // Ends s and r of a state of an epoch, and a packet of this binding that reaches r from s.
  ghost predicate Reaches(run: seq<System>, i: nat, fromA: bool, s: Endpoint, r: Endpoint, p: Packet, c: nat) {
    && Epoch(run) && i < |run| && Ordered(c) && ChannelOf(p) == c
    && s == G.Sender(run[i], fromA) && r == G.Receiver(run[i], fromA)
    && Arrives(r, s, p) && p.binding == r.binding
  }

  lemma {:induction false} ReachesWF(run: seq<System>, i: nat, fromA: bool, s: Endpoint, r: Endpoint, p: Packet, c: nat)
    requires Reaches(run, i, fromA, s, r, p, c)
    ensures WF(s) && WF(r) && ValidChannel(c) && s.ready && r.ready && p.binding == r.binding && ChannelOf(p) == c
  {
  }

  lemma {:induction false} Kinds(p: Packet)
    ensures p.Ack? ==> ChannelOf(p) == p.channel && !OwnNumbers(p)
    ensures p.Lost? ==> ChannelOf(p) == p.channel && (OwnNumbers(p) <==> !p.receiverDrop)
  {
  }

  lemma {:induction false} DataReaches(run: seq<System>, i: nat, fromA: bool, s: Endpoint, r: Endpoint, p: Packet,
                                       c: nat)
    requires Reaches(run, i, fromA, s, r, p, c) && p.Data? && WF(s) && WF(r) && ValidChannel(c)
    ensures Arriving(s, r, p, c) && DirInv(s, r, c) && Progress(s, r, c, r.expected[c].n) && Tight(r, c)
    ensures Receive(r, p) == HandleData(r, p)
  {
    hide DirInv, Progress, Tight, Arriving, HandleData, Arrives;
    EpochArriving(run, i, fromA, c, p);
  }

  lemma {:induction false} DirParts(s: Endpoint, r: Endpoint, c: nat)
    requires WF(s) && WF(r) && ValidChannel(c) && DirInv(s, r, c)
    ensures MsgsOk(s, c) && SenderInv(s, c) && ReceiverInv(s, r, c, r.expected[c].n) && Drained(r, c)
  {
  }

  // A number 1..31 ahead of the one waited for: it is held, and a NACK asks for that one, exactly when there is
  // room; else it is reported lost.
  lemma {:induction false} AheadArrives(run: seq<System>, i: nat, fromA: bool, s: Endpoint, r: Endpoint, p: Packet,
                                        c: nat)
    requires Reaches(run, i, fromA, s, r, p, c) && p.Data? && WF(r) && ValidChannel(c)
    requires r.expected[c].n < p.frag.sn.n < r.expected[c].n + 32 && !Buffered(r, c, p.frag.sn.n)
    ensures var (r', err) := Receive(r, p);
            && (err == Ok <==> RxRoom(r))
            && (err == Ok ==> Buffered(r', c, p.frag.sn.n) && r'.log.lost == r.log.lost && Answered(r, r', c, true))
            && (err != Ok ==> err == NoMem && Told(r'.log, false, c, p.frag.sn.n))
  {
    hide *;
    ReachesWF(run, i, fromA, s, r, p, c);
    DataReaches(run, i, fromA, s, r, p, c);
    DirParts(s, r, c);
    AheadIsBuffered(s, r, p, c);
    if !RxRoom(r) {
      AheadIsDropped(s, r, p, c);
    }
  }

  // The number waited for arrives before a run that is held: the run is passed on in order, none of it is reported
  // lost, and the answer acknowledges it.
  lemma {:induction false} GapArrives(run: seq<System>, i: nat, fromA: bool, s: Endpoint, r: Endpoint, p: Packet,
                                      c: nat, fs: seq<Frag>)
    requires Reaches(run, i, fromA, s, r, p, c) && p.Data? && WF(s) && WF(r) && ValidChannel(c) && StreamsApart(s, c)
    requires p.frag.sn.n == r.expected[c].n && |fs| > 0 && fs[0] == p.frag
    requires forall k :: 0 <= k < |fs| ==> fs[k].sn.n == p.frag.sn.n + k
    requires Waiting(r, c, p.frag.sn.n + 1, fs[1..]) && RunPlaced(r, fs)
    ensures var (r', err) := Receive(r, p);
            && err == Ok && r'.ready && r'.expected[c].n == r.expected[c].n + |fs|
            && r'.log.passed == r.log.passed + fs && r'.log.lost == r.log.lost && Answered(r, r', c, false)
  {
    hide *;
    DataReaches(run, i, fromA, s, r, p, c);
    DirParts(s, r, c);
    TightOne(r, c);
    GapFilled(s, r, p, c, fs);
    GapReady(s, r, p, c);
  }

  lemma {:induction false} TightOne(r: Endpoint, c: nat)
    requires WF(r) && ValidChannel(c) && Tight(r, c)
    ensures OneEach(r, c)
  {
  }

  // An acknowledgement frees the slots it covers, and its NACK is answered with the fragment or given up.
  lemma {:induction false} AckArrives(run: seq<System>, i: nat, fromA: bool, s: Endpoint, r: Endpoint, p: Packet,
                                      c: nat)
    requires Reaches(run, i, fromA, r, s, p, c) && p.Ack? && WF(s)
    ensures Receive(s, p).1 == Ok && Acked(s, Receive(s, p).0, p)
  {
    hide *;
    ReachesWF(run, i, fromA, r, s, p, c);
    Kinds(p);
    BackReaches(run, i, fromA, s, r, p, c);
    AckIsNear(s, r, p, c);
    AckExactly(s, p);
    AckReceived(s, p);
  }

  lemma {:induction false} AckReceived(s: Endpoint, p: Packet)
    requires WF(s) && p.Ack?
    ensures Receive(s, p) == HandleAck(s, p)
  {
    hide HandleAck;
  }

  // What the receiver of a channel sends back is truthful.
  lemma {:induction false} BackReaches(run: seq<System>, i: nat, fromA: bool, s: Endpoint, r: Endpoint, p: Packet,
                                       c: nat)
    requires Reaches(run, i, fromA, r, s, p, c) && !OwnNumbers(p) && WF(s) && WF(r) && ValidChannel(c)
    ensures DirInv(s, r, c) && ReceiverPacketOk(s, r, p, c) && Fresh(s, p, c)
  {
    hide DirInv, ReceiverPacketOk, Fresh;
    G.Direction(run, i, !fromA, c);
    BackTruthful(s, r, p, c);
  }

  lemma {:induction false} BackTruthful(s: Endpoint, r: Endpoint, p: Packet, c: nat)
    requires WF(s) && WF(r) && ValidChannel(c) && DirInv(s, r, c) && p in r.log.sent && !OwnNumbers(p)
    requires ChannelOf(p) == c
    ensures ReceiverPacketOk(s, r, p, c)
  {
    hide SenderInv, RxGood, PendGood, ReGood, Live, ReceiverPacketOk;
    ArrivedFromReceiver(s, r, p, c);
  }

  // A receiver's loss report frees the slots of the numbers it reports, and no others.
  lemma {:induction false} ReceiverLossArrives(run: seq<System>, i: nat, fromA: bool, s: Endpoint, r: Endpoint,
                                               p: Packet, c: nat)
    requires Reaches(run, i, fromA, r, s, p, c) && p.Lost? && p.receiverDrop && WF(s)
    ensures var (s', err) := Receive(s, p);
            && err == Ok && Frees(s, s'.tx, c, n => p.first.n <= n <= p.last.n)
            && s'.log.lost == s.log.lost + [LostEvent(true, c, p.reason, p.first, p.last)]
  {
    hide *;
    ReachesWF(run, i, fromA, r, s, p, c);
    Kinds(p);
    BackReaches(run, i, fromA, s, r, p, c);
    LossNear(s, r, p, c);
    ReceiverLossExactly(s, p);
    LossReceived(s, p);
  }

  lemma {:induction false} LossNear(s: Endpoint, r: Endpoint, p: Packet, c: nat)
    requires WF(s) && WF(r) && ValidChannel(c) && DirInv(s, r, c)
    requires p.Lost? && p.channel == c && ReceiverPacketOk(s, r, p, c) && Fresh(s, p, c)
    ensures p.first.n <= p.last.n < p.first.n + HALF && Near(s, c, p.first.n) && Near(s, c, p.last.n)
  {
  }

  lemma {:induction false} LossReceived(e: Endpoint, p: Packet)
    requires WF(e) && p.Lost?
    ensures Receive(e, p) == HandleLost(e, p)
  {
    hide HandleLost;
  }

  // A sender's loss report: numbers the receiver is past change nothing, and numbers ahead count as dealt with
  // unless the table of lost ranges has no room.
  lemma {:induction false} SenderLossArrives(run: seq<System>, i: nat, fromA: bool, s: Endpoint, r: Endpoint,
                                             p: Packet, c: nat)
    requires Reaches(run, i, fromA, s, r, p, c) && p.Lost? && !p.receiverDrop && WF(r) && ValidChannel(c)
    ensures var (r', err) := Receive(r, p);
            && (p.last.n < r.expected[c].n ==> err == Ok && forall n :: Has(r', c, n) <==> Has(r, c, n))
            && (r.expected[c].n < p.first.n && PendRoom(r, c, p.first.n, p.last.n) ==>
                  err == Ok && forall n :: Has(r', c, n) <==> Has(r, c, n) || p.first.n <= n <= p.last.n)
  {
    hide *;
    ReachesWF(run, i, fromA, s, r, p, c);
    LossReaches(run, i, fromA, s, r, p, c);
    DirParts(s, r, c);
    LossReceived(r, p);
    if p.last.n < r.expected[c].n {
      LossBehind(s, r, p, c);
      SameHas(r, Receive(r, p).0, c);
    } else if r.expected[c].n < p.first.n {
      LossAhead(s, r, p, c);
    }
  }

  lemma {:induction false} LossReaches(run: seq<System>, i: nat, fromA: bool, s: Endpoint, r: Endpoint, p: Packet,
                                       c: nat)
    requires Reaches(run, i, fromA, s, r, p, c) && p.Lost? && !p.receiverDrop && WF(s) && WF(r) && ValidChannel(c)
    ensures Reporting(s, r, p, c) && DirInv(s, r, c)
  {
    hide DirInv, SenderPacketOk, Fresh;
    G.Direction(run, i, fromA, c);
    FromSenderInv(s, r, c);
    ArrivedFromSender(s, p, c);
  }

  lemma {:induction false} FromSenderInv(s: Endpoint, r: Endpoint, c: nat)
    requires WF(s) && WF(r) && ValidChannel(c) && DirInv(s, r, c)
    ensures SenderInv(s, c)
  {
  }
}
