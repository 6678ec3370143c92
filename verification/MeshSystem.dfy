// Two endpoints and a network that may lose, duplicate and reorder, over one epoch.
//
// The network needs no state of its own: a packet that was ever sent may arrive at any time, any
// number of times, or never.
module MeshSystem {
  import opened Base
  import opened Serial
  import opened Slots
  import opened MeshTypes
  import opened Reliable
  import opened Handlers
  import opened MeshInvariant
  import opened MeshReceive
  import opened MeshHandlers
  import opened MeshSend
  import opened MeshViews
  import opened MeshHandlerFrame
  import PL = PendingLost

  // ---- Steps

  datatype Action =
    | DoSubmit(channel: nat, bytes: Bytes, priority: nat)
    | DoReceive(packet: Packet)
    | DoRetransmit(slot: nat)
    | DoExpire(slot: nat)
    | DoSupersede              // a fresher time message replaces the queued ones
    | DoRoute(up: bool)        // the transport reports the route
    | DoForeign(after: Endpoint) // another peer of the same context uses the shared tables

  // Slots of other peers may change in any way; the peer's own may not, nor may anything else.
  ghost predicate ForeignStep(e: Endpoint, e': Endpoint) {
    && e' == e.(tx := e'.tx, rx := e'.rx, re := e'.re, nextStream := e'.nextStream)
    && |e'.tx| == |e.tx| && |e'.rx| == |e.rx| && |e'.re| == |e.re|
    && (forall i :: 0 <= i < |e.tx| && e'.tx[i] != e.tx[i] ==>
          !TxMine(e.peer)(e.tx[i]) && !TxMine(e.peer)(e'.tx[i]))
    && (forall i :: 0 <= i < |e.rx| && e'.rx[i] != e.rx[i] ==>
          !RxMine(e.peer)(e.rx[i]) && !RxMine(e.peer)(e'.rx[i]))
    && (forall i :: 0 <= i < |e.re| && e'.re[i] != e.re[i] ==>
          !ReMine(e.peer)(e.re[i]) && !ReMine(e.peer)(e'.re[i]))
  }

  function ChannelOf(p: Packet): nat {
    match p
    case Data(_, f, _, _) => f.channel
    case Ack(_, c, _, _, _, _) => c
    case Lost(_, c, _, _, _, _) => c
  }

  // Whose numbers the packet speaks of: its sender's for DATA and plain LOST, its receiver's for
  // acknowledgements and for the LOST packets a receiver sends.
  predicate OwnNumbers(p: Packet) {
    p.Data? || (p.Lost? && !p.receiverDrop)
  }

  // A non-LATEST channel.
  predicate Ordered(c: nat) {
    ValidChannel(c) && c != TIME_CHANNEL
  }

  // A packet that `from` sent may reach `e`; on an ordered channel it is not so old that its numbers
  // left the window.
  ghost predicate Arrives(e: Endpoint, from: Endpoint, p: Packet)
    requires WF(e) && WF(from)
  {
    p in from.log.sent &&
    (Ordered(ChannelOf(p)) ==> Fresh(if OwnNumbers(p) then from else e, p, ChannelOf(p)))
  }

  // `e` acts while `other` stands still.
  ghost predicate Acts(e: Endpoint, other: Endpoint, act: Action, e': Endpoint)
    requires WF(e) && WF(other) && WF(e')
  {
    match act
    case DoSubmit(ch, bytes, priority) =>
      e' == Submit(e, ch, bytes, priority).0 && (Ordered(ch) ==> InWindow(e', other, ch))
    case DoReceive(p) => Arrives(e, other, p) && e' == Receive(e, p).0
    case DoRetransmit(k) =>
      k < |e.tx| && TxMine(e.peer)(e.tx[k]) && e.routeUp && e' == Retransmit(e, k)
    case DoExpire(k) => k < |e.re| && ReMine(e.peer)(e.re[k]) && e' == Expire(e, k)
    case DoSupersede => e' == Supersede(e, TIME_CHANNEL)
    case DoRoute(up) => e' == e.(routeUp := up)
    case DoForeign(after) => ForeignStep(e, after) && e' == after
  }

  datatype System = System(a: Endpoint, b: Endpoint)

  ghost predicate SystemWF(sys: System) {
    WF(sys.a) && WF(sys.b)
  }

  ghost predicate Next(sys: System, sys': System)
    requires SystemWF(sys) && SystemWF(sys')
  {
    || (sys'.b == sys.b && exists act :: Acts(sys.a, sys.b, act, sys'.a))
    || (sys'.a == sys.a && exists act :: Acts(sys.b, sys.a, act, sys'.b))
  }

  // Both ends have just been cleared and bound: counters at 1, nothing of this peer in any table.
  ghost predicate FreshEndpoint(e: Endpoint) {
    && WF(e)
    && (forall c: nat :: ValidChannel(c) ==> e.next[c] == Seq(1, 1) && e.expected[c] == Seq(1, 1))
    && (forall i :: 0 <= i < |e.tx| ==> !TxMine(e.peer)(e.tx[i]))
    && (forall i :: 0 <= i < |e.rx| ==> !RxMine(e.peer)(e.rx[i]))
    && (forall i :: 0 <= i < |e.re| ==> !ReMine(e.peer)(e.re[i]))
    && (forall i :: 0 <= i < |e.pend| ==> e.pend[i].PendFree?)
    && e.log == Log([], [], [], [], [])
  }

  // An epoch: it starts fresh, and lasts while both ends stay ready.
  ghost predicate Epoch(run: seq<System>) {
    && |run| > 0 && FreshEndpoint(run[0].a) && FreshEndpoint(run[0].b)
    && (forall i :: 0 <= i < |run| ==> SystemWF(run[i]) && run[i].a.ready && run[i].b.ready)
    && (forall i :: 0 <= i < |run| - 1 ==> Next(run[i], run[i + 1]))
  }

  // ---- The invariant over runs

  ghost predicate Both(a: Endpoint, b: Endpoint, c: nat)
    requires WF(a) && WF(b) && ValidChannel(c)
  {
    DirInv(a, b, c) && DirInv(b, a, c)
  }

  ghost predicate Inv(sys: System) {
    SystemWF(sys) && forall c :: Ordered(c) ==> Both(sys.a, sys.b, c)
  }

  lemma {:induction false} FreshInv(a: Endpoint, b: Endpoint, c: nat)
    requires FreshEndpoint(a) && FreshEndpoint(b) && ValidChannel(c)
    ensures DirInv(a, b, c)
  {
    assert forall i :: 0 <= i < |a.tx| ==> !TxMine(a.peer)(a.tx[i]) && !TxOn(a, a.tx[i], c);
    assert forall i :: 0 <= i < |b.rx| ==> !RxMine(b.peer)(b.rx[i]) && !RxOn(b, b.rx[i], c);
    assert forall i :: 0 <= i < |b.re| ==> !ReMine(b.peer)(b.re[i]) && !ReOn(b, b.re[i], c);
    assert a.next[c] == Seq(1, 1) && b.expected[c] == Seq(1, 1);
  }

  // A step on the receiving side of one channel: other channels and the other direction see nothing.
  lemma {:induction false} ReceiverStepInv(e: Endpoint, other: Endpoint, e': Endpoint, ch: nat, c: nat)
    requires WF(e) && WF(other) && WF(e') && ValidChannel(c) && Both(e, other, c)
    requires ReceiverStep(e, e', ch)
    requires c == ch ==> DirInv(other, e', c)
    ensures Both(e', other, c)
  {
    hide DirInv;
    ReceiverStepViews(e, e', ch, c);
    ReceiverInvOtherSender(e, e', other, c);
    if c != ch {
      DirInvOtherReceiver(other, e, e', c);
    }
  }

  lemma {:induction false} SenderStepInv(e: Endpoint, other: Endpoint, e': Endpoint, ch: nat, c: nat)
    requires WF(e) && WF(other) && WF(e') && ValidChannel(c) && Both(e, other, c)
    requires SenderStep(e, e', ch)
    requires c == ch ==> DirInv(e', other, c)
    ensures Both(e', other, c)
  {
    hide DirInv;
    SenderStepViews(e, e', ch, c);
    DirInvOtherReceiver(other, e, e', c);
    if c != ch {
      ReceiverInvOtherSender(e, e', other, c);
    }
  }

  lemma {:induction false} ForeignInv(e: Endpoint, other: Endpoint, e': Endpoint, c: nat)
    requires WF(e) && WF(other) && WF(e') && ValidChannel(c) && Both(e, other, c) && ForeignStep(e, e')
    ensures Both(e', other, c)
  {
    hide DirInv;
    assert SenderViewSame(e, e', c) by {
      assert forall i :: 0 <= i < |e.tx| && TxOn(e, e.tx[i], c) ==> TxMine(e.peer)(e.tx[i]);
      assert forall i :: 0 <= i < |e.tx| && TxOn(e', e'.tx[i], c) ==> TxMine(e.peer)(e'.tx[i]);
    }
    assert ReceiverViewSame(e, e', c) by {
      assert forall i :: 0 <= i < |e.rx| && RxOn(e, e.rx[i], c) ==> RxMine(e.peer)(e.rx[i]);
      assert forall i :: 0 <= i < |e.rx| && RxOn(e', e'.rx[i], c) ==> RxMine(e.peer)(e'.rx[i]);
      assert forall i :: 0 <= i < |e.re| && ReOn(e, e.re[i], c) ==> ReMine(e.peer)(e.re[i]);
      assert forall i :: 0 <= i < |e.re| && ReOn(e', e'.re[i], c) ==> ReMine(e.peer)(e'.re[i]);
    }
    ReceiverInvOtherSender(e, e', other, c);
    DirInvOtherReceiver(other, e, e', c);
  }

  // What the peer sent is truthful.
  lemma {:induction false} ArrivedFromSender(s: Endpoint, p: Packet, ch: nat)
    requires WF(s) && ValidChannel(ch) && SenderInv(s, ch) && p in s.log.sent && FromSender(p, ch)
    ensures SenderPacketOk(s, p, ch)
  {
    var i :| 0 <= i < |s.log.sent| && s.log.sent[i] == p;
  }

  lemma {:induction false} ArrivedFromReceiver(s: Endpoint, r: Endpoint, p: Packet, ch: nat)
    requires WF(s) && WF(r) && ValidChannel(ch) && p in r.log.sent && FromReceiver(p, ch)
    requires ReceiverPacketsOk(s, r, ch)
    ensures ReceiverPacketOk(s, r, p, ch)
  {
    var i :| 0 <= i < |r.log.sent| && r.log.sent[i] == p;
  }

  lemma {:induction false} ReceiveDataInv(e: Endpoint, other: Endpoint, p: Packet, c: nat)
    requires WF(e) && WF(other) && Ordered(c) && Both(e, other, c)
    requires p.Data? && Arrives(e, other, p) && Receive(e, p).0.ready
    ensures Both(Receive(e, p).0, other, c)
  {
    HandleDataFrame(e, p);
    if p.frag.channel == c {
      ArrivedFromSender(other, p, c);
      HandleDataKeeps(other, e, p, c);
      DirInvReceived(other, e, Receive(e, p).0, c);
    }
    hide *;
    ReceiverStepInv(e, other, Receive(e, p).0, p.frag.channel, c);
  }

  lemma {:induction false} ReceiveAckInv(e: Endpoint, other: Endpoint, p: Packet, c: nat)
    requires WF(e) && WF(other) && Ordered(c) && Both(e, other, c)
    requires p.Ack? && Arrives(e, other, p)
    ensures Both(Receive(e, p).0, other, c)
  {
    HandleAckFrame(e, p);
    if p.channel == c {
      ArrivedFromReceiver(e, other, p, c);
      HandleAckKeeps(e, p, other, c);
    }
    SenderStepInv(e, other, Receive(e, p).0, p.channel, c);
  }

  lemma {:induction false} ReceiveLostInv(e: Endpoint, other: Endpoint, p: Packet, c: nat)
    requires WF(e) && WF(other) && Ordered(c) && Both(e, other, c)
    requires p.Lost? && Arrives(e, other, p) && Receive(e, p).0.ready
    ensures Both(Receive(e, p).0, other, c)
  {
    if p.receiverDrop {
      HandleReceiverLossFrame(e, p);
      if p.channel == c {
        ArrivedFromReceiver(e, other, p, c);
        HandleReceiverLossKeeps(e, p, other, c);
      }
      SenderStepInv(e, other, Receive(e, p).0, p.channel, c);
    } else {
      HandleSenderLossFrame(e, p);
      if p.channel == c {
        ArrivedFromSender(other, p, c);
        HandleSenderLossKeeps(other, e, p, c);
        DirInvReceived(other, e, Receive(e, p).0, c);
      }
      ReceiverStepInv(e, other, Receive(e, p).0, p.channel, c);
    }
  }

  lemma {:induction false} SubmitInv(e: Endpoint, other: Endpoint, ch: nat, bytes: Bytes, priority: nat, c: nat)
    requires WF(e) && WF(other) && Ordered(c) && Both(e, other, c)
    requires Ordered(ch) ==> InWindow(Submit(e, ch, bytes, priority).0, other, ch)
    ensures Both(Submit(e, ch, bytes, priority).0, other, c)
  {
    SubmitFrame(e, ch, bytes, priority);
    if ch == c {
      SubmitKeeps(e, bytes, priority, other, c);
    }
    SenderStepInv(e, other, Submit(e, ch, bytes, priority).0, ch, c);
  }

  lemma {:induction false} RetransmitInv(e: Endpoint, other: Endpoint, k: nat, c: nat)
    requires WF(e) && WF(other) && Ordered(c) && Both(e, other, c)
    requires k < |e.tx| && TxMine(e.peer)(e.tx[k])
    ensures Both(Retransmit(e, k), other, c)
  {
    var ch := e.tx[k].frag.channel;
    RetransmitFrame(e, k, ch);
    if ch == c {
      RetransmitKeeps(e, k, other, c);
    }
    SenderStepInv(e, other, Retransmit(e, k), ch, c);
  }

  lemma {:induction false} ExpireInv(e: Endpoint, other: Endpoint, k: nat, c: nat)
    requires WF(e) && WF(other) && Ordered(c) && Both(e, other, c)
    requires k < |e.re| && ReMine(e.peer)(e.re[k])
    ensures Both(Expire(e, k), other, c)
  {
    var ch := e.re[k].channel;
    ExpireFrame(e, k);
    if ch == c {
      ExpireKeeps(other, e, k);
      DirInvReceived(other, e, Expire(e, k), c);
    }
    ReceiverStepInv(e, other, Expire(e, k), ch, c);
  }

  lemma {:induction false} ActInv(e: Endpoint, other: Endpoint, act: Action, e': Endpoint, c: nat)
    requires WF(e) && WF(other) && WF(e') && Ordered(c) && Both(e, other, c)
    requires Acts(e, other, act, e') && e'.ready
    ensures Both(e', other, c)
  {
    match act
    case DoSubmit(ch, bytes, priority) => SubmitInv(e, other, ch, bytes, priority, c);
    case DoReceive(p) =>
      match p {
        case Data(_, _, _, _) => ReceiveDataInv(e, other, p, c);
        case Ack(_, _, _, _, _, _) => ReceiveAckInv(e, other, p, c);
        case Lost(_, _, _, _, _, _) => ReceiveLostInv(e, other, p, c);
      }
    case DoRetransmit(k) => RetransmitInv(e, other, k, c);
    case DoExpire(k) => ExpireInv(e, other, k, c);
    case DoSupersede =>
      SupersedeFrame(e, TIME_CHANNEL);
      SenderStepInv(e, other, e', TIME_CHANNEL, c);
    case DoRoute(up) =>
      RouteFrame(e, up, TIME_CHANNEL);
      SenderStepInv(e, other, e', TIME_CHANNEL, c);
    case DoForeign(_) => ForeignInv(e, other, e', c);
  }

  lemma {:induction false} NextInv(sys: System, sys': System)
    requires SystemWF(sys) && SystemWF(sys') && Inv(sys) && Next(sys, sys')
    requires sys'.a.ready && sys'.b.ready
    ensures Inv(sys')
  {
    forall c | Ordered(c) ensures Both(sys'.a, sys'.b, c) {
      assert Both(sys.a, sys.b, c);
      if sys'.b == sys.b && exists act :: Acts(sys.a, sys.b, act, sys'.a) {
        var act :| Acts(sys.a, sys.b, act, sys'.a);
        ActInv(sys.a, sys.b, act, sys'.a, c);
      } else {
        var act :| Acts(sys.b, sys.a, act, sys'.b);
        ActInv(sys.b, sys.a, act, sys'.b, c);
      }
    }
  }

  lemma {:induction false} RunInv(run: seq<System>, i: nat)
    requires Epoch(run) && i < |run|
    ensures Inv(run[i])
  {
    if i == 0 {
      forall c | Ordered(c) ensures Both(run[0].a, run[0].b, c) {
        FreshInv(run[0].a, run[0].b, c);
        FreshInv(run[0].b, run[0].a, c);
      }
    } else {
      RunInv(run, i - 1);
      assert Next(run[i - 1], run[i - 1 + 1]);
      NextInv(run[i - 1], run[i]);
    }
  }
}
