// In every state of an epoch the receiver has passed on all it can: the number it waits for is neither buffered
// nor among the lost ranges, and no number is buffered twice.
module MeshTight {
  import opened Base
  import opened Serial
  import opened Slots
  import opened MeshTypes
  import opened Reliable
  import opened Handlers
  import opened MeshInvariant
  import opened MeshReceive
  import opened MeshConsume
  import opened MeshHandlers
  import opened MeshSend
  import opened MeshViews
  import opened MeshHandlerFrame
  import opened MeshSystem
  import opened MeshAccount
  import opened MeshOutcome
  import opened MeshReorder
  import opened MeshPacket
  import opened MeshGap
  import G = MeshGuarantees
  import PL = PendingLost

  lemma {:induction false} TightSame(e: Endpoint, e': Endpoint, c: nat)
    requires WF(e) && WF(e') && ValidChannel(c) && ReceiverViewSame(e, e', c) && Tight(e, c)
    ensures Tight(e', c)
  {
    assert forall i :: 0 <= i < |e.rx| && RxOn(e', e'.rx[i], c) ==> RxOn(e, e.rx[i], c) && e'.rx[i] == e.rx[i];
  }

  lemma {:induction false} TightSlots(e: Endpoint, e': Endpoint, c: nat)
    requires WF(e) && WF(e') && ValidChannel(c) && Tight(e, c)
    requires e'.rx == e.rx && e'.peer == e.peer && e'.expected[c] == e.expected[c]
    ensures Tight(e', c)
  {
    assert forall i :: 0 <= i < |e.rx| && RxOn(e', e'.rx[i], c) ==> RxOn(e, e.rx[i], c) && e'.rx[i] == e.rx[i];
  }

  // One more number buffered, ahead of the expected one and not yet held.
  lemma {:induction false} TightBuffers(e: Endpoint, e': Endpoint, f: Frag, c: nat, k: nat)
    requires WF(e) && WF(e') && ValidChannel(c) && Tight(e, c) && k < |e.rx| && f.channel == c
    requires e'.rx == e.rx[k := RxUsed(e.peer, f)] && e'.peer == e.peer && e'.expected == e.expected
    requires f.sn.n > e.expected[c].n && !Buffered(e, c, f.sn.n)
    ensures Tight(e', c)
  {
    assert forall i :: 0 <= i < |e.rx| && i != k && RxOn(e', e'.rx[i], c) ==>
             RxOn(e, e.rx[i], c) && e'.rx[i] == e.rx[i];
    forall i, j | 0 <= i < j < |e'.rx| && RxOn(e', e'.rx[i], c) && RxOn(e', e'.rx[j], c)
      ensures e'.rx[i].frag.sn.n != e'.rx[j].frag.sn.n
    {
      assert i != k ==> RxOn(e, e.rx[i], c);
      assert j != k ==> RxOn(e, e.rx[j], c);
    }
  }

  // The expected number: what was buffered behind it is consumed.
  lemma {:induction false} ExpectedTight(s: Endpoint, e: Endpoint, p: Packet, c: nat)
    requires WF(s) && WF(e) && ValidChannel(c) && SenderInv(s, c) && Arriving(s, e, p, c)
    requires ReceiverInv(s, e, c, e.expected[c].n) && Tight(e, c) && p.frag.sn.n == e.expected[c].n
    ensures Tight(HandleData(e, p).0, c) && HandleData(e, p).0.expected[c].n > e.expected[c].n
  {
    hide RxGood, PendGood, PassedGood, Accounted, ReGood, DeliveredGood, ReceiverPacketsOk, Genuine, HandleData,
         AcceptData, Keeps, Tight, SendAck, Deliver, Consume, Shrinks, SenderInv;
    Parts(s, e, c);
    ArrivingAccepted(s, e, p, c);
    FreshLive(s, p, c);
    SameExact(p.frag.sn, e.expected[c]);
    var e1 := e.(routeUp := true);
    SameView(s, e, e1, c);
    TightSlots(e, e1, c);
    AcceptExpected(e1, p.frag);
    AdvanceKeeps(s, e1, c);
    var m := SetExpected(e1, c, Plus(e.expected[c], 1));
    OneEachSame(e1, m, c);
    hide ReceiverInv, Live;
    DeliverKeeps(s, m, p.frag);
    DeliverShrinks(s, m, p.frag);
    var d := Deliver(m, p.frag);
    ShrinksHas(m, d, c);
    ConsumeTight(s, d, c);
    Further(m, d, Consume(d, c), c);
    SendAckSame(Consume(d, c), c, false);
    TightSlots(Consume(d, c), SendAck(Consume(d, c), c, false), c);
  }

  lemma {:induction false} Further(m: Endpoint, d: Endpoint, x: Endpoint, c: nat)
    requires WF(m) && WF(d) && WF(x) && ValidChannel(c) && Shrinks(m, d, c) && Shrinks(d, x, c)
    ensures x.expected[c].n >= m.expected[c].n
  {
  }

  lemma {:induction false} OneEachSame(e: Endpoint, m: Endpoint, c: nat)
    requires WF(e) && ValidChannel(c) && Tight(e, c) && m.rx == e.rx && m.peer == e.peer
    ensures OneEach(m, c)
  {
    assert forall i :: 0 <= i < |e.rx| ==> RxOn(m, e.rx[i], c) == RxOn(e, e.rx[i], c);
  }

  lemma {:induction false} SendAckSame(e: Endpoint, c: nat, nack: bool)
    requires WF(e) && ValidChannel(c)
    ensures var e' := SendAck(e, c, nack);
            e'.rx == e.rx && e'.peer == e.peer && e'.expected == e.expected && e'.ready == e.ready
  {
    hide SackBits;
  }

  lemma {:induction false} ConsumeTight(s: Endpoint, d: Endpoint, c: nat)
    requires WF(s) && WF(d) && ValidChannel(c) && SenderInv(s, c)
    requires ReceiverInv(s, d, c, d.expected[c].n) && OneEach(d, c)
    ensures Tight(Consume(d, c), c) && Shrinks(d, Consume(d, c), c)
  {
    hide ReceiverInv, SenderInv, OneEach, Consume, Shrinks, Has, Buffered;
    ConsumeShrinks(s, d, c);
    ShrinksHas(d, Consume(d, c), c);
  }

  lemma {:induction false} HandleDataTight(s: Endpoint, e: Endpoint, p: Packet, c: nat)
    requires WF(s) && WF(e) && ValidChannel(c) && c != TIME_CHANNEL && DirInv(s, e, c) && Tight(e, c)
    requires p.Data? && p.frag.channel == c && SenderPacketOk(s, p, c) && Fresh(s, p, c)
    ensures HandleData(e, p).0.ready ==> Tight(HandleData(e, p).0, c)
  {
    hide ReceiverInv, Tight, Buffered, NothingVanished, Has, Answered, RxRoom, PendRoom, Told, Drained,
         SenderPacketOk, AcceptData, Fresh;
    if e.ready && p.binding == e.binding {
      assert MsgsOk(s, c);
      hide SenderInv;
      var n := p.frag.sn.n;
      if n == e.expected[c].n {
        ExpectedTight(s, e, p, c);
      } else if n < e.expected[c].n || n >= e.expected[c].n + 32 || Buffered(e, c, n) {
        NothingNew(s, e, p, c);
        TightSlots(e, HandleData(e, p).0, c);
      } else {
        AheadIsBuffered(s, e, p, c);
        if RxRoom(e) {
          var e' := HandleData(e, p).0;
          var k :| 0 <= k < |e.rx| && e.rx[k].RxFree? && e'.rx == e.rx[k := RxUsed(e.peer, p.frag)];
          TightBuffers(e, e', p.frag, c, k);
        } else {
          AheadIsDropped(s, e, p, c);
          if HandleData(e, p).0.ready {
            DroppedPeer(e, p);
            TightSlots(e, HandleData(e, p).0, c);
          }
        }
      }
    } else {
      assert HandleData(e, p).0 == e;
    }
  }

  lemma {:induction false} DroppedPeer(e: Endpoint, p: Packet)
    requires WF(e) && p.Data? && HandleData(e, p).0.ready
    ensures HandleData(e, p).0.peer == e.peer
  {
    HandleDataFrame(e, p);
  }

  lemma {:induction false} HandleSenderLossTight(s: Endpoint, e: Endpoint, p: Packet, c: nat)
    requires WF(s) && WF(e) && ValidChannel(c) && DirInv(s, e, c) && Tight(e, c)
    requires p.Lost? && p.channel == c && !p.receiverDrop && SenderPacketOk(s, p, c) && Fresh(s, p, c)
    ensures HandleLost(e, p).0.ready ==> Tight(HandleLost(e, p).0, c)
  {
    hide Tight, RxGood, PendGood, PassedGood, Accounted, ReGood, DeliveredGood, ReceiverPacketsOk, Keeps, Consume,
         ClearPeer, PL.Add, Shrinks, SenderInv;
    if e.ready && p.binding == e.binding {
      InRangeExact(e.expected[c], p.first, p.last);
      BeforeExact(e.expected[c], p.first);
      var e' := HandleLost(e, p).0;
      if InRange(e.expected[c], p.first, p.last) {
        JumpKeeps(s, e, c, Plus(p.last, 1));
        var m := SetExpected(e, c, Plus(p.last, 1));
        OneEachSame(e, m, c);
        ConsumeTight(s, m, c);
        TightSlots(Consume(m, c), e', c);
      } else if e'.ready {
        TightSlots(e, e', c);
      }
    }
  }

  // ---- Steps and runs

  lemma {:induction false} ReceiverStepTight(e: Endpoint, e': Endpoint, ch: nat, c: nat)
    requires WF(e) && WF(e') && ValidChannel(c) && ch != c && ReceiverStep(e, e', ch) && Tight(e, c)
    ensures Tight(e', c)
  {
    hide Tight, ReceiverStep, ReceiverViewSame;
    ReceiverStepViews(e, e', ch, c);
    TightSame(e, e', c);
  }

  lemma {:induction false} SenderStepTight(e: Endpoint, e': Endpoint, ch: nat, c: nat)
    requires WF(e) && WF(e') && ValidChannel(c) && SenderStep(e, e', ch) && Tight(e, c)
    ensures Tight(e', c)
  {
    hide Tight, SenderStep, ReceiverViewSame;
    SenderStepViews(e, e', ch, c);
    TightSame(e, e', c);
  }

  lemma {:induction false} ReceiveTight(e: Endpoint, other: Endpoint, p: Packet, c: nat)
    requires WF(e) && WF(other) && Ordered(c) && Both(e, other, c) && Tight(e, c)
    requires Arrives(e, other, p) && Receive(e, p).0.ready
    ensures Tight(Receive(e, p).0, c)
  {
    hide ReceiverStep, SenderStep, Tight, ReceiverInv, NothingVanished, Drained, SenderPacketOk, Fresh, HandleData,
         HandleLost, HandleAck;
    match p
    case Data(_, f, _, _) =>
      HandleDataFrame(e, p);
      if f.channel == c {
        ArrivedFromSender(other, p, c);
        HandleDataTight(other, e, p, c);
      } else {
        ReceiverStepTight(e, Receive(e, p).0, f.channel, c);
      }
    case Ack(_, ch, _, _, _, _) =>
      HandleAckFrame(e, p);
      SenderStepTight(e, Receive(e, p).0, ch, c);
    case Lost(_, ch, _, drop, _, _) =>
      if drop {
        HandleReceiverLossFrame(e, p);
        SenderStepTight(e, Receive(e, p).0, ch, c);
      } else {
        HandleSenderLossFrame(e, p);
        if ch == c {
          ArrivedFromSender(other, p, c);
          HandleSenderLossTight(other, e, p, c);
        } else {
          ReceiverStepTight(e, Receive(e, p).0, ch, c);
        }
      }
  }

  lemma {:induction false} ForeignTight(e: Endpoint, e': Endpoint, c: nat)
    requires WF(e) && WF(e') && ValidChannel(c) && ForeignStep(e, e') && Tight(e, c)
    ensures Tight(e', c)
  {
    forall i | 0 <= i < |e.rx| && RxOn(e', e'.rx[i], c) ensures RxOn(e, e.rx[i], c) && e'.rx[i] == e.rx[i] {
      assert RxMine(e.peer)(e'.rx[i]);
    }
  }

  lemma {:induction false} ExpireTight(e: Endpoint, k: nat, c: nat)
    requires WF(e) && ValidChannel(c) && k < |e.re| && ReMine(e.peer)(e.re[k]) && Tight(e, c)
    ensures Tight(Expire(e, k), c)
  {
    TightSlots(e, Expire(e, k), c);
  }

  lemma {:induction false} ActTight(e: Endpoint, other: Endpoint, act: Action, e': Endpoint, c: nat)
    requires WF(e) && WF(other) && WF(e') && Ordered(c) && Both(e, other, c) && Tight(e, c)
    requires Acts(e, other, act, e') && e'.ready
    ensures Tight(e', c)
  {
    hide Both, Tight, Receive, Expire, Submit, Retransmit, Supersede, ReceiverStep, SenderStep, Arrives, ForeignStep;
    match act
    case DoSubmit(ch, bytes, priority) =>
      SubmitFrame(e, ch, bytes, priority);
      SenderStepTight(e, e', ch, c);
    case DoReceive(p) => ReceiveTight(e, other, p, c);
    case DoRetransmit(k) =>
      RetransmitFrame(e, k, e.tx[k].frag.channel);
      SenderStepTight(e, e', e.tx[k].frag.channel, c);
    case DoExpire(k) => ExpireTight(e, k, c);
    case DoSupersede =>
      SupersedeFrame(e, TIME_CHANNEL);
      SenderStepTight(e, e', TIME_CHANNEL, c);
    case DoRoute(up) =>
      RouteFrame(e, up, TIME_CHANNEL);
      SenderStepTight(e, e', TIME_CHANNEL, c);
    case DoForeign(_) => ForeignTight(e, e', c);
  }

  lemma {:induction false} NextTight(sys: System, sys': System, c: nat)
    requires SystemWF(sys) && SystemWF(sys') && Next(sys, sys') && sys'.a.ready && sys'.b.ready && Ordered(c)
    requires Both(sys.a, sys.b, c) && Tight(sys.a, c) && Tight(sys.b, c)
    ensures Tight(sys'.a, c) && Tight(sys'.b, c)
  {
    hide DirInv, Acts, Tight;
    if sys'.b == sys.b && exists act :: Acts(sys.a, sys.b, act, sys'.a) {
      var act :| Acts(sys.a, sys.b, act, sys'.a);
      ActTight(sys.a, sys.b, act, sys'.a, c);
    } else {
      var act :| Acts(sys.b, sys.a, act, sys'.b);
      ActTight(sys.b, sys.a, act, sys'.b, c);
    }
  }

  lemma {:induction false} FreshTight(a: Endpoint, c: nat)
    requires FreshEndpoint(a) && ValidChannel(c)
    ensures Tight(a, c)
  {
    assert forall i :: 0 <= i < |a.rx| ==> !RxMine(a.peer)(a.rx[i]) && !RxOn(a, a.rx[i], c);
  }

  lemma {:induction false} RunTight(run: seq<System>, i: nat, c: nat)
    requires Epoch(run) && i < |run| && Ordered(c)
    ensures Tight(run[i].a, c) && Tight(run[i].b, c)
  {
    if i == 0 {
      FreshTight(run[0].a, c);
      FreshTight(run[0].b, c);
    } else {
      RunTight(run, i - 1, c);
      RunInv(run, i - 1);
      assert Both(run[i - 1].a, run[i - 1].b, c);
      assert Next(run[i - 1], run[i - 1 + 1]);
      NextTight(run[i - 1], run[i], c);
    }
  }

  // The receiver waits for the least number it does not have.
  lemma {:induction false} WaitsForLeast(run: seq<System>, i: nat, fromA: bool, c: nat)
    requires Epoch(run) && i < |run| && Ordered(c)
    ensures var r := G.Receiver(run[i], fromA);
            !Has(r, c, r.expected[c].n) && (forall n :: n < r.expected[c].n ==> Has(r, c, n)) && OneEach(r, c)
  {
    RunTight(run, i, c);
    G.Direction(run, i, fromA, c);
  }

  // What the results on single packets ask for holds in every state of an epoch.
  lemma {:induction false} EpochArriving(run: seq<System>, i: nat, fromA: bool, c: nat, p: Packet)
    requires Epoch(run) && i < |run| && Ordered(c) && p.Data? && p.frag.channel == c
    requires Arrives(G.Receiver(run[i], fromA), G.Sender(run[i], fromA), p)
    requires p.binding == G.Receiver(run[i], fromA).binding
    ensures var (s, r) := (G.Sender(run[i], fromA), G.Receiver(run[i], fromA));
            && Arriving(s, r, p, c) && DirInv(s, r, c) && Progress(s, r, c, r.expected[c].n) && Tight(r, c)
  {
    RunTight(run, i, c);
    RunAccounts(run, i, c);
    G.Direction(run, i, fromA, c);
    hide ReceiverInv, Progress, Tight, NothingVanished, Drained, SenderPacketOk;
    ArrivedFromSender(G.Sender(run[i], fromA), p, c);
  }
}
