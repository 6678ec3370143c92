// Every handler acts on one channel and one role only.
module MeshHandlerFrame {
  import opened Base
  import opened Serial
  import opened Slots
  import opened MeshTypes
  import opened Reliable
  import opened Handlers
  import opened MeshInvariant
  import opened MeshFrame
  import opened MeshReceive
  import opened MeshHandlers
  import opened MeshSend
  import PL = PendingLost

  lemma {:induction false} AckFrame(e: Endpoint, ch: nat, nack: bool)
    requires WF(e) && ValidChannel(ch)
    ensures ReceiverStep(e, SendAck(e, ch, nack), ch)
  {
    var p := Ack(e.binding, ch, Minus(e.expected[ch], 1), SackBits(e, ch, WINDOW), nack,
                 if nack then e.expected[ch] else Seq(0, 0));
    SendFrame(e, p, ch);
  }

  lemma {:induction false} ExpectedFrame(e: Endpoint, f: Frag)
    requires WF(e) && FragOk(f) && Same(f.sn, e.expected[f.channel])
    ensures var m := SetExpected(e, f.channel, Plus(e.expected[f.channel], 1));
            JustPassed(m, f) &&
            ReceiverStep(e, SendAck(Consume(Deliver(m, f), f.channel), f.channel, false), f.channel)
  {
    hide ReceiverStep;
    var ch := f.channel;
    var m := SetExpected(e, ch, Plus(e.expected[ch], 1));
    SetExpectedFrame(e, ch, Plus(e.expected[ch], 1));
    DeliverFrame(m, f);
    var d := Deliver(m, f);
    ReceiverStepTrans(e, m, d, ch);
    ConsumeFrame(d, ch);
    var c := Consume(d, ch);
    ReceiverStepTrans(e, d, c, ch);
    AckFrame(c, ch, false);
    ReceiverStepTrans(e, c, SendAck(c, ch, false), ch);
  }

  lemma {:induction false} BufferAndNackFrame(e: Endpoint, k: nat, f: Frag)
    requires WF(e) && FragOk(f) && k < |e.rx| && e.rx[k].RxFree?
    ensures ReceiverStep(e, SendAck(e.(rx := e.rx[k := RxUsed(e.peer, f)]), f.channel, true), f.channel)
  {
    var m := e.(rx := e.rx[k := RxUsed(e.peer, f)]);
    BufferFrame(e, k, f);
    AckFrame(m, f.channel, true);
    hide ReceiverStep;
    ReceiverStepTrans(e, m, SendAck(m, f.channel, true), f.channel);
  }

  lemma {:induction false} AcceptDataFrame(e: Endpoint, f: Frag)
    requires WF(e) && FragOk(f)
    ensures AcceptData(e, f).0.ready ==> ReceiverStep(e, AcceptData(e, f).0, f.channel)
  {
    hide ReceiverStep, SendAck, Deliver, Consume, Drop, Before, RxAlloc, RxAt, First, SetExpected;
    var ch := f.channel;
    if Before(f.sn, e.expected[ch]) {
      AckFrame(e, ch, false);
    } else if Same(f.sn, e.expected[ch]) {
      ExpectedFrame(e, f);
    } else if (f.sn.w - e.expected[ch].w) % MOD >= WINDOW || First(e.rx, RxAt(e.peer, ch, f.sn)) < |e.rx| {
      AckFrame(e, ch, true);
    } else if RxAlloc(e) == |e.rx| {
      DropFrame(e, ch, Overflow, f.sn, f.sn);
    } else {
      BufferAndNackFrame(e, RxAlloc(e), f);
    }
  }

  lemma {:induction false} BufferFrame(e: Endpoint, k: nat, f: Frag)
    requires WF(e) && FragOk(f) && k < |e.rx| && e.rx[k].RxFree?
    ensures ReceiverStep(e, e.(rx := e.rx[k := RxUsed(e.peer, f)]), f.channel)
  {
  }

  lemma {:induction false} RouteFrame(e: Endpoint, up: bool, ch: nat)
    ensures ReceiverStep(e, e.(routeUp := up), ch) && SenderStep(e, e.(routeUp := up), ch)
  {
  }

  lemma {:induction false} LatestFrame(e: Endpoint, ch: nat, sn: SeqNum)
    requires WF(e) && ValidChannel(ch)
    ensures ReceiverStep(e, JumpToLatest(e, ch, sn), ch)
  {
    var r := JumpToLatest(e, ch, sn);
    forall i | 0 <= i < |e.rx| && r.rx[i] != e.rx[i] ensures RxOn(e, e.rx[i], ch) && r.rx[i].RxFree? {
      assert RxMine(e.peer)(e.rx[i]);
    }
  }

  lemma {:induction false} StayFrame(e: Endpoint, ch: nat)
    ensures ReceiverStep(e, e, ch) && SenderStep(e, e, ch)
  {
  }

  lemma {:induction false} HandleDataFrame(e: Endpoint, p: Packet)
    requires WF(e) && p.Data?
    ensures HandleData(e, p).0.ready ==> ReceiverStep(e, HandleData(e, p).0, p.frag.channel)
  {
    hide ReceiverStep, AcceptData, JumpToLatest, Before;
    var ch := p.frag.channel;
    StayFrame(e, ch);
    if DataFormed(p) && e.ready && p.binding == e.binding {
      var e1 := e.(routeUp := true);
      RouteFrame(e, true, ch);
      AcceptDataFrame(e1, p.frag);
      var l := JumpToLatest(e1, ch, p.frag.sn);
      LatestFrame(e1, ch, p.frag.sn);
      AcceptDataFrame(l, p.frag);
      ReceiverStepTrans(e, e1, l, ch);
      var r := HandleData(e, p).0;
      if r.ready {
        if r == AcceptData(l, p.frag).0 {
          ReceiverStepTrans(e, l, r, ch);
        } else if r == AcceptData(e1, p.frag).0 {
          ReceiverStepTrans(e, e1, r, ch);
        }
      }
    }
  }

  lemma {:induction false} SenderStepTrans(a: Endpoint, b: Endpoint, c: Endpoint, ch: nat)
    requires SenderStep(a, b, ch) && SenderStep(b, c, ch)
    ensures SenderStep(a, c, ch)
  {
    assert a.log.sent == c.log.sent[..|a.log.sent|];
    assert a.log.lost == c.log.lost[..|a.log.lost|];
    assert a.log.submitted == c.log.submitted[..|a.log.submitted|];
  }

  lemma {:induction false} SendLostFrame(e: Endpoint, ch: nat, reason: Reason, first: SeqNum, last: SeqNum)
    ensures SenderStep(e, SendLost(e, ch, reason, first, last), ch)
  {
    var m := Record(e, true, ch, reason, first, last);
    RecordFrame(e, ch, reason, first, last);
    SendFrame(m, Lost(e.binding, ch, reason, false, first, last), ch);
    SenderStepTrans(e, m, SendLost(e, ch, reason, first, last), ch);
  }

  lemma {:induction false} AckSlotsFrame(e: Endpoint, ch: nat, ack: SeqNum, sack: set<nat>)
    requires WF(e)
    ensures SenderStep(e, AckSlots(e, ch, ack, sack), ch)
  {
  }

  lemma {:induction false} RetransmitFrame(e: Endpoint, k: nat, ch: nat)
    requires WF(e) && k < |e.tx| && TxOn(e, e.tx[k], ch)
    ensures SenderStep(e, Retransmit(e, k), ch)
  {
  }

  lemma {:induction false} HandleAckFrame(e: Endpoint, p: Packet)
    requires WF(e) && p.Ack?
    ensures SenderStep(e, HandleAck(e, p).0, p.channel)
  {
    hide SenderStep;
    var ch := p.channel;
    StayFrame(e, ch);
    if e.ready && p.binding == e.binding && ValidChannel(ch) {
      var a := e.(routeUp := true);
      RouteFrame(e, true, ch);
      var b := AckSlots(a, ch, p.ack, p.sack);
      AckSlotsFrame(a, ch, p.ack, p.sack);
      SenderStepTrans(e, a, b, ch);
      if p.isNack && p.nack.w != 0 {
        var k := First(b.tx, TxAt(b.peer, ch, p.nack));
        if k < |b.tx| {
          RetransmitFrame(b, k, ch);
          SenderStepTrans(e, b, Retransmit(b, k), ch);
        } else {
          SendLostFrame(b, ch, Overflow, p.nack, p.nack);
          SenderStepTrans(e, b, SendLost(b, ch, Overflow, p.nack, p.nack), ch);
        }
      }
    }
  }

  lemma {:induction false} HandleReceiverLossFrame(e: Endpoint, p: Packet)
    requires WF(e) && p.Lost? && p.receiverDrop
    ensures SenderStep(e, HandleLost(e, p).0, p.channel)
  {
  }

  lemma {:induction false} HandleSenderLossFrame(e: Endpoint, p: Packet)
    requires WF(e) && p.Lost? && !p.receiverDrop
    ensures HandleLost(e, p).0.ready ==> ReceiverStep(e, HandleLost(e, p).0, p.channel)
  {
    hide ReceiverStep, Consume, ClearPeer, PL.Add, InRange, Before, SetExpected;
    var ch := p.channel;
    StayFrame(e, ch);
    if e.ready && p.binding == e.binding && ValidChannel(ch) {
      RecordFrame(e, ch, p.reason, p.first, p.last);
      JumpFrame(e, ch, Plus(p.last, 1));
      var c := Consume(SetExpected(e, ch, Plus(p.last, 1)), ch);
      RecordFrame(c, ch, p.reason, p.first, p.last);
      ReceiverStepTrans(e, c, Record(c, false, ch, p.reason, p.first, p.last), ch);
      AddPendingFrame(e, ch, p.first, p.last);
      var m := e.(pend := PL.Add(e.pend, ch, p.first, p.last).0);
      RecordFrame(m, ch, p.reason, p.first, p.last);
      ReceiverStepTrans(e, m, Record(m, false, ch, p.reason, p.first, p.last), ch);
    }
  }

  lemma {:induction false} ExpireFrame(e: Endpoint, k: nat)
    requires WF(e) && k < |e.re| && ReMine(e.peer)(e.re[k])
    ensures ReceiverStep(e, Expire(e, k), e.re[k].channel)
  {
  }

  lemma {:induction false} SendFragsFrame(e: Endpoint, ch: nat, first: SeqNum, stream: u32, bytes: Bytes, i: nat)
    requires ValidChannel(ch) && 0 < |bytes| <= MESSAGE_MAX && i <= Fragments(|bytes|)
    ensures SenderStep(e, SendFrags(e, ch, first, stream, bytes, i), ch)
    decreases Fragments(|bytes|) - i
  {
    if i < Fragments(|bytes|) {
      var p := DataOf(e, FragOf(ch, Plus(first, i), stream, bytes, i));
      SendFrame(e, p, ch);
      SendFragsFrame(Send(e, p), ch, first, stream, bytes, i + 1);
      SenderStepTrans(e, Send(e, p), SendFrags(e, ch, first, stream, bytes, i), ch);
    }
  }

  lemma {:induction false} SkipFrame(e: Endpoint, ch: nat, n: nat)
    requires WF(e) && ValidChannel(ch) && 1 <= n
    ensures SenderStep(e, SendLost(e.(next := e.next[ch := Plus(e.next[ch], n)]), ch, Overflow, e.next[ch],
                                   Plus(e.next[ch], n - 1)), ch)
  {
    var m := e.(next := e.next[ch := Plus(e.next[ch], n)]);
    assert SenderStep(e, m, ch);
    SendLostFrame(m, ch, Overflow, e.next[ch], Plus(e.next[ch], n - 1));
    SenderStepTrans(e, m, SendLost(m, ch, Overflow, e.next[ch], Plus(e.next[ch], n - 1)), ch);
  }

  lemma {:induction false} NotedFrame(e: Endpoint, stream: u32, bytes: Bytes, priority: nat, ch: nat)
    requires WF(e) && ValidChannel(ch) && 0 < |bytes| <= MESSAGE_MAX
    requires TxAvailable(e, priority) >= Fragments(|bytes|)
    ensures SenderStep(e, Noted(e, stream, bytes, priority, ch), ch)
  {
    NotedAccepted(e, stream, bytes, priority, ch);
  }

  lemma {:induction false} StreamFrame(e: Endpoint, stream: u32, ch: nat)
    ensures SenderStep(e, e.(nextStream := stream), ch)
  {
  }

  lemma {:induction false} SubmitFrame(e: Endpoint, ch: nat, bytes: Bytes, priority: nat)
    requires WF(e)
    ensures SenderStep(e, Submit(e, ch, bytes, priority).0, ch)
  {
    hide SenderStep, Fill, SendFrags, TxAvailable, SendLost;
    StayFrame(e, ch);
    if 0 < |bytes| <= MESSAGE_MAX && ValidChannel(ch) && e.ready {
      var stream := if e.nextStream == 0 then NextStream(0) else e.nextStream;
      var m := e.(nextStream := NextStream(stream));
      StreamFrame(e, NextStream(stream), ch);
      var r := Submit(e, ch, bytes, priority).0;
      if TxAvailable(m, priority) < Fragments(|bytes|) {
        SkipFrame(m, ch, Fragments(|bytes|));
        SenderStepTrans(e, m, r, ch);
      } else {
        var noted := Noted(m, stream, bytes, priority, ch);
        NotedFrame(m, stream, bytes, priority, ch);
        SenderStepTrans(e, m, noted, ch);
        if m.routeUp {
          SendFragsFrame(noted, ch, m.next[ch], stream, bytes, 0);
          SenderStepTrans(e, noted, r, ch);
        }
      }
    }
  }

  lemma {:induction false} SupersedeFrame(e: Endpoint, ch: nat)
    requires WF(e)
    ensures SenderStep(e, Supersede(e, ch), ch)
  {
    var r := Supersede(e, ch);
    forall i | 0 <= i < |e.tx| && r.tx[i] != e.tx[i] ensures TxOn(e, e.tx[i], ch) && r.tx[i].TxFree? {
      assert TxMine(e.peer)(e.tx[i]);
    }
  }
}
