// Over any run of an epoch, no message is lost without a report.
module MeshOutcome {
  import opened Base
  import opened Serial
  import opened Slots
  import opened MeshTypes
  import opened Reliable
  import opened Handlers
  import opened MeshInvariant
  import opened MeshReceive
  import opened MeshConsume
  import opened MeshHandlers
  import opened MeshSend
  import opened MeshViews
  import opened MeshHandlerFrame
  import opened MeshSystem
  import opened MeshAccount
  import G = MeshGuarantees
  import PL = PendingLost

  // ---- The receiver's handlers

  lemma {:induction false} ExpectedProgress(s: Endpoint, e: Endpoint, f: Frag)
    requires WF(s) && WF(e) && FragOk(f) && SenderInv(s, f.channel)
    requires ReceiverInv(s, e, f.channel, e.expected[f.channel].n)
    requires Genuine(s.log, f) && f.sn.n < s.next[f.channel].n && Live(s, f.channel, f.sn.n - f.index)
    requires e.expected[f.channel].n == f.sn.n && Progress(s, e, f.channel, f.sn.n)
    ensures var m := SetExpected(e, f.channel, Plus(e.expected[f.channel], 1));
            && JustPassed(m, f)
            && var e' := Consume(Deliver(m, f), f.channel);
               Progress(s, e', f.channel, e'.expected[f.channel].n)
  {
    hide Keeps, Progress, RxGood, PendGood, PassedGood, Accounted, ReGood, DeliveredGood, ReceiverPacketsOk;
    var ch := f.channel;
    AdvanceKeeps(s, e, ch);
    var m := SetExpected(e, ch, Plus(e.expected[ch], 1));
    PlaceProgress(s, e, m, ch, f.sn.n);
    DeliverKeeps(s, m, f);
    DeliverProgress(s, m, f);
    ConsumeProgress(s, Deliver(m, f), ch);
  }

  lemma {:induction false} DropAheadProgress(s: Endpoint, e: Endpoint, ch: nat, reason: Reason, sn: SeqNum)
    requires WF(s) && WF(e) && ValidChannel(ch) && SenderInv(s, ch)
    requires ReceiverInv(s, e, ch, e.expected[ch].n) && Progress(s, e, ch, e.expected[ch].n)
    requires e.expected[ch].n < sn.n < s.next[ch].n
    ensures var e' := Drop(e, ch, reason, sn, sn);
            e'.ready ==> Progress(s, e', ch, e'.expected[ch].n)
  {
    hide Progress, Reported, Keeps, ClearPeer;
    var d := Record(Purge(e, ch, sn, sn), false, ch, reason, sn, sn);
    DropStarts(s, e, ch, reason, sn, sn, e.expected[ch].n);
    InRangeExact(e.expected[ch], sn, sn);
    BeforeExact(e.expected[ch], sn);
    var m := d.(pend := PL.Add(d.pend, ch, sn, sn).0);
    PlaceProgress(s, d, m, ch, e.expected[ch].n);
    SendProgress(s, m, Lost(e.binding, ch, reason, true, sn, sn), ch, e.expected[ch].n);
  }

  lemma {:induction false} AckProgress(s: Endpoint, e: Endpoint, ch: nat, nack: bool, done: int)
    requires WF(e) && ValidChannel(ch) && Progress(s, e, ch, done)
    ensures Progress(s, SendAck(e, ch, nack), ch, done) && SendAck(e, ch, nack).expected == e.expected
  {
    hide Progress;
    SendProgress(s, e, Ack(e.binding, ch, Minus(e.expected[ch], 1), SackBits(e, ch, WINDOW), nack,
                           if nack then e.expected[ch] else Seq(0, 0)), ch, done);
  }

  lemma {:induction false} AcceptDataProgress(s: Endpoint, e: Endpoint, f: Frag)
    requires WF(s) && WF(e) && FragOk(f) && SenderInv(s, f.channel)
    requires ReceiverInv(s, e, f.channel, e.expected[f.channel].n)
    requires Genuine(s.log, f) && f.sn.n < s.next[f.channel].n && Live(s, f.channel, f.sn.n - f.index)
    requires Progress(s, e, f.channel, e.expected[f.channel].n)
    ensures var e' := AcceptData(e, f).0;
            e'.ready ==> Progress(s, e', f.channel, e'.expected[f.channel].n)
  {
    hide Progress, RxGood, PendGood, PassedGood, Accounted, ReGood, DeliveredGood, ReceiverPacketsOk, SendAck, Deliver,
         Consume, Drop, RxAt, First, RxAlloc;
    var ch := f.channel;
    MessageBelow(s, Own(f));
    BeforeExact(f.sn, e.expected[ch]);
    SameExact(f.sn, e.expected[ch]);
    if f.sn.n < e.expected[ch].n {
      AckProgress(s, e, ch, false, e.expected[ch].n);
    } else if f.sn.n == e.expected[ch].n {
      ExpectedProgress(s, e, f);
      var c := Consume(Deliver(SetExpected(e, ch, Plus(e.expected[ch], 1)), f), ch);
      AckProgress(s, c, ch, false, c.expected[ch].n);
    } else if (f.sn.w - e.expected[ch].w) % MOD >= WINDOW || First(e.rx, RxAt(e.peer, ch, f.sn)) < |e.rx| {
      AckProgress(s, e, ch, true, e.expected[ch].n);
    } else {
      var k := RxAlloc(e);
      if k == |e.rx| {
        DropAheadProgress(s, e, ch, Overflow, f.sn);
      } else {
        var m := e.(rx := e.rx[k := RxUsed(e.peer, f)]);
        PlaceProgress(s, e, m, ch, e.expected[ch].n);
        AckProgress(s, m, ch, true, e.expected[ch].n);
      }
    }
  }

  lemma {:induction false} HandleDataProgress(s: Endpoint, e: Endpoint, p: Packet, ch: nat)
    requires WF(s) && WF(e) && ValidChannel(ch) && ch != TIME_CHANNEL && SenderInv(s, ch)
    requires ReceiverInv(s, e, ch, e.expected[ch].n) && Progress(s, e, ch, e.expected[ch].n)
    requires p.Data? && p.frag.channel == ch && SenderPacketOk(s, p, ch) && Fresh(s, p, ch)
    ensures var e' := HandleData(e, p).0;
            e'.ready ==> Progress(s, e', ch, e'.expected[ch].n)
  {
    hide Progress, AcceptData;
    if DataFormed(p) && e.ready && p.binding == e.binding {
      var e1 := e.(routeUp := true);
      SameView(s, e, e1, ch);
      PlaceProgress(s, e, e1, ch, e.expected[ch].n);
      AcceptDataProgress(s, e1, p.frag);
    }
  }

  lemma {:induction false} RecordProgress(s: Endpoint, e: Endpoint, ch: nat, reason: Reason, first: SeqNum,
                                          last: SeqNum, done: int)
    requires Progress(s, e, ch, done)
    ensures Progress(s, Record(e, false, ch, reason, first, last), ch, done)
  {
    var e' := Record(e, false, ch, reason, first, last);
    GrownBy(s, e, e', ch);
    ProgressSame(s, e, e', ch, done);
  }

  lemma {:induction false} HandleSenderLossProgress(s: Endpoint, e: Endpoint, p: Packet, ch: nat)
    requires WF(s) && WF(e) && ValidChannel(ch) && SenderInv(s, ch)
    requires ReceiverInv(s, e, ch, e.expected[ch].n) && Progress(s, e, ch, e.expected[ch].n)
    requires p.Lost? && p.channel == ch && !p.receiverDrop && SenderPacketOk(s, p, ch) && Fresh(s, p, ch)
    ensures var e' := HandleLost(e, p).0;
            e'.ready ==> Progress(s, e', ch, e'.expected[ch].n)
  {
    hide Progress, Keeps, ClearPeer, Consume, PL.Add, RxGood, PendGood, PassedGood, Accounted, ReGood, DeliveredGood,
         ReceiverPacketsOk;
    if e.ready && p.binding == e.binding {
      InRangeExact(e.expected[ch], p.first, p.last);
      BeforeExact(e.expected[ch], p.first);
      if InRange(e.expected[ch], p.first, p.last) {
        JumpKeeps(s, e, ch, Plus(p.last, 1));
        JumpProgress(s, e, ch, Plus(p.last, 1), e.expected[ch].n);
        var m := SetExpected(e, ch, Plus(p.last, 1));
        ConsumeProgress(s, m, ch);
        var c := Consume(m, ch);
        RecordProgress(s, c, ch, p.reason, p.first, p.last, c.expected[ch].n);
      } else if Before(e.expected[ch], p.first) {
        var m := e.(pend := PL.Add(e.pend, ch, p.first, p.last).0);
        PlaceProgress(s, e, m, ch, e.expected[ch].n);
        RecordProgress(s, m, ch, p.reason, p.first, p.last, e.expected[ch].n);
      } else {
        RecordProgress(s, e, ch, p.reason, p.first, p.last, e.expected[ch].n);
      }
    }
  }

  lemma {:induction false} ExpireProgress(s: Endpoint, e: Endpoint, k: nat)
    requires WF(s) && WF(e) && k < |e.re| && ReMine(e.peer)(e.re[k])
    requires SenderInv(s, e.re[k].channel)
    requires ReGood(s, e, e.re[k].channel, e.expected[e.re[k].channel].n)
    requires Progress(s, e, e.re[k].channel, e.expected[e.re[k].channel].n)
    ensures Progress(s, Expire(e, k), e.re[k].channel, e.expected[e.re[k].channel].n)
    ensures Expire(e, k).expected == e.expected
  {
    var slot, e' := e.re[k], Expire(e, k);
    var ch, done := slot.channel, e.expected[slot.channel].n;
    assert ReOn(e, slot, ch) && SlotGood(s, slot, ch, done);
    GrownBy(s, e, e', ch);
    assert Tells(e'.log.lost[|e.log.lost|], false, ch, slot.first.n);
    assert Told(e'.log, false, ch, slot.first.n) && Reported(s, e', ch, slot.first.n);
    assert Spoilt(s, e', slot, ch);
    hide Progress, Reported, ReGood, SlotGood, Grown;
    ProgressKept(s, e, e', ch, done, done);
  }

  // ---- Steps

  ghost predicate Account(s: Endpoint, r: Endpoint, c: nat)
    requires WF(r) && ValidChannel(c)
  {
    Progress(s, r, c, r.expected[c].n)
  }

  // Another channel's step, or a sender's, leaves what the receiver has of this channel.
  lemma {:induction false} SameReceiver(s: Endpoint, e: Endpoint, e': Endpoint, c: nat)
    requires WF(s) && WF(e) && WF(e') && ValidChannel(c) && DirInv(s, e, c)
    requires ReceiverViewSame(e, e', c) && Account(s, e, c)
    ensures Account(s, e', c)
  {
    SettledSame(s, e, e', c);
    assert Grown(s, e, e', c);
    assert SlotsKept(s, e, e', c);
    hide Progress, Reported, Grown, SlotsKept, ReceiverViewSame;
    ProgressKept(s, e, e', c, e.expected[c].n, e.expected[c].n);
  }

  // New messages come after all that is done; reports only grow.
  lemma {:induction false} LaterSender(s: Endpoint, s': Endpoint, r: Endpoint, c: nat)
    requires WF(s) && WF(r) && ValidChannel(c) && DirInv(s, r, c) && Account(s, r, c)
    requires |s.log.submitted| <= |s'.log.submitted|
    requires s'.log.submitted[..|s.log.submitted|] == s.log.submitted
    requires forall j :: |s.log.submitted| <= j < |s'.log.submitted| && s'.log.submitted[j].channel == c ==>
                           s'.log.submitted[j].first >= s.next[c].n
    requires forall n :: Told(s.log, true, c, n) ==> Told(s'.log, true, c, n)
    ensures Account(s', r, c)
  {
    assert forall n :: Reported(s, r, c, n) ==> Reported(s', r, c, n);
    hide Reported;
    forall j | 0 <= j < |s'.log.submitted| && s'.log.submitted[j].channel == c
      ensures Progressed(s', r, s'.log.submitted[j], r.expected[c].n)
    {
      if j < |s.log.submitted| {
        var m := s.log.submitted[j];
        assert s'.log.submitted[j] == m && Progressed(s, r, m, r.expected[c].n);
        assert Intact(s', r, m) ==> Intact(s, r, m);
      }
    }
  }

  // What a sender's step submits.
  ghost predicate Submits(e: Endpoint, e': Endpoint) {
    && |e.log.submitted| <= |e'.log.submitted| && e'.log.submitted[..|e.log.submitted|] == e.log.submitted
    && forall j :: |e.log.submitted| <= j < |e'.log.submitted| ==>
                     var m := e'.log.submitted[j];
                     ValidChannel(m.channel) && m.channel < |e.next| && m.first == e.next[m.channel].n
  }

  lemma {:induction false} SubmitSubmits(e: Endpoint, ch: nat, bytes: Bytes, priority: nat)
    requires WF(e)
    ensures Submits(e, Submit(e, ch, bytes, priority).0)
  {
    if 0 < |bytes| <= MESSAGE_MAX && ValidChannel(ch) && e.ready {
      var stream := NextStreamOf(e);
      var m := e.(nextStream := NextStream(stream));
      SubmitIs(e, bytes, priority, ch);
      hide Submit, SendFrags, TxAvailable, Fragments;
      if TxAvailable(m, priority) >= Fragments(|bytes|) { NotedSubmits(m, stream, bytes, priority, ch); }
    }
  }

  lemma {:induction false} NotedSubmits(e: Endpoint, stream: u32, bytes: Bytes, priority: nat, ch: nat)
    requires WF(e) && ValidChannel(ch) && 0 < |bytes| <= MESSAGE_MAX
    requires TxAvailable(e, priority) >= Fragments(|bytes|)
    ensures Noted(e, stream, bytes, priority, ch).log.submitted ==
            e.log.submitted + [Msg(ch, e.next[ch].n, stream, bytes)]
  {
    hide Fill, TxAvailable, Fragments, WF;
    NotedAccepted(e, stream, bytes, priority, ch);
  }

  lemma {:induction false} SubmitsAccount(e: Endpoint, e': Endpoint, other: Endpoint, ch: nat, c: nat)
    requires WF(e) && WF(e') && WF(other) && ValidChannel(c) && DirInv(e, other, c) && Account(e, other, c)
    requires SenderStep(e, e', ch) && Submits(e, e')
    ensures Account(e', other, c)
  {
    ToldKept(e.log, e'.log, true, c);
    LaterSender(e, e', other, c);
  }

  lemma {:induction false} ReceiverStepAccount(e: Endpoint, e': Endpoint, other: Endpoint, ch: nat, c: nat)
    requires WF(e) && WF(e') && WF(other) && ValidChannel(c) && DirInv(e, other, c) && Account(e, other, c)
    requires ReceiverStep(e, e', ch)
    ensures Account(e', other, c)
  {
    ToldKept(e.log, e'.log, true, c);
    LaterSender(e, e', other, c);
  }

  // Both directions of one step.
  ghost predicate Accounts(e: Endpoint, other: Endpoint, c: nat)
    requires WF(e) && WF(other) && ValidChannel(c)
  {
    Account(e, other, c) && Account(other, e, c)
  }

  lemma {:induction false} SenderStepAccounts(e: Endpoint, other: Endpoint, e': Endpoint, ch: nat, c: nat)
    requires WF(e) && WF(other) && WF(e') && ValidChannel(c) && Both(e, other, c) && Accounts(e, other, c)
    requires SenderStep(e, e', ch) && Submits(e, e')
    ensures Accounts(e', other, c)
  {
    hide DirInv, Account;
    SenderStepViews(e, e', ch, c);
    hide ReceiverViewSame, SenderViewSame;
    SameReceiver(other, e, e', c);
    SubmitsAccount(e, e', other, ch, c);
  }

  lemma {:induction false} ReceiverStepAccounts(e: Endpoint, other: Endpoint, e': Endpoint, ch: nat, c: nat)
    requires WF(e) && WF(other) && WF(e') && ValidChannel(c) && Both(e, other, c) && Accounts(e, other, c)
    requires ReceiverStep(e, e', ch)
    requires c == ch ==> Account(other, e', c)
    ensures Accounts(e', other, c)
  {
    hide DirInv, Account;
    ReceiverStepViews(e, e', ch, c);
    hide ReceiverViewSame, SenderViewSame;
    ReceiverStepAccount(e, e', other, ch, c);
    if c != ch {
      SameReceiver(other, e, e', c);
    }
  }

  lemma {:induction false} ReceiveDataAccounts(e: Endpoint, other: Endpoint, p: Packet, c: nat)
    requires WF(e) && WF(other) && Ordered(c) && Both(e, other, c) && Accounts(e, other, c)
    requires p.Data? && Arrives(e, other, p) && Receive(e, p).0.ready
    ensures Accounts(Receive(e, p).0, other, c)
  {
    HandleDataFrame(e, p);
    hide Progress, ReceiverStep;
    if p.frag.channel == c {
      ArrivedFromSender(other, p, c);
      HandleDataProgress(other, e, p, c);
    }
    hide *;
    ReceiverStepAccounts(e, other, Receive(e, p).0, p.frag.channel, c);
  }

  lemma {:induction false} ReceiveAckAccounts(e: Endpoint, other: Endpoint, p: Packet, c: nat)
    requires WF(e) && WF(other) && Ordered(c) && Both(e, other, c) && Accounts(e, other, c)
    requires p.Ack?
    ensures Accounts(Receive(e, p).0, other, c)
  {
    HandleAckFrame(e, p);
    assert Receive(e, p).0.log.submitted == e.log.submitted;
    hide *;
    SubmitsNothing(e, Receive(e, p).0);
    SenderStepAccounts(e, other, Receive(e, p).0, p.channel, c);
  }

  lemma {:induction false} SubmitsNothing(e: Endpoint, e': Endpoint)
    requires e'.log.submitted == e.log.submitted
    ensures Submits(e, e')
  {
  }

  lemma {:induction false} ReceiveLostAccounts(e: Endpoint, other: Endpoint, p: Packet, c: nat)
    requires WF(e) && WF(other) && Ordered(c) && Both(e, other, c) && Accounts(e, other, c)
    requires p.Lost? && Arrives(e, other, p) && Receive(e, p).0.ready
    ensures Accounts(Receive(e, p).0, other, c)
  {
    hide Progress, ReceiverStep, SenderStep, Submits;
    if p.receiverDrop {
      HandleReceiverLossFrame(e, p);
      SubmitsNothing(e, Receive(e, p).0);
      hide *;
      SenderStepAccounts(e, other, Receive(e, p).0, p.channel, c);
    } else {
      HandleSenderLossFrame(e, p);
      if p.channel == c {
        ArrivedFromSender(other, p, c);
        HandleSenderLossProgress(other, e, p, c);
      }
      hide *;
      ReceiverStepAccounts(e, other, Receive(e, p).0, p.channel, c);
    }
  }

  lemma {:induction false} ExpireAccounts(e: Endpoint, other: Endpoint, k: nat, c: nat)
    requires WF(e) && WF(other) && Ordered(c) && Both(e, other, c) && Accounts(e, other, c)
    requires k < |e.re| && ReMine(e.peer)(e.re[k])
    ensures Accounts(Expire(e, k), other, c)
  {
    ExpireFrame(e, k);
    hide Progress, ReceiverStep;
    if e.re[k].channel == c {
      ExpireProgress(other, e, k);
    }
    hide *;
    ReceiverStepAccounts(e, other, Expire(e, k), e.re[k].channel, c);
  }

  lemma {:induction false} ForeignAccounts(e: Endpoint, other: Endpoint, e': Endpoint, c: nat)
    requires WF(e) && WF(other) && WF(e') && ValidChannel(c) && Both(e, other, c) && Accounts(e, other, c)
    requires ForeignStep(e, e')
    ensures Accounts(e', other, c)
  {
    hide DirInv, Progress, MsgOk;
    assert ReceiverViewSame(e, e', c) by {
      assert forall i :: 0 <= i < |e.rx| && RxOn(e, e.rx[i], c) ==> RxMine(e.peer)(e.rx[i]);
      assert forall i :: 0 <= i < |e.rx| && RxOn(e', e'.rx[i], c) ==> RxMine(e.peer)(e'.rx[i]);
      assert forall i :: 0 <= i < |e.re| && ReOn(e, e.re[i], c) ==> ReMine(e.peer)(e.re[i]);
      assert forall i :: 0 <= i < |e.re| && ReOn(e', e'.re[i], c) ==> ReMine(e.peer)(e'.re[i]);
    }
    hide ForeignStep, ReceiverViewSame;
    SameReceiver(other, e, e', c);
    LaterSender(e, e', other, c);
  }

  lemma {:induction false} ActAccounts(e: Endpoint, other: Endpoint, act: Action, e': Endpoint, c: nat)
    requires WF(e) && WF(other) && WF(e') && Ordered(c) && Both(e, other, c) && Accounts(e, other, c)
    requires Acts(e, other, act, e') && e'.ready
    ensures Accounts(e', other, c)
  {
    hide Both, Accounts, Receive, Expire, Submit, Retransmit, Supersede, ReceiverStep, SenderStep, Submits, Arrives,
         ForeignStep;
    match act
    case DoSubmit(ch, bytes, priority) =>
      SubmitFrame(e, ch, bytes, priority);
      SubmitSubmits(e, ch, bytes, priority);
      SenderStepAccounts(e, other, e', ch, c);
    case DoReceive(p) =>
      match p {
        case Data(_, _, _, _) => ReceiveDataAccounts(e, other, p, c);
        case Ack(_, _, _, _, _, _) => ReceiveAckAccounts(e, other, p, c);
        case Lost(_, _, _, _, _, _) => ReceiveLostAccounts(e, other, p, c);
      }
    case DoRetransmit(k) =>
      RetransmitSubmits(e, k);
      SenderStepAccounts(e, other, e', e.tx[k].frag.channel, c);
    case DoExpire(k) => ExpireAccounts(e, other, k, c);
    case DoSupersede =>
      SupersedeFrame(e, TIME_CHANNEL);
      SupersedeSubmits(e, TIME_CHANNEL);
      SenderStepAccounts(e, other, e', TIME_CHANNEL, c);
    case DoRoute(up) =>
      RouteFrame(e, up, TIME_CHANNEL);
      SubmitsNothing(e, e');
      SenderStepAccounts(e, other, e', TIME_CHANNEL, c);
    case DoForeign(_) => ForeignAccounts(e, other, e', c);
  }

  lemma {:induction false} RetransmitSubmits(e: Endpoint, k: nat)
    requires WF(e) && k < |e.tx| && TxMine(e.peer)(e.tx[k])
    ensures SenderStep(e, Retransmit(e, k), e.tx[k].frag.channel) && Submits(e, Retransmit(e, k))
  {
    RetransmitFrame(e, k, e.tx[k].frag.channel);
  }

  lemma {:induction false} SupersedeSubmits(e: Endpoint, ch: nat)
    requires WF(e)
    ensures Submits(e, Supersede(e, ch))
  {
  }

  // ---- Runs

  lemma {:induction false} FreshAccount(a: Endpoint, b: Endpoint, c: nat)
    requires FreshEndpoint(a) && FreshEndpoint(b) && ValidChannel(c)
    ensures Account(a, b, c)
  {
    assert forall i :: 0 <= i < |b.re| ==> !ReMine(b.peer)(b.re[i]) && !ReOn(b, b.re[i], c);
  }

  lemma {:induction false} RunAccounts(run: seq<System>, i: nat, c: nat)
    requires Epoch(run) && i < |run| && Ordered(c)
    ensures Accounts(run[i].a, run[i].b, c)
    ensures Both(run[i].a, run[i].b, c) && Both(run[i].b, run[i].a, c)
  {
    RunInv(run, i);
    assert Both(run[i].a, run[i].b, c);
    if i == 0 {
      FreshAccount(run[0].a, run[0].b, c);
      FreshAccount(run[0].b, run[0].a, c);
    } else {
      RunAccounts(run, i - 1, c);
      assert Next(run[i - 1], run[i - 1 + 1]);
      NextAccounts(run[i - 1], run[i], c);
    }
  }

  lemma {:induction false} NextAccounts(sys: System, sys': System, c: nat)
    requires SystemWF(sys) && SystemWF(sys') && Next(sys, sys') && sys'.a.ready && sys'.b.ready && Ordered(c)
    requires Both(sys.a, sys.b, c) && Both(sys.b, sys.a, c) && Accounts(sys.a, sys.b, c)
    ensures Accounts(sys'.a, sys'.b, c)
  {
    hide DirInv, Acts, Account;
    if sys'.b == sys.b && exists act :: Acts(sys.a, sys.b, act, sys'.a) {
      var act :| Acts(sys.a, sys.b, act, sys'.a);
      ActAccounts(sys.a, sys.b, act, sys'.a, c);
    } else {
      var act :| Acts(sys.b, sys.a, act, sys'.b);
      ActAccounts(sys.b, sys.a, act, sys'.b, c);
    }
  }

  // ---- What becomes of a message

  // A message the receiver is wholly past was handed up, byte for byte, or a number of it was reported lost by
  // one end; one it is in the middle of is in a single reassembly slot, as far as it has come, or a number of it
  // was reported.
  lemma {:induction false} NoMessageVanishes(run: seq<System>, i: nat, fromA: bool, c: nat, k: nat)
    requires Epoch(run) && i < |run| && Ordered(c)
    requires k < |G.Sender(run[i], fromA).log.submitted| && G.Sender(run[i], fromA).log.submitted[k].channel == c
    ensures var (s, r) := (G.Sender(run[i], fromA), G.Receiver(run[i], fromA));
            var m := s.log.submitted[k];
            && (m.first + Fragments(|m.bytes|) <= r.expected[c].n ==>
                  || (exists x :: 0 <= x < |r.log.delivered| && G.Carries(s, r.log.delivered[x], k))
                  || (exists n :: m.first <= n < m.first + Fragments(|m.bytes|) && Reported(s, r, c, n)))
            && (m.first < r.expected[c].n < m.first + Fragments(|m.bytes|) ==>
                  || InHand(r, m, r.expected[c].n)
                  || (exists n :: m.first <= n < m.first + Fragments(|m.bytes|) && Reported(s, r, c, n)))
  {
    RunAccounts(run, i, c);
    var (s, r) := (G.Sender(run[i], fromA), G.Receiver(run[i], fromA));
    var m := s.log.submitted[k];
    assert Progressed(s, r, m, r.expected[c].n) && MsgOk(s, m);
    if m.first + Fragments(|m.bytes|) <= r.expected[c].n && Intact(s, r, m) {
      var x :| 0 <= x < |r.log.delivered| && Delivers(r.log.delivered[x], m);
      assert G.Carries(s, r.log.delivered[x], k);
    }
  }
}
