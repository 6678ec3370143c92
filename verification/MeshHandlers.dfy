// Every handler keeps the channel invariant.
module MeshHandlers {
  import opened Base
  import opened Serial
  import opened Slots
  import opened MeshTypes
  import opened Reliable
  import opened Handlers
  import opened MeshInvariant
  import opened MeshFrame
  import opened MeshReceive
  import opened MeshConsume
  import PL = PendingLost

  // ---- The receiving side

  // A packet of the other end that is still within the window of live numbers.
  ghost predicate Fresh(s: Endpoint, p: Packet, ch: nat)
    requires WF(s) && ValidChannel(ch)
  {
    match p
    case Data(_, f, _, _) => Live(s, ch, f.sn.n - f.index)
    case Ack(_, _, ack, _, _, _) => Live(s, ch, ack.n + 1)
    case Lost(_, _, _, _, first, _) => Live(s, ch, first.n)
  }

  lemma {:induction false} SackTruthful(e: Endpoint, ch: nat, bits: nat)
    requires WF(e) && ValidChannel(ch) && bits <= WINDOW
    requires forall i :: 0 <= i < |e.rx| && RxOn(e, e.rx[i], ch) ==>
               e.expected[ch].n - HALF < e.rx[i].frag.sn.n < e.expected[ch].n + HALF
    ensures forall b :: b in SackBits(e, ch, bits) ==> Buffered(e, ch, e.expected[ch].n + b)
  {
    if bits > 0 {
      SackTruthful(e, ch, bits - 1);
      var sn := Plus(e.expected[ch], bits - 1);
      var k := First(e.rx, RxAt(e.peer, ch, sn));
      if k < |e.rx| {
        assert RxOn(e, e.rx[k], ch);
        SameExact(e.rx[k].frag.sn, sn);
      }
    }
  }

  // An acknowledgement says what is true when it is sent.
  lemma {:induction false} SendAckKeeps(s: Endpoint, e: Endpoint, ch: nat, nack: bool)
    requires WF(s) && WF(e) && ValidChannel(ch)
    requires ReceiverInv(s, e, ch, e.expected[ch].n) && Drained(e, ch)
    requires nack ==> e.expected[ch].n < s.next[ch].n
    ensures var e' := SendAck(e, ch, nack);
            && ReceiverInv(s, e', ch, e'.expected[ch].n) && Drained(e', ch) && Keeps(s, e, e', ch)
  {
    forall i | 0 <= i < |e.rx| && RxOn(e, e.rx[i], ch)
      ensures e.expected[ch].n - HALF < e.rx[i].frag.sn.n < e.expected[ch].n + HALF
    {
      assert Live(s, ch, e.rx[i].frag.sn.n - e.rx[i].frag.index);
    }
    SackTruthful(e, ch, WINDOW);
    var p := Ack(e.binding, ch, Minus(e.expected[ch], 1), SackBits(e, ch, WINDOW), nack,
                 if nack then e.expected[ch] else Seq(0, 0));
    ThenSendKeeps(s, e, p, ch, e.expected[ch].n);
  }

  lemma {:induction false} BufferKeeps(s: Endpoint, e: Endpoint, k: nat, f: Frag)
    requires WF(s) && WF(e) && FragOk(f) && k < |e.rx| && e.rx[k].RxFree?
    requires ReceiverInv(s, e, f.channel, e.expected[f.channel].n)
    requires Genuine(s.log, f) && f.sn.n < s.next[f.channel].n && Live(s, f.channel, f.sn.n - f.index)
    ensures var e' := e.(rx := e.rx[k := RxUsed(e.peer, f)]);
            && WF(e') && ReceiverInv(s, e', f.channel, e.expected[f.channel].n) && Keeps(s, e, e', f.channel)
            && (Drained(e, f.channel) ==> Drained(e', f.channel))
  {
    var ch := f.channel;
    var e' := e.(rx := e.rx[k := RxUsed(e.peer, f)]);
    KeepsFrom(s, e, e', ch);
    PacketsKept(s, e, e', ch);
    assert forall n :: WasPassed(e, ch, n) ==> WasPassed(e', ch, n);
    assert forall i :: 0 <= i < |e.rx| && i != k && RxOn(e', e'.rx[i], ch) ==> RxOn(e, e.rx[i], ch);
    assert forall j :: 0 <= j < |e.re| && ReOn(e', e'.re[j], ch) ==> ReOn(e, e.re[j], ch);
  }

  // A fragment that is the expected one.
  lemma {:induction false} ExpectedKeeps(s: Endpoint, e: Endpoint, f: Frag)
    requires WF(s) && WF(e) && FragOk(f) && SenderInv(s, f.channel)
    requires ReceiverInv(s, e, f.channel, e.expected[f.channel].n)
    requires Genuine(s.log, f) && f.sn.n < s.next[f.channel].n && Live(s, f.channel, f.sn.n - f.index)
    requires e.expected[f.channel].n == f.sn.n
    ensures var m := SetExpected(e, f.channel, Plus(e.expected[f.channel], 1));
            && JustPassed(m, f)
            && var e' := Consume(Deliver(m, f), f.channel);
               ReceiverInv(s, e', f.channel, e'.expected[f.channel].n) && Drained(e', f.channel) &&
               Keeps(s, e, e', f.channel)
  {
    var ch := f.channel;
    AdvanceKeeps(s, e, ch);
    var m := SetExpected(e, ch, Plus(e.expected[ch], 1));
    DeliverKeeps(s, m, f);
    var d := Deliver(m, f);
    ConsumeKeeps(s, d, ch);
    KeepsTrans(s, e, m, d, ch);
    KeepsTrans(s, e, d, Consume(d, ch), ch);
  }

  // A fragment ahead of the expected one that finds a buffer slot.
  lemma {:induction false} BufferAndNackKeeps(s: Endpoint, e: Endpoint, k: nat, f: Frag)
    requires WF(s) && WF(e) && FragOk(f) && k < |e.rx| && e.rx[k].RxFree?
    requires ReceiverInv(s, e, f.channel, e.expected[f.channel].n) && Drained(e, f.channel)
    requires Genuine(s.log, f) && f.sn.n < s.next[f.channel].n && Live(s, f.channel, f.sn.n - f.index)
    requires e.expected[f.channel].n < f.sn.n
    ensures var e' := SendAck(e.(rx := e.rx[k := RxUsed(e.peer, f)]), f.channel, true);
            ReceiverInv(s, e', f.channel, e'.expected[f.channel].n) && Drained(e', f.channel) &&
            Keeps(s, e, e', f.channel)
  {
    BufferKeeps(s, e, k, f);
    var m := e.(rx := e.rx[k := RxUsed(e.peer, f)]);
    SendAckKeeps(s, m, f.channel, true);
    KeepsTrans(s, e, m, SendAck(m, f.channel, true), f.channel);
  }

  lemma {:induction false} ExpectedAndAckKeeps(s: Endpoint, e: Endpoint, f: Frag)
    requires WF(s) && WF(e) && FragOk(f) && SenderInv(s, f.channel)
    requires ReceiverInv(s, e, f.channel, e.expected[f.channel].n)
    requires Genuine(s.log, f) && f.sn.n < s.next[f.channel].n && Live(s, f.channel, f.sn.n - f.index)
    requires e.expected[f.channel].n == f.sn.n
    ensures var m := SetExpected(e, f.channel, Plus(e.expected[f.channel], 1));
            && JustPassed(m, f)
            && var e' := SendAck(Consume(Deliver(m, f), f.channel), f.channel, false);
               ReceiverInv(s, e', f.channel, e'.expected[f.channel].n) && Drained(e', f.channel) &&
               Keeps(s, e, e', f.channel)
  {
    var ch := f.channel;
    ExpectedKeeps(s, e, f);
    var c := Consume(Deliver(SetExpected(e, ch, Plus(e.expected[ch], 1)), f), ch);
    SendAckKeeps(s, c, ch, false);
    KeepsTrans(s, e, c, SendAck(c, ch, false), ch);
  }

  lemma {:induction false} AcceptDataKeeps(s: Endpoint, e: Endpoint, f: Frag)
    requires WF(s) && WF(e) && FragOk(f) && SenderInv(s, f.channel)
    requires ReceiverInv(s, e, f.channel, e.expected[f.channel].n) && Drained(e, f.channel)
    requires Genuine(s.log, f) && f.sn.n < s.next[f.channel].n && Live(s, f.channel, f.sn.n - f.index)
    ensures var e' := AcceptData(e, f).0;
            e'.ready ==>
              ReceiverInv(s, e', f.channel, e'.expected[f.channel].n) && Drained(e', f.channel) &&
              Keeps(s, e, e', f.channel)
  {
    hide Keeps, Drained, RxGood, PendGood, PassedGood, Accounted, ReGood, DeliveredGood, ReceiverPacketsOk,
         SendAck, Deliver, Consume, Drop, RxAt, First;
    var ch := f.channel;
    MessageBelow(s, Msg(ch, f.sn.n - f.index, f.stream, f.msg));
    BeforeExact(f.sn, e.expected[ch]);
    SameExact(f.sn, e.expected[ch]);
    if f.sn.n < e.expected[ch].n {
      SendAckKeeps(s, e, ch, false);
    } else if f.sn.n == e.expected[ch].n {
      ExpectedAndAckKeeps(s, e, f);
    } else if (f.sn.w - e.expected[ch].w) % MOD >= WINDOW || First(e.rx, RxAt(e.peer, ch, f.sn)) < |e.rx| {
      SendAckKeeps(s, e, ch, true);
    } else {
      var k := RxAlloc(e);
      if k == |e.rx| {
        DropAheadKeeps(s, e, ch, Overflow, f.sn, f.sn);
      } else {
        BufferAndNackKeeps(s, e, k, f);
      }
    }
  }

  // The route flag and the stream counter play no part in the invariant.
  lemma {:induction false} SameView(s: Endpoint, e: Endpoint, e': Endpoint, ch: nat)
    requires WF(s) && WF(e) && WF(e') && ValidChannel(ch)
    requires e' == e.(routeUp := e'.routeUp, nextStream := e'.nextStream)
    requires ReceiverInv(s, e, ch, e.expected[ch].n)
    ensures ReceiverInv(s, e', ch, e'.expected[ch].n) && Keeps(s, e, e', ch)
    ensures Drained(e, ch) ==> Drained(e', ch)
  {
    KeepsFrom(s, e, e', ch);
    PacketsKept(s, e, e', ch);
    assert forall n :: WasPassed(e, ch, n) ==> WasPassed(e', ch, n);
    assert forall i :: 0 <= i < |e.rx| && RxOn(e', e'.rx[i], ch) ==> RxOn(e, e.rx[i], ch);
    assert forall j :: 0 <= j < |e.re| && ReOn(e', e'.re[j], ch) ==> ReOn(e, e.re[j], ch);
  }

  lemma {:induction false} HandleDataKeeps(s: Endpoint, e: Endpoint, p: Packet, ch: nat)
    requires WF(s) && WF(e) && ValidChannel(ch) && ch != TIME_CHANNEL && SenderInv(s, ch)
    requires ReceiverInv(s, e, ch, e.expected[ch].n) && Drained(e, ch)
    requires p.Data? && p.frag.channel == ch && SenderPacketOk(s, p, ch) && Fresh(s, p, ch)
    ensures var e' := HandleData(e, p).0;
            e'.ready ==>
              ReceiverInv(s, e', ch, e'.expected[ch].n) && Drained(e', ch) && Keeps(s, e, e', ch)
  {
    var e1 := e.(routeUp := true);
    SameView(s, e, e1, ch);
    KeepsFrom(s, e, e, ch);
    if DataFormed(p) && e.ready && p.binding == e.binding {
      AcceptDataKeeps(s, e1, p.frag);
      var e' := HandleData(e, p).0;
      assert e' == AcceptData(e1, p.frag).0;
      if e'.ready {
        KeepsTrans(s, e, e1, e', ch);
      }
    }
  }

  // A loss report changes nothing but the report.
  lemma {:induction false} RecordKeeps(s: Endpoint, e: Endpoint, ch: nat, reason: Reason, first: SeqNum, last: SeqNum)
    requires WF(s) && WF(e) && ValidChannel(ch)
    requires ReceiverInv(s, e, ch, e.expected[ch].n) && Drained(e, ch)
    ensures var e' := Record(e, false, ch, reason, first, last);
            ReceiverInv(s, e', ch, e'.expected[ch].n) && Drained(e', ch) && Keeps(s, e, e', ch)
  {
    var e' := Record(e, false, ch, reason, first, last);
    KeepsFrom(s, e, e', ch);
    PacketsKept(s, e, e', ch);
    assert forall n :: WasPassed(e, ch, n) ==> WasPassed(e', ch, n);
    assert forall i :: 0 <= i < |e.rx| && RxOn(e', e'.rx[i], ch) ==> RxOn(e, e.rx[i], ch);
    assert forall j :: 0 <= j < |e.re| && ReOn(e', e'.re[j], ch) ==> ReOn(e, e.re[j], ch);
  }

  lemma {:induction false} HandleSenderLossKeeps(s: Endpoint, e: Endpoint, p: Packet, ch: nat)
    requires WF(s) && WF(e) && ValidChannel(ch) && SenderInv(s, ch)
    requires ReceiverInv(s, e, ch, e.expected[ch].n) && Drained(e, ch)
    requires p.Lost? && p.channel == ch && !p.receiverDrop && SenderPacketOk(s, p, ch) && Fresh(s, p, ch)
    ensures var e' := HandleLost(e, p).0;
            e'.ready ==>
              ReceiverInv(s, e', ch, e'.expected[ch].n) && Drained(e', ch) && Keeps(s, e, e', ch)
  {
    KeepsFrom(s, e, e, ch);
    if e.ready && p.binding == e.binding {
      InRangeExact(e.expected[ch], p.first, p.last);
      BeforeExact(e.expected[ch], p.first);
      var e' := HandleLost(e, p).0;
      if InRange(e.expected[ch], p.first, p.last) {
        JumpKeeps(s, e, ch, Plus(p.last, 1));
        var m := SetExpected(e, ch, Plus(p.last, 1));
        ConsumeKeeps(s, m, ch);
        var c := Consume(m, ch);
        RecordKeeps(s, c, ch, p.reason, p.first, p.last);
        KeepsTrans(s, e, m, c, ch);
        KeepsTrans(s, e, c, e', ch);
      } else if Before(e.expected[ch], p.first) {
        if PL.Add(e.pend, ch, p.first, p.last).1 {
          AddPendingKeeps(s, e, ch, p.first, p.last);
          var m := e.(pend := PL.Add(e.pend, ch, p.first, p.last).0);
          RecordKeeps(s, m, ch, p.reason, p.first, p.last);
          KeepsTrans(s, e, m, e', ch);
        }
      } else {
        RecordKeeps(s, e, ch, p.reason, p.first, p.last);
      }
    }
  }

  lemma {:induction false} ExpireKeeps(s: Endpoint, e: Endpoint, k: nat)
    requires WF(s) && WF(e) && k < |e.re| && ReMine(e.peer)(e.re[k])
    requires SenderInv(s, e.re[k].channel)
    requires ReceiverInv(s, e, e.re[k].channel, e.expected[e.re[k].channel].n) && Drained(e, e.re[k].channel)
    ensures var ch := e.re[k].channel;
            var e' := Expire(e, k);
            ReceiverInv(s, e', ch, e'.expected[ch].n) && Drained(e', ch) && Keeps(s, e, e', ch)
  {
    var slot := e.re[k];
    var ch := slot.channel;
    assert ReOn(e, slot, ch) && SlotGood(s, slot, ch, e.expected[ch].n);
    var last := Minus(Plus(slot.first, slot.count), 1);
    MessageBelow(s, Msg(ch, slot.first.n, slot.stream, slot.msg));
    var a := Record(e, false, ch, FragmentTimeout, slot.first, last);
    RecordKeeps(s, e, ch, FragmentTimeout, slot.first, last);
    forall n | slot.first.n <= n <= last.n ensures Told(a.log, false, ch, n) {
      assert Tells(a.log.lost[|e.log.lost|], false, ch, n);
    }
    ReportKeeps(s, a, ch, FragmentTimeout, slot.first, last, e.binding);
    var b := Send(a, Lost(e.binding, ch, FragmentTimeout, true, slot.first, last));
    ReplaceSlot(s, b, k, ReFree, ch, e.expected[ch].n);
    KeepsTrans(s, e, a, b, ch);
    KeepsTrans(s, e, b, Expire(e, k), ch);
  }

  // ---- The sending side

  // What the receiver holds of the sender's numbers carries over to a later sender.
  ghost predicate Later(s: Endpoint, s': Endpoint, ch: nat)
    requires WF(s) && WF(s') && ValidChannel(ch)
  {
    && s.next[ch].n <= s'.next[ch].n
    && |s.log.submitted| <= |s'.log.submitted| && s'.log.submitted[..|s.log.submitted|] == s.log.submitted
    && forall n :: Told(s.log, true, ch, n) ==> Told(s'.log, true, ch, n)
  }

  // All live numbers of the channel are within the window of the sender.
  ghost predicate InWindow(s: Endpoint, r: Endpoint, ch: nat)
    requires WF(s) && WF(r) && ValidChannel(ch)
  {
    && Live(s, ch, r.expected[ch].n)
    && (forall i :: 0 <= i < |s.tx| && TxOn(s, s.tx[i], ch) ==> Live(s, ch, s.tx[i].frag.sn.n))
    && (forall i :: 0 <= i < |r.rx| && RxOn(r, r.rx[i], ch) ==>
          Live(s, ch, r.rx[i].frag.sn.n - r.rx[i].frag.index))
    && (forall i :: 0 <= i < |r.re| && ReOn(r, r.re[i], ch) ==> Live(s, ch, r.re[i].first.n))
    && (forall i :: 0 <= i < |r.pend| && PL.On(r.pend[i], ch) ==> Live(s, ch, r.pend[i].first.n))
  }

  lemma {:induction false} ReceiverInvLater(s: Endpoint, s': Endpoint, r: Endpoint, ch: nat, done: int)
    requires WF(s) && WF(s') && WF(r) && ValidChannel(ch)
    requires ReceiverInv(s, r, ch, done) && Later(s, s', ch) && InWindow(s', r, ch)
    ensures ReceiverInv(s', r, ch, done)
    ensures forall n :: Settled(s, r, ch, n) ==> Settled(s', r, ch, n)
  {
    assert forall m :: m in s.log.submitted ==> m in s'.log.submitted;
    forall i | 0 <= i < |r.log.sent| && FromReceiver(r.log.sent[i], ch)
      ensures ReceiverPacketOk(s', r, r.log.sent[i], ch)
    {
      assert ReceiverPacketOk(s, r, r.log.sent[i], ch);
    }
    forall k | 0 <= k < |r.re| && ReOn(r, r.re[k], ch) ensures SlotGood(s', r.re[k], ch, done) {
      assert SlotGood(s, r.re[k], ch, done);
    }
    assert PendGood(s', r, ch);
    assert PassedGood(s', r, ch, done);
    assert DeliveredGood(s', r, ch, done);
  }

  // Without new numbers the window does not move.
  lemma {:induction false} WindowStays(s: Endpoint, s': Endpoint, r: Endpoint, ch: nat)
    requires WF(s) && WF(s') && WF(r) && ValidChannel(ch)
    requires SenderInv(s, ch) && ReceiverInv(s, r, ch, r.expected[ch].n)
    requires s'.next[ch] == s.next[ch] && s'.peer == s.peer && |s'.tx| == |s.tx|
    requires forall i :: 0 <= i < |s'.tx| && TxOn(s', s'.tx[i], ch) ==>
               TxOn(s, s.tx[i], ch) && s.tx[i].frag == s'.tx[i].frag
    ensures InWindow(s', r, ch)
  {
    forall i | 0 <= i < |r.re| && ReOn(r, r.re[i], ch) ensures Live(s', ch, r.re[i].first.n) {
      assert SlotGood(s, r.re[i], ch, r.expected[ch].n);
    }
  }
}
