// What a direction of a channel sees of either end, and that the invariant reads nothing else.
module MeshViews {
  import opened Base
  import opened Serial
  import opened Slots
  import opened MeshTypes
  import opened Reliable
  import opened Handlers
  import opened MeshInvariant
  import opened MeshFrame
  import opened MeshReceive
  import opened MeshHandlers
  import opened MeshSend
  import PL = PendingLost

  ghost predicate SenderViewSame(e: Endpoint, e': Endpoint, c: nat)
    requires ValidChannel(c) && WF(e) && WF(e')
  {
    && e'.peer == e.peer && e'.next[c] == e.next[c]
    && |e'.tx| == |e.tx|
    && (forall i :: 0 <= i < |e.tx| && (TxOn(e, e.tx[i], c) || TxOn(e', e'.tx[i], c)) ==> e'.tx[i] == e.tx[i])
    && Extends(e.log.submitted, e'.log.submitted, (m: Msg) => m.channel != c)
    && Extends(e.log.sent, e'.log.sent, p => !FromSender(p, c))
    && Extends(e.log.lost, e'.log.lost, (v: LostEvent) => !v.asSender || v.channel != c)
  }

  ghost predicate ReceiverViewSame(e: Endpoint, e': Endpoint, c: nat)
    requires ValidChannel(c) && WF(e) && WF(e')
  {
    && e'.peer == e.peer && e'.expected[c] == e.expected[c]
    && |e'.rx| == |e.rx|
    && (forall i :: 0 <= i < |e.rx| && (RxOn(e, e.rx[i], c) || RxOn(e', e'.rx[i], c)) ==> e'.rx[i] == e.rx[i])
    && |e'.re| == |e.re|
    && (forall i :: 0 <= i < |e.re| && (ReOn(e, e.re[i], c) || ReOn(e', e'.re[i], c)) ==> e'.re[i] == e.re[i])
    && (forall i :: 0 <= i < |e.pend| && (PL.On(e.pend[i], c) || PL.On(e'.pend[i], c)) ==> e'.pend[i] == e.pend[i])
    && Extends(e.log.sent, e'.log.sent, p => !FromReceiver(p, c))
    && Extends(e.log.lost, e'.log.lost, (v: LostEvent) => v.asSender || v.channel != c)
    && Extends(e.log.passed, e'.log.passed, (f: Frag) => f.channel != c)
    && Extends(e.log.delivered, e'.log.delivered, (d: Delivery) => d.channel != c)
  }

  lemma {:induction false} ReceiverStepViews(e: Endpoint, e': Endpoint, ch: nat, c: nat)
    requires WF(e) && WF(e') && ValidChannel(c) && ReceiverStep(e, e', ch)
    ensures SenderViewSame(e, e', c)
    ensures c != ch ==> ReceiverViewSame(e, e', c)
  {
  }

  lemma {:induction false} SenderStepViews(e: Endpoint, e': Endpoint, ch: nat, c: nat)
    requires WF(e) && WF(e') && ValidChannel(c) && SenderStep(e, e', ch)
    ensures ReceiverViewSame(e, e', c)
    ensures c != ch ==> SenderViewSame(e, e', c)
  {
  }

  // ---- The invariant reads nothing but the views

  lemma {:induction false} ToldSame(a: seq<LostEvent>, b: seq<LostEvent>, l: Log, l': Log, asSender: bool, c: nat)
    requires l.lost == a && l'.lost == b
    requires Extends(a, b, (v: LostEvent) => v.asSender != asSender || v.channel != c)
    ensures forall n :: Told(l, asSender, c, n) <==> Told(l', asSender, c, n)
  {
    forall n ensures Told(l, asSender, c, n) <==> Told(l', asSender, c, n) {
      if Told(l, asSender, c, n) {
        var i :| 0 <= i < |a| && Tells(a[i], asSender, c, n);
        assert b[i] == a[i];
      }
      if Told(l', asSender, c, n) {
        var i :| 0 <= i < |b| && Tells(b[i], asSender, c, n);
        assert a[i] == b[i];
      }
    }
  }

  lemma {:induction false} SenderInvSame(s: Endpoint, s': Endpoint, c: nat)
    requires WF(s) && WF(s') && ValidChannel(c) && SenderViewSame(s, s', c) && SenderInv(s, c)
    ensures SenderInv(s', c)
  {
    ToldSame(s.log.lost, s'.log.lost, s.log, s'.log, true, c);
    forall i | 0 <= i < |s'.log.sent| && FromSender(s'.log.sent[i], c)
      ensures SenderPacketOk(s', s'.log.sent[i], c)
    {
      assert s'.log.sent[i] == s.log.sent[i];
      assert SenderPacketOk(s, s.log.sent[i], c);
    }
    forall i | 0 <= i < |s'.log.submitted| && s'.log.submitted[i].channel == c
      ensures i < |s.log.submitted| && s'.log.submitted[i] == s.log.submitted[i]
    {
    }
    assert MsgsOk(s', c);
    forall i | 0 <= i < |s'.tx| && TxOn(s', s'.tx[i], c)
      ensures Genuine(s'.log, s'.tx[i].frag)
    {
      assert TxOn(s, s.tx[i], c);
    }
  }

  lemma {:induction false} ReceiverInvOtherSender(s: Endpoint, s': Endpoint, r: Endpoint, c: nat)
    requires WF(s) && WF(s') && WF(r) && ValidChannel(c) && SenderViewSame(s, s', c) && DirInv(s, r, c)
    ensures DirInv(s', r, c)
  {
    SenderInvSame(s, s', c);
    ToldSame(s.log.lost, s'.log.lost, s.log, s'.log, true, c);
    assert Later(s, s', c);
    WindowStays(s, s', r, c);
    ReceiverInvLater(s, s', r, c, r.expected[c].n);
    forall n | 1 <= n < s'.next[c].n ensures InSlot(s', c, n) || Settled(s', r, c, n) {
      if InSlot(s, c, n) {
        var i :| 0 <= i < |s.tx| && TxOn(s, s.tx[i], c) && s.tx[i].frag.sn.n == n;
        assert TxOn(s', s'.tx[i], c);
      }
    }
  }

  lemma {:induction false} SettledSame(s: Endpoint, r: Endpoint, r': Endpoint, c: nat)
    requires WF(r) && WF(r') && ValidChannel(c) && ReceiverViewSame(r, r', c)
    ensures forall n :: Settled(s, r, c, n) ==> Settled(s, r', c, n)
    ensures forall n :: Reported(s, r, c, n) ==> Reported(s, r', c, n)
  {
    ToldSame(r.log.lost, r'.log.lost, r.log, r'.log, false, c);
    forall n | Buffered(r, c, n) ensures Buffered(r', c, n) {
      var i :| 0 <= i < |r.rx| && RxOn(r, r.rx[i], c) && r.rx[i].frag.sn.n == n;
      assert RxOn(r', r'.rx[i], c);
    }
  }

  lemma {:induction false} HistorySame(s: Endpoint, r: Endpoint, r': Endpoint, c: nat, done: int)
    requires WF(s) && WF(r) && WF(r') && ValidChannel(c) && ReceiverViewSame(r, r', c)
    requires PassedGood(s, r, c, done) && Accounted(s, r, c, done) && DeliveredGood(s, r, c, done)
    ensures PassedGood(s, r', c, done) && Accounted(s, r', c, done) && DeliveredGood(s, r', c, done)
  {
    SettledSame(s, r, r', c);
    assert forall i :: 0 <= i < |r'.log.passed| && r'.log.passed[i].channel == c ==>
             i < |r.log.passed| && r'.log.passed[i] == r.log.passed[i];
    assert forall i :: 0 <= i < |r'.log.delivered| && r'.log.delivered[i].channel == c ==>
             i < |r.log.delivered| && r'.log.delivered[i] == r.log.delivered[i];
    forall n | 1 <= n < done ensures WasPassed(r', c, n) || Reported(s, r', c, n) {
      if WasPassed(r, c, n) {
        var i :| 0 <= i < |r.log.passed| && r.log.passed[i].channel == c && r.log.passed[i].sn.n == n;
        assert r'.log.passed[i] == r.log.passed[i];
      }
    }
  }

  lemma {:induction false} TablesSame(s: Endpoint, r: Endpoint, r': Endpoint, c: nat, done: int)
    requires WF(s) && WF(r) && WF(r') && ValidChannel(c) && ReceiverViewSame(r, r', c)
    requires RxGood(s, r, c) && ReGood(s, r, c, done) && PendGood(s, r, c)
    ensures RxGood(s, r', c) && ReGood(s, r', c, done) && PendGood(s, r', c)
    ensures forall n :: PL.Holds(r'.pend, c, n) ==> PL.Holds(r.pend, c, n)
  {
    SettledSame(s, r, r', c);
    assert forall i :: 0 <= i < |r'.rx| && RxOn(r', r'.rx[i], c) ==> RxOn(r, r.rx[i], c);
    assert forall i :: 0 <= i < |r'.re| && ReOn(r', r'.re[i], c) ==> ReOn(r, r.re[i], c);
    forall n | PL.Holds(r'.pend, c, n) ensures PL.Holds(r.pend, c, n) {
      var i :| 0 <= i < |r'.pend| && PL.On(r'.pend[i], c) && r'.pend[i].first.n <= n <= r'.pend[i].last.n;
      assert PL.On(r.pend[i], c);
    }
    assert PL.Separated(r'.pend, c);
  }

  lemma {:induction false} DirInvOtherReceiver(s: Endpoint, r: Endpoint, r': Endpoint, c: nat)
    requires WF(s) && WF(r) && WF(r') && ValidChannel(c) && ReceiverViewSame(r, r', c) && DirInv(s, r, c)
    ensures DirInv(s, r', c)
  {
    SettledSame(s, r, r', c);
    HistorySame(s, r, r', c, r.expected[c].n);
    TablesSame(s, r, r', c, r.expected[c].n);
    ToldSame(r.log.lost, r'.log.lost, r.log, r'.log, false, c);
    forall i | 0 <= i < |r'.log.sent| && FromReceiver(r'.log.sent[i], c)
      ensures ReceiverPacketOk(s, r', r'.log.sent[i], c)
    {
      assert r'.log.sent[i] == r.log.sent[i];
      assert ReceiverPacketOk(s, r, r.log.sent[i], c);
    }
  }

  // The receiver's own step on the channel, given that it kept what it must.
  lemma {:induction false} DirInvReceived(s: Endpoint, r: Endpoint, r': Endpoint, ch: nat)
    requires WF(s) && WF(r) && WF(r') && ValidChannel(ch) && DirInv(s, r, ch)
    requires ReceiverInv(s, r', ch, r'.expected[ch].n) && Drained(r', ch) && Keeps(s, r, r', ch)
    ensures DirInv(s, r', ch)
  {
  }
}
