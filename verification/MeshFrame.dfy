// An operation on one channel and role leaves every other channel and the other role alone.
module MeshFrame {
  import opened Base
  import opened Serial
  import opened Slots
  import opened MeshTypes
  import opened Reliable
  import opened Handlers
  import opened MeshInvariant
  import PL = PendingLost

  lemma {:induction false} StoreFrame(e: Endpoint, k: nat, f: Frag)
    requires WF(e) && k < |e.re| && FragOk(f)
    requires e.re[k].ReUsed? ==> ReOn(e, e.re[k], f.channel)
    ensures ReceiverStep(e, Store(e, k, f), f.channel)
  {
  }

  lemma {:induction false} FindReOn(e: Endpoint, f: Frag)
    requires FindRe(e, f) < |e.re| && e.re[FindRe(e, f)].ReUsed?
    ensures ReOn(e, e.re[FindRe(e, f)], f.channel)
  {
    assert ReKey(e.peer, f.channel, f.stream)(e.re[FindRe(e, f)]);
  }

  lemma {:induction false} PurgeFrame(e: Endpoint, ch: nat, first: SeqNum, last: SeqNum)
    requires WF(e) && ValidChannel(ch)
    ensures ReceiverStep(e, Purge(e, ch, first, last), ch)
  {
  }

  lemma {:induction false} RecordFrame(e: Endpoint, ch: nat, reason: Reason, first: SeqNum, last: SeqNum)
    ensures ReceiverStep(e, Record(e, false, ch, reason, first, last), ch)
    ensures SenderStep(e, Record(e, true, ch, reason, first, last), ch)
  {
  }

  lemma {:induction false} SendFrame(e: Endpoint, p: Packet, ch: nat)
    ensures FromReceiver(p, ch) ==> ReceiverStep(e, Send(e, p), ch)
    ensures FromSender(p, ch) ==> SenderStep(e, Send(e, p), ch)
  {
  }

  lemma {:induction false} JoinFrame(pend: seq<PendSlot>, i: nat, j: nat)
    requires i < |pend| && j <= |pend| && pend[i].PendUsed?
    ensures PL.OthersKept(pend, PL.JoinFrom(pend, i, j), pend[i].channel)
    decreases |pend| - j
  {
    if j < |pend| {
      if j != i && PL.TouchedBy(pend[i].channel, pend[i].first, pend[i].last)(pend[j]) {
        JoinFrame(pend[i := PL.Hull(pend[i], pend[j].first, pend[j].last)][j := PendFree], i, j + 1);
      } else {
        JoinFrame(pend, i, j + 1);
      }
    }
  }

  lemma {:induction false} MergeFrame(pend: seq<PendSlot>, ch: nat, f: SeqNum, l: SeqNum, passes: nat)
    ensures PL.OthersKept(pend, PL.Merge(pend, ch, f, l, passes).0, ch)
    decreases passes
  {
    if passes > 0 {
      var i := First(pend, PL.TouchedBy(ch, f, l));
      if i < |pend| {
        var widened := pend[i := PL.Hull(pend[i], f, l)];
        JoinFrame(widened, i, 0);
        var joined := PL.JoinFrom(widened, i, 0);
        MergeFrame(joined, ch, joined[i].first, joined[i].last, passes - 1);
      }
    }
  }

  lemma {:induction false} AddFrame(pend: seq<PendSlot>, ch: nat, f: SeqNum, l: SeqNum)
    ensures PL.OthersKept(pend, PL.Add(pend, ch, f, l).0, ch)
  {
    MergeFrame(pend, ch, f, l, |pend|);
    var m := PL.Merge(pend, ch, f, l, |pend|);
    PlaceFrame(m.0, ch, m.1, m.2);
  }

  lemma {:induction false} PlaceFrame(pend: seq<PendSlot>, ch: nat, f: SeqNum, l: SeqNum)
    ensures PL.OthersKept(pend, PL.Place(pend, ch, f, l).0, ch)
  {
  }

  lemma {:induction false} DeliverFrame(e: Endpoint, f: Frag)
    requires WF(e) && FragOk(f) && JustPassed(e, f)
    ensures ReceiverStep(e, Deliver(e, f), f.channel)
    decreases Measure(e), 2
  {
    hide Store, FindRe, Drop, Before, InRange, Count;
    var e1 := e.(log := e.log.(passed := e.log.passed + [f]));
    assert ReceiverStep(e, e1, f.channel);
    if f.count > 1 {
      var k := FindRe(e1, f);
      if k < |e1.re| {
        if e1.re[k].ReUsed? {
          FindReOn(e1, f);
        }
        StoreFrame(e1, k, f);
        ReceiverStepTrans(e, e1, Store(e1, k, f), f.channel);
      } else {
        DropStaysBehind(e1, f);
        DropFrame(e1, f.channel, Overflow, FirstSn(f), LastSn(f));
        ReceiverStepTrans(e, e1, Deliver(e, f), f.channel);
      }
    }
  }

  lemma {:induction false} SetExpectedFrame(e: Endpoint, ch: nat, sn: SeqNum)
    requires WF(e) && ValidChannel(ch)
    ensures ReceiverStep(e, SetExpected(e, ch, sn), ch)
  {
  }

  lemma {:induction false} SkipPendingFrame(e: Endpoint, ch: nat, p: nat)
    requires WF(e) && ValidChannel(ch) && p < |e.pend| && PL.On(e.pend[p], ch)
    ensures ReceiverStep(e, SkipPending(e, ch, p), ch)
  {
  }

  lemma {:induction false} TakeBufferedFrame(e: Endpoint, ch: nat, k: nat)
    requires WF(e) && ValidChannel(ch) && k < |e.rx| && RxOn(e, e.rx[k], ch)
    ensures ReceiverStep(e, TakeBuffered(e, ch, k), ch)
  {
  }

  lemma {:induction false} AddPendingFrame(e: Endpoint, ch: nat, first: SeqNum, last: SeqNum)
    requires WF(e) && ValidChannel(ch)
    ensures ReceiverStep(e, e.(pend := PL.Add(e.pend, ch, first, last).0), ch)
  {
    AddFrame(e.pend, ch, first, last);
  }

  lemma {:induction false} DropStartFrame(e: Endpoint, ch: nat, reason: Reason, first: SeqNum, last: SeqNum)
    requires WF(e) && ValidChannel(ch)
    ensures ReceiverStep(e, Record(Purge(e, ch, first, last), false, ch, reason, first, last), ch)
  {
    var a := Purge(e, ch, first, last);
    PurgeFrame(e, ch, first, last);
    RecordFrame(a, ch, reason, first, last);
    ReceiverStepTrans(e, a, Record(a, false, ch, reason, first, last), ch);
  }

  // `b` was reached from `a`; one more packet on the way out.
  lemma {:induction false} ThenSend(a: Endpoint, b: Endpoint, p: Packet, ch: nat)
    requires ReceiverStep(a, b, ch) && FromReceiver(p, ch)
    ensures ReceiverStep(a, Send(b, p), ch)
  {
    SendFrame(b, p, ch);
    ReceiverStepTrans(a, b, Send(b, p), ch);
  }

  lemma {:induction false} DropFrame(e: Endpoint, ch: nat, reason: Reason, first: SeqNum, last: SeqNum)
    requires WF(e) && ValidChannel(ch)
    ensures Drop(e, ch, reason, first, last).ready ==>
              ReceiverStep(e, Drop(e, ch, reason, first, last), ch)
    ensures !Before(e.expected[ch], first) || InRange(e.expected[ch], first, last) ==>
              ReceiverStep(e, Drop(e, ch, reason, first, last), ch)
    decreases Measure(e), 1
  {
    var d := Record(Purge(e, ch, first, last), false, ch, reason, first, last);
    DropStartFrame(e, ch, reason, first, last);
    var report := Lost(e.binding, ch, reason, true, first, last);
    assert FromReceiver(report, ch);
    if InRange(d.expected[ch], first, last) {
      JumpFrame(d, ch, Plus(last, 1));
      var c := Consume(SetExpected(d, ch, Plus(last, 1)), ch);
      ReceiverStepTrans(e, d, c, ch);
      ThenSend(e, c, report, ch);
    } else if Before(d.expected[ch], first) {
      if PL.Add(d.pend, ch, first, last).1 {
        AddPendingFrame(d, ch, first, last);
        var m := d.(pend := PL.Add(d.pend, ch, first, last).0);
        ReceiverStepTrans(e, d, m, ch);
        ThenSend(e, m, report, ch);
      }
    } else {
      ThenSend(e, d, report, ch);
    }
  }

  lemma {:induction false} JumpFrame(e: Endpoint, ch: nat, sn: SeqNum)
    requires WF(e) && ValidChannel(ch)
    ensures ReceiverStep(e, Consume(SetExpected(e, ch, sn), ch), ch)
    decreases Measure(e), 0, 1
  {
    var m := SetExpected(e, ch, sn);
    SetExpectedFrame(e, ch, sn);
    ConsumeFrame(m, ch);
    ReceiverStepTrans(e, m, Consume(m, ch), ch);
  }

  lemma {:induction false} SameFrame(e: Endpoint, ch: nat)
    ensures ReceiverStep(e, e, ch)
  {
  }

  lemma {:induction false} ConsumeFrame(e: Endpoint, ch: nat)
    requires WF(e) && ValidChannel(ch)
    ensures ReceiverStep(e, Consume(e, ch), ch)
    decreases Measure(e), 0, 0
  {
    hide ReceiverStep, Deliver, InRange, Count;
    var p := First(e.pend, PendAt(ch, e.expected[ch]));
    if p < |e.pend| {
      CountUpdate(e.pend, PendAny(), p, PendFree);
      SkipPendingFrame(e, ch, p);
      var m := SkipPending(e, ch, p);
      ConsumeFrame(m, ch);
      ReceiverStepTrans(e, m, Consume(m, ch), ch);
    } else {
      var k := First(e.rx, RxAt(e.peer, ch, e.expected[ch]));
      if k < |e.rx| {
        CountUpdate(e.rx, RxAny(), k, RxFree);
        TakeBufferedFrame(e, ch, k);
        var m := TakeBuffered(e, ch, k);
        DeliverFrame(m, e.rx[k].frag);
        var d := Deliver(m, e.rx[k].frag);
        ConsumeFrame(d, ch);
        ReceiverStepTrans(m, d, Consume(d, ch), ch);
        ReceiverStepTrans(e, m, Consume(d, ch), ch);
      } else {
        assert Consume(e, ch) == e;
        SameFrame(e, ch);
      }
    }
  }
}
