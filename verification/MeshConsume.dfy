// The recursion consume_contiguous -> deliver_fragment -> receiver_drop_range keeps the channel
// invariant.
module MeshConsume {
  import opened Base
  import opened Serial
  import opened Slots
  import opened MeshTypes
  import opened Reliable
  import opened Handlers
  import opened MeshInvariant
  import opened MeshFrame
  import opened MeshReceive
  import PL = PendingLost

  // The expected number may jump over numbers that were reported lost.
  lemma {:induction false} JumpKeeps(s: Endpoint, e: Endpoint, ch: nat, sn: SeqNum)
    requires WF(s) && WF(e) && ValidChannel(ch)
    requires ReceiverInv(s, e, ch, e.expected[ch].n)
    requires e.expected[ch].n <= sn.n <= s.next[ch].n
    requires forall n :: e.expected[ch].n <= n < sn.n ==> Reported(s, e, ch, n)
    ensures var e' := SetExpected(e, ch, sn);
            ReceiverInv(s, e', ch, sn.n) && Keeps(s, e, e', ch)
  {
    var e' := SetExpected(e, ch, sn);
    KeepsFrom(s, e, e', ch);
    PacketsKept(s, e, e', ch);
    assert e'.log == e.log;
    forall n | 1 <= n < sn.n ensures WasPassed(e', ch, n) || Reported(s, e', ch, n) {
      assert n < e.expected[ch].n || Reported(s, e, ch, n);
      assert WasPassed(e, ch, n) ==> WasPassed(e', ch, n);
    }
    forall k | 0 <= k < |e'.re| && ReOn(e', e'.re[k], ch) ensures SlotGood(s, e'.re[k], ch, sn.n) {
      assert ReOn(e, e.re[k], ch);
      SlotGoodLater(s, e.re[k], ch, e.expected[ch].n, sn.n);
    }
    assert RxGood(s, e', ch) by {
      assert forall i :: 0 <= i < |e.rx| && RxOn(e', e'.rx[i], ch) ==> RxOn(e, e.rx[i], ch);
    }
  }

  // The expected number moves past one number not yet dealt with.
  lemma {:induction false} AdvanceKeeps(s: Endpoint, e: Endpoint, ch: nat)
    requires WF(s) && WF(e) && ValidChannel(ch)
    requires ReceiverInv(s, e, ch, e.expected[ch].n) && e.expected[ch].n < s.next[ch].n
    ensures var e' := SetExpected(e, ch, Plus(e.expected[ch], 1));
            ReceiverInv(s, e', ch, e.expected[ch].n) && Keeps(s, e, e', ch)
  {
    var e' := SetExpected(e, ch, Plus(e.expected[ch], 1));
    KeepsFrom(s, e, e', ch);
    PacketsKept(s, e, e', ch);
    assert forall n :: WasPassed(e, ch, n) ==> WasPassed(e', ch, n);
    assert forall i :: 0 <= i < |e.rx| && RxOn(e', e'.rx[i], ch) ==> RxOn(e, e.rx[i], ch);
    assert forall k :: 0 <= k < |e.re| && ReOn(e', e'.re[k], ch) ==> ReOn(e, e.re[k], ch);
  }

  // A buffered fragment whose number the expected number has passed may be taken out.
  lemma {:induction false} FreeRxKeeps(s: Endpoint, e: Endpoint, ch: nat, k: nat, done: int)
    requires WF(s) && WF(e) && ValidChannel(ch) && k < |e.rx|
    requires ReceiverInv(s, e, ch, done)
    requires RxOn(e, e.rx[k], ch) && e.rx[k].frag.sn.n < e.expected[ch].n
    ensures var e' := e.(rx := e.rx[k := RxFree]);
            ReceiverInv(s, e', ch, done) && Keeps(s, e, e', ch)
  {
    var e' := e.(rx := e.rx[k := RxFree]);
    KeepsFrom(s, e, e', ch);
    PacketsKept(s, e, e', ch);
    assert forall n :: WasPassed(e, ch, n) ==> WasPassed(e', ch, n);
    assert forall i :: 0 <= i < |e.rx| && RxOn(e', e'.rx[i], ch) ==> RxOn(e, e.rx[i], ch);
    assert forall j :: 0 <= j < |e.re| && ReOn(e', e'.re[j], ch) ==> ReOn(e, e.re[j], ch);
  }

  lemma {:induction false} TakeBufferedKeeps(s: Endpoint, e: Endpoint, ch: nat, k: nat)
    requires WF(s) && WF(e) && ValidChannel(ch) && k < |e.rx|
    requires ReceiverInv(s, e, ch, e.expected[ch].n)
    requires RxOn(e, e.rx[k], ch) && e.rx[k].frag.sn.n == e.expected[ch].n
    ensures var e' := TakeBuffered(e, ch, k);
            ReceiverInv(s, e', ch, e.expected[ch].n) && Keeps(s, e, e', ch)
  {
    AdvanceKeeps(s, e, ch);
    var m := SetExpected(e, ch, Plus(e.expected[ch], 1));
    assert RxOn(m, m.rx[k], ch);
    FreeRxKeeps(s, m, ch, k, e.expected[ch].n);
    assert TakeBuffered(e, ch, k) == m.(rx := m.rx[k := RxFree]);
    KeepsTrans(s, e, m, TakeBuffered(e, ch, k), ch);
  }

  // The pending table may be replaced by one that is good in itself.
  lemma {:induction false} ReplacePend(s: Endpoint, e: Endpoint, pend: seq<PendSlot>, ch: nat)
    requires WF(s) && WF(e) && ValidChannel(ch) && |pend| == |e.pend| && PendsOk(pend)
    requires ReceiverInv(s, e, ch, e.expected[ch].n)
    requires PendGood(s, e.(pend := pend), ch)
    ensures var e' := e.(pend := pend);
            WF(e') && ReceiverInv(s, e', ch, e.expected[ch].n) && Keeps(s, e, e', ch)
  {
    var e' := e.(pend := pend);
    KeepsFrom(s, e, e', ch);
    PacketsKept(s, e, e', ch);
    assert forall n :: WasPassed(e, ch, n) ==> WasPassed(e', ch, n);
    assert forall i :: 0 <= i < |e.rx| && RxOn(e', e'.rx[i], ch) ==> RxOn(e, e.rx[i], ch);
    assert forall j :: 0 <= j < |e.re| && ReOn(e', e'.re[j], ch) ==> ReOn(e, e.re[j], ch);
  }

  lemma {:induction false} FreePendKeeps(s: Endpoint, e: Endpoint, ch: nat, p: nat)
    requires WF(s) && WF(e) && ValidChannel(ch) && p < |e.pend|
    requires ReceiverInv(s, e, ch, e.expected[ch].n)
    ensures var e' := e.(pend := e.pend[p := PendFree]);
            ReceiverInv(s, e', ch, e.expected[ch].n) && Keeps(s, e, e', ch)
  {
    var e' := e.(pend := e.pend[p := PendFree]);
    forall n | PL.Holds(e'.pend, ch, n) ensures Reported(s, e', ch, n) {
      var i :| 0 <= i < |e'.pend| && PL.On(e'.pend[i], ch) && e'.pend[i].first.n <= n <= e'.pend[i].last.n;
      assert PL.On(e.pend[i], ch) && e.pend[i].first.n <= n <= e.pend[i].last.n;
      assert PL.Holds(e.pend, ch, n);
    }
    ReplacePend(s, e, e'.pend, ch);
  }

  lemma {:induction false} SkipPendingKeeps(s: Endpoint, e: Endpoint, ch: nat, p: nat)
    requires WF(s) && WF(e) && ValidChannel(ch) && p < |e.pend|
    requires ReceiverInv(s, e, ch, e.expected[ch].n)
    requires PendAt(ch, e.expected[ch])(e.pend[p])
    ensures var e' := SkipPending(e, ch, p);
            ReceiverInv(s, e', ch, e'.expected[ch].n) && Keeps(s, e, e', ch)
  {
    var range := e.pend[p];
    assert PL.On(range, ch);
    InRangeExact(e.expected[ch], range.first, range.last);
    forall n | e.expected[ch].n <= n < range.last.n + 1 ensures Reported(s, e, ch, n) {
      assert range.first.n <= n <= range.last.n;
      assert PL.Holds(e.pend, ch, n);
    }
    JumpKeeps(s, e, ch, Plus(range.last, 1));
    var m := SetExpected(e, ch, Plus(range.last, 1));
    FreePendKeeps(s, m, ch, p);
    assert SkipPending(e, ch, p) == m.(pend := m.pend[p := PendFree]);
    KeepsTrans(s, e, m, SkipPending(e, ch, p), ch);
  }

  // ---- receiver_drop_range

  // The beginning of a drop: slots in the range are freed and the range is reported.
  lemma {:induction false} DropStartKeeps(s: Endpoint, e: Endpoint, ch: nat, reason: Reason, first: SeqNum,
                                          last: SeqNum)
    requires WF(s) && WF(e) && ValidChannel(ch)
    requires ReceiverInv(s, e, ch, e.expected[ch].n)
    requires 1 <= first.n <= last.n < s.next[ch].n && Live(s, ch, first.n)
    ensures var d := Record(Purge(e, ch, first, last), false, ch, reason, first, last);
            && ReceiverInv(s, d, ch, e.expected[ch].n) && Keeps(s, e, d, ch)
            && d.expected == e.expected && d.pend == e.pend
            && forall n :: first.n <= n <= last.n ==> Told(d.log, false, ch, n)
  {
    var d := Record(Purge(e, ch, first, last), false, ch, reason, first, last);
    forall n | first.n <= n <= last.n ensures Told(d.log, false, ch, n) {
      assert Tells(d.log.lost[|e.log.lost|], false, ch, n);
    }
    forall i | 0 <= i < |e.rx| && RxOn(e, e.rx[i], ch)
      ensures d.rx[i] == e.rx[i] || Reported(s, d, ch, e.rx[i].frag.sn.n)
    {
      InRangeExact(e.rx[i].frag.sn, first, last);
    }
    KeepsFrom(s, e, d, ch);
    PacketsKept(s, e, d, ch);
    PurgedGood(s, e, d, ch);
    assert PendGood(s, d, ch);
    assert forall n :: WasPassed(e, ch, n) ==> WasPassed(d, ch, n);
  }

  lemma {:induction false} PurgedGood(s: Endpoint, e: Endpoint, d: Endpoint, ch: nat)
    requires WF(s) && WF(e) && WF(d) && ValidChannel(ch)
    requires RxGood(s, e, ch) && ReGood(s, e, ch, e.expected[ch].n)
    requires d.peer == e.peer && |d.rx| == |e.rx| && |d.re| == |e.re|
    requires forall i :: 0 <= i < |e.rx| ==> d.rx[i] == e.rx[i] || d.rx[i].RxFree?
    requires forall i :: 0 <= i < |e.re| ==> d.re[i] == e.re[i] || d.re[i].ReFree?
    ensures RxGood(s, d, ch) && ReGood(s, d, ch, e.expected[ch].n)
  {
    assert forall i :: 0 <= i < |e.rx| && RxOn(d, d.rx[i], ch) ==> RxOn(e, e.rx[i], ch);
    assert forall j :: 0 <= j < |e.re| && ReOn(d, d.re[j], ch) ==> ReOn(e, e.re[j], ch);
  }

  // The ranges of the channel lie around an expected number none of them holds.
  lemma {:induction false} DrainedAround(s: Endpoint, e: Endpoint, ch: nat)
    requires WF(s) && WF(e) && ValidChannel(ch)
    requires ReceiverInv(s, e, ch, e.expected[ch].n) && Drained(e, ch)
    ensures PL.Around(e.pend, ch, e.expected[ch].n)
  {
    forall i | 0 <= i < |e.pend| && PL.On(e.pend[i], ch) ensures PL.AroundMark(e.pend[i], e.expected[ch].n) {
      assert !(e.pend[i].first.n <= e.expected[ch].n <= e.pend[i].last.n);
    }
  }

  // The pending table grows by a reported range.
  lemma {:induction false} UnitedKeeps(s: Endpoint, e: Endpoint, pend: seq<PendSlot>, ch: nat, first: SeqNum,
                                       last: SeqNum)
    requires WF(s) && WF(e) && ValidChannel(ch) && |pend| == |e.pend| && PendsOk(pend)
    requires ReceiverInv(s, e, ch, e.expected[ch].n) && Drained(e, ch)
    requires e.expected[ch].n < first.n <= last.n < s.next[ch].n
    requires forall n :: first.n <= n <= last.n ==> Reported(s, e, ch, n)
    requires PL.Around(pend, ch, e.expected[ch].n) && PL.Separated(pend, ch)
    requires forall n :: PL.Holds(pend, ch, n) <==> PL.Holds(e.pend, ch, n) || first.n <= n <= last.n
    ensures var e' := e.(pend := pend);
            WF(e') && ReceiverInv(s, e', ch, e.expected[ch].n) && Drained(e', ch) && Keeps(s, e, e', ch)
  {
    var e' := e.(pend := pend);
    forall i | 0 <= i < |e'.pend| && PL.On(e'.pend[i], ch)
      ensures e'.pend[i].first.n <= e'.pend[i].last.n < s.next[ch].n && Live(s, ch, e'.pend[i].first.n)
    {
      assert PL.AroundMark(e'.pend[i], e.expected[ch].n);
      PendingBounded(s, e, e', ch, first, last, i);
    }
    forall n | PL.Holds(pend, ch, n) ensures Reported(s, e', ch, n) {
      assert PL.Holds(e.pend, ch, n) || first.n <= n <= last.n;
      assert Reported(s, e, ch, n);
      assert e'.log == e.log;
    }
    ReplacePend(s, e, pend, ch);
    assert !PL.Holds(e.pend, ch, e.expected[ch].n);
  }

  // A reported range ahead of the expected number joins the pending ones.
  lemma {:induction false} AddPendingKeeps(s: Endpoint, e: Endpoint, ch: nat, first: SeqNum, last: SeqNum)
    requires WF(s) && WF(e) && ValidChannel(ch)
    requires ReceiverInv(s, e, ch, e.expected[ch].n) && Drained(e, ch)
    requires e.expected[ch].n < first.n <= last.n < s.next[ch].n
    requires forall n :: first.n <= n <= last.n ==> Reported(s, e, ch, n)
    requires PL.Add(e.pend, ch, first, last).1
    ensures var e' := e.(pend := PL.Add(e.pend, ch, first, last).0);
            WF(e') && ReceiverInv(s, e', ch, e.expected[ch].n) && Drained(e', ch) && Keeps(s, e, e', ch)
  {
    AddKeepsOk(e.pend, ch, first, last);
    DrainedAround(s, e, ch);
    PL.AddIsUnion(e.pend, ch, first, last, e.expected[ch].n);
    UnitedKeeps(s, e, PL.Add(e.pend, ch, first, last).0, ch, first, last);
  }

  // Both ends of a range are numbers it holds, so they are bounded as the numbers are.
  lemma {:induction false} PendingBounded(s: Endpoint, e: Endpoint, e': Endpoint, ch: nat, first: SeqNum,
                                          last: SeqNum, i: nat)
    requires WF(s) && WF(e) && WF(e') && ValidChannel(ch) && PendGood(s, e, ch)
    requires Live(s, ch, first.n) && last.n < s.next[ch].n
    requires forall n :: PL.Holds(e'.pend, ch, n) <==> PL.Holds(e.pend, ch, n) || first.n <= n <= last.n
    requires i < |e'.pend| && PL.On(e'.pend[i], ch) && e'.pend[i].first.n <= e'.pend[i].last.n
    ensures e'.pend[i].last.n < s.next[ch].n && Live(s, ch, e'.pend[i].first.n)
  {
    var lo, hi := e'.pend[i].first.n, e'.pend[i].last.n;
    assert PL.Holds(e'.pend, ch, lo) && PL.Holds(e'.pend, ch, hi);
    if PL.Holds(e.pend, ch, lo) {
      var k :| 0 <= k < |e.pend| && PL.On(e.pend[k], ch) && e.pend[k].first.n <= lo <= e.pend[k].last.n;
    }
    if PL.Holds(e.pend, ch, hi) {
      var k :| 0 <= k < |e.pend| && PL.On(e.pend[k], ch) && e.pend[k].first.n <= hi <= e.pend[k].last.n;
    }
  }

  // The report of a drop says what was recorded.
  lemma {:induction false} ReportKeeps(s: Endpoint, e: Endpoint, ch: nat, reason: Reason, first: SeqNum,
                                       last: SeqNum, b: Binding)
    requires WF(s) && WF(e) && ValidChannel(ch)
    requires ReceiverInv(s, e, ch, e.expected[ch].n)
    requires 1 <= first.n <= last.n < s.next[ch].n
    requires forall n :: first.n <= n <= last.n ==> Told(e.log, false, ch, n)
    ensures var e' := Send(e, Lost(b, ch, reason, true, first, last));
            && ReceiverInv(s, e', ch, e'.expected[ch].n) && Keeps(s, e, e', ch)
            && (Drained(e, ch) ==> Drained(e', ch))
  {
    ThenSendKeeps(s, e, Lost(b, ch, reason, true, first, last), ch, e.expected[ch].n);
  }

  // A drop of a range that holds the expected number or lies behind it.
  lemma {:induction false} DropBehindKeeps(s: Endpoint, e: Endpoint, ch: nat, reason: Reason, first: SeqNum,
                                           last: SeqNum)
    requires WF(s) && WF(e) && ValidChannel(ch) && SenderInv(s, ch)
    requires ReceiverInv(s, e, ch, e.expected[ch].n)
    requires 1 <= first.n <= last.n < s.next[ch].n && Live(s, ch, first.n)
    requires first.n <= e.expected[ch].n
    ensures var e' := Drop(e, ch, reason, first, last);
            ReceiverInv(s, e', ch, e'.expected[ch].n) && Keeps(s, e, e', ch)
    decreases Measure(e), 1
  {
    var d := Record(Purge(e, ch, first, last), false, ch, reason, first, last);
    DropStartKeeps(s, e, ch, reason, first, last);
    InRangeExact(e.expected[ch], first, last);
    BeforeExact(e.expected[ch], first);
    if InRange(d.expected[ch], first, last) {
      JumpKeeps(s, d, ch, Plus(last, 1));
      var m := SetExpected(d, ch, Plus(last, 1));
      ConsumeKeeps(s, m, ch);
      var c := Consume(m, ch);
      ReportKeeps(s, c, ch, reason, first, last, e.binding);
      KeepsTrans(s, e, d, m, ch);
      KeepsTrans(s, e, m, c, ch);
      KeepsTrans(s, e, c, Drop(e, ch, reason, first, last), ch);
    } else {
      ReportKeeps(s, d, ch, reason, first, last, e.binding);
      KeepsTrans(s, e, d, Drop(e, ch, reason, first, last), ch);
    }
  }

  // deliver_fragment
  lemma {:induction false} DeliverKeeps(s: Endpoint, e: Endpoint, f: Frag)
    requires WF(s) && WF(e) && FragOk(f) && SenderInv(s, f.channel)
    requires e.expected[f.channel].n == f.sn.n + 1 && JustPassed(e, f)
    requires ReceiverInv(s, e, f.channel, f.sn.n) && Genuine(s.log, f)
    requires Live(s, f.channel, f.sn.n - f.index)
    ensures var e' := Deliver(e, f);
            ReceiverInv(s, e', f.channel, e'.expected[f.channel].n) && Keeps(s, e, e', f.channel)
    decreases Measure(e), 2
  {
    hide Keeps, RxGood, PendGood, PassedGood, Accounted, ReGood, ReceiverPacketsOk, Store, FindRe, Drop, Before;
    var ch := f.channel;
    var e1 := e.(log := e.log.(passed := e.log.passed + [f]));
    NotePassed(s, e, f);
    assert DeliveredGood(s, e1, ch, f.sn.n);
    if f.count <= 1 {
      HandUpSingle(s, e1, f);
      KeepsTrans(s, e, e1, Deliver(e, f), ch);
    } else {
      var k := FindRe(e1, f);
      if k < |e1.re| {
        StoreKeeps(s, e1, f);
        KeepsTrans(s, e, e1, Deliver(e, f), ch);
      } else {
        DropStaysBehind(e1, f);
        MessageBelow(s, Msg(ch, f.sn.n - f.index, f.stream, f.msg));
        DropBehindKeeps(s, e1, ch, Overflow, FirstSn(f), LastSn(f));
        KeepsTrans(s, e, e1, Deliver(e, f), ch);
      }
    }
  }

  // consume_contiguous; afterwards no pending range holds the expected number
  lemma {:induction false} ConsumeKeeps(s: Endpoint, e: Endpoint, ch: nat)
    requires WF(s) && WF(e) && ValidChannel(ch) && SenderInv(s, ch)
    requires ReceiverInv(s, e, ch, e.expected[ch].n)
    ensures var e' := Consume(e, ch);
            ReceiverInv(s, e', ch, e'.expected[ch].n) && Drained(e', ch) && Keeps(s, e, e', ch)
    decreases Measure(e), 0
  {
    hide Keeps, PendGood, PassedGood, Accounted, ReGood, DeliveredGood, ReceiverPacketsOk, Deliver, Count, InRange;
    var p := First(e.pend, PendAt(ch, e.expected[ch]));
    if p < |e.pend| {
      CountUpdate(e.pend, PendAny(), p, PendFree);
      SkipPendingKeeps(s, e, ch, p);
      var m := SkipPending(e, ch, p);
      ConsumeKeeps(s, m, ch);
      KeepsTrans(s, e, m, Consume(m, ch), ch);
    } else {
      var k := First(e.rx, RxAt(e.peer, ch, e.expected[ch]));
      if k == |e.rx| {
        NoPendingMeansDrained(s, e, ch);
        KeepsFrom(s, e, e, ch);
      } else {
        CountUpdate(e.rx, RxAny(), k, RxFree);
        var f := e.rx[k].frag;
        assert RxOn(e, e.rx[k], ch);
        SameExact(f.sn, e.expected[ch]);
        TakeBufferedKeeps(s, e, ch, k);
        var m := TakeBuffered(e, ch, k);
        DeliverKeeps(s, m, f);
        var d := Deliver(m, f);
        ConsumeKeeps(s, d, ch);
        KeepsTrans(s, e, m, d, ch);
        KeepsTrans(s, e, d, Consume(d, ch), ch);
      }
    }
  }

  lemma {:induction false} NoPendingMeansDrained(s: Endpoint, e: Endpoint, ch: nat)
    requires WF(s) && WF(e) && ValidChannel(ch)
    requires ReceiverInv(s, e, ch, e.expected[ch].n)
    requires forall i :: 0 <= i < |e.pend| ==> !PendAt(ch, e.expected[ch])(e.pend[i])
    ensures Drained(e, ch)
  {
    forall i | 0 <= i < |e.pend| && PL.On(e.pend[i], ch)
      ensures !(e.pend[i].first.n <= e.expected[ch].n <= e.pend[i].last.n)
    {
      InRangeExact(e.expected[ch], e.pend[i].first, e.pend[i].last);
      assert !PendAt(ch, e.expected[ch])(e.pend[i]);
    }
  }

  // A drop of a range ahead of the expected number: it is reported and waits in the table; when the
  // table is full the epoch ends.
  lemma {:induction false} DropAheadKeeps(s: Endpoint, e: Endpoint, ch: nat, reason: Reason, first: SeqNum,
                                          last: SeqNum)
    requires WF(s) && WF(e) && ValidChannel(ch) && SenderInv(s, ch)
    requires ReceiverInv(s, e, ch, e.expected[ch].n) && Drained(e, ch)
    requires e.expected[ch].n < first.n <= last.n < s.next[ch].n
    ensures var e' := Drop(e, ch, reason, first, last);
            e'.ready ==>
              ReceiverInv(s, e', ch, e'.expected[ch].n) && Drained(e', ch) && Keeps(s, e, e', ch)
  {
    var d := Record(Purge(e, ch, first, last), false, ch, reason, first, last);
    DropStartKeeps(s, e, ch, reason, first, last);
    InRangeExact(e.expected[ch], first, last);
    BeforeExact(e.expected[ch], first);
    if PL.Add(d.pend, ch, first, last).1 {
      AddPendingKeeps(s, d, ch, first, last);
      var m := d.(pend := PL.Add(d.pend, ch, first, last).0);
      ReportKeeps(s, m, ch, reason, first, last, e.binding);
      KeepsTrans(s, e, d, m, ch);
      KeepsTrans(s, e, m, Drop(e, ch, reason, first, last), ch);
    }
  }
}
