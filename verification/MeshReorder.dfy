// What becomes of one DATA packet: which numbers the receiver has afterwards, what it passed on, what it
// reported lost, and what it answered.
module MeshReorder {
  import opened Base
  import opened Serial
  import opened Slots
  import opened MeshTypes
  import opened Reliable
  import opened Handlers
  import opened MeshInvariant
  import opened MeshReceive
  import opened MeshConsume
  import opened MeshHandlers
  import opened MeshAccount
  import PL = PendingLost

  // ---- Room

  // The rx slots the peer owns.
  ghost function OwnRx(e: Endpoint): set<int> {
    set i | 0 <= i < |e.rx| && e.rx[i].RxUsed? && e.rx[i].peer == e.peer
  }

  ghost predicate RxRoom(e: Endpoint) {
    |OwnRx(e)| < e.cfg.perPeerRx && exists i :: 0 <= i < |e.rx| && e.rx[i].RxFree?
  }

  lemma {:induction false} RxAllocExactly(e: Endpoint)
    ensures RxAlloc(e) < |e.rx| <==> RxRoom(e)
  {
    CountIsSize(e.rx, RxMine(e.peer));
    assert OwnRx(e) == Where(e.rx, RxMine(e.peer));
    var k := First(e.rx, RxVacant());
    forall i | 0 <= i < k ensures !e.rx[i].RxFree? {
      assert !RxVacant()(e.rx[i]);
    }
  }

  // The reassembly slots the peer owns.
  ghost function OwnRe(e: Endpoint): set<int> {
    set i | 0 <= i < |e.re| && e.re[i].ReUsed? && e.re[i].peer == e.peer
  }

  ghost predicate ReRoom(e: Endpoint) {
    |OwnRe(e)| < e.cfg.perPeerRe && exists i :: 0 <= i < |e.re| && e.re[i].ReFree?
  }

  // Slot i collects the fragment's stream; it is of the fragment's message when it has its size and place.
  ghost predicate OfStream(e: Endpoint, f: Frag, i: int) {
    0 <= i < |e.re| && ReOn(e, e.re[i], f.channel) && e.re[i].stream == f.stream
  }

  ghost predicate OfMessage(e: Endpoint, f: Frag, i: int) {
    OfStream(e, f, i) && e.re[i].count == f.count && e.re[i].first.n == f.sn.n - f.index
  }

  // A fragment of a longer message has a place: its message has a slot, or there is room to open one.
  lemma {:induction false} FindReExactly(s: Endpoint, e: Endpoint, f: Frag, done: int)
    requires WF(s) && WF(e) && FragOk(f) && OnePerStream(e, f.channel) && ReGood(s, e, f.channel, done)
    requires MsgsOk(s, f.channel) && Live(s, f.channel, f.sn.n - f.index) && f.sn.n < s.next[f.channel].n
    ensures var k := FindRe(e, f);
            && (k < |e.re| <==> (exists i :: OfMessage(e, f, i)) ||
                                ((forall i :: !OfStream(e, f, i)) && ReRoom(e)))
            && (forall i :: OfMessage(e, f, i) ==> k == i)
            && ((forall i :: !OfStream(e, f, i)) && k < |e.re| ==> e.re[k].ReFree?)
  {
    var k := First(e.re, ReKey(e.peer, f.channel, f.stream));
    forall i | 0 <= i < |e.re| ensures OfStream(e, f, i) <==> ReKey(e.peer, f.channel, f.stream)(e.re[i]) {
    }
    if k < |e.re| {
      assert OfStream(e, f, k) && forall i :: OfStream(e, f, i) ==> i == k;
      assert SlotGood(s, e.re[k], f.channel, done);
      MessageBelow(s, Msg(f.channel, e.re[k].first.n, e.re[k].stream, e.re[k].msg));
      SameExact(e.re[k].first, FirstSn(f));
      assert FindRe(e, f) < |e.re| <==> OfMessage(e, f, k);
    } else {
      CountIsSize(e.re, ReMine(e.peer));
      assert OwnRe(e) == Where(e.re, ReMine(e.peer));
      var v := First(e.re, ReVacant());
      forall i | 0 <= i < v ensures !e.re[i].ReFree? {
        assert !ReVacant()(e.re[i]);
      }
      assert forall i :: !OfStream(e, f, i);
    }
  }

  // ---- Answers

  // The acknowledgement tells the state it was sent in: all below the expected number, and in its bitmap just
  // the buffered numbers among the 32 from there on.
  ghost predicate Answers(e: Endpoint, q: Packet, ch: nat, nack: bool)
    requires WF(e) && ValidChannel(ch)
  {
    && q.Ack? && q.binding == e.binding && q.channel == ch && q.ack.n == e.expected[ch].n - 1
    && (forall b: nat :: b in q.sack <==> b < 32 && Buffered(e, ch, e.expected[ch].n + b))
    && q.isNack == nack && (nack ==> q.nack == e.expected[ch])
  }

  // One packet more was sent, and it is such an answer.
  ghost predicate Answered(e: Endpoint, e': Endpoint, ch: nat, nack: bool)
    requires WF(e') && ValidChannel(ch)
  {
    && |e'.log.sent| == |e.log.sent| + 1 && e'.log.sent[..|e.log.sent|] == e.log.sent
    && Answers(e', e'.log.sent[|e.log.sent|], ch, nack)
  }

  lemma {:induction false} SackExact(e: Endpoint, ch: nat, bits: nat)
    requires WF(e) && ValidChannel(ch) && bits <= WINDOW
    requires forall i :: 0 <= i < |e.rx| && RxOn(e, e.rx[i], ch) ==>
               e.expected[ch].n - HALF < e.rx[i].frag.sn.n < e.expected[ch].n + HALF
    ensures forall b: nat :: b in SackBits(e, ch, bits) <==> b < bits && Buffered(e, ch, e.expected[ch].n + b)
  {
    if bits > 0 {
      SackExact(e, ch, bits - 1);
      var sn := Plus(e.expected[ch], bits - 1);
      BufferedExactly(e, ch, sn);
    }
  }

  // The search finds a number exactly when it is buffered.
  lemma {:induction false} BufferedExactly(e: Endpoint, ch: nat, sn: SeqNum)
    requires forall i :: 0 <= i < |e.rx| && RxOn(e, e.rx[i], ch) ==> sn.n - MOD < e.rx[i].frag.sn.n < sn.n + MOD
    ensures First(e.rx, RxAt(e.peer, ch, sn)) < |e.rx| <==> Buffered(e, ch, sn.n)
  {
    var k := First(e.rx, RxAt(e.peer, ch, sn));
    forall i | 0 <= i < |e.rx|
      ensures RxAt(e.peer, ch, sn)(e.rx[i]) <==> RxOn(e, e.rx[i], ch) && e.rx[i].frag.sn.n == sn.n
    {
      if RxOn(e, e.rx[i], ch) { SameExact(e.rx[i].frag.sn, sn); }
    }
  }

  lemma {:induction false} RxWindow(s: Endpoint, e: Endpoint, ch: nat)
    requires WF(s) && WF(e) && ValidChannel(ch) && RxGood(s, e, ch)
    requires e.expected[ch].n <= s.next[ch].n && Live(s, ch, e.expected[ch].n)
    ensures forall i :: 0 <= i < |e.rx| && RxOn(e, e.rx[i], ch) ==>
              e.expected[ch].n - HALF < e.rx[i].frag.sn.n < e.expected[ch].n + HALF
  {
  }

  lemma {:induction false} SendAckAnswers(s: Endpoint, e: Endpoint, ch: nat, nack: bool)
    requires WF(s) && WF(e) && ValidChannel(ch) && RxGood(s, e, ch)
    requires e.expected[ch].n <= s.next[ch].n && Live(s, ch, e.expected[ch].n)
    ensures var e' := SendAck(e, ch, nack);
            Answered(e, e', ch, nack) && e' == e.(log := e.log.(sent := e'.log.sent))
  {
    RxWindow(s, e, ch);
    SackExact(e, ch, WINDOW);
    hide SackBits;
    var e' := SendAck(e, ch, nack);
    assert forall n :: Buffered(e', ch, n) <==> Buffered(e, ch, n);
  }

  // ---- What the receiver has

  // The receiver has a number once the expected number is past it, its fragment is buffered, or it is known lost.
  ghost predicate Has(r: Endpoint, ch: nat, n: int)
    requires WF(r) && ValidChannel(ch)
  {
    n < r.expected[ch].n || Buffered(r, ch, n) || PL.Holds(r.pend, ch, n)
  }

  // Between packets no buffered fragment waits for nothing, and no number is buffered twice.
  ghost predicate Tight(r: Endpoint, ch: nat)
    requires WF(r) && ValidChannel(ch)
  {
    && !Buffered(r, ch, r.expected[ch].n)
    && OneEach(r, ch)
  }

  ghost predicate OneEach(r: Endpoint, ch: nat) {
    forall i, j :: 0 <= i < j < |r.rx| && RxOn(r, r.rx[i], ch) && RxOn(r, r.rx[j], ch) ==>
                     r.rx[i].frag.sn.n != r.rx[j].frag.sn.n
  }

  // What the recursion of consuming does to the tables: it frees slots whose numbers it passes.
  ghost predicate Shrinks(e: Endpoint, e': Endpoint, ch: nat)
    requires WF(e) && WF(e') && ValidChannel(ch)
  {
    && e'.peer == e.peer && |e'.rx| == |e.rx| && e.expected[ch].n <= e'.expected[ch].n
    && (forall i :: 0 <= i < |e.rx| && e'.rx[i] != e.rx[i] ==>
          RxOn(e, e.rx[i], ch) && e'.rx[i].RxFree? && e.rx[i].frag.sn.n < e'.expected[ch].n)
    && (forall i :: 0 <= i < |e.pend| && e'.pend[i] != e.pend[i] ==>
          PL.On(e.pend[i], ch) && e'.pend[i].PendFree? && e.pend[i].last.n < e'.expected[ch].n)
  }

  lemma {:induction false} ShrinksTrans(a: Endpoint, b: Endpoint, c: Endpoint, ch: nat)
    requires WF(a) && WF(b) && WF(c) && ValidChannel(ch) && Shrinks(a, b, ch) && Shrinks(b, c, ch)
    ensures Shrinks(a, c, ch)
  {
    forall i | 0 <= i < |a.rx| && c.rx[i] != a.rx[i]
      ensures RxOn(a, a.rx[i], ch) && c.rx[i].RxFree? && a.rx[i].frag.sn.n < c.expected[ch].n
    {
      assert b.rx[i] != a.rx[i] || c.rx[i] != b.rx[i];
    }
    forall i | 0 <= i < |a.pend| && c.pend[i] != a.pend[i]
      ensures PL.On(a.pend[i], ch) && c.pend[i].PendFree? && a.pend[i].last.n < c.expected[ch].n
    {
      assert b.pend[i] != a.pend[i] || c.pend[i] != b.pend[i];
    }
  }

  // Nothing the receiver had is lost sight of, and nothing it did not have appears ahead of it.
  lemma {:induction false} ShrinksHas(e: Endpoint, e': Endpoint, ch: nat)
    requires WF(e) && WF(e') && ValidChannel(ch) && Shrinks(e, e', ch)
    ensures forall n :: Has(e, ch, n) ==> Has(e', ch, n)
    ensures forall n :: Buffered(e', ch, n) ==> Buffered(e, ch, n)
    ensures forall n :: PL.Holds(e'.pend, ch, n) ==> PL.Holds(e.pend, ch, n)
    ensures OneEach(e, ch) ==> OneEach(e', ch)
  {
    forall n | Has(e, ch, n) ensures Has(e', ch, n) {
      if Buffered(e, ch, n) {
        var i :| 0 <= i < |e.rx| && RxOn(e, e.rx[i], ch) && e.rx[i].frag.sn.n == n;
        assert e'.rx[i] == e.rx[i] ==> RxOn(e', e'.rx[i], ch);
      } else if PL.Holds(e.pend, ch, n) {
        var i :| 0 <= i < |e.pend| && PL.On(e.pend[i], ch) && e.pend[i].first.n <= n <= e.pend[i].last.n;
        assert e'.pend[i] == e.pend[i] ==> PL.On(e'.pend[i], ch);
      }
    }
    forall n | Buffered(e', ch, n) ensures Buffered(e, ch, n) {
      var i :| 0 <= i < |e'.rx| && RxOn(e', e'.rx[i], ch) && e'.rx[i].frag.sn.n == n;
      assert e'.rx[i] == e.rx[i] && RxOn(e, e.rx[i], ch);
    }
    forall n | PL.Holds(e'.pend, ch, n) ensures PL.Holds(e.pend, ch, n) {
      var i :| 0 <= i < |e'.pend| && PL.On(e'.pend[i], ch) && e'.pend[i].first.n <= n <= e'.pend[i].last.n;
      assert e'.pend[i] == e.pend[i] && PL.On(e.pend[i], ch);
    }
    if OneEach(e, ch) {
      forall i, j | 0 <= i < j < |e'.rx| && RxOn(e', e'.rx[i], ch) && RxOn(e', e'.rx[j], ch)
        ensures e'.rx[i].frag.sn.n != e'.rx[j].frag.sn.n
      {
        assert e'.rx[i] == e.rx[i] && e'.rx[j] == e.rx[j];
        assert RxOn(e, e.rx[i], ch) && RxOn(e, e.rx[j], ch);
      }
    }
  }

  lemma {:induction false} SameTablesShrink(e: Endpoint, e': Endpoint, ch: nat)
    requires WF(e) && WF(e') && ValidChannel(ch)
    requires e'.peer == e.peer && e'.rx == e.rx && e'.pend == e.pend && e.expected[ch].n <= e'.expected[ch].n
    ensures Shrinks(e, e', ch)
  {
  }

  // What the drop forgets was buffered at or below its last number.
  lemma {:induction false} PurgeForgets(e: Endpoint, ch: nat, first: SeqNum, last: SeqNum, s: Endpoint)
    requires WF(s) && WF(e) && ValidChannel(ch) && RxGood(s, e, ch)
    requires 1 <= first.n <= last.n < s.next[ch].n && Live(s, ch, first.n)
    ensures var rx := Purge(e, ch, first, last).rx;
            forall i :: 0 <= i < |e.rx| && rx[i] != e.rx[i] ==>
              RxOn(e, e.rx[i], ch) && rx[i].RxFree? && e.rx[i].frag.sn.n <= last.n
  {
    var rx := Purge(e, ch, first, last).rx;
    forall i | 0 <= i < |e.rx| && rx[i] != e.rx[i]
      ensures RxOn(e, e.rx[i], ch) && rx[i].RxFree? && e.rx[i].frag.sn.n <= last.n
    {
      InRangeExact(e.rx[i].frag.sn, first, last);
    }
  }

  // A drop behind the expected number, and the first step of one that covers it.
  lemma {:induction false} DropSteps(s: Endpoint, e: Endpoint, ch: nat, reason: Reason, first: SeqNum, last: SeqNum)
    requires WF(s) && WF(e) && ValidChannel(ch) && RxGood(s, e, ch) && e.expected[ch].n <= s.next[ch].n
    requires Live(s, ch, e.expected[ch].n)
    requires 1 <= first.n <= last.n < s.next[ch].n && Live(s, ch, first.n) && first.n <= e.expected[ch].n
    ensures if last.n < e.expected[ch].n then Shrinks(e, Drop(e, ch, reason, first, last), ch)
            else
              && var d := Record(Purge(e, ch, first, last), false, ch, reason, first, last);
              && Shrinks(e, SetExpected(d, ch, Plus(last, 1)), ch)
              && Drop(e, ch, reason, first, last) ==
                 Send(Consume(SetExpected(d, ch, Plus(last, 1)), ch), Lost(e.binding, ch, reason, true, first, last))
  {
    InRangeExact(e.expected[ch], first, last);
    BeforeExact(e.expected[ch], first);
    PurgeForgets(e, ch, first, last, s);
    hide RxGood, InRange, Before, Consume, Purge;
  }

  lemma {:induction false} DropShrinks(s: Endpoint, e: Endpoint, ch: nat, reason: Reason, first: SeqNum, last: SeqNum)
    requires WF(s) && WF(e) && ValidChannel(ch) && SenderInv(s, ch)
    requires ReceiverInv(s, e, ch, e.expected[ch].n)
    requires 1 <= first.n <= last.n < s.next[ch].n && Live(s, ch, first.n)
    requires first.n <= e.expected[ch].n
    ensures Shrinks(e, Drop(e, ch, reason, first, last), ch)
    decreases Measure(e), 1
  {
    hide Keeps, RxGood, PendGood, PassedGood, Accounted, ReGood, DeliveredGood, ReceiverPacketsOk, Consume, Purge, Drop,
         Shrinks, SenderInv;
    var d := Record(Purge(e, ch, first, last), false, ch, reason, first, last);
    DropSteps(s, e, ch, reason, first, last);
    if last.n >= e.expected[ch].n {
      var m := SetExpected(d, ch, Plus(last, 1));
      DropStartKeeps(s, e, ch, reason, first, last);
      JumpKeeps(s, d, ch, Plus(last, 1));
      ConsumeShrinks(s, m, ch);
      var c := Consume(m, ch);
      SameTablesShrink(c, Drop(e, ch, reason, first, last), ch);
      ShrinksTrans(e, m, c, ch);
      ShrinksTrans(e, c, Drop(e, ch, reason, first, last), ch);
    }
  }

  lemma {:induction false} DeliverShrinks(s: Endpoint, e: Endpoint, f: Frag)
    requires WF(s) && WF(e) && FragOk(f) && SenderInv(s, f.channel)
    requires e.expected[f.channel].n == f.sn.n + 1 && JustPassed(e, f)
    requires ReceiverInv(s, e, f.channel, f.sn.n) && Genuine(s.log, f)
    requires Live(s, f.channel, f.sn.n - f.index)
    ensures Shrinks(e, Deliver(e, f), f.channel)
    decreases Measure(e), 2
  {
    hide Keeps, RxGood, PendGood, PassedGood, Accounted, ReGood, DeliveredGood, ReceiverPacketsOk, Filled, FindRe, Drop,
         Before;
    var ch := f.channel;
    var e1 := e.(log := e.log.(passed := e.log.passed + [f]));
    NotePassed(s, e, f);
    if f.count <= 1 || FindRe(e1, f) < |e1.re| {
      SameTablesShrink(e, Deliver(e, f), ch);
    } else {
      DropStaysBehind(e1, f);
      MessageBelow(s, Own(f));
      SameTablesShrink(e, e1, ch);
      DropShrinks(s, e1, ch, Overflow, FirstSn(f), LastSn(f));
      ShrinksTrans(e, e1, Deliver(e, f), ch);
    }
  }

  // Consuming stops only where the expected number is not buffered.
  lemma {:induction false} ConsumeShrinks(s: Endpoint, e: Endpoint, ch: nat)
    requires WF(s) && WF(e) && ValidChannel(ch) && SenderInv(s, ch)
    requires ReceiverInv(s, e, ch, e.expected[ch].n)
    ensures var e' := Consume(e, ch);
            Shrinks(e, e', ch) && !Buffered(e', ch, e'.expected[ch].n)
    decreases Measure(e), 0
  {
    hide Keeps, PendGood, PassedGood, Accounted, ReGood, DeliveredGood, ReceiverPacketsOk, Deliver, Count, InRange,
         Shrinks;
    var p := First(e.pend, PendAt(ch, e.expected[ch]));
    if p < |e.pend| {
      CountUpdate(e.pend, PendAny(), p, PendFree);
      SkipPendingKeeps(s, e, ch, p);
      SkipShrinks(s, e, ch, p);
      var m := SkipPending(e, ch, p);
      ConsumeShrinks(s, m, ch);
      ShrinksTrans(e, m, Consume(m, ch), ch);
    } else {
      var k := First(e.rx, RxAt(e.peer, ch, e.expected[ch]));
      RxWindow(s, e, ch);
      BufferedExactly(e, ch, e.expected[ch]);
      if k == |e.rx| {
        SameTablesShrink(e, e, ch);
      } else {
        CountUpdate(e.rx, RxAny(), k, RxFree);
        var f := e.rx[k].frag;
        assert RxOn(e, e.rx[k], ch);
        SameExact(f.sn, e.expected[ch]);
        TakeBufferedKeeps(s, e, ch, k);
        TakeShrinks(e, ch, k);
        var m := TakeBuffered(e, ch, k);
        DeliverKeeps(s, m, f);
        DeliverShrinks(s, m, f);
        var d := Deliver(m, f);
        ConsumeShrinks(s, d, ch);
        ShrinksTrans(e, m, d, ch);
        ShrinksTrans(e, d, Consume(d, ch), ch);
      }
    }
  }

  lemma {:induction false} SkipShrinks(s: Endpoint, e: Endpoint, ch: nat, p: nat)
    requires WF(s) && WF(e) && ValidChannel(ch) && p < |e.pend|
    requires ReceiverInv(s, e, ch, e.expected[ch].n)
    requires PendAt(ch, e.expected[ch])(e.pend[p])
    ensures Shrinks(e, SkipPending(e, ch, p), ch)
  {
    assert PL.On(e.pend[p], ch);
    InRangeExact(e.expected[ch], e.pend[p].first, e.pend[p].last);
  }

  lemma {:induction false} TakeShrinks(e: Endpoint, ch: nat, k: nat)
    requires WF(e) && ValidChannel(ch) && k < |e.rx| && RxOn(e, e.rx[k], ch)
    requires e.rx[k].frag.sn.n == e.expected[ch].n
    ensures Shrinks(e, TakeBuffered(e, ch, k), ch)
  {
  }
}
