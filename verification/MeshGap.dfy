// When the missing number arrives, everything buffered right behind it is passed on, and nothing is lost.
module MeshGap {
  import opened Base
  import opened Serial
  import opened Slots
  import opened MeshTypes
  import opened Reliable
  import opened Handlers
  import opened MeshInvariant
  import opened MeshReceive
  import opened MeshConsume
  import opened MeshHandlers
  import opened MeshAccount
  import opened MeshReorder
  import opened MeshPacket
  import opened MeshOutcome
  import PL = PendingLost

  // No two messages of the channel have one stream id.
  ghost predicate StreamsApart(s: Endpoint, ch: nat) {
    forall m, m' :: m in s.log.submitted && m' in s.log.submitted && m.channel == ch && m'.channel == ch ==>
                      m.stream == m'.stream ==> m == m'
  }

  // The fragments, numbered from `from` on, are the channel's.
  ghost predicate RunOf(s: Endpoint, ch: nat, from: int, run: seq<Frag>) {
    forall i :: 0 <= i < |run| ==>
      run[i].channel == ch && run[i].sn.n == from + i && Genuine(s.log, run[i]) && FragOk(run[i])
  }

  ghost predicate IsBuffered(e: Endpoint, ch: nat, f: Frag) {
    exists k :: 0 <= k < |e.rx| && RxOn(e, e.rx[k], ch) && e.rx[k].frag == f
  }

  // Each of them is buffered, no lost range is among them, and the one after them is not there.
  ghost predicate Waiting(e: Endpoint, ch: nat, from: int, run: seq<Frag>) {
    && (forall i :: 0 <= i < |run| ==> IsBuffered(e, ch, run[i]))
    && (forall n :: from <= n <= from + |run| ==> !PL.Holds(e.pend, ch, n))
    && !Buffered(e, ch, from + |run|)
  }

  ghost predicate AllSingle(run: seq<Frag>) {
    forall i :: 0 <= i < |run| ==> run[i].count == 1
  }

  // One reassembly slot is enough: a fragment that begins a message finds room, and one that goes on with a
  // message finds that message in its slot as far as it has come.
  ghost predicate Placed(e: Endpoint, f: Frag) {
    if f.index == 0 then ReRoom(e) else InHand(e, Own(f), f.sn.n) && |OwnRe(e)| <= e.cfg.perPeerRe
  }

  ghost predicate RunPlaced(e: Endpoint, run: seq<Frag>) {
    AllSingle(run) || (|run| > 0 ==> Placed(e, run[0]))
  }

  // The next number is the next fragment of the message, or the first of another.
  lemma {:induction false} NextPiece(s: Endpoint, f: Frag, g: Frag)
    requires |s.next| == CHANNELS && ValidChannel(f.channel) && MsgsOk(s, f.channel)
    requires Genuine(s.log, f) && Genuine(s.log, g) && g.channel == f.channel && g.sn.n == f.sn.n + 1
    ensures if f.index + 1 < f.count then g.index == f.index + 1 && Own(g) == Own(f) else g.index == 0
  {
    if Own(g) != Own(f) { MessagesOrdered(s, Own(f), Own(g)); }
  }

  // ---- One fragment

  // What delivering a fragment leaves when its message has a place.
  ghost predicate PassesOn(e: Endpoint, d: Endpoint, f: Frag) {
    && d.log.passed == e.log.passed + [f] && d.log.lost == e.log.lost && d.log.sent == e.log.sent
    && d == e.(re := d.re, log := d.log)
  }

  lemma {:induction false} DeliverSingle(e: Endpoint, f: Frag)
    requires WF(e) && FragOk(f) && JustPassed(e, f) && f.count == 1
    ensures PassesOn(e, Deliver(e, f), f) && Deliver(e, f).re == e.re
  {
  }

  lemma {:induction false} DeliverStores(e: Endpoint, f: Frag)
    requires WF(e) && FragOk(f) && JustPassed(e, f) && f.count > 1
    requires FindRe(e.(log := e.log.(passed := e.log.passed + [f])), f) < |e.re|
    ensures var e1 := e.(log := e.log.(passed := e.log.passed + [f]));
            Deliver(e, f) == Store(e1, FindRe(e1, f), f) && PassesOn(e, Deliver(e, f), f)
  {
    hide FindRe, Filled, Complete;
  }

  // A message with a slot, or room to open one, has a place.
  lemma {:induction false} PlacedFinds(s: Endpoint, e: Endpoint, f: Frag)
    requires WF(s) && WF(e) && FragOk(f) && Genuine(s.log, f) && MsgsOk(s, f.channel) && StreamsApart(s, f.channel)
    requires f.sn.n < s.next[f.channel].n && Live(s, f.channel, f.sn.n - f.index)
    requires ReGood(s, e, f.channel, f.sn.n + 1) && OnePerStream(e, f.channel) && Placed(e, f)
    ensures FindRe(e, f) < |e.re|
    ensures var k := FindRe(e, f);
            var have := if e.re[k].ReUsed? then e.re[k].received else {};
            && Just(have + {f.index}, f.index + 1)
            && (f.index > 0 ==> e.re[k].ReUsed?)
            && (e.re[k].ReUsed? ==> OfMessage(e, f, k))
  {
    FindReExactly(s, e, f, f.sn.n + 1);
    hide MsgsOk, Genuine, StreamsApart, Live, ReGood, OnePerStream, FindRe, FragOk, Placed;
    if f.index > 0 {
      var j := GoesOn(s, e, f);
    } else if exists i :: OfStream(e, f, i) {
      var i :| OfStream(e, f, i);
      Begins(s, e, f, i);
    } else {
      assert ReRoom(e) by { BeginsRoom(e, f); }
    }
  }

  lemma {:induction false} BeginsRoom(e: Endpoint, f: Frag)
    requires Placed(e, f) && f.index == 0
    ensures ReRoom(e)
  {
  }

  lemma {:induction false} GoesOn(s: Endpoint, e: Endpoint, f: Frag) returns (j: nat)
    requires WF(s) && WF(e) && FragOk(f) && Genuine(s.log, f) && MsgsOk(s, f.channel)
    requires ReGood(s, e, f.channel, f.sn.n + 1) && Placed(e, f) && f.index > 0
    ensures OfMessage(e, f, j) && Just(e.re[j].received, f.index)
  {
    var own := Own(f);
    j :| 0 <= j < |e.re| && Collects(e, e.re[j], own, f.sn.n - own.first);
    CollectsWhole(s, e, j, own, f.sn.n - own.first, f.sn.n + 1);
  }

  // A slot of the stream that a first fragment finds is its message's, with nothing in it but perhaps itself.
  lemma {:induction false} Begins(s: Endpoint, e: Endpoint, f: Frag, i: int)
    requires WF(s) && WF(e) && FragOk(f) && Genuine(s.log, f) && MsgsOk(s, f.channel) && StreamsApart(s, f.channel)
    requires ReGood(s, e, f.channel, f.sn.n + 1) && f.index == 0 && OfStream(e, f, i)
    ensures OfMessage(e, f, i) && forall b: nat :: b in e.re[i].received ==> b < 1
  {
    assert SlotGood(s, e.re[i], f.channel, f.sn.n + 1);
    assert Msg(f.channel, e.re[i].first.n, e.re[i].stream, e.re[i].msg) == Own(f);
    forall b: nat | b in e.re[i].received ensures b < 1 {
      assert PartGood(e.re[i], b, f.sn.n + 1);
    }
  }

  // ---- What the slots are afterwards

  // The fragment's slot, filled; freed when that completes the message.
  ghost predicate StoredIn(e: Endpoint, d: Endpoint, f: Frag, k: nat, slot: ReSlot)
    requires k < |e.re|
  {
    && slot.ReUsed? && slot.peer == e.peer && slot.channel == f.channel && slot.stream == f.stream
    && slot.first.n == f.sn.n - f.index && slot.count == f.count && Just(slot.received, f.index + 1)
    && d.peer == e.peer && d.cfg == e.cfg
    && d.re == e.re[k := if f.index + 1 == f.count then ReFree else slot]
  }

  // The slot the fragment goes to is its message's; with the fragment it has all up to there.
  ghost predicate Starts(e: Endpoint, f: Frag, slot: ReSlot) {
    && slot.ReUsed? && ReOk(slot) && slot.peer == e.peer && slot.channel == f.channel && slot.stream == f.stream
    && slot.first.n == f.sn.n - f.index && slot.count == f.count && Just(slot.received + {f.index}, f.index + 1)
  }

  lemma {:induction false} StoresAt(e: Endpoint, f: Frag)
    requires WF(e) && FragOk(f) && FindRe(e, f) < |e.re| && Starts(e, f, Start(e, f))
    ensures StoredIn(e, Store(e, FindRe(e, f), f), f, FindRe(e, f), OwnSlot(e, f))
  {
    hide FindRe, Filled, Complete;
    FilledFields(Start(e, f), f);
    CompleteExactly(OwnSlot(e, f), f.index + 1);
    assert Store(e, FindRe(e, f), f).re ==
           e.re[FindRe(e, f) := if Complete(OwnSlot(e, f)) then ReFree else OwnSlot(e, f)];
  }

  lemma {:induction false} StoreStores(s: Endpoint, e: Endpoint, f: Frag)
    requires WF(s) && WF(e) && FragOk(f) && Genuine(s.log, f) && MsgsOk(s, f.channel) && StreamsApart(s, f.channel)
    requires f.sn.n < s.next[f.channel].n && Live(s, f.channel, f.sn.n - f.index) && f.count > 1
    requires ReGood(s, e, f.channel, f.sn.n + 1) && OnePerStream(e, f.channel) && Placed(e, f)
    ensures FindRe(e, f) < |e.re| && StoredIn(e, Store(e, FindRe(e, f), f), f, FindRe(e, f), OwnSlot(e, f))
  {
    hide MsgsOk, Genuine, StreamsApart, Live, ReGood, OnePerStream, FindRe, Placed, SlotGood, Filled, Store, StoredIn,
         OwnSlot;
    PlacedFinds(s, e, f);
    StartGood(s, e, f);
    StoresAt(e, f);
  }

  // A message that goes on is in the slot, as far as it has come; the peer owns one slot more at most.
  lemma {:induction false} GoesOnPlaced(e: Endpoint, d: Endpoint, f: Frag, g: Frag, k: nat, slot: ReSlot)
    requires k < |e.re| && StoredIn(e, d, f, k, slot) && Placed(e, f) && f.index + 1 < f.count
    requires f.index > 0 ==> e.re[k].ReUsed?
    requires e.re[k].ReUsed? ==> OfMessage(e, f, k)
    requires g.channel == f.channel && g.sn.n == f.sn.n + 1 && g.index == f.index + 1 && Own(g) == Own(f)
    ensures Placed(d, g)
  {
    assert Collects(d, d.re[k], Own(g), g.index);
    assert OwnRe(d) == OwnRe(e) + {k};
    assert k in OwnRe(e) || e.re[k].ReFree?;
    hide Collects, OwnRe;
  }

  // A message that is complete leaves its slot free.
  lemma {:induction false} DonePlaced(e: Endpoint, d: Endpoint, f: Frag, g: Frag, k: nat, slot: ReSlot)
    requires k < |e.re| && StoredIn(e, d, f, k, slot) && Placed(e, f) && f.index + 1 == f.count && g.index == 0
    requires f.index > 0 ==> e.re[k].ReUsed?
    requires e.re[k].ReUsed? ==> OfMessage(e, f, k)
    ensures Placed(d, g)
  {
    hide InHand, Own;
    assert OwnRe(d) == OwnRe(e) - {k};
    assert d.re[k].ReFree?;
    assert k in OwnRe(e) || e.re[k].ReFree?;
    hide OwnRe;
  }

  // After a fragment the next one has a place.
  lemma {:induction false} NextPlaced(e: Endpoint, d: Endpoint, f: Frag, g: Frag, k: nat, slot: ReSlot)
    requires k < |e.re| && StoredIn(e, d, f, k, slot) && Placed(e, f) && f.index < f.count
    requires f.index > 0 ==> e.re[k].ReUsed?
    requires e.re[k].ReUsed? ==> OfMessage(e, f, k)
    requires g.channel == f.channel && g.sn.n == f.sn.n + 1
    requires if f.index + 1 < f.count then g.index == f.index + 1 && Own(g) == Own(f) else g.index == 0
    ensures Placed(d, g)
  {
    hide StoredIn, Placed, OfMessage, Own;
    if f.index + 1 < f.count {
      GoesOnPlaced(e, d, f, g, k, slot);
    } else {
      DonePlaced(e, d, f, g, k, slot);
    }
  }

  lemma {:induction false} PlacedSame(e: Endpoint, d: Endpoint, f: Frag)
    requires d.re == e.re && d.peer == e.peer && d.cfg == e.cfg && Placed(e, f)
    ensures Placed(d, f)
  {
    assert OwnRe(d) == OwnRe(e);
    if f.index > 0 {
      var own := Own(f);
      var j :| 0 <= j < |e.re| && Collects(e, e.re[j], own, f.sn.n - own.first);
      assert Collects(d, d.re[j], own, f.sn.n - own.first);
    }
  }

  // ---- A run of fragments

  // The premises of delivering f, which the expected number has just moved past.
  ghost predicate Delivering(s: Endpoint, e: Endpoint, f: Frag) {
    && WF(s) && WF(e) && FragOk(f) && SenderInv(s, f.channel)
    && e.expected[f.channel].n == f.sn.n + 1 && JustPassed(e, f)
    && ReceiverInv(s, e, f.channel, f.sn.n) && Genuine(s.log, f)
    && Live(s, f.channel, f.sn.n - f.index) && StreamsApart(s, f.channel) && OnePerStream(e, f.channel)
  }

  lemma {:induction false} DeliverOne(s: Endpoint, e: Endpoint, f: Frag)
    requires Delivering(s, e, f) && f.count > 1 && Placed(e, f)
    ensures PassesOn(e, Deliver(e, f), f)
    ensures exists k: nat, slot ::
              k < |e.re| && StoredIn(e, Deliver(e, f), f, k, slot) && (f.index > 0 ==> e.re[k].ReUsed?) &&
              (e.re[k].ReUsed? ==> OfMessage(e, f, k))
  {
    hide Keeps, RxGood, PendGood, PassedGood, Accounted, DeliveredGood, ReceiverPacketsOk, FindRe, Placed,
         OnePerStream, StreamsApart, Genuine, JustPassed, Store, Deliver, OwnSlot;
    var e1 := e.(log := e.log.(passed := e.log.passed + [f]));
    NotePassed(s, e, f);
    PlacedSame(e, e1, f);
    OnePerStreamSame(e, e1, f.channel);
    hide ReceiverInv;
    StoreStores(s, e1, f);
    PlacedFinds(s, e1, f);
    DeliverStores(e, f);
    var k, slot := FindRe(e1, f), OwnSlot(e1, f);
    SameSlots(e, e1, f, k);
    StoredSame(e, e1, Deliver(e, f), f, k, slot);
  }

  lemma {:induction false} SameSlots(e: Endpoint, e1: Endpoint, f: Frag, k: int)
    requires e1.re == e.re && e1.peer == e.peer
    ensures OfMessage(e1, f, k) == OfMessage(e, f, k)
  {
  }

  lemma {:induction false} StoredSame(e: Endpoint, e1: Endpoint, d: Endpoint, f: Frag, k: nat, slot: ReSlot)
    requires k < |e.re| && e1.re == e.re && e1.peer == e.peer && e1.cfg == e.cfg && StoredIn(e1, d, f, k, slot)
    ensures StoredIn(e, d, f, k, slot)
  {
  }

  lemma {:induction false} OnePerStreamSame(e: Endpoint, d: Endpoint, ch: nat)
    requires d.re == e.re && d.peer == e.peer && OnePerStream(e, ch)
    ensures OnePerStream(d, ch)
  {
    forall i, j | 0 <= i < j < |d.re| && ReOn(d, d.re[i], ch) && ReOn(d, d.re[j], ch)
      ensures d.re[i].stream != d.re[j].stream
    {
      assert ReOn(e, e.re[i], ch) && ReOn(e, e.re[j], ch);
    }
  }

  // One fragment of the run passes on and leaves a place for the next.
  lemma {:induction false} DeliverRun(s: Endpoint, e: Endpoint, ch: nat, run: seq<Frag>)
    requires |run| > 0 && ValidChannel(ch) && WF(s) && RunOf(s, ch, run[0].sn.n, run) && Delivering(s, e, run[0])
    requires RunPlaced(e, run)
    ensures var d := Deliver(e, run[0]); PassesOn(e, d, run[0]) && RunPlaced(d, run[1..])
  {
    var f, rest := run[0], run[1..];
    var d := Deliver(e, f);
    if |rest| > 0 { NextPiece(s, f, run[1]); }
    hide Deliver, ReceiverInv, SenderInv, StreamsApart, OnePerStream, PassesOn, Placed;
    if f.count == 1 {
      DeliverSingle(e, f);
      if !AllSingle(run) {
        PassesSame(e, d, f);
        PlacedSame(e, d, f);
        if |rest| > 0 { RoomCarries(d, f, run[1]); }
      }
    } else {
      DeliverOne(s, e, f);
      var k: nat, slot :| k < |e.re| && StoredIn(e, d, f, k, slot) && (f.index > 0 ==> e.re[k].ReUsed?) &&
                          (e.re[k].ReUsed? ==> OfMessage(e, f, k));
      if |rest| > 0 { NextPlaced(e, d, f, run[1], k, slot); }
    }
  }

  lemma {:induction false} PassesSame(e: Endpoint, d: Endpoint, f: Frag)
    requires PassesOn(e, d, f)
    ensures d.peer == e.peer && d.cfg == e.cfg
  {
  }

  lemma {:induction false} RoomCarries(d: Endpoint, f: Frag, g: Frag)
    requires Placed(d, f) && f.index == 0 && g.index == 0
    ensures Placed(d, g)
  {
  }

  // ---- Consuming

  ghost predicate Consumed(e: Endpoint, c: Endpoint, ch: nat, run: seq<Frag>)
    requires WF(e) && WF(c) && ValidChannel(ch)
  {
    && c.expected[ch].n == e.expected[ch].n + |run|
    && c.log.passed == e.log.passed + run && c.log.lost == e.log.lost && c.log.sent == e.log.sent
    && c == e.(expected := c.expected, rx := c.rx, re := c.re, log := c.log)
  }

  lemma {:induction false} NoRangeFound(s: Endpoint, e: Endpoint, ch: nat)
    requires WF(s) && WF(e) && ValidChannel(ch) && PendGood(s, e, ch)
    requires e.expected[ch].n <= s.next[ch].n && Live(s, ch, e.expected[ch].n)
    requires !PL.Holds(e.pend, ch, e.expected[ch].n)
    ensures First(e.pend, PendAt(ch, e.expected[ch])) == |e.pend|
  {
    var k := First(e.pend, PendAt(ch, e.expected[ch]));
    if k < |e.pend| {
      assert PL.On(e.pend[k], ch);
      InRangeExact(e.expected[ch], e.pend[k].first, e.pend[k].last);
    }
  }

  lemma {:induction false} FoundIs(s: Endpoint, e: Endpoint, ch: nat, f: Frag)
    requires WF(s) && WF(e) && ValidChannel(ch) && RxGood(s, e, ch) && OneEach(e, ch)
    requires e.expected[ch].n <= s.next[ch].n && Live(s, ch, e.expected[ch].n)
    requires IsBuffered(e, ch, f) && f.sn.n == e.expected[ch].n
    ensures var k := First(e.rx, RxAt(e.peer, ch, e.expected[ch]));
            k < |e.rx| && RxOn(e, e.rx[k], ch) && e.rx[k].frag == f
  {
    RxWindow(s, e, ch);
    BufferedExactly(e, ch, e.expected[ch]);
    var j :| 0 <= j < |e.rx| && RxOn(e, e.rx[j], ch) && e.rx[j].frag == f;
    var k := First(e.rx, RxAt(e.peer, ch, e.expected[ch]));
    assert RxOn(e, e.rx[k], ch);
    SameExact(e.rx[k].frag.sn, e.expected[ch]);
    assert j < k || j == k || j > k;
  }

  // With the first of the run taken out, the rest still waits.
  lemma {:induction false} StillWaiting(e: Endpoint, d: Endpoint, ch: nat, run: seq<Frag>, k: nat)
    requires WF(e) && ValidChannel(ch) && Waiting(e, ch, e.expected[ch].n, run) && OneEach(e, ch) && |run| > 0
    requires forall i :: 0 <= i < |run| ==> run[i].sn.n == e.expected[ch].n + i
    requires k < |e.rx| && RxOn(e, e.rx[k], ch) && e.rx[k].frag == run[0]
    requires d.rx == e.rx[k := RxFree] && d.pend == e.pend && d.peer == e.peer
    ensures Waiting(d, ch, e.expected[ch].n + 1, run[1..]) && OneEach(d, ch)
  {
    var rest := run[1..];
    forall i | 0 <= i < |rest| ensures IsBuffered(d, ch, rest[i]) {
      assert IsBuffered(e, ch, run[i + 1]);
      var j :| 0 <= j < |e.rx| && RxOn(e, e.rx[j], ch) && e.rx[j].frag == run[i + 1];
      assert RxOn(d, d.rx[j], ch);
    }
    assert forall i :: 0 <= i < |d.rx| && RxOn(d, d.rx[i], ch) ==> RxOn(e, e.rx[i], ch) && d.rx[i] == e.rx[i];
  }

  lemma {:induction false} ConsumeRun(s: Endpoint, e: Endpoint, ch: nat, run: seq<Frag>)
    requires WF(s) && WF(e) && ValidChannel(ch) && SenderInv(s, ch) && StreamsApart(s, ch)
    requires ReceiverInv(s, e, ch, e.expected[ch].n) && Progress(s, e, ch, e.expected[ch].n) && OneEach(e, ch)
    requires RunOf(s, ch, e.expected[ch].n, run) && Waiting(e, ch, e.expected[ch].n, run) && RunPlaced(e, run)
    ensures Consumed(e, Consume(e, ch), ch, run)
    decreases |run|
  {
    hide *;
    NothingHeld(s, e, ch, run);
    if |run| == 0 {
      ConsumeNone(s, e, ch, run);
    } else {
      var k := TakeRun(s, e, ch, run);
      ConsumeTakes(e, ch, k);
      var m := TakeBuffered(e, ch, k);
      TakesOne(e, m, ch, k);
      RunOfRest(s, e, ch, run);
      var d := PassRun(s, m, ch, run);
      StillWaiting(e, d, ch, run, k);
      ConsumeRun(s, d, ch, run[1..]);
      ConsumedOne(e, m, d, Consume(d, ch), ch, run);
    }
  }

  lemma {:induction false} NothingHeld(s: Endpoint, e: Endpoint, ch: nat, run: seq<Frag>)
    requires WF(s) && WF(e) && ValidChannel(ch) && ReceiverInv(s, e, ch, e.expected[ch].n)
    requires Waiting(e, ch, e.expected[ch].n, run)
    ensures First(e.pend, PendAt(ch, e.expected[ch])) == |e.pend|
  {
    hide RxGood, PassedGood, Accounted, ReGood, DeliveredGood, ReceiverPacketsOk;
    NoRangeFound(s, e, ch);
  }

  lemma {:induction false} ConsumeNone(s: Endpoint, e: Endpoint, ch: nat, run: seq<Frag>)
    requires WF(s) && WF(e) && ValidChannel(ch) && ReceiverInv(s, e, ch, e.expected[ch].n)
    requires Waiting(e, ch, e.expected[ch].n, run) && |run| == 0
    requires First(e.pend, PendAt(ch, e.expected[ch])) == |e.pend|
    ensures Consumed(e, Consume(e, ch), ch, run)
  {
    hide PendGood, PassedGood, Accounted, ReGood, DeliveredGood, ReceiverPacketsOk, InRange, Deliver, Count;
    RxWindow(s, e, ch);
    BufferedExactly(e, ch, e.expected[ch]);
    assert e.log.passed + run == e.log.passed;
  }

  lemma {:induction false} RunOfRest(s: Endpoint, e: Endpoint, ch: nat, run: seq<Frag>)
    requires WF(e) && ValidChannel(ch) && RunOf(s, ch, e.expected[ch].n, run) && |run| > 0
    ensures RunOf(s, ch, e.expected[ch].n + 1, run[1..])
    ensures forall i :: 0 <= i < |run| ==> run[i].sn.n == e.expected[ch].n + i
  {
  }

  lemma {:induction false} TakesOne(e: Endpoint, m: Endpoint, ch: nat, k: nat)
    requires WF(e) && ValidChannel(ch) && k < |e.rx| && m == TakeBuffered(e, ch, k)
    ensures m == e.(expected := m.expected, rx := m.rx) && m.rx == e.rx[k := RxFree]
    ensures WF(m) && m.expected[ch].n == e.expected[ch].n + 1
  {
    hide Count;
  }

  lemma {:induction false} TakeRun(s: Endpoint, e: Endpoint, ch: nat, run: seq<Frag>) returns (k: nat)
    requires WF(s) && WF(e) && ValidChannel(ch) && SenderInv(s, ch) && StreamsApart(s, ch) && |run| > 0
    requires ReceiverInv(s, e, ch, e.expected[ch].n) && Progress(s, e, ch, e.expected[ch].n) && OneEach(e, ch)
    requires RunOf(s, ch, e.expected[ch].n, run) && Waiting(e, ch, e.expected[ch].n, run) && RunPlaced(e, run)
    ensures k == First(e.rx, RxAt(e.peer, ch, e.expected[ch])) && k < |e.rx|
    ensures RxOn(e, e.rx[k], ch) && e.rx[k].frag == run[0] && run[0].sn.n == e.expected[ch].n
    ensures var m := TakeBuffered(e, ch, k);
            Delivering(s, m, run[0]) && RunPlaced(m, run) && Progress(s, m, ch, run[0].sn.n) && run[0].channel == ch
  {
    hide Keeps, PassedGood, Accounted, ReGood, DeliveredGood, ReceiverPacketsOk, InRange, Live,
         StreamsApart, RunPlaced, SenderInv, Genuine, Progressed;
    var f := run[0];
    FoundIs(s, e, ch, f);
    k := First(e.rx, RxAt(e.peer, ch, e.expected[ch]));
    TakeBufferedKeeps(s, e, ch, k);
    var m := TakeBuffered(e, ch, k);
    PlaceProgress(s, e, m, ch, f.sn.n);
    RunPlacedSame(e, m, run);
    WindowOf(s, e, ch, k);
  }

  lemma {:induction false} PassRun(s: Endpoint, m: Endpoint, ch: nat, run: seq<Frag>) returns (d: Endpoint)
    requires |run| > 0 && ValidChannel(ch) && WF(s) && run[0].channel == ch && RunOf(s, ch, run[0].sn.n, run)
    requires Delivering(s, m, run[0]) && RunPlaced(m, run) && Progress(s, m, ch, run[0].sn.n)
    ensures d == Deliver(m, run[0])
    ensures PassesOn(m, d, run[0]) && RunPlaced(d, run[1..]) && WF(d)
    ensures d.expected == m.expected && d.rx == m.rx && d.pend == m.pend && d.peer == m.peer
    ensures ReceiverInv(s, d, ch, d.expected[ch].n) && Progress(s, d, ch, d.expected[ch].n)
  {
    DeliverRun(s, m, ch, run);
    hide ReceiverInv, SenderInv, Progress, StreamsApart, OnePerStream, RunPlaced, RunOf, Keeps, Deliver;
    DeliverKeeps(s, m, run[0]);
    DeliverProgress(s, m, run[0]);
    d := Deliver(m, run[0]);
  }

  lemma {:induction false} RunPlacedSame(e: Endpoint, m: Endpoint, run: seq<Frag>)
    requires m.re == e.re && m.peer == e.peer && m.cfg == e.cfg && RunPlaced(e, run)
    ensures RunPlaced(m, run)
  {
    hide Placed;
    if |run| > 0 && Placed(e, run[0]) { PlacedSame(e, m, run[0]); }
  }

  lemma {:induction false} WindowOf(s: Endpoint, e: Endpoint, ch: nat, k: nat)
    requires WF(s) && WF(e) && ValidChannel(ch) && RxGood(s, e, ch) && k < |e.rx| && RxOn(e, e.rx[k], ch)
    ensures var f := e.rx[k].frag; Live(s, ch, f.sn.n - f.index)
  {
  }

  lemma {:induction false} ConsumeTakes(e: Endpoint, ch: nat, k: nat)
    requires WF(e) && ValidChannel(ch) && First(e.pend, PendAt(ch, e.expected[ch])) == |e.pend|
    requires k == First(e.rx, RxAt(e.peer, ch, e.expected[ch])) && k < |e.rx|
    ensures var m := TakeBuffered(e, ch, k);
            e.rx[k].RxUsed? && FragOk(e.rx[k].frag) && JustPassed(m, e.rx[k].frag) &&
            Consume(e, ch) == Consume(Deliver(m, e.rx[k].frag), ch)
  {
    hide Deliver, Count, InRange;
  }

  lemma {:induction false} ConsumedOne(e: Endpoint, m: Endpoint, d: Endpoint, c: Endpoint, ch: nat, run: seq<Frag>)
    requires WF(e) && WF(m) && WF(d) && WF(c) && ValidChannel(ch) && |run| > 0
    requires m == e.(expected := m.expected, rx := m.rx) && m.expected[ch].n == e.expected[ch].n + 1
    requires PassesOn(m, d, run[0]) && Consumed(d, c, ch, run[1..])
    ensures Consumed(e, c, ch, run)
  {
    assert run == [run[0]] + run[1..];
    assert c.log.passed == (e.log.passed + [run[0]]) + run[1..];
  }

  // ---- The missing number arrives

  lemma {:induction false} WaitingRun(s: Endpoint, e: Endpoint, p: Packet, ch: nat, run: seq<Frag>)
    requires WF(s) && WF(e) && ValidChannel(ch) && MsgsOk(s, ch) && Arriving(s, e, p, ch) && RxGood(s, e, ch)
    requires |run| > 0 && run[0] == p.frag && forall i :: 0 <= i < |run| ==> run[i].sn.n == p.frag.sn.n + i
    requires Waiting(e, ch, p.frag.sn.n + 1, run[1..])
    ensures RunOf(s, ch, p.frag.sn.n, run)
  {
    ArrivingAccepted(s, e, p, ch);
    hide Genuine, Arriving, HandleData, AcceptData;
    forall i | 0 <= i < |run|
      ensures run[i].channel == ch && Genuine(s.log, run[i]) && FragOk(run[i])
    {
      if i > 0 {
        assert IsBuffered(e, ch, run[1..][i - 1]);
        var k :| 0 <= k < |e.rx| && RxOn(e, e.rx[k], ch) && e.rx[k].frag == run[i];
      }
    }
  }

  // The state the fragment is delivered in.
  lemma {:induction false} Advanced(s: Endpoint, e: Endpoint, p: Packet, ch: nat, run: seq<Frag>)
    returns (m: Endpoint, f: Frag)
    requires WF(s) && WF(e) && ValidChannel(ch) && SenderInv(s, ch) && Arriving(s, e, p, ch)
    requires ReceiverInv(s, e, ch, e.expected[ch].n) && Progress(s, e, ch, e.expected[ch].n) && StreamsApart(s, ch)
    requires p.frag.sn.n == e.expected[ch].n && |run| > 0 && run[0] == p.frag && RunPlaced(e, run)
    ensures f == p.frag && m == SetExpected(e.(routeUp := true), ch, Plus(e.expected[ch], 1))
    ensures Delivering(s, m, p.frag) && RunPlaced(m, run) && Progress(s, m, ch, p.frag.sn.n) && p.frag.channel == ch
    ensures Same(p.frag.sn, e.expected[ch])
  {
    hide RxGood, PendGood, PassedGood, Accounted, ReGood, DeliveredGood, ReceiverPacketsOk, Keeps, Genuine, Live,
         Progressed, RunPlaced, HandleData, AcceptData, StreamsApart, MsgsOk, TxGood, SenderPacketsOk;
    ArrivingAccepted(s, e, p, ch);
    SameExact(p.frag.sn, e.expected[ch]);
    var e1 := e.(routeUp := true);
    SameView(s, e, e1, ch);
    AdvanceKeeps(s, e1, ch);
    m, f := SetExpected(e1, ch, Plus(e.expected[ch], 1)), p.frag;
    PlaceProgress(s, e, m, ch, p.frag.sn.n);
    RunPlacedSame(e, m, run);
    assert OnePerStream(m, ch);
    hide Progress, OnePerStream;
    FreshLive(s, p, ch);
  }

  lemma {:induction false} FreshLive(s: Endpoint, p: Packet, ch: nat)
    requires WF(s) && ValidChannel(ch) && p.Data? && Fresh(s, p, ch)
    ensures Live(s, ch, p.frag.sn.n - p.frag.index)
  {
  }

  lemma {:induction false} AcceptExpected(e: Endpoint, f: Frag)
    requires WF(e) && FragOk(f) && Same(f.sn, e.expected[f.channel])
    ensures var m := SetExpected(e, f.channel, Plus(e.expected[f.channel], 1));
            JustPassed(m, f) &&
            AcceptData(e, f) == (SendAck(Consume(Deliver(m, f), f.channel), f.channel, false), Ok)
  {
    hide SendAck, Deliver, Consume, Drop;
  }

  lemma {:induction false} Parts(s: Endpoint, e: Endpoint, ch: nat)
    requires WF(s) && WF(e) && ValidChannel(ch) && SenderInv(s, ch) && ReceiverInv(s, e, ch, e.expected[ch].n)
    ensures MsgsOk(s, ch) && RxGood(s, e, ch) && e.expected[ch].n <= s.next[ch].n && Live(s, ch, e.expected[ch].n)
  {
  }

  lemma {:induction false} RouteWF(e: Endpoint)
    requires WF(e)
    ensures WF(e.(routeUp := true))
  {
  }

  // What delivering, which takes nothing from the rx table and moves the expected number by one, leaves waiting.
  lemma {:induction false} RestWaits(e: Endpoint, m: Endpoint, d: Endpoint, ch: nat, run: seq<Frag>)
    requires WF(e) && ValidChannel(ch) && m == SetExpected(e.(routeUp := true), ch, Plus(e.expected[ch], 1))
    requires d.expected == m.expected && d.rx == m.rx && d.pend == m.pend && d.peer == m.peer
    requires |run| > 0 && Waiting(e, ch, e.expected[ch].n + 1, run[1..]) && OneEach(e, ch)
    ensures d.expected[ch].n == e.expected[ch].n + 1
    ensures Waiting(d, ch, d.expected[ch].n, run[1..]) && OneEach(d, ch)
  {
    assert forall i :: 0 <= i < |e.rx| ==> RxOn(d, e.rx[i], ch) == RxOn(e, e.rx[i], ch);
    assert forall i :: 0 <= i < |run| - 1 ==> IsBuffered(e, ch, run[1..][i]) && IsBuffered(d, ch, run[1..][i]);
  }

  lemma {:induction false} GapIs(e: Endpoint, m: Endpoint, d: Endpoint, c: Endpoint, e': Endpoint, ch: nat,
                                 run: seq<Frag>)
    requires WF(e) && WF(m) && WF(d) && WF(c) && WF(e') && ValidChannel(ch) && |run| > 0
    requires m == SetExpected(e.(routeUp := true), ch, Plus(e.expected[ch], 1))
    requires PassesOn(m, d, run[0]) && Consumed(d, c, ch, run[1..]) && Answered(c, e', ch, false)
    requires e' == c.(log := c.log.(sent := e'.log.sent))
    ensures e'.expected[ch].n == e.expected[ch].n + |run|
    ensures e'.log.passed == e.log.passed + run && e'.log.lost == e.log.lost && Answered(e, e', ch, false)
  {
    assert run == [run[0]] + run[1..];
    assert c.log.passed == (e.log.passed + [run[0]]) + run[1..];
    hide Answers;
  }

  lemma {:induction false} GapHas(e: Endpoint, m: Endpoint, d: Endpoint, c: Endpoint, e': Endpoint, ch: nat,
                                  run: seq<Frag>)
    requires WF(e) && WF(m) && WF(d) && WF(c) && WF(e') && ValidChannel(ch) && |run| > 0
    requires m == SetExpected(e.(routeUp := true), ch, Plus(e.expected[ch], 1))
    requires d.expected == m.expected && d.rx == m.rx && d.pend == m.pend && d.peer == m.peer
    requires Shrinks(d, c, ch) && e' == c.(log := c.log.(sent := e'.log.sent))
    requires e'.expected[ch].n == e.expected[ch].n + |run|
    requires forall i :: 0 <= i < |run| ==> run[i].sn.n == e.expected[ch].n + i
    requires Waiting(e, ch, e.expected[ch].n + 1, run[1..])
    ensures forall n :: Has(e', ch, n) <==> Has(e, ch, n) || n == e.expected[ch].n
  {
    var E := e.expected[ch].n;
    ShrinksHas(d, c, ch);
    hide Shrinks;
    forall n ensures Buffered(d, ch, n) <==> Buffered(e, ch, n) {
      assert forall i :: 0 <= i < |e.rx| ==> RxOn(d, e.rx[i], ch) == RxOn(e, e.rx[i], ch);
    }
    forall n ensures Buffered(e', ch, n) <==> Buffered(c, ch, n) {
      assert forall i :: 0 <= i < |c.rx| ==> RxOn(e', c.rx[i], ch) == RxOn(c, c.rx[i], ch);
    }
    forall n | E < n < E + |run| ensures Buffered(e, ch, n) {
      assert IsBuffered(e, ch, run[1..][n - E - 1]);
      assert run[1..][n - E - 1] == run[n - E];
    }
    hide Buffered, PL.Holds, Waiting;
    forall n ensures Has(e', ch, n) <==> Has(e, ch, n) || n == E {
      assert Has(d, ch, n) <==> Has(e, ch, n) || n == E;
      assert Has(d, ch, n) ==> Has(c, ch, n);
    }
  }

  // The expected number arrives while a run is buffered behind it: the whole run is passed on in order, no loss is
  // reported, and the answer acknowledges the run.  One number is new to the receiver.
  lemma {:induction false} GapFilled(s: Endpoint, e: Endpoint, p: Packet, ch: nat, run: seq<Frag>)
    requires WF(s) && WF(e) && ValidChannel(ch) && SenderInv(s, ch) && Arriving(s, e, p, ch)
    requires ReceiverInv(s, e, ch, e.expected[ch].n) && Progress(s, e, ch, e.expected[ch].n) && OneEach(e, ch)
    requires StreamsApart(s, ch) && p.frag.sn.n == e.expected[ch].n
    requires |run| > 0 && run[0] == p.frag && forall i :: 0 <= i < |run| ==> run[i].sn.n == p.frag.sn.n + i
    requires Waiting(e, ch, p.frag.sn.n + 1, run[1..]) && RunPlaced(e, run)
    ensures var (e', err) := HandleData(e, p);
            && err == Ok && e'.expected[ch].n == e.expected[ch].n + |run|
            && e'.log.passed == e.log.passed + run && e'.log.lost == e.log.lost && Answered(e, e', ch, false)
            && (forall n :: Has(e', ch, n) <==> Has(e, ch, n) || n == p.frag.sn.n)
  {
    hide *;
    Parts(s, e, ch);
    WaitingRun(s, e, p, ch, run);
    ArrivingAccepted(s, e, p, ch);
    var m, f := Advanced(s, e, p, ch, run);
    RouteWF(e);
    AcceptExpected(e.(routeUp := true), f);
    var d := PassRun(s, m, ch, run);
    RestWaits(e, m, d, ch, run);
    RunOfRest(s, e, ch, run);
    ConsumeRun(s, d, ch, run[1..]);
    var c := Consume(d, ch);
    ConsumeKeeps(s, d, ch);
    Parts(s, c, ch);
    SendAckAnswers(s, c, ch, false);
    GapIs(e, m, d, c, SendAck(c, ch, false), ch, run);
    ConsumeShrinks(s, d, ch);
    GapHas(e, m, d, c, SendAck(c, ch, false), ch, run);
  }

  // A message whose last number the run reaches, and of which nothing was reported lost, is handed up then.
  lemma {:induction false} GapHandsUp(s: Endpoint, e: Endpoint, p: Packet, ch: nat, run: seq<Frag>, j: nat)
    requires WF(s) && WF(e) && ValidChannel(ch) && SenderInv(s, ch) && Arriving(s, e, p, ch)
    requires ReceiverInv(s, e, ch, e.expected[ch].n) && Progress(s, e, ch, e.expected[ch].n) && OneEach(e, ch)
    requires StreamsApart(s, ch) && p.frag.sn.n == e.expected[ch].n
    requires |run| > 0 && run[0] == p.frag && forall i :: 0 <= i < |run| ==> run[i].sn.n == p.frag.sn.n + i
    requires Waiting(e, ch, p.frag.sn.n + 1, run[1..]) && RunPlaced(e, run)
    requires j < |s.log.submitted| && s.log.submitted[j].channel == ch && Intact(s, e, s.log.submitted[j])
    requires var m := s.log.submitted[j]; m.first + Fragments(|m.bytes|) <= p.frag.sn.n + |run|
    ensures HandedUp(HandleData(e, p).0, s.log.submitted[j])
  {
    GapFilled(s, e, p, ch, run);
    GapReady(s, e, p, ch);
    hide HandleData, Progress, ReceiverInv, Arriving, RunPlaced, Waiting, OneEach, StreamsApart, Has, Answered,
         SenderInv;
    ArrivingFresh(s, e, p, ch);
    HandleDataProgress(s, e, p, ch);
    var e', m := HandleData(e, p).0, s.log.submitted[j];
    HandedNow(s, e, e', m, j, ch);
  }

  lemma {:induction false} HandedNow(s: Endpoint, e: Endpoint, e': Endpoint, m: Msg, j: nat, ch: nat)
    requires WF(s) && WF(e') && ValidChannel(ch) && Progress(s, e', ch, e'.expected[ch].n) && MsgsOk(s, ch)
    requires j < |s.log.submitted| && s.log.submitted[j] == m && m.channel == ch && Intact(s, e, m)
    requires e'.log.lost == e.log.lost && m.first + Fragments(|m.bytes|) <= e'.expected[ch].n
    ensures HandedUp(e', m)
  {
    assert Progressed(s, e', m, e'.expected[ch].n) && MsgOk(s, m);
    assert forall n :: Reported(s, e', ch, n) == Reported(s, e, ch, n);
  }

  lemma {:induction false} ArrivingFresh(s: Endpoint, e: Endpoint, p: Packet, ch: nat)
    requires WF(s) && WF(e) && ValidChannel(ch) && Arriving(s, e, p, ch) && SenderInv(s, ch)
    ensures p.Data? && p.frag.channel == ch && ch != TIME_CHANNEL && SenderPacketOk(s, p, ch) && Fresh(s, p, ch)
    ensures MsgsOk(s, ch)
  {
  }

  // Accepting the expected number never ends the epoch.
  lemma {:induction false} GapReady(s: Endpoint, e: Endpoint, p: Packet, ch: nat)
    requires WF(s) && WF(e) && ValidChannel(ch) && SenderInv(s, ch) && Arriving(s, e, p, ch)
    requires ReceiverInv(s, e, ch, e.expected[ch].n) && p.frag.sn.n == e.expected[ch].n
    ensures HandleData(e, p).0.ready
  {
    hide RxGood, PendGood, PassedGood, Accounted, ReGood, DeliveredGood, ReceiverPacketsOk, Genuine, HandleData,
         AcceptData, SendAck, Deliver, Consume;
    ArrivingAccepted(s, e, p, ch);
    SameExact(p.frag.sn, e.expected[ch]);
    AcceptExpected(e.(routeUp := true), p.frag);
    var m := SetExpected(e.(routeUp := true), ch, Plus(e.expected[ch], 1));
    AckReady(Consume(Deliver(m, p.frag), ch), ch);
  }

  lemma {:induction false} AckReady(c: Endpoint, ch: nat)
    requires WF(c) && ValidChannel(ch)
    ensures SendAck(c, ch, false).ready == c.ready
  {
    hide SackBits;
  }
}
