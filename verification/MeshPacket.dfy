// Each DATA packet of an ordered channel, by where its number stands.
module MeshPacket {
  import opened Base
  import opened Serial
  import opened Slots
  import opened MeshTypes
  import opened Reliable
  import opened Handlers
  import opened MeshInvariant
  import opened MeshReceive
  import opened MeshConsume
  import opened MeshHandlers
  import opened MeshAccount
  import opened MeshReorder
  import G = MeshGuarantees
  import PL = PendingLost

  // A DATA packet of the other end `s` that the receiver `e` is bound to, within the window.
  ghost predicate Arriving(s: Endpoint, e: Endpoint, p: Packet, ch: nat)
    requires WF(s) && WF(e) && ValidChannel(ch)
  {
    && p.Data? && p.frag.channel == ch && ch != TIME_CHANNEL
    && SenderPacketOk(s, p, ch) && Fresh(s, p, ch)
    && e.ready && p.binding == e.binding
  }

  lemma {:induction false} ArrivingAccepted(s: Endpoint, e: Endpoint, p: Packet, ch: nat)
    requires WF(s) && WF(e) && ValidChannel(ch) && MsgsOk(s, ch) && Arriving(s, e, p, ch)
    ensures HandleData(e, p) == AcceptData(e.(routeUp := true), p.frag)
    ensures FragOk(p.frag) && Genuine(s.log, p.frag) && Live(s, ch, p.frag.sn.n)
    ensures 1 <= p.frag.sn.n - p.frag.index && p.frag.sn.n < s.next[ch].n
  {
    MessageBelow(s, Own(p.frag));
    ChunkSpan(|p.frag.msg|, p.frag.index);
    hide AcceptData, JumpToLatest;
  }

  // How far ahead of the expected number a fragment is.
  lemma {:induction false} AheadExact(s: Endpoint, e: Endpoint, ch: nat, sn: SeqNum)
    requires WF(s) && WF(e) && ValidChannel(ch) && e.expected[ch].n <= s.next[ch].n && Live(s, ch, e.expected[ch].n)
    requires Live(s, ch, sn.n) && sn.n < s.next[ch].n
    ensures Before(sn, e.expected[ch]) <==> sn.n < e.expected[ch].n
    ensures Same(sn, e.expected[ch]) <==> sn.n == e.expected[ch].n
    ensures sn.n > e.expected[ch].n ==>
              ((sn.w - e.expected[ch].w) % MOD >= WINDOW <==> sn.n >= e.expected[ch].n + 32)
  {
    BeforeExact(sn, e.expected[ch]);
    SameExact(sn, e.expected[ch]);
    Difference(sn, e.expected[ch]);
  }

  // A number already dealt with, too far ahead, or held: nothing changes but the route flag and an answer, which
  // asks for the expected number when the packet was ahead of it.
  lemma {:induction false} NothingNew(s: Endpoint, e: Endpoint, p: Packet, ch: nat)
    requires WF(s) && WF(e) && ValidChannel(ch) && MsgsOk(s, ch) && Arriving(s, e, p, ch)
    requires ReceiverInv(s, e, ch, e.expected[ch].n)
    requires var n := p.frag.sn.n;
             n < e.expected[ch].n || n >= e.expected[ch].n + 32 ||
             (n > e.expected[ch].n && Buffered(e, ch, n))
    ensures var (e', err) := HandleData(e, p);
            && err == Ok && e' == e.(routeUp := true, log := e.log.(sent := e'.log.sent))
            && Answered(e, e', ch, p.frag.sn.n > e.expected[ch].n)
  {
    hide PendGood, PassedGood, Accounted, ReGood, DeliveredGood, ReceiverPacketsOk, SendAck, Answered, AcceptData,
         HandleData, Genuine, Answers;
    ArrivingAccepted(s, e, p, ch);
    var e1, nack := e.(routeUp := true), p.frag.sn.n > e.expected[ch].n;
    RxWindow(s, e, ch);
    AheadExact(s, e, ch, p.frag.sn);
    BufferedExactly(e, ch, p.frag.sn);
    hide Before, Buffered, First, RxGood;
    AcceptAnswers(e1, p.frag, nack);
    SendAckAnswers(s, e1, ch, nack);
    AnsweredRoute(e, e1, SendAck(e1, ch, nack), ch, nack);
  }

  lemma {:induction false} AcceptAnswers(e: Endpoint, f: Frag, nack: bool)
    requires WF(e) && FragOk(f)
    requires !nack ==> Before(f.sn, e.expected[f.channel])
    requires nack ==>
               && !Before(f.sn, e.expected[f.channel]) && !Same(f.sn, e.expected[f.channel])
               && ((f.sn.w - e.expected[f.channel].w) % MOD >= WINDOW ||
                   First(e.rx, RxAt(e.peer, f.channel, f.sn)) < |e.rx|)
    ensures AcceptData(e, f) == (SendAck(e, f.channel, nack), Ok)
  {
    hide SendAck, Before, First, WF, Deliver, Consume, Drop;
  }

  lemma {:induction false} AnsweredRoute(e: Endpoint, e1: Endpoint, e': Endpoint, ch: nat, nack: bool)
    requires WF(e') && ValidChannel(ch) && e1.log.sent == e.log.sent && Answered(e1, e', ch, nack)
    ensures Answered(e, e', ch, nack)
  {
  }

  lemma {:induction false} AcceptAhead(e: Endpoint, f: Frag)
    requires WF(e) && FragOk(f)
    requires !Before(f.sn, e.expected[f.channel]) && !Same(f.sn, e.expected[f.channel])
    requires (f.sn.w - e.expected[f.channel].w) % MOD < WINDOW
    requires First(e.rx, RxAt(e.peer, f.channel, f.sn)) == |e.rx|
    ensures AcceptData(e, f) ==
            if RxAlloc(e) == |e.rx| then (Drop(e, f.channel, Overflow, f.sn, f.sn), NoMem)
            else (SendAck(e.(rx := e.rx[RxAlloc(e) := RxUsed(e.peer, f)]), f.channel, true), Ok)
  {
    hide SendAck, Before, First, WF, Deliver, Consume, Drop, RxAlloc, FragOk;
  }

  // A pending range of the channel touches lo..hi, or a slot of the table is free.
  ghost predicate PendRoom(e: Endpoint, ch: nat, lo: int, hi: int) {
    exists k :: 0 <= k < |e.pend| && (e.pend[k].PendFree? ||
      (PL.On(e.pend[k], ch) && e.pend[k].first.n <= hi + 1 && lo <= e.pend[k].last.n + 1))
  }

  // A number 1..31 ahead of the expected one and not yet held: it is buffered exactly when the peer owns fewer rx
  // slots than it may and one is free.  Then nothing is lost and a NACK asks for the expected number.
  lemma {:induction false} AheadIsBuffered(s: Endpoint, e: Endpoint, p: Packet, ch: nat)
    requires WF(s) && WF(e) && ValidChannel(ch) && MsgsOk(s, ch) && Arriving(s, e, p, ch)
    requires ReceiverInv(s, e, ch, e.expected[ch].n)
    requires e.expected[ch].n < p.frag.sn.n < e.expected[ch].n + 32 && !Buffered(e, ch, p.frag.sn.n)
    ensures var (e', err) := HandleData(e, p);
            && (err == Ok <==> RxRoom(e)) && (err == NoMem <==> !RxRoom(e))
            && (RxRoom(e) ==>
                  && Buffered(e', ch, p.frag.sn.n) && Answered(e, e', ch, true)
                  && (exists k :: 0 <= k < |e.rx| && e.rx[k].RxFree? && e'.rx == e.rx[k := RxUsed(e.peer, p.frag)])
                  && e' == e.(routeUp := true, rx := e'.rx, log := e.log.(sent := e'.log.sent))
                  && forall n :: Has(e', ch, n) <==> Has(e, ch, n) || n == p.frag.sn.n)
  {
    hide PendGood, PassedGood, Accounted, ReGood, DeliveredGood, ReceiverPacketsOk, SendAck, Answered, AcceptData,
         HandleData, Has, RxRoom, RxAlloc, Genuine, Answers, Drop;
    ArrivingAccepted(s, e, p, ch);
    var e1, f := e.(routeUp := true), p.frag;
    RxWindow(s, e, ch);
    AheadExact(s, e, ch, f.sn);
    BufferedExactly(e, ch, f.sn);
    RxAllocExactly(e);
    RoomSame(e, e1);
    var k := RxAlloc(e1);
    hide Before, First, Buffered, RxGood;
    AcceptAhead(e1, f);
    if k < |e.rx| {
      var m := e1.(rx := e.rx[k := RxUsed(e.peer, f)]);
      RoomBuffers(s, e, e1, m, f, k);
      SendAckAnswers(s, m, ch, true);
      var e' := SendAck(m, ch, true);
      AnsweredRoute(e, m, e', ch, true);
      SameHas(m, e', ch);
    }
  }

  lemma {:induction false} RoomSame(a: Endpoint, b: Endpoint)
    requires b == a.(routeUp := b.routeUp)
    ensures RxAlloc(a) == RxAlloc(b)
  {
  }

  lemma {:induction false} RoomBuffers(s: Endpoint, e: Endpoint, e1: Endpoint, m: Endpoint, f: Frag, k: nat)
    requires WF(s) && WF(e) && WF(e1) && FragOk(f) && k < |e.rx| && e.rx[k].RxFree?
    requires e1 == e.(routeUp := true) && m == e1.(rx := e.rx[k := RxUsed(e.peer, f)])
    requires RxGood(s, e, f.channel) && Genuine(s.log, f)
    requires f.sn.n < s.next[f.channel].n && Live(s, f.channel, f.sn.n - f.index)
    ensures WF(m) && RxGood(s, m, f.channel) && Buffered(m, f.channel, f.sn.n)
    ensures forall n :: Has(m, f.channel, n) <==> Has(e, f.channel, n) || n == f.sn.n
  {
    var ch := f.channel;
    assert RxOn(m, m.rx[k], ch);
    assert forall i :: 0 <= i < |m.rx| && i != k && RxOn(m, m.rx[i], ch) ==> RxOn(e, e.rx[i], ch);
    forall n ensures Buffered(m, ch, n) <==> Buffered(e, ch, n) || n == f.sn.n {
      if Buffered(e, ch, n) {
        var i :| 0 <= i < |e.rx| && RxOn(e, e.rx[i], ch) && e.rx[i].frag.sn.n == n;
        assert RxOn(m, m.rx[i], ch);
      }
    }
  }

  lemma {:induction false} SameHas(a: Endpoint, b: Endpoint, ch: nat)
    requires WF(a) && WF(b) && ValidChannel(ch)
    requires b.peer == a.peer && b.rx == a.rx && b.pend == a.pend && b.expected[ch] == a.expected[ch]
    ensures forall n :: Has(b, ch, n) <==> Has(a, ch, n)
    ensures forall n :: Buffered(b, ch, n) <==> Buffered(a, ch, n)
  {
    assert forall n :: Buffered(b, ch, n) <==> Buffered(a, ch, n);
  }

  // The slots of the channel whose messages have a number in lo..hi are free, and all others as they were.
  ghost predicate Forgets(e: Endpoint, re: seq<ReSlot>, ch: nat, lo: int, hi: int) {
    && |re| == |e.re|
    && forall i :: 0 <= i < |re| ==>
         re[i] == if ReOn(e, e.re[i], ch) && e.re[i].first.n <= hi && lo < e.re[i].first.n + e.re[i].count then ReFree
                  else e.re[i]
  }

  // So are the buffered fragments with a number in lo..hi.
  ghost predicate Unbuffers(e: Endpoint, rx: seq<RxSlot>, ch: nat, lo: int, hi: int) {
    && |rx| == |e.rx|
    && forall i :: 0 <= i < |rx| ==>
         rx[i] == if RxOn(e, e.rx[i], ch) && lo <= e.rx[i].frag.sn.n <= hi then RxFree else e.rx[i]
  }

  // What a dropped range takes from the tables.
  lemma {:induction false} PurgeExactly(s: Endpoint, e: Endpoint, ch: nat, first: SeqNum, last: SeqNum)
    requires WF(s) && WF(e) && ValidChannel(ch) && MsgsOk(s, ch) && ReceiverInv(s, e, ch, e.expected[ch].n)
    requires first.n <= last.n < s.next[ch].n && Live(s, ch, first.n)
    ensures var d := Purge(e, ch, first, last);
            Forgets(e, d.re, ch, first.n, last.n) && Unbuffers(e, d.rx, ch, first.n, last.n) &&
            d == e.(rx := d.rx, re := d.re)
  {
    hide PassedGood, Accounted, DeliveredGood, ReceiverPacketsOk, PendGood;
    forall i | 0 <= i < |e.rx| && RxOn(e, e.rx[i], ch)
      ensures InRange(e.rx[i].frag.sn, first, last) <==> first.n <= e.rx[i].frag.sn.n <= last.n
    {
      InRangeExact(e.rx[i].frag.sn, first, last);
    }
    forall i | 0 <= i < |e.re| && ReOn(e, e.re[i], ch)
      ensures ReOverlaps(e.re[i], first, last) <==>
              e.re[i].first.n <= last.n && first.n < e.re[i].first.n + e.re[i].count
    {
      OverlapsExactly(s, e.re[i], ch, first, last, e.expected[ch].n);
    }
    hide InRange, ReOverlaps, ReGood, RxGood;
  }

  lemma {:induction false} OverlapsExactly(s: Endpoint, slot: ReSlot, ch: nat, first: SeqNum, last: SeqNum, done: int)
    requires WF(s) && ValidChannel(ch) && MsgsOk(s, ch) && SlotGood(s, slot, ch, done)
    requires first.n <= last.n < s.next[ch].n && Live(s, ch, first.n)
    ensures ReOverlaps(slot, first, last) <==> slot.first.n <= last.n && first.n < slot.first.n + slot.count
  {
    hide PartGood;
    var slotLast := Plus(slot.first, slot.count - 1);
    MessageBelow(s, Msg(ch, slot.first.n, slot.stream, slot.msg));
    InRangeExact(slot.first, first, last);
    InRangeExact(slotLast, first, last);
    InRangeExact(first, slot.first, slotLast);
    hide InRange;
  }

  lemma {:induction false} PurgeDropped(s: Endpoint, e: Endpoint, e1: Endpoint, p: Packet, ch: nat)
    requires WF(s) && WF(e) && WF(e1) && ValidChannel(ch) && MsgsOk(s, ch) && Arriving(s, e, p, ch)
    requires ReceiverInv(s, e, ch, e.expected[ch].n) && e1 == e.(routeUp := true)
    ensures Forgets(e, Purge(e1, ch, p.frag.sn, p.frag.sn).re, ch, p.frag.sn.n, p.frag.sn.n)
  {
    hide ReceiverInv, Genuine, MsgsOk, ReOverlaps, InRange;
    PurgeExactly(s, e, ch, p.frag.sn, p.frag.sn);
  }

  // Without room it is reported lost, to the application and to the other end, and counts as dealt with; unless
  // the table of lost ranges is full: then the epoch ends.
  lemma {:induction false} AheadIsDropped(s: Endpoint, e: Endpoint, p: Packet, ch: nat)
    requires WF(s) && WF(e) && ValidChannel(ch) && MsgsOk(s, ch) && Arriving(s, e, p, ch)
    requires ReceiverInv(s, e, ch, e.expected[ch].n) && Drained(e, ch)
    requires e.expected[ch].n < p.frag.sn.n < e.expected[ch].n + 32 && !Buffered(e, ch, p.frag.sn.n) && !RxRoom(e)
    ensures var (e', err) := HandleData(e, p);
            var sn := p.frag.sn;
            && err == NoMem && Told(e'.log, false, ch, sn.n)
            && (e'.ready <==> PendRoom(e, ch, sn.n, sn.n))
            && (e'.ready ==>
                  && e'.expected == e.expected && e'.rx == e.rx && e'.tx == e.tx && Forgets(e, e'.re, ch, sn.n, sn.n)
                  && e'.log == e.log.(lost := e.log.lost + [LostEvent(false, ch, Overflow, sn, sn)],
                                      sent := e.log.sent + [Lost(e.binding, ch, Overflow, true, sn, sn)])
                  && forall n :: Has(e', ch, n) <==> Has(e, ch, n) || n == sn.n)
  {
    hide Forgets, Purge, SendAck, AcceptData, HandleData, Has, RxRoom, RxAlloc, Genuine, Drop, PendRoom, Told, Keeps,
         Drained;
    ArrivingAccepted(s, e, p, ch);
    var e1, f := e.(routeUp := true), p.frag;
    SameView(s, e, e1, ch);
    RxWindow(s, e, ch);
    AheadExact(s, e, ch, f.sn);
    BufferedExactly(e, ch, f.sn);
    RxAllocExactly(e);
    RoomSame(e, e1);
    AcceptAhead(e1, f);
    SameHas(e, e1, ch);
    SamePendRoom(e, e1, ch, f.sn.n, f.sn.n);
    hide ReceiverInv, SenderPacketOk, Fresh, Before, First, Buffered;
    DropOne(s, e1, ch, f.sn);
    PurgeDropped(s, e, e1, p, ch);
  }

  lemma {:induction false} SamePendRoom(a: Endpoint, b: Endpoint, ch: nat, lo: int, hi: int)
    requires a.pend == b.pend
    ensures PendRoom(a, ch, lo, hi) == PendRoom(b, ch, lo, hi)
  {
  }

  lemma {:induction false} DropOne(s: Endpoint, e: Endpoint, ch: nat, sn: SeqNum)
    requires WF(s) && WF(e) && ValidChannel(ch)
    requires ReceiverInv(s, e, ch, e.expected[ch].n) && Drained(e, ch)
    requires e.expected[ch].n < sn.n < s.next[ch].n && !Buffered(e, ch, sn.n)
    ensures var e' := Drop(e, ch, Overflow, sn, sn);
            && Told(e'.log, false, ch, sn.n)
            && (PendRoom(e, ch, sn.n, sn.n) ==>
                  && e'.ready == e.ready && e'.expected == e.expected && e'.rx == e.rx && e'.tx == e.tx
                  && e'.re == Purge(e, ch, sn, sn).re
                  && e'.log == e.log.(lost := e.log.lost + [LostEvent(false, ch, Overflow, sn, sn)],
                                      sent := e.log.sent + [Lost(e.binding, ch, Overflow, true, sn, sn)])
                  && forall n :: Has(e', ch, n) <==> Has(e, ch, n) || n == sn.n)
            && (!PendRoom(e, ch, sn.n, sn.n) ==> !e'.ready)
  {
    hide PassedGood, Accounted, ReGood, DeliveredGood, ReceiverPacketsOk, Keeps, Drop, Purge, PL.Add, Has, ClearPeer,
         Told;
    var d := Record(Purge(e, ch, sn, sn), false, ch, Overflow, sn, sn);
    PurgeSpares(s, e, ch, sn);
    DropAwaits(s, e, ch, sn);
    DrainedAround(s, e, ch);
    PL.AddTakesExactly(e.pend, ch, sn, sn, e.expected[ch].n);
    PL.AddIsUnion(e.pend, ch, sn, sn, e.expected[ch].n);
    AddKeepsOk(e.pend, ch, sn, sn);
    var (pend, ok) := PL.Add(e.pend, ch, sn, sn);
    assert ok == PendRoom(e, ch, sn.n, sn.n);
    hide RxGood, PendGood, PL.Around, PL.Separated, PL.OthersKept, PendRoom;
    assert d.pend == e.pend && d.log.lost == e.log.lost + [LostEvent(false, ch, Overflow, sn, sn)];
    ToldAtLast(d.log, e.log.lost, ch, sn);
    if ok {
      var e' := Send(d.(pend := pend), Lost(e.binding, ch, Overflow, true, sn, sn));
      ToldKept(d.log, e'.log, false, ch);
      UnionHas(e, e', ch, sn.n, sn.n);
    } else {
      G.ClearKeepsReports(d.(pend := pend), Overflow, ch, sn.n, false);
    }
  }

  lemma {:induction false} ToldAtLast(log: Log, lost: seq<LostEvent>, ch: nat, sn: SeqNum)
    requires log.lost == lost + [LostEvent(false, ch, Overflow, sn, sn)]
    ensures Told(log, false, ch, sn.n)
  {
    assert Tells(log.lost[|lost|], false, ch, sn.n);
  }

  lemma {:induction false} UnionHas(e: Endpoint, e': Endpoint, ch: nat, lo: int, hi: int)
    requires WF(e) && WF(e') && ValidChannel(ch)
    requires e'.rx == e.rx && e'.peer == e.peer && e'.expected == e.expected
    requires forall n :: PL.Holds(e'.pend, ch, n) <==> PL.Holds(e.pend, ch, n) || lo <= n <= hi
    ensures forall n :: Has(e', ch, n) <==> Has(e, ch, n) || lo <= n <= hi
  {
    hide PL.Holds;
    assert forall n :: Buffered(e', ch, n) <==> Buffered(e, ch, n);
  }

  lemma {:induction false} DropAwaits(s: Endpoint, e: Endpoint, ch: nat, sn: SeqNum)
    requires WF(s) && WF(e) && ValidChannel(ch) && e.expected[ch].n < sn.n < s.next[ch].n
    requires Live(s, ch, e.expected[ch].n)
    ensures Drop(e, ch, Overflow, sn, sn) ==
            Await(Record(Purge(e, ch, sn, sn), false, ch, Overflow, sn, sn), ch, sn, sn,
                  Lost(e.binding, ch, Overflow, true, sn, sn))
  {
    InRangeExact(e.expected[ch], sn, sn);
    BeforeExact(e.expected[ch], sn);
    hide InRange, Before, Await, Purge;
  }

  // Dropping a number that is not buffered takes nothing from the rx table.
  lemma {:induction false} PurgeSpares(s: Endpoint, e: Endpoint, ch: nat, sn: SeqNum)
    requires WF(s) && WF(e) && ValidChannel(ch) && RxGood(s, e, ch)
    requires Live(s, ch, sn.n) && sn.n < s.next[ch].n && !Buffered(e, ch, sn.n)
    ensures var d := Purge(e, ch, sn, sn);
            d.rx == e.rx && d == e.(re := d.re)
  {
    var d := Purge(e, ch, sn, sn);
    forall i | 0 <= i < |e.rx| ensures d.rx[i] == e.rx[i] {
      if RxOn(e, e.rx[i], ch) { InRangeExact(e.rx[i].frag.sn, sn, sn); }
    }
  }

  // ---- Refused packets

  // What the source checks before it looks at the number: each failure has its error and changes nothing, except
  // that a misplaced LATEST flag is found after the route was marked up.
  lemma {:induction false} RefusedExactly(e: Endpoint, p: Packet)
    requires WF(e) && p.Data?
    ensures var (f, bound) := (p.frag, e.ready && p.binding == e.binding);
            var formed := 1 <= f.channel < 10 && f.index < f.count <= 16 && |f.payload| <= 152 &&
                          (f.count > 1 ==> p.fragmented);
            var (e', err) := HandleData(e, p);
            && (!formed ==> err == InvalidArg && e' == e)
            && (formed && !bound ==> err == InvalidState && e' == e)
            && (formed && bound && p.latest && (f.channel != 8 || f.count != 1) ==>
                  err == InvalidArg && e' == e.(routeUp := true))
            && (formed && bound && !(p.latest && (f.channel != 8 || f.count != 1)) ==> err == Ok || err == NoMem)
  {
    hide Drop, SendAck, Deliver, Consume, JumpToLatest, Before, First;
  }

  // ---- The time channel, where the latest packet is all that counts

  // Nothing of the channel is buffered and no lost range is pending.
  ghost predicate Clear(e: Endpoint, ch: nat) {
    && (forall i :: 0 <= i < |e.rx| ==> !RxOn(e, e.rx[i], ch))
    && (forall i :: 0 <= i < |e.pend| ==> !PL.On(e.pend[i], ch))
  }

  // A LATEST packet ahead of the expected number, or the expected one with nothing waiting, is handed up at once;
  // what it overtakes is discarded without a report, and the answer acknowledges it.
  lemma {:induction false} LatestOvertakes(e: Endpoint, p: Packet)
    requires WF(e) && p.Data? && e.ready && p.binding == e.binding
    requires FragOk(p.frag) && p.latest && p.frag.channel == TIME_CHANNEL && p.frag.count == 1
    requires var (n, expected) := (p.frag.sn.n, e.expected[TIME_CHANNEL].n);
             expected < n < expected + HALF || (n == expected && Clear(e, TIME_CHANNEL))
    ensures var (e', err) := HandleData(e, p);
            var f := p.frag;
            && err == Ok && e'.expected[TIME_CHANNEL].n == f.sn.n + 1 && Clear(e', TIME_CHANNEL)
            && e'.log.passed == e.log.passed + [f] && e'.log.lost == e.log.lost
            && e'.log.delivered == e.log.delivered + [Delivery(TIME_CHANNEL, f.sn.n, 1, f.stream, f.payload)]
            && Answered(e, e', TIME_CHANNEL, false)
  {
    var f, ch, e1 := p.frag, p.frag.channel, e.(routeUp := true);
    BeforeExact(e.expected[ch], f.sn);
    SameExact(f.sn, e.expected[ch]);
    hide Before;
    var j := if f.sn.n > e.expected[ch].n then JumpToLatest(e1, ch, f.sn) else e1;
    JumpClears(e1, ch, f.sn);
    assert Clear(e1, ch) <==> Clear(e, ch);
    hide AcceptData, JumpToLatest, Clear;
    assert HandleData(e, p) == AcceptData(j, f);
    PassesClear(j, f);
  }

  lemma {:induction false} JumpClears(e: Endpoint, ch: nat, sn: SeqNum)
    requires WF(e) && ValidChannel(ch)
    ensures var j := JumpToLatest(e, ch, sn);
            Clear(j, ch) && j.expected[ch] == sn && j.log == e.log && j.peer == e.peer && j.binding == e.binding
  {
    var j := JumpToLatest(e, ch, sn);
    assert forall i :: 0 <= i < |j.rx| ==>
             j.rx[i] == if RxMine(e.peer)(e.rx[i]) && e.rx[i].frag.channel == ch then RxFree else e.rx[i];
  }

  lemma {:induction false} PassesClear(e: Endpoint, f: Frag)
    requires WF(e) && FragOk(f) && f.count == 1 && Clear(e, f.channel) && Same(f.sn, e.expected[f.channel])
    requires f.sn.n == e.expected[f.channel].n
    ensures var (e', err) := AcceptData(e, f);
            && err == Ok && e'.expected[f.channel].n == f.sn.n + 1 && Clear(e', f.channel)
            && e'.log.passed == e.log.passed + [f] && e'.log.lost == e.log.lost
            && e'.log.delivered == e.log.delivered + [Delivery(f.channel, f.sn.n, 1, f.stream, f.payload)]
            && Answered(e, e', f.channel, false)
  {
    var ch := f.channel;
    BeforeExact(f.sn, e.expected[ch]);
    var m := SetExpected(e, ch, Plus(e.expected[ch], 1));
    var d := Deliver(m, f);
    ConsumeClear(d, ch);
    ClearAnswers(d, ch);
    hide Before, SendAck, Deliver, Consume;
    assert AcceptData(e, f) == (SendAck(Consume(Deliver(m, f), ch), ch, false), Ok);
  }

  lemma {:induction false} ConsumeClear(e: Endpoint, ch: nat)
    requires WF(e) && ValidChannel(ch) && Clear(e, ch)
    ensures Consume(e, ch) == e
  {
    var p := First(e.pend, PendAt(ch, e.expected[ch]));
    var k := First(e.rx, RxAt(e.peer, ch, e.expected[ch]));
    hide Deliver, InRange, Count;
  }

  lemma {:induction false} ClearAnswers(e: Endpoint, ch: nat)
    requires WF(e) && ValidChannel(ch) && Clear(e, ch)
    ensures var e' := SendAck(e, ch, false);
            Answered(e, e', ch, false) && Clear(e', ch) && e' == e.(log := e.log.(sent := e'.log.sent))
  {
    SackExact(e, ch, WINDOW);
    hide SackBits;
  }

  // An older one is only answered.
  lemma {:induction false} LatestTooOld(e: Endpoint, p: Packet)
    requires WF(e) && p.Data? && e.ready && p.binding == e.binding
    requires FragOk(p.frag) && p.latest && p.frag.channel == TIME_CHANNEL && p.frag.count == 1
    requires e.expected[TIME_CHANNEL].n - HALF < p.frag.sn.n < e.expected[TIME_CHANNEL].n
    requires Clear(e, TIME_CHANNEL)
    ensures var (e', err) := HandleData(e, p);
            && err == Ok && e' == e.(routeUp := true, log := e.log.(sent := e'.log.sent))
            && Answered(e, e', TIME_CHANNEL, false)
  {
    var f, ch, e1 := p.frag, p.frag.channel, e.(routeUp := true);
    BeforeExact(f.sn, e.expected[ch]);
    BeforeExact(e.expected[ch], f.sn);
    assert Clear(e1, ch);
    ClearAnswers(e1, ch);
    hide Before, SendAck, JumpToLatest;
    AcceptAnswers(e1, f, false);
  }
}
