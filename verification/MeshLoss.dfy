// What the other end's report of lost numbers does to the receiver.
module MeshLoss {
  import opened Base
  import opened Serial
  import opened Slots
  import opened MeshTypes
  import opened Reliable
  import opened Handlers
  import opened MeshInvariant
  import opened MeshReceive
  import opened MeshConsume
  import opened MeshHandlers
  import opened MeshAccount
  import opened MeshReorder
  import opened MeshPacket
  import opened MeshGap
  import PL = PendingLost

  // A loss report of the sender `s` that the receiver `e` is bound to, within the window.
  ghost predicate Reporting(s: Endpoint, e: Endpoint, p: Packet, ch: nat)
    requires WF(s) && WF(e) && ValidChannel(ch)
  {
    && p.Lost? && !p.receiverDrop && p.channel == ch
    && SenderPacketOk(s, p, ch) && Fresh(s, p, ch)
    && e.ready && p.binding == e.binding
  }

  ghost function EventOf(p: Packet): LostEvent
    requires p.Lost?
  {
    LostEvent(false, p.channel, p.reason, p.first, p.last)
  }

  // Numbers the receiver is past: the report is passed on, and that is all.
  lemma {:induction false} LossBehind(s: Endpoint, e: Endpoint, p: Packet, ch: nat)
    requires WF(s) && WF(e) && ValidChannel(ch) && Reporting(s, e, p, ch)
    requires ReceiverInv(s, e, ch, e.expected[ch].n) && p.last.n < e.expected[ch].n
    ensures HandleLost(e, p) == (e.(log := e.log.(lost := e.log.lost + [EventOf(p)])), Ok)
  {
    InRangeExact(e.expected[ch], p.first, p.last);
    BeforeExact(e.expected[ch], p.first);
    hide InRange, Before, Consume, PL.Add, ClearPeer;
  }

  // Numbers ahead: they count as dealt with when the table of lost ranges takes them; else the epoch ends.
  lemma {:induction false} LossAhead(s: Endpoint, e: Endpoint, p: Packet, ch: nat)
    requires WF(s) && WF(e) && ValidChannel(ch) && Reporting(s, e, p, ch)
    requires ReceiverInv(s, e, ch, e.expected[ch].n) && Drained(e, ch) && e.expected[ch].n < p.first.n
    ensures var (e', err) := HandleLost(e, p);
            && (PendRoom(e, ch, p.first.n, p.last.n) ==>
                  && err == Ok && e' == e.(pend := e'.pend, log := e.log.(lost := e.log.lost + [EventOf(p)]))
                  && forall n :: Has(e', ch, n) <==> Has(e, ch, n) || p.first.n <= n <= p.last.n)
            && (!PendRoom(e, ch, p.first.n, p.last.n) ==> err == NoMem && !e'.ready)
  {
    hide PassedGood, Accounted, ReGood, DeliveredGood, ReceiverPacketsOk, PL.Add, Has, ClearPeer, HandleLost, Told;
    DrainedAround(s, e, ch);
    PL.AddTakesExactly(e.pend, ch, p.first, p.last, e.expected[ch].n);
    PL.AddIsUnion(e.pend, ch, p.first, p.last, e.expected[ch].n);
    AddKeepsOk(e.pend, ch, p.first, p.last);
    LostAhead(e, p);
    var (pend, ok) := PL.Add(e.pend, ch, p.first, p.last);
    assert ok == PendRoom(e, ch, p.first.n, p.last.n);
    hide RxGood, PendGood, PL.Around, PL.Separated, PL.OthersKept, PendRoom;
    if ok { UnionHas(e, HandleLost(e, p).0, ch, p.first.n, p.last.n); }
  }

  lemma {:induction false} LostAhead(e: Endpoint, p: Packet)
    requires WF(e) && p.Lost? && !p.receiverDrop && e.ready && p.binding == e.binding && ValidChannel(p.channel)
    requires e.expected[p.channel].n < p.first.n <= p.last.n < e.expected[p.channel].n + HALF
    ensures var (pend, ok) := PL.Add(e.pend, p.channel, p.first, p.last);
            var (e', err) := HandleLost(e, p);
            && (ok ==> err == Ok && e' == e.(pend := pend, log := e.log.(lost := e.log.lost + [EventOf(p)])))
            && (!ok ==> err == NoMem && !e'.ready)
  {
    InRangeExact(e.expected[p.channel], p.first, p.last);
    BeforeExact(e.expected[p.channel], p.first);
    AddKeepsOk(e.pend, p.channel, p.first, p.last);
    hide InRange, Before, Consume, PL.Add;
  }

  // The number waited for is among them: the receiver goes on behind the range, with what is buffered there, and
  // loses nothing more.
  lemma {:induction false} LossJump(s: Endpoint, e: Endpoint, p: Packet, ch: nat, run: seq<Frag>)
    requires WF(s) && WF(e) && ValidChannel(ch) && Reporting(s, e, p, ch) && SenderInv(s, ch) && StreamsApart(s, ch)
    requires ReceiverInv(s, e, ch, e.expected[ch].n) && Progress(s, e, ch, e.expected[ch].n) && OneEach(e, ch)
    requires p.first.n <= e.expected[ch].n <= p.last.n
    requires RunOf(s, ch, p.last.n + 1, run) && Waiting(e, ch, p.last.n + 1, run) && RunPlaced(e, run)
    ensures var (e', err) := HandleLost(e, p);
            && err == Ok && e'.expected[ch].n == p.last.n + 1 + |run|
            && e'.log.passed == e.log.passed + run && e'.log.lost == e.log.lost + [EventOf(p)]
            && e'.log.sent == e.log.sent && e'.pend == e.pend && e'.tx == e.tx
  {
    hide *;
    var m := Jumped(s, e, p, ch, run);
    ConsumeRun(s, m, ch, run);
    JumpIs(e, m, p, ch, run);
  }

  lemma {:induction false} Jumped(s: Endpoint, e: Endpoint, p: Packet, ch: nat, run: seq<Frag>) returns (m: Endpoint)
    requires WF(s) && WF(e) && ValidChannel(ch) && Reporting(s, e, p, ch) && SenderInv(s, ch) && StreamsApart(s, ch)
    requires ReceiverInv(s, e, ch, e.expected[ch].n) && Progress(s, e, ch, e.expected[ch].n) && OneEach(e, ch)
    requires p.first.n <= e.expected[ch].n <= p.last.n
    requires RunOf(s, ch, p.last.n + 1, run) && Waiting(e, ch, p.last.n + 1, run) && RunPlaced(e, run)
    ensures p.Lost? && p.channel == ch && WF(m) && m == SetExpected(e, ch, Plus(p.last, 1))
    ensures m.expected[ch].n == p.last.n + 1 && |m.expected| == CHANNELS
    ensures ReceiverInv(s, m, ch, m.expected[ch].n) && Progress(s, m, ch, m.expected[ch].n) && OneEach(m, ch)
    ensures RunOf(s, ch, m.expected[ch].n, run) && Waiting(m, ch, m.expected[ch].n, run) && RunPlaced(m, run)
    ensures HandleLost(e, p) == (Record(Consume(m, ch), false, ch, p.reason, p.first, p.last), Ok)
  {
    hide ReceiverInv, Progress, RunPlaced, RunOf, StreamsApart, SenderInv, Waiting, OneEach, Consume, HandleLost;
    JumpsTo(s, e, p, ch);
    m := SetExpected(e, ch, Plus(p.last, 1));
    RunPlacedSame(e, m, run);
    SameWaiting(e, m, ch, p.last.n + 1, run);
    LostJump(e, p);
  }

  lemma {:induction false} JumpsTo(s: Endpoint, e: Endpoint, p: Packet, ch: nat)
    requires WF(s) && WF(e) && ValidChannel(ch) && Reporting(s, e, p, ch) && SenderInv(s, ch)
    requires ReceiverInv(s, e, ch, e.expected[ch].n) && Progress(s, e, ch, e.expected[ch].n)
    requires p.first.n <= e.expected[ch].n <= p.last.n
    ensures var m := SetExpected(e, ch, Plus(p.last, 1));
            ReceiverInv(s, m, ch, m.expected[ch].n) && Progress(s, m, ch, m.expected[ch].n)
    ensures p.first.n <= p.last.n < p.first.n + HALF
  {
    hide RxGood, PendGood, PassedGood, Accounted, ReGood, DeliveredGood, ReceiverPacketsOk, Progress, Keeps, TxGood,
         SenderPacketsOk;
    forall n | e.expected[ch].n <= n < p.last.n + 1 ensures Reported(s, e, ch, n) {
      assert Told(s.log, true, ch, n);
    }
    JumpKeeps(s, e, ch, Plus(p.last, 1));
    JumpProgress(s, e, ch, Plus(p.last, 1), e.expected[ch].n);
  }

  lemma {:induction false} SameWaiting(e: Endpoint, m: Endpoint, ch: nat, from: int, run: seq<Frag>)
    requires m.rx == e.rx && m.pend == e.pend && m.peer == e.peer && Waiting(e, ch, from, run) && OneEach(e, ch)
    ensures Waiting(m, ch, from, run) && OneEach(m, ch)
  {
    assert forall i :: 0 <= i < |e.rx| ==> RxOn(m, e.rx[i], ch) == RxOn(e, e.rx[i], ch);
    assert forall i :: 0 <= i < |run| ==> IsBuffered(e, ch, run[i]) && IsBuffered(m, ch, run[i]);
  }

  lemma {:induction false} LostJump(e: Endpoint, p: Packet)
    requires WF(e) && p.Lost? && !p.receiverDrop && e.ready && p.binding == e.binding && ValidChannel(p.channel)
    requires p.first.n <= e.expected[p.channel].n <= p.last.n < p.first.n + HALF
    ensures HandleLost(e, p) ==
            (Record(Consume(SetExpected(e, p.channel, Plus(p.last, 1)), p.channel), false, p.channel, p.reason, p.first,
                    p.last), Ok)
  {
    InRangeExact(e.expected[p.channel], p.first, p.last);
    hide InRange, Before, Consume, PL.Add, ClearPeer;
  }

  lemma {:induction false} JumpIs(e: Endpoint, m: Endpoint, p: Packet, ch: nat, run: seq<Frag>)
    requires WF(e) && WF(m) && ValidChannel(ch) && p.Lost? && p.channel == ch
    requires m == SetExpected(e, ch, Plus(p.last, 1)) && Consumed(m, Consume(m, ch), ch, run)
    requires HandleLost(e, p) == (Record(Consume(m, ch), false, ch, p.reason, p.first, p.last), Ok)
    ensures var (e', err) := HandleLost(e, p);
            && err == Ok && e'.expected[ch].n == p.last.n + 1 + |run|
            && e'.log.passed == e.log.passed + run && e'.log.lost == e.log.lost + [EventOf(p)]
            && e'.log.sent == e.log.sent && e'.pend == e.pend && e'.tx == e.tx
  {
    hide HandleLost, Consume;
  }

  // A report of another binding, to a peer that is not ready, or for no channel, is refused and changes nothing.
  lemma {:induction false} LossRefused(e: Endpoint, p: Packet)
    requires WF(e) && p.Lost? && !(e.ready && p.binding == e.binding && 1 <= p.channel < 10)
    ensures HandleLost(e, p) == (e, InvalidState)
  {
    hide Consume, PL.Add, ClearPeer, InRange, Before;
  }
}
