// What an acknowledgement, a NACK or a receiver's loss report does to the sender: which slots it frees, what is
// sent again, what is reported lost.
module MeshAcks {
  import opened Base
  import opened Serial
  import opened Slots
  import opened MeshTypes
  import opened Reliable
  import opened Handlers
  import opened MeshInvariant
  import opened MeshHandlers
  import opened MeshSend

  // ---- Which slots are freed

  // The acknowledgement covers number n: n is not beyond `ack`, or is one of the 32 after it and in the bitmap.
  ghost predicate Covers(p: Packet, n: int) {
    p.Ack? && (n <= p.ack.n || (n <= p.ack.n + 32 && n - p.ack.n - 1 in p.sack))
  }

  ghost function Covered(p: Packet): int -> bool {
    n => Covers(p, n)
  }

  lemma {:induction false} AcceptsExactly(p: Packet, sn: SeqNum)
    requires p.Ack? && -HALF < sn.n - p.ack.n < HALF
    ensures Accepts(p.ack, p.sack, sn) <==> Covers(p, sn.n)
  {
    BeforeExact(p.ack, sn);
    if p.ack.n < sn.n {
      Difference(sn, Plus(p.ack, 1));
      assert (sn.w - p.ack.w - 1) % MOD == (sn.w - Plus(p.ack, 1).w) % MOD;
    }
  }

  // Every slot of the channel is less than half a turn from the acknowledgement.
  ghost predicate Near(s: Endpoint, ch: nat, n: int) {
    forall i :: 0 <= i < |s.tx| && TxOn(s, s.tx[i], ch) ==> -HALF < s.tx[i].frag.sn.n - n < HALF
  }

  // The slots of the channel whose numbers `gone` tells are freed; every other slot is as it was.
  ghost predicate Frees(s: Endpoint, tx: seq<TxSlot>, ch: nat, gone: int -> bool) {
    && |tx| == |s.tx|
    && forall i :: 0 <= i < |tx| ==>
         tx[i] == if TxOn(s, s.tx[i], ch) && gone(s.tx[i].frag.sn.n) then TxFree else s.tx[i]
  }

  lemma {:induction false} AckFreesExactly(s: Endpoint, p: Packet)
    requires WF(s) && p.Ack? && Near(s, p.channel, p.ack.n)
    ensures var s' := AckSlots(s, p.channel, p.ack, p.sack);
            s' == s.(tx := s'.tx) && Frees(s, s'.tx, p.channel, Covered(p))
  {
    forall i | 0 <= i < |s.tx| && TxOn(s, s.tx[i], p.channel)
      ensures Accepts(p.ack, p.sack, s.tx[i].frag.sn) <==> Covers(p, s.tx[i].frag.sn.n)
    {
      AcceptsExactly(p, s.tx[i].frag.sn);
    }
    hide Accepts;
  }

  // ---- A NACK

  // Slot k still holds the number.
  ghost predicate HoldsAt(s: Endpoint, ch: nat, n: int, k: int) {
    0 <= k < |s.tx| && TxOn(s, s.tx[k], ch) && s.tx[k].frag.sn.n == n
  }

  // The fragment in slot k goes out again as it was, and its retries, an 8-bit count, go up by one.
  ghost predicate SentAgain(s: Endpoint, s': Endpoint, k: int)
    requires 0 <= k < |s.tx| && s.tx[k].TxUsed?
  {
    var slot := s.tx[k];
    && s'.tx == s.tx[k := TxUsed(slot.peer, slot.priority, (slot.retries + 1) % 256, slot.frag)]
    && s'.log == s.log.(sent := s.log.sent + [Data(s.binding, slot.frag, slot.frag.count > 1, slot.frag.channel == 8)])
    && s' == s.(tx := s'.tx, log := s'.log)
  }

  // The number is given up: reported to the application and to the other end.
  ghost predicate GivenUp(s: Endpoint, s': Endpoint, ch: nat, sn: SeqNum) {
    s' == s.(log := s.log.(lost := s.log.lost + [LostEvent(true, ch, Overflow, sn, sn)],
                           sent := s.log.sent + [Lost(s.binding, ch, Overflow, false, sn, sn)]))
  }

  lemma {:induction false} FindsExactly(s: Endpoint, ch: nat, sn: SeqNum)
    requires Near(s, ch, sn.n)
    ensures var k := First(s.tx, TxAt(s.peer, ch, sn));
            && (k < |s.tx| ==> HoldsAt(s, ch, sn.n, k))
            && (k == |s.tx| ==> !InSlot(s, ch, sn.n))
  {
    var k := First(s.tx, TxAt(s.peer, ch, sn));
    forall i | 0 <= i < |s.tx|
      ensures TxAt(s.peer, ch, sn)(s.tx[i]) <==> HoldsAt(s, ch, sn.n, i)
    {
      if TxOn(s, s.tx[i], ch) { SameExact(s.tx[i].frag.sn, sn); }
    }
  }

  // The route is marked up and exactly the slots the packet covers are freed.  A NACK then has the number it asks
  // for sent again when a slot still holds it, and reported lost when none does.
  ghost predicate Acked(s: Endpoint, s': Endpoint, p: Packet)
    requires p.Ack?
  {
    exists m: Endpoint ::
      && m == s.(routeUp := true, tx := m.tx) && Frees(s, m.tx, p.channel, Covered(p))
      && if !p.isNack || p.nack.w == 0 then s' == m
         else if InSlot(m, p.channel, p.nack.n) then
           exists k :: HoldsAt(m, p.channel, p.nack.n, k) && SentAgain(m, s', k)
         else GivenUp(m, s', p.channel, p.nack)
  }

  lemma {:induction false} AckExactly(s: Endpoint, p: Packet)
    requires WF(s) && p.Ack? && s.ready && p.binding == s.binding && ValidChannel(p.channel)
    requires Near(s, p.channel, p.ack.n) && (p.isNack ==> Near(s, p.channel, p.nack.n))
    ensures var (s', err) := HandleAck(s, p); err == Ok && Acked(s, s', p)
  {
    var e := s.(routeUp := true);
    assert forall i :: 0 <= i < |s.tx| ==> TxOn(e, s.tx[i], p.channel) == TxOn(s, s.tx[i], p.channel);
    AckFreesExactly(e, p);
    var m := AckSlots(e, p.channel, p.ack, p.sack);
    assert Frees(s, m.tx, p.channel, Covered(p));
    hide AckSlots, Covers;
    if p.isNack && p.nack.w != 0 {
      FindsExactly(m, p.channel, p.nack);
      var k := First(m.tx, TxAt(m.peer, p.channel, p.nack));
      if k < |m.tx| {
        assert HoldsAt(m, p.channel, p.nack.n, k);
        assert InSlot(m, p.channel, p.nack.n);
        assert SentAgain(m, HandleAck(s, p).0, k);
      }
    }
  }

  // Any other acknowledgement is refused and changes nothing.
  lemma {:induction false} AckRefused(s: Endpoint, p: Packet)
    requires WF(s) && p.Ack?
    ensures var (s', err) := HandleAck(s, p);
            && (err == Ok <==> s.ready && p.binding == s.binding && 1 <= p.channel < 10)
            && (err != Ok ==> err == InvalidState && s' == s)
  {
    hide AckSlots, Retransmit, SendLost, First;
  }

  // In an epoch the acknowledgements that arrive are near enough.
  lemma {:induction false} AckIsNear(s: Endpoint, r: Endpoint, p: Packet, ch: nat)
    requires WF(s) && WF(r) && ValidChannel(ch) && DirInv(s, r, ch)
    requires p.Ack? && p.channel == ch && ReceiverPacketOk(s, r, p, ch) && Fresh(s, p, ch)
    ensures Near(s, ch, p.ack.n) && (p.isNack ==> Near(s, ch, p.nack.n))
  {
  }

  // ---- A receiver's loss report

  // It frees exactly the slots of the numbers it reports, and is passed on to the application.
  lemma {:induction false} ReceiverLossExactly(s: Endpoint, p: Packet)
    requires WF(s) && p.Lost? && p.receiverDrop && s.ready && p.binding == s.binding && ValidChannel(p.channel)
    requires p.first.n <= p.last.n < p.first.n + HALF && Near(s, p.channel, p.first.n) && Near(s, p.channel, p.last.n)
    ensures var (s', err) := HandleLost(s, p);
            && err == Ok && Frees(s, s'.tx, p.channel, n => p.first.n <= n <= p.last.n)
            && s' == s.(tx := s'.tx, log := s.log.(lost := s.log.lost +
                                                     [LostEvent(true, p.channel, p.reason, p.first, p.last)]))
  {
    forall i | 0 <= i < |s.tx| && TxOn(s, s.tx[i], p.channel)
      ensures InRange(s.tx[i].frag.sn, p.first, p.last) <==> p.first.n <= s.tx[i].frag.sn.n <= p.last.n
    {
      InRangeExact(s.tx[i].frag.sn, p.first, p.last);
    }
    hide InRange;
  }

  // ---- A fresher message takes the place of the queued ones

  lemma {:induction false} SupersedeExactly(s: Endpoint, ch: nat)
    requires WF(s)
    ensures var s' := Supersede(s, ch);
            s' == s.(tx := s'.tx) && Frees(s, s'.tx, ch, n => true)
  {
    forall i | 0 <= i < |s.tx| ensures TxOn(s, s.tx[i], ch) <==> TxMine(s.peer)(s.tx[i]) && s.tx[i].frag.channel == ch {
    }
  }

  // A retransmission on timeout does the same to its slot as a NACK.
  lemma {:induction false} RetransmitExactly(s: Endpoint, k: nat)
    requires WF(s) && k < |s.tx| && s.tx[k].TxUsed?
    ensures SentAgain(s, Retransmit(s, k), k)
  {
  }
}
