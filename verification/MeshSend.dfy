// Submission, acknowledgement and retransmission keep the channel invariant.
module MeshSend {
  import opened Base
  import opened Serial
  import opened Slots
  import opened MeshTypes
  import opened Reliable
  import opened Handlers
  import opened MeshInvariant
  import opened MeshFrame
  import opened MeshReceive
  import opened MeshHandlers
  import PL = PendingLost

  // ---- What the sender's steps establish

  // Every slot freed held a number that is settled.
  ghost predicate FreesSettled(s: Endpoint, s': Endpoint, r: Endpoint, ch: nat)
    requires WF(s) && WF(s') && WF(r) && ValidChannel(ch)
  {
    |s'.tx| == |s.tx| && s'.peer == s.peer &&
    forall i :: 0 <= i < |s.tx| && TxOn(s, s.tx[i], ch) ==>
      (TxOn(s', s'.tx[i], ch) && s'.tx[i].frag == s.tx[i].frag) || Settled(s', r, ch, s.tx[i].frag.sn.n)
  }

  lemma {:induction false} VanishKept(s: Endpoint, s': Endpoint, r: Endpoint, ch: nat)
    requires WF(s) && WF(s') && WF(r) && ValidChannel(ch)
    requires NothingVanished(s, r, ch) && FreesSettled(s, s', r, ch) && s'.next[ch] == s.next[ch]
    requires forall n :: Settled(s, r, ch, n) ==> Settled(s', r, ch, n)
    ensures NothingVanished(s', r, ch)
  {
    forall n | 1 <= n < s'.next[ch].n ensures InSlot(s', ch, n) || Settled(s', r, ch, n) {
      if InSlot(s, ch, n) {
        var i :| 0 <= i < |s.tx| && TxOn(s, s.tx[i], ch) && s.tx[i].frag.sn.n == n;
      }
    }
  }

  // Slots freed, nothing else: the whole direction is kept.
  lemma {:induction false} FreeSlotsKeeps(s: Endpoint, tx: seq<TxSlot>, r: Endpoint, ch: nat)
    requires WF(s) && WF(r) && ValidChannel(ch) && DirInv(s, r, ch)
    requires |tx| == |s.tx|
    requires forall i :: 0 <= i < |tx| ==> tx[i] == s.tx[i] || tx[i].TxFree?
    requires forall i :: 0 <= i < |tx| && TxOn(s, s.tx[i], ch) && tx[i] != s.tx[i] ==>
               Settled(s, r, ch, s.tx[i].frag.sn.n)
    ensures var s' := s.(tx := tx); WF(s') && DirInv(s', r, ch)
  {
    var s' := s.(tx := tx);
    assert forall i :: 0 <= i < |tx| && TxOn(s', tx[i], ch) ==> TxOn(s, s.tx[i], ch);
    assert Later(s, s', ch);
    SenderPacketsLater(s, s', ch);
    WindowStays(s, s', r, ch);
    ReceiverInvLater(s, s', r, ch, r.expected[ch].n);
    VanishKept(s, s', r, ch);
  }

  lemma {:induction false} SenderPacketsLater(s: Endpoint, s': Endpoint, ch: nat)
    requires WF(s) && WF(s') && ValidChannel(ch)
    requires SenderPacketsOk(s, ch) && Later(s, s', ch) && s'.log.sent == s.log.sent
    ensures SenderPacketsOk(s', ch)
  {
    forall i | 0 <= i < |s'.log.sent| && FromSender(s'.log.sent[i], ch)
      ensures SenderPacketOk(s', s'.log.sent[i], ch)
    {
      assert SenderPacketOk(s, s.log.sent[i], ch);
    }
  }

  // One more truthful packet sent.
  lemma {:induction false} SendPacketKeeps(s: Endpoint, p: Packet, r: Endpoint, ch: nat)
    requires WF(s) && WF(r) && ValidChannel(ch) && DirInv(s, r, ch)
    requires FromSender(p, ch) ==> SenderPacketOk(s, p, ch)
    ensures DirInv(Send(s, p), r, ch)
  {
    var s' := Send(s, p);
    assert Later(s, s', ch);
    forall i | 0 <= i < |s'.log.sent| && FromSender(s'.log.sent[i], ch)
      ensures SenderPacketOk(s', s'.log.sent[i], ch)
    {
      if i < |s.log.sent| {
        assert SenderPacketOk(s, s.log.sent[i], ch);
      } else {
        assert SenderPacketOk(s, p, ch);
      }
    }
    assert forall i :: 0 <= i < |s.tx| && TxOn(s', s'.tx[i], ch) ==> TxOn(s, s.tx[i], ch);
    WindowStays(s, s', r, ch);
    ReceiverInvLater(s, s', r, ch, r.expected[ch].n);
    VanishKept(s, s', r, ch);
  }

  // One more loss reported by the sender.
  lemma {:induction false} RecordOwnKeeps(s: Endpoint, reason: Reason, first: SeqNum, last: SeqNum, r: Endpoint,
                                          ch: nat)
    requires WF(s) && WF(r) && ValidChannel(ch) && DirInv(s, r, ch)
    ensures var s' := Record(s, true, ch, reason, first, last);
            && DirInv(s', r, ch)
            && forall n :: first.n <= n <= last.n ==> Told(s'.log, true, ch, n)
  {
    var s' := Record(s, true, ch, reason, first, last);
    ToldKept(s.log, s'.log, true, ch);
    forall n | first.n <= n <= last.n ensures Told(s'.log, true, ch, n) {
      assert Tells(s'.log.lost[|s.log.lost|], true, ch, n);
    }
    assert Later(s, s', ch);
    assert forall i :: 0 <= i < |s.tx| && TxOn(s', s'.tx[i], ch) ==> TxOn(s, s.tx[i], ch);
    SenderPacketsLater(s, s', ch);
    WindowStays(s, s', r, ch);
    ReceiverInvLater(s, s', r, ch, r.expected[ch].n);
    VanishKept(s, s', r, ch);
  }

  lemma {:induction false} SendLostKeeps(s: Endpoint, reason: Reason, first: SeqNum, last: SeqNum, r: Endpoint, ch: nat)
    requires WF(s) && WF(r) && ValidChannel(ch) && DirInv(s, r, ch)
    requires 1 <= first.n <= last.n < s.next[ch].n
    ensures DirInv(SendLost(s, ch, reason, first, last), r, ch)
  {
    RecordOwnKeeps(s, reason, first, last, r, ch);
    SendPacketKeeps(Record(s, true, ch, reason, first, last),
                    Lost(s.binding, ch, reason, false, first, last), r, ch);
  }

  // Fields outside the invariant may change freely.
  lemma {:induction false} SenderSameView(s: Endpoint, s': Endpoint, r: Endpoint, ch: nat)
    requires WF(s) && WF(s') && WF(r) && ValidChannel(ch) && DirInv(s, r, ch)
    requires s' == s.(routeUp := s'.routeUp, nextStream := s'.nextStream)
    ensures DirInv(s', r, ch)
  {
    assert Later(s, s', ch);
    assert forall i :: 0 <= i < |s.tx| && TxOn(s', s'.tx[i], ch) ==> TxOn(s, s.tx[i], ch);
    SenderPacketsLater(s, s', ch);
    WindowStays(s, s', r, ch);
    ReceiverInvLater(s, s', r, ch, r.expected[ch].n);
    VanishKept(s, s', r, ch);
  }

  // ---- Handlers

  // A slot is freed only when the acknowledgement, or its bitmap, tells of its number.
  lemma {:induction false} AcceptedIsSettled(s: Endpoint, r: Endpoint, p: Packet, ch: nat, sn: SeqNum)
    requires WF(s) && WF(r) && ValidChannel(ch) && p.Ack?
    requires ReceiverPacketOk(s, r, p, ch) && Fresh(s, p, ch) && r.expected[ch].n <= s.next[ch].n
    requires sn.n < s.next[ch].n && Live(s, ch, sn.n) && Accepts(p.ack, p.sack, sn)
    ensures Settled(s, r, ch, sn.n)
  {
    hide WF, Buffered, Reported;
    AcceptedBit(p.ack, p.sack, sn);
    if p.ack.n < sn.n {
      var b := sn.n - p.ack.n - 1;
      assert b in p.sack && Settled(s, r, ch, p.ack.n + 1 + b);
    }
  }

  // What an acknowledgement says of a number less than half a turn from it.
  lemma {:induction false} AcceptedBit(ack: SeqNum, sack: set<nat>, sn: SeqNum)
    requires -HALF < sn.n - ack.n < HALF && Accepts(ack, sack, sn)
    ensures sn.n <= ack.n || sn.n - ack.n - 1 in sack
  {
    BeforeExact(ack, sn);
    if ack.n < sn.n {
      Difference(sn, Plus(ack, 1));
      assert (sn.w - ack.w - 1) % MOD == (sn.w - Plus(ack, 1).w) % MOD;
    }
  }

  lemma {:induction false} AckSlotsKeeps(s: Endpoint, r: Endpoint, p: Packet, ch: nat)
    requires WF(s) && WF(r) && ValidChannel(ch) && DirInv(s, r, ch)
    requires p.Ack? && p.channel == ch && ReceiverPacketOk(s, r, p, ch) && Fresh(s, p, ch)
    ensures DirInv(AckSlots(s, ch, p.ack, p.sack), r, ch)
  {
    var s' := AckSlots(s, ch, p.ack, p.sack);
    forall i | 0 <= i < |s.tx| && TxOn(s, s.tx[i], ch) && s'.tx[i] != s.tx[i]
      ensures Settled(s, r, ch, s.tx[i].frag.sn.n)
    {
      AcceptedIsSettled(s, r, p, ch, s.tx[i].frag.sn);
    }
    FreeSlotsKeeps(s, s'.tx, r, ch);
  }

  // A slot's retry counter plays no part in the invariant.
  lemma {:induction false} RetriesKeeps(s: Endpoint, k: nat, retries: nat, r: Endpoint, ch: nat)
    requires WF(s) && WF(r) && ValidChannel(ch) && DirInv(s, r, ch)
    requires k < |s.tx| && TxOn(s, s.tx[k], ch)
    ensures var m := s.(tx := s.tx[k := s.tx[k].(retries := retries)]); WF(m) && DirInv(m, r, ch)
  {
    hide Genuine, ReceiverInv, NothingVanished;
    var m := s.(tx := s.tx[k := s.tx[k].(retries := retries)]);
    assert forall i :: 0 <= i < |s.tx| && TxOn(m, m.tx[i], ch) ==> TxOn(s, s.tx[i], ch);
    assert Later(s, m, ch);
    SenderPacketsLater(s, m, ch);
    WindowStays(s, m, r, ch);
    ReceiverInvLater(s, m, r, ch, r.expected[ch].n);
    VanishKept(s, m, r, ch);
  }

  lemma {:induction false} RetransmitKeeps(s: Endpoint, k: nat, r: Endpoint, ch: nat)
    requires WF(s) && WF(r) && ValidChannel(ch) && DirInv(s, r, ch)
    requires k < |s.tx| && TxOn(s, s.tx[k], ch)
    ensures DirInv(Retransmit(s, k), r, ch)
  {
    var p := DataOf(s, s.tx[k].frag);
    var m := s.(tx := s.tx[k := s.tx[k].(retries := (s.tx[k].retries + 1) % 256)]);
    SlotPacketOk(s, k, m, r, ch);
    hide DirInv, SenderPacketOk;
    RetriesKeeps(s, k, (s.tx[k].retries + 1) % 256, r, ch);
    SendPacketKeeps(m, p, r, ch);
  }

  lemma {:induction false} SlotPacketOk(s: Endpoint, k: nat, m: Endpoint, r: Endpoint, ch: nat)
    requires WF(s) && WF(r) && ValidChannel(ch) && DirInv(s, r, ch) && k < |s.tx| && TxOn(s, s.tx[k], ch)
    requires m.next == s.next && m.log == s.log
    ensures SenderPacketOk(m, DataOf(s, s.tx[k].frag), ch)
  {
  }

  lemma {:induction false} HandleAckKeeps(s: Endpoint, p: Packet, r: Endpoint, ch: nat)
    requires WF(s) && WF(r) && ValidChannel(ch) && DirInv(s, r, ch)
    requires p.Ack? && p.channel == ch && ReceiverPacketOk(s, r, p, ch) && Fresh(s, p, ch)
    ensures DirInv(HandleAck(s, p).0, r, ch)
  {
    if s.ready && p.binding == s.binding {
      var a := s.(routeUp := true);
      SenderSameView(s, a, r, ch);
      assert forall n :: Settled(s, r, ch, n) ==> Settled(a, r, ch, n);
      assert ReceiverPacketOk(a, r, p, ch);
      AckSlotsKeeps(a, r, p, ch);
      var b := AckSlots(a, ch, p.ack, p.sack);
      if p.isNack && p.nack.w != 0 {
        var k := First(b.tx, TxAt(b.peer, ch, p.nack));
        if k < |b.tx| {
          assert TxOn(b, b.tx[k], ch);
          RetransmitKeeps(b, k, r, ch);
        } else {
          SendLostKeeps(b, Overflow, p.nack, p.nack, r, ch);
        }
      }
    }
  }

  lemma {:induction false} HandleReceiverLossKeeps(s: Endpoint, p: Packet, r: Endpoint, ch: nat)
    requires WF(s) && WF(r) && ValidChannel(ch) && DirInv(s, r, ch)
    requires p.Lost? && p.channel == ch && p.receiverDrop && ReceiverPacketOk(s, r, p, ch) && Fresh(s, p, ch)
    ensures DirInv(HandleLost(s, p).0, r, ch)
  {
    if s.ready && p.binding == s.binding {
      var tx := seq(|s.tx|, i requires 0 <= i < |s.tx| => TxKeptByLoss(s, ch, p.first, p.last, s.tx[i]));
      forall i | 0 <= i < |tx| && TxOn(s, s.tx[i], ch) && tx[i] != s.tx[i]
        ensures Settled(s, r, ch, s.tx[i].frag.sn.n)
      {
        InRangeExact(s.tx[i].frag.sn, p.first, p.last);
        assert Told(r.log, false, ch, s.tx[i].frag.sn.n);
      }
      FreeSlotsKeeps(s, tx, r, ch);
      RecordOwnKeeps(s.(tx := tx), p.reason, p.first, p.last, r, ch);
    }
  }

  // ---- keemash_rel_submit

  // A refused message: its numbers are skipped and reported.
  lemma {:induction false} SkipKeeps(s: Endpoint, s': Endpoint, n: nat, r: Endpoint, ch: nat)
    requires WF(s) && WF(r) && ValidChannel(ch) && DirInv(s, r, ch) && 1 <= n
    requires s' == SendLost(s.(next := s.next[ch := Plus(s.next[ch], n)]), ch, Overflow, s.next[ch],
                            Plus(s.next[ch], n - 1))
    requires InWindow(s', r, ch)
    ensures DirInv(s', r, ch)
  {
    var first, last := s.next[ch], Plus(s.next[ch], n - 1);
    ToldKept(s.log, s'.log, true, ch);
    forall m | first.n <= m <= last.n ensures Told(s'.log, true, ch, m) {
      assert Tells(s'.log.lost[|s.log.lost|], true, ch, m);
    }
    assert Later(s, s', ch);
    forall i | 0 <= i < |s'.log.sent| && FromSender(s'.log.sent[i], ch)
      ensures SenderPacketOk(s', s'.log.sent[i], ch)
    {
      if i < |s.log.sent| {
        assert SenderPacketOk(s, s.log.sent[i], ch);
      }
    }
    assert forall i :: 0 <= i < |s.tx| && TxOn(s', s'.tx[i], ch) ==> TxOn(s, s.tx[i], ch);
    assert MsgsOk(s', ch);
    ReceiverInvLater(s, s', r, ch, r.expected[ch].n);
    forall m | 1 <= m < s'.next[ch].n ensures InSlot(s', ch, m) || Settled(s', r, ch, m) {
      if m < first.n && InSlot(s, ch, m) {
        var i :| 0 <= i < |s.tx| && TxOn(s, s.tx[i], ch) && s.tx[i].frag.sn.n == m;
        assert TxOn(s', s'.tx[i], ch);
      }
    }
  }

  // The fragments i.. of the message lie in slots that were free; the other slots are as before.
  ghost predicate FillsFrom(e: Endpoint, e': Endpoint, ch: nat, stream: u32, bytes: Bytes, i: nat)
    requires WF(e) && WF(e') && ValidChannel(ch) && 0 < |bytes| <= MESSAGE_MAX && i <= Fragments(|bytes|)
  {
    && e' == e.(tx := e'.tx, next := e.next[ch := e'.next[ch]])
    && e'.next[ch].n == e.next[ch].n + Fragments(|bytes|) - i
    && |e'.tx| == |e.tx|
    && (forall k :: 0 <= k < |e.tx| && e'.tx[k] != e.tx[k] ==>
          e.tx[k].TxFree? && e'.tx[k].TxUsed? && e'.tx[k].peer == e.peer &&
          PieceOf(e'.tx[k].frag, ch, e.next[ch].n - i, stream, bytes, i))
    && (forall n :: e.next[ch].n <= n < e'.next[ch].n ==> InSlot(e', ch, n))
  }

  // The fragment is piece number i or later of the message that starts at number `first`.
  ghost predicate PieceOf(f: Frag, ch: nat, first: int, stream: u32, bytes: Bytes, i: nat)
    requires ValidChannel(ch) && 0 < |bytes| <= MESSAGE_MAX
  {
    && i <= f.index < Fragments(|bytes|)
    && f.sn.n == first + f.index && f == FragOf(ch, f.sn, stream, bytes, f.index)
  }

  lemma {:induction false} FillFills(e: Endpoint, ch: nat, stream: u32, bytes: Bytes, priority: nat, i: nat)
    requires WF(e) && ValidChannel(ch) && 0 < |bytes| <= MESSAGE_MAX && i <= Fragments(|bytes|)
    requires TxAvailable(e, priority) >= Fragments(|bytes|) - i
    ensures FillsFrom(e, Fill(e, ch, stream, bytes, priority, i), ch, stream, bytes, i)
    decreases Fragments(|bytes|) - i
  {
    var e' := Fill(e, ch, stream, bytes, priority, i);
    if i < Fragments(|bytes|) {
      var f := FragOf(ch, e.next[ch], stream, bytes, i);
      AvailableForetellsAlloc(e, priority, f);
      var k := TxAlloc(e, priority);
      var m := Occupy(e, k, priority, f);
      FillFills(m, ch, stream, bytes, priority, i + 1);
      FillStep(e, m, e', k, ch, stream, bytes, priority, i);
    } else {
      assert e.next[ch := e.next[ch]] == e.next;
    }
  }

  lemma {:induction false} FillStep(e: Endpoint, m: Endpoint, e': Endpoint, k: nat, ch: nat, stream: u32, bytes: Bytes,
                 priority: nat, i: nat)
    requires WF(e) && WF(m) && WF(e') && ValidChannel(ch) && 0 < |bytes| <= MESSAGE_MAX
    requires i < Fragments(|bytes|) && k < |e.tx| && e.tx[k].TxFree?
    requires m == Occupy(e, k, priority, FragOf(ch, e.next[ch], stream, bytes, i))
    requires FillsFrom(m, e', ch, stream, bytes, i + 1)
    ensures FillsFrom(e, e', ch, stream, bytes, i)
  {
    assert e'.tx[k] == m.tx[k];
    assert TxOn(e', e'.tx[k], ch) && e'.tx[k].frag.sn.n == e.next[ch].n;
    assert e.next[ch := e'.next[ch]] == m.next[ch := e'.next[ch]];
    forall j | 0 <= j < |e.tx| && e'.tx[j] != e.tx[j]
      ensures e.tx[j].TxFree? && e'.tx[j].TxUsed? && e'.tx[j].peer == e.peer &&
              PieceOf(e'.tx[j].frag, ch, e.next[ch].n - i, stream, bytes, i)
    {
      if j != k {
        assert e'.tx[j] != m.tx[j];
      }
    }
    forall n | e.next[ch].n <= n < e'.next[ch].n ensures InSlot(e', ch, n) {
      if n > e.next[ch].n {
        assert InSlot(e', ch, n);
      }
    }
  }

  // An accepted message: every piece is in a slot and the message is on record.
  ghost predicate Accepted(s: Endpoint, s': Endpoint, stream: u32, bytes: Bytes, ch: nat)
    requires WF(s) && WF(s') && ValidChannel(ch) && 0 < |bytes| <= MESSAGE_MAX
  {
    && s'.log == s.log.(submitted := s.log.submitted + [Msg(ch, s.next[ch].n, stream, bytes)])
    && FillsFrom(s, s'.(log := s.log), ch, stream, bytes, 0)
  }

  lemma {:induction false} AcceptedSender(s: Endpoint, s': Endpoint, stream: u32, bytes: Bytes, ch: nat)
    requires WF(s) && WF(s') && ValidChannel(ch) && 0 < |bytes| <= MESSAGE_MAX
    requires SenderInv(s, ch) && Accepted(s, s', stream, bytes, ch)
    requires forall i :: 0 <= i < |s'.tx| && TxOn(s', s'.tx[i], ch) ==> Live(s', ch, s'.tx[i].frag.sn.n)
    ensures SenderInv(s', ch) && Later(s, s', ch)
  {
    assert Later(s, s', ch);
    SenderPacketsLater(s, s', ch);
    var m := Msg(ch, s.next[ch].n, stream, bytes);
    assert s'.log.submitted[|s.log.submitted|] == m;
    forall k | 0 <= k < |s'.tx| && TxOn(s', s'.tx[k], ch)
      ensures Genuine(s'.log, s'.tx[k].frag) && s'.tx[k].frag.sn.n < s'.next[ch].n
    {
      if s'.tx[k] == s.tx[k] {
        assert TxOn(s, s.tx[k], ch);
      } else {
        assert PieceOf(s'.tx[k].frag, ch, s.next[ch].n, stream, bytes, 0);
      }
    }
  }

  lemma {:induction false} AcceptedVanish(s: Endpoint, s': Endpoint, stream: u32, bytes: Bytes, r: Endpoint, ch: nat)
    requires WF(s) && WF(s') && WF(r) && ValidChannel(ch) && 0 < |bytes| <= MESSAGE_MAX
    requires NothingVanished(s, r, ch) && Accepted(s, s', stream, bytes, ch)
    requires forall n :: Settled(s, r, ch, n) ==> Settled(s', r, ch, n)
    ensures NothingVanished(s', r, ch)
  {
    var filled := s'.(log := s.log);
    forall n | 1 <= n < s'.next[ch].n ensures InSlot(s', ch, n) || Settled(s', r, ch, n) {
      if n >= s.next[ch].n {
        assert InSlot(filled, ch, n);
        var k :| 0 <= k < |filled.tx| && TxOn(filled, filled.tx[k], ch) && filled.tx[k].frag.sn.n == n;
        assert TxOn(s', s'.tx[k], ch);
      } else if InSlot(s, ch, n) {
        var k :| 0 <= k < |s.tx| && TxOn(s, s.tx[k], ch) && s.tx[k].frag.sn.n == n;
        assert s'.tx[k] == s.tx[k] && TxOn(s', s'.tx[k], ch);
      }
    }
  }

  lemma {:induction false} AcceptKeeps(s: Endpoint, s': Endpoint, stream: u32, bytes: Bytes, r: Endpoint, ch: nat)
    requires WF(s) && WF(s') && WF(r) && ValidChannel(ch) && DirInv(s, r, ch) && 0 < |bytes| <= MESSAGE_MAX
    requires Accepted(s, s', stream, bytes, ch) && InWindow(s', r, ch)
    ensures DirInv(s', r, ch)
  {
    AcceptedSender(s, s', stream, bytes, ch);
    ReceiverInvLater(s, s', r, ch, r.expected[ch].n);
    AcceptedVanish(s, s', stream, bytes, r, ch);
  }

  lemma {:induction false} FragPacketOk(s: Endpoint, first: SeqNum, stream: u32, bytes: Bytes, i: nat, r: Endpoint,
                                        ch: nat)
    requires WF(s) && WF(r) && ValidChannel(ch) && DirInv(s, r, ch)
    requires 0 < |bytes| <= MESSAGE_MAX && i < Fragments(|bytes|)
    requires Msg(ch, first.n, stream, bytes) in s.log.submitted
    ensures SenderPacketOk(s, DataOf(s, FragOf(ch, Plus(first, i), stream, bytes, i)), ch)
  {
    MessageBelow(s, Msg(ch, first.n, stream, bytes));
  }

  lemma {:induction false} SendFragsKeeps(s: Endpoint, first: SeqNum, stream: u32, bytes: Bytes, i: nat,
                                          r: Endpoint, ch: nat)
    requires WF(s) && WF(r) && ValidChannel(ch) && DirInv(s, r, ch)
    requires 0 < |bytes| <= MESSAGE_MAX && i <= Fragments(|bytes|)
    requires Msg(ch, first.n, stream, bytes) in s.log.submitted
    ensures DirInv(SendFrags(s, ch, first, stream, bytes, i), r, ch)
    decreases Fragments(|bytes|) - i
  {
    if i < Fragments(|bytes|) {
      hide DirInv, SenderPacketOk, FragOf, WF;
      var p := DataOf(s, FragOf(ch, Plus(first, i), stream, bytes, i));
      FragPacketOk(s, first, stream, bytes, i, r, ch);
      SendKeepsWF(s, p);
      SendPacketKeeps(s, p, r, ch);
      SendFragsKeeps(Send(s, p), first, stream, bytes, i + 1, r, ch);
    }
  }

  lemma {:induction false} SendKeepsWF(s: Endpoint, p: Packet)
    requires WF(s)
    ensures WF(Send(s, p))
  {
  }

  // The state between filling the slots and sending the fragments.
  function Noted(e: Endpoint, stream: u32, bytes: Bytes, priority: nat, ch: nat): (r: Endpoint)
    requires WF(e) && ValidChannel(ch) && 0 < |bytes| <= MESSAGE_MAX
    requires TxAvailable(e, priority) >= Fragments(|bytes|)
    ensures WF(r)
  {
    var filled := Fill(e, ch, stream, bytes, priority, 0);
    filled.(log := filled.log.(submitted := filled.log.submitted +
                                             [Msg(ch, e.next[ch].n, stream, bytes)]))
  }

  lemma {:induction false} NotedAccepted(e: Endpoint, stream: u32, bytes: Bytes, priority: nat, ch: nat)
    requires WF(e) && ValidChannel(ch) && 0 < |bytes| <= MESSAGE_MAX
    requires TxAvailable(e, priority) >= Fragments(|bytes|)
    ensures Accepted(e, Noted(e, stream, bytes, priority, ch), stream, bytes, ch)
  {
    FillFills(e, ch, stream, bytes, priority, 0);
    var filled := Fill(e, ch, stream, bytes, priority, 0);
    assert filled.log == e.log;
    assert Noted(e, stream, bytes, priority, ch).(log := e.log) == filled;
  }

  lemma {:induction false} WindowSameTables(s: Endpoint, s': Endpoint, r: Endpoint, ch: nat)
    requires WF(s) && WF(s') && WF(r) && ValidChannel(ch) && InWindow(s, r, ch)
    requires s'.next == s.next && s'.tx == s.tx && s'.peer == s.peer
    ensures InWindow(s', r, ch)
  {
    assert forall i :: 0 <= i < |s.tx| && TxOn(s', s'.tx[i], ch) ==> TxOn(s, s.tx[i], ch);
  }

  function NextStreamOf(s: Endpoint): u32 {
    if s.nextStream == 0 then NextStream(0) else s.nextStream
  }

  // A submission that passes its checks: refused for room, or noted and, on a route, sent.
  lemma {:induction false} SubmitIs(s: Endpoint, bytes: Bytes, priority: nat, ch: nat)
    requires WF(s) && ValidChannel(ch) && 0 < |bytes| <= MESSAGE_MAX && s.ready
    ensures var stream := NextStreamOf(s);
            var e := s.(nextStream := NextStream(stream));
            var n := Fragments(|bytes|);
            Submit(s, ch, bytes, priority).0 ==
            if TxAvailable(e, priority) < n then
              SendLost(e.(next := e.next[ch := Plus(e.next[ch], n)]), ch, Overflow, e.next[ch],
                       Plus(e.next[ch], n - 1))
            else if e.routeUp then SendFrags(Noted(e, stream, bytes, priority, ch), ch, e.next[ch], stream, bytes, 0)
            else Noted(e, stream, bytes, priority, ch)
  {
    hide WF, Fragments, SendFrags, Fill, TxAvailable, SendLost;
  }

  lemma {:induction false} SubmitKeeps(s: Endpoint, bytes: Bytes, priority: nat, r: Endpoint, ch: nat)
    requires WF(s) && WF(r) && ValidChannel(ch) && DirInv(s, r, ch)
    requires InWindow(Submit(s, ch, bytes, priority).0, r, ch)
    ensures DirInv(Submit(s, ch, bytes, priority).0, r, ch)
  {
    if 0 < |bytes| <= MESSAGE_MAX && s.ready {
      var stream := NextStreamOf(s);
      var e := s.(nextStream := NextStream(stream));
      SenderSameView(s, e, r, ch);
      SubmitIs(s, bytes, priority, ch);
      hide DirInv, InWindow, WF, Fragments, SendFrags, Fill, Submit, Noted, TxAvailable, SendLost, NextStreamOf;
      var s' := Submit(s, ch, bytes, priority).0;
      if TxAvailable(e, priority) < Fragments(|bytes|) {
        SkipKeeps(e, s', Fragments(|bytes|), r, ch);
      } else {
        TakenKeeps(e, s', stream, bytes, priority, r, ch);
      }
    }
  }

  lemma {:induction false} TakenKeeps(e: Endpoint, s': Endpoint, stream: u32, bytes: Bytes, priority: nat, r: Endpoint,
                                      ch: nat)
    requires WF(e) && WF(s') && WF(r) && ValidChannel(ch) && DirInv(e, r, ch) && 0 < |bytes| <= MESSAGE_MAX
    requires TxAvailable(e, priority) >= Fragments(|bytes|) && InWindow(s', r, ch)
    requires var noted := Noted(e, stream, bytes, priority, ch);
             s' == if e.routeUp then SendFrags(noted, ch, e.next[ch], stream, bytes, 0) else noted
    ensures DirInv(s', r, ch)
  {
    var noted := Noted(e, stream, bytes, priority, ch);
    assert Msg(ch, e.next[ch].n, stream, bytes) in noted.log.submitted;
    hide DirInv, InWindow, WF, Fragments, SendFrags, Noted, TxAvailable;
    WindowSameTables(s', noted, r, ch);
    NotedAccepted(e, stream, bytes, priority, ch);
    AcceptKeeps(e, noted, stream, bytes, r, ch);
    if e.routeUp {
      SendFragsKeeps(noted, e.next[ch], stream, bytes, 0, r, ch);
    }
  }
}
