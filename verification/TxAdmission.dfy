// The CONTROL reserves of the shared tx table (keemash_mesh_core.c:472-517, 1010-1031).
module TxAdmission {
  import opened Base
  import opened Serial
  import opened Slots
  import opened MeshTypes
  import opened Reliable
  import opened Handlers
  import opened MeshInvariant
  import opened MeshFrame
  import opened MeshSend
  import opened MeshHandlerFrame
  import opened MeshSystem

  function NonControl(): TxSlot -> bool {
    (s: TxSlot) => s.TxUsed? && s.priority < PRIORITY_CONTROL
  }

  function NonControlOf(peer: nat): TxSlot -> bool {
    (s: TxSlot) => s.TxUsed? && s.priority < PRIORITY_CONTROL && s.peer == peer
  }

  // Non-CONTROL fragments leave the global reserve free.
  ghost predicate GlobalReserve(e: Endpoint) {
    Count(e.tx, NonControl()) == 0 ||
    Count(e.tx, NonControl()) + e.cfg.reservedControl <= |e.tx|
  }

  // The peer's non-CONTROL fragments leave its own reserve free.
  ghost predicate PeerReserve(e: Endpoint) {
    Count(e.tx, NonControlOf(e.peer)) <= PeerLimit(e.cfg, 0)
  }

  ghost predicate Admitted(e: Endpoint) {
    GlobalReserve(e) && PeerReserve(e)
  }

  lemma {:induction false} OccupyAdmitted(e: Endpoint, priority: nat, f: Frag)
    requires WF(e) && FragOk(f) && Admitted(e) && TxAlloc(e, priority) < |e.tx|
    ensures Admitted(Occupy(e, TxAlloc(e, priority), priority, f))
  {
    var k, slot := TxAlloc(e, priority), TxUsed(e.peer, priority, 0, f);
    CountUpdate(e.tx, NonControl(), k, slot);
    CountUpdate(e.tx, NonControlOf(e.peer), k, slot);
    CountMono(e.tx, e.tx, NonControlOf(e.peer), TxMine(e.peer));
    UsedAndFree(e.tx);
  }

  lemma {:induction false} UsedAndFree(tx: seq<TxSlot>)
    ensures Count(tx, NonControl()) + Count(tx, TxVacant()) <= |tx|
  {
    var used := (s: TxSlot) => s.TxUsed?;
    CountMono(tx, tx, NonControl(), used);
    CountComplement(tx, used, TxVacant());
  }

  lemma {:induction false} FillAdmitted(e: Endpoint, ch: nat, stream: u32, bytes: Bytes, priority: nat, i: nat)
    requires WF(e) && ValidChannel(ch) && 0 < |bytes| <= MESSAGE_MAX && i <= Fragments(|bytes|)
    requires TxAvailable(e, priority) >= Fragments(|bytes|) - i && Admitted(e)
    ensures Admitted(Fill(e, ch, stream, bytes, priority, i))
    decreases Fragments(|bytes|) - i
  {
    hide Admitted, TxAvailable, TxAlloc, Occupy, FragOf, Fragments, Count, FragOk;
    if i < Fragments(|bytes|) {
      var f := FragOf(ch, e.next[ch], stream, bytes, i);
      AvailableForetellsAlloc(e, priority, f);
      OccupyAdmitted(e, priority, f);
      FillAdmitted(Occupy(e, TxAlloc(e, priority), priority, f), ch, stream, bytes, priority, i + 1);
    }
  }

  // Slots only become free, or keep their owner and priority.
  ghost predicate Shrinks(e: Endpoint, e': Endpoint) {
    && e'.cfg == e.cfg && e'.peer == e.peer && |e'.tx| == |e.tx|
    && forall i :: 0 <= i < |e.tx| && e'.tx[i].TxUsed? ==>
         e.tx[i].TxUsed? && e'.tx[i].priority == e.tx[i].priority && e'.tx[i].peer == e.tx[i].peer
  }

  lemma {:induction false} ShrinksAdmitted(e: Endpoint, e': Endpoint)
    requires Admitted(e) && Shrinks(e, e')
    ensures Admitted(e')
  {
    CountMono(e.tx, e'.tx, NonControl(), NonControl());
    CountMono(e.tx, e'.tx, NonControlOf(e.peer), NonControlOf(e.peer));
  }

  lemma {:induction false} SubmitAdmitted(e: Endpoint, ch: nat, bytes: Bytes, priority: nat)
    requires WF(e) && Admitted(e)
    ensures Admitted(Submit(e, ch, bytes, priority).0)
  {
    if 0 < |bytes| <= MESSAGE_MAX && ValidChannel(ch) && e.ready {
      var stream := if e.nextStream == 0 then NextStream(0) else e.nextStream;
      var m := e.(nextStream := NextStream(stream));
      if TxAvailable(m, priority) >= Fragments(|bytes|) {
        FillAdmitted(m, ch, stream, bytes, priority, 0);
        var filled := Fill(m, ch, stream, bytes, priority, 0);
        var r := Submit(e, ch, bytes, priority).0;
        assert r == filled.(log := r.log);
      }
    }
  }

  // What arrives frees slots, or leaves them.
  lemma {:induction false} ReceiveShrinks(e: Endpoint, p: Packet)
    requires WF(e) && Receive(e, p).0.ready
    ensures Shrinks(e, Receive(e, p).0)
  {
    match p
    case Data(_, _, _, _) => HandleDataFrame(e, p);
    case Ack(_, _, _, _, _, _) => AckShrinks(e, p);
    case Lost(_, _, _, drop, _, _) =>
      if !drop {
        HandleSenderLossFrame(e, p);
      }
  }

  lemma {:induction false} AckShrinks(e: Endpoint, p: Packet)
    requires WF(e) && p.Ack?
    ensures Shrinks(e, HandleAck(e, p).0)
  {
  }

  // Whatever an endpoint does in an epoch, both reserves stay; other peers are taken to keep the
  // global one, as this code makes each of them do.
  lemma {:induction false} ReservesKept(e: Endpoint, other: Endpoint, act: Action, e': Endpoint)
    requires WF(e) && WF(other) && WF(e') && Admitted(e)
    requires Acts(e, other, act, e') && e'.ready
    requires act.DoForeign? ==> GlobalReserve(e')
    ensures Admitted(e')
  {
    match act
    case DoSubmit(ch, bytes, priority) => SubmitAdmitted(e, ch, bytes, priority);
    case DoReceive(p) =>
      ReceiveShrinks(e, p);
      ShrinksAdmitted(e, e');
    case DoRetransmit(_) => ShrinksAdmitted(e, e');
    case DoExpire(_) => ShrinksAdmitted(e, e');
    case DoSupersede => ShrinksAdmitted(e, e');
    case DoRoute(_) => ShrinksAdmitted(e, e');
    case DoForeign(_) =>
      forall i | 0 <= i < |e.tx| && NonControlOf(e.peer)(e'.tx[i])
        ensures NonControlOf(e.peer)(e.tx[i])
      {
        assert TxMine(e.peer)(e'.tx[i]);
      }
      CountMono(e.tx, e'.tx, NonControlOf(e.peer), NonControlOf(e.peer));
  }

  // The other peers of a context keep the global reserve too: they allocate by the same rule.
  ghost predicate ForeignRespects(run: seq<System>) {
    forall i, x :: 0 <= i < |run| - 1 && SystemWF(run[i]) && SystemWF(run[i + 1]) ==>
      && (Acts(run[i].a, run[i].b, DoForeign(x), run[i + 1].a) && GlobalReserve(run[i].a) ==>
            GlobalReserve(run[i + 1].a))
      && (Acts(run[i].b, run[i].a, DoForeign(x), run[i + 1].b) && GlobalReserve(run[i].b) ==>
            GlobalReserve(run[i + 1].b))
  }

  lemma {:induction false} FreshPeerReserve(e: Endpoint)
    requires FreshEndpoint(e)
    ensures PeerReserve(e)
  {
    assert forall i :: 0 <= i < |e.tx| ==> !TxMine(e.peer)(e.tx[i]) && !NonControlOf(e.peer)(e.tx[i]);
    CountZero(e.tx, NonControlOf(e.peer));
  }

  // In every reachable state of an epoch both ends keep both reserves.
  lemma {:induction false} ReservesInEveryState(run: seq<System>, i: nat)
    requires Epoch(run) && i < |run| && ForeignRespects(run)
    requires GlobalReserve(run[0].a) && GlobalReserve(run[0].b)
    ensures Admitted(run[i].a) && Admitted(run[i].b)
  {
    hide GlobalReserve, PeerReserve, Acts, FreshEndpoint;
    if i == 0 {
      FreshPeerReserve(run[0].a);
      FreshPeerReserve(run[0].b);
    } else {
      ReservesInEveryState(run, i - 1);
      var (sys, sys') := (run[i - 1], run[i]);
      assert Next(run[i - 1], run[i - 1 + 1]);
      if sys'.b == sys.b && exists act :: Acts(sys.a, sys.b, act, sys'.a) {
        var act :| Acts(sys.a, sys.b, act, sys'.a);
        assert act.DoForeign? ==> GlobalReserve(run[i - 1 + 1].a);
        ReservesKept(sys.a, sys.b, act, sys'.a);
      } else {
        var act :| Acts(sys.b, sys.a, act, sys'.b);
        assert act.DoForeign? ==> GlobalReserve(run[i - 1 + 1].b);
        ReservesKept(sys.b, sys.a, act, sys'.b);
      }
    }
  }
}
