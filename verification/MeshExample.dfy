// A run of an epoch in which a packet is lost, sent again, delivered and acknowledged.
module MeshExample {
  import opened Base
  import opened Serial
  import opened Slots
  import opened MeshTypes
  import opened Reliable
  import opened Handlers
  import opened MeshInvariant
  import opened MeshHandlers
  import opened MeshSystem
  import PL = PendingLost

  const CH: nat := 1
  const BINDING: Binding := Binding(1, 2)
  const NO_LOG: Log := Log([], [], [], [], [])

  function Ones(): (r: seq<SeqNum>)
    ensures |r| == CHANNELS && forall i :: 0 <= i < CHANNELS ==> r[i] == Seq(1, 1)
  {
    seq(CHANNELS, _ => Seq(1, 1))
  }

  function NoRanges(): (r: seq<PendSlot>)
    ensures |r| == LOST_RANGES && forall i :: 0 <= i < LOST_RANGES ==> r[i] == PendFree
  {
    seq(LOST_RANGES, _ => PendFree)
  }

  // An endpoint with one slot in each table.
  function New(): (e: Endpoint)
    ensures WF(e) && FreshEndpoint(e)
  {
    Endpoint(Config(0, 1, 0, 1, 1), 7, BINDING, true, true, 1, Ones(), Ones(), [TxFree], [RxFree], [ReFree],
             NoRanges(), NO_LOG)
  }

  // The only message, of one byte, and its only fragment.
  function Fragment(): Frag {
    Frag(CH, Seq(1, 1), 0, 1, 1, [5], [5])
  }

  function DataPacket(): Packet {
    Data(BINDING, Fragment(), false, false)
  }

  function AckPacket(): Packet {
    Ack(BINDING, CH, Seq(1, 1), {}, false, Seq(0, 0))
  }

  // The sender with its fragment in the slot, having sent it 1 + retries times.
  function Sending(retries: nat, sent: seq<Packet>): (e: Endpoint)
    ensures WF(e)
  {
    New().(nextStream := 2, next := Ones()[CH := Seq(2, 2)], tx := [TxUsed(7, 0, retries, Fragment())],
           log := Log([Msg(CH, 1, 1, [5])], sent, [], [], []))
  }

  function Settled(): (e: Endpoint)
    ensures WF(e)
  {
    Sending(1, [DataPacket(), DataPacket()]).(tx := [TxFree])
  }

  function Received(): (e: Endpoint)
    ensures WF(e)
  {
    New().(expected := Ones()[CH := Seq(2, 2)],
           log := Log([], [AckPacket()], [], [Fragment()], [Delivery(CH, 1, 1, 1, [5])]))
  }

  // The slots filled, and the message noted.
  function Noted(): (e: Endpoint)
    ensures WF(e)
  {
    Sending(0, [])
  }

  lemma {:induction false} Fills()
    ensures var m := New().(nextStream := 2);
            TxAvailable(m, 0) == 1 && Fill(m, CH, 1, [5], 0, 0) == Noted().(log := NO_LOG)
  {
    var m := New().(nextStream := 2);
    assert Fragments(1) == 1;
    assert TxAvailable(m, 0) == 1;
    assert Chunk([5], 0) == [5];
    assert FragOf(CH, Seq(1, 1), 1, [5], 0) == Fragment();
    var occupied := Occupy(m, 0, 0, Fragment());
    assert TxAlloc(m, 0) == 0;
    assert Fill(occupied, CH, 1, [5], 0, 1) == occupied;
    assert Fill(m, CH, 1, [5], 0, 0) == occupied;
    assert occupied.tx == [TxUsed(7, 0, 0, Fragment())];
  }

  lemma {:induction false} Sends()
    ensures SendFrags(Noted(), CH, Seq(1, 1), 1, [5], 0) == Sending(0, [DataPacket()])
  {
    assert Chunk([5], 0) == [5];
    assert FragOf(CH, Plus(Seq(1, 1), 0), 1, [5], 0) == Fragment();
    var sent := Send(Noted(), DataPacket());
    assert SendFrags(sent, CH, Seq(1, 1), 1, [5], 1) == sent;
    assert sent == Sending(0, [DataPacket()]);
  }

  lemma {:induction false} Submits()
    ensures Submit(New(), CH, [5], 0) == (Sending(0, [DataPacket()]), Ok)
  {
    Fills();
    Sends();
    var m, message: Bytes := New().(nextStream := 2), [5];
    hide Fill, SendFrags, TxAvailable;
    var filled := Fill(m, CH, 1, message, 0, 0);
    assert NO_LOG.submitted + [Msg(CH, 1, 1, message)] == [Msg(CH, 1, 1, message)];
    assert filled.(log := filled.log.(submitted := filled.log.submitted + [Msg(CH, 1, 1, message)])) == Noted();
  }

  lemma {:induction false} Resends()
    ensures Retransmit(Sending(0, [DataPacket()]), 0) == Sending(1, [DataPacket(), DataPacket()])
  {
  }

  // Handed up, and not yet acknowledged.
  function Delivered(): (e: Endpoint)
    ensures WF(e)
  {
    Received().(log := Received().log.(sent := []))
  }

  lemma {:induction false} Passes()
    ensures var m := SetExpected(New(), CH, Plus(Seq(1, 1), 1));
            JustPassed(m, Fragment()) && Deliver(m, Fragment()) == Delivered()
  {
    assert Plus(Seq(1, 1), 1) == Seq(2, 2);
    hide FindRe, Store, Drop;
  }

  lemma {:induction false} Rests()
    ensures Consume(Delivered(), CH) == Delivered()
  {
    var d := Delivered();
    FirstUnique(d.pend, PendAt(CH, d.expected[CH]), LOST_RANGES);
    FirstUnique(d.rx, RxAt(d.peer, CH, d.expected[CH]), 1);
    hide First, Deliver, SkipPending, TakeBuffered;
  }

  lemma {:induction false} Acks()
    ensures SendAck(Delivered(), CH, false) == Received()
  {
    NothingBuffered(Delivered(), WINDOW);
    hide SackBits;
  }

  lemma {:induction false} Accepts()
    ensures AcceptData(New(), Fragment()) == (Received(), Ok)
  {
    Passes();
    Rests();
    Acks();
    assert New().expected[CH] == Seq(1, 1);
    hide New, Deliver, Consume, SendAck, Delivered, Received, First, Drop, RxAlloc, SetExpected;
  }

  lemma {:induction false} Receives()
    ensures Receive(New(), DataPacket()) == (Received(), Ok)
  {
    hide *;
    Accepts();
    PacketFormed();
    DataAccepted(New(), DataPacket());
  }

  lemma {:induction false} PacketFormed()
    ensures var (e, p) := (New(), DataPacket());
            && p.Data? && DataFormed(p) && e.ready && e.routeUp && p.binding == e.binding && !p.latest
            && p.frag == Fragment() && WF(e)
  {
  }

  lemma {:induction false} DataAccepted(e: Endpoint, p: Packet)
    requires WF(e) && p.Data? && DataFormed(p) && e.ready && e.routeUp && p.binding == e.binding && !p.latest
    ensures Receive(e, p) == AcceptData(e, p.frag)
  {
    assert e.(routeUp := true) == e;
    hide AcceptData;
  }

  lemma {:induction false} NothingBuffered(e: Endpoint, bits: nat)
    requires WF(e) && e.rx == [RxFree]
    ensures SackBits(e, CH, bits) == {}
  {
    if bits > 0 { NothingBuffered(e, bits - 1); }
  }

  lemma {:induction false} Acknowledged()
    ensures Receive(Sending(1, [DataPacket(), DataPacket()]), AckPacket()) == (Settled(), Ok)
  {
    var e := Sending(1, [DataPacket(), DataPacket()]);
    assert Handlers.Accepts(Seq(1, 1), {}, Seq(1, 1));
    assert AckSlots(e, CH, Seq(1, 1), {}).tx == [TxFree];
    assert e.(routeUp := true) == e;
  }

  lemma {:induction false} Steps()
    ensures Acts(New(), New(), DoSubmit(CH, [5], 0), Sending(0, [DataPacket()]))
    ensures Acts(Sending(0, [DataPacket()]), New(), DoRetransmit(0), Sending(1, [DataPacket(), DataPacket()]))
    ensures Acts(New(), Sending(1, [DataPacket(), DataPacket()]), DoReceive(DataPacket()), Received())
    ensures Acts(Sending(1, [DataPacket(), DataPacket()]), Received(), DoReceive(AckPacket()), Settled())
  {
    Submits();
    Resends();
    Receives();
    Acknowledged();
    hide Submit, Retransmit, Receive;
  }

  // Submitted and lost, sent again, delivered and acknowledged, in turn.
  function Example(): seq<System> {
    [System(New(), New()), System(Sending(0, [DataPacket()]), New()),
     System(Sending(1, [DataPacket(), DataPacket()]), New()),
     System(Sending(1, [DataPacket(), DataPacket()]), Received()),
     System(Settled(), Received())]
  }

  lemma {:induction false} ExampleIsEpoch()
    ensures Epoch(Example())
    ensures Example()[4].b.log.delivered == [Delivery(CH, 1, 1, 1, [5])] && Example()[4].a.tx == [TxFree]
  {
    Steps();
    Ready();
    hide Acts, New, Sending, Settled, Received, WF, FreshEndpoint;
    var run := Example();
    forall i | 0 <= i < |run| - 1
      ensures Next(run[i], run[i + 1])
    {
      assert i == 0 || i == 1 || i == 2 || i == 3;
    }
  }

  lemma {:induction false} Ready()
    ensures New().ready && Sending(0, [DataPacket()]).ready && Sending(1, [DataPacket(), DataPacket()]).ready
    ensures Settled().ready && Received().ready
    ensures Received().log.delivered == [Delivery(CH, 1, 1, 1, [5])] && Settled().tx == [TxFree]
  {
  }
}
