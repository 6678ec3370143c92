// Which submissions are taken, and where a taken message goes.
module MeshSubmit {
  import opened Base
  import opened Serial
  import opened Slots
  import opened MeshTypes
  import opened Reliable
  import opened Handlers
  import opened MeshInvariant
  import opened MeshSend

  // ---- Room

  ghost function FreeTx(e: Endpoint): set<int> {
    set i | 0 <= i < |e.tx| && e.tx[i].TxFree?
  }

  ghost function OwnTx(e: Endpoint): set<int> {
    set i | 0 <= i < |e.tx| && e.tx[i].TxUsed? && e.tx[i].peer == e.peer
  }

  // There is room for n more fragments: below CONTROL priority, beside the slots reserved for CONTROL, in the whole
  // table and in the peer's share; at CONTROL priority or above, in all free slots and the peer's whole share.
  ghost predicate TxRoom(e: Endpoint, priority: nat, n: nat) {
    if priority < 4 then
      |FreeTx(e)| >= e.cfg.reservedControl + n && |OwnTx(e)| + n + e.cfg.perPeerControlReserve <= e.cfg.perPeerTx
    else |FreeTx(e)| >= n && |OwnTx(e)| + n <= e.cfg.perPeerTx
  }

  lemma {:induction false} RoomExactly(e: Endpoint, priority: nat, n: nat)
    requires n >= 1
    ensures TxAvailable(e, priority) >= n <==> TxRoom(e, priority, n)
  {
    CountIsSize(e.tx, TxVacant());
    CountIsSize(e.tx, TxMine(e.peer));
    assert FreeTx(e) == Where(e.tx, TxVacant());
    assert OwnTx(e) == Where(e.tx, TxMine(e.peer));
  }

  // A slot is handed out exactly when there is room for one fragment, the first free one; above CONTROL priority,
  // which no message has, exactly when one is free.
  lemma {:induction false} AllocExactly(e: Endpoint, priority: nat)
    ensures var k := TxAlloc(e, priority);
            && (priority <= 4 ==> (k < |e.tx| <==> TxRoom(e, priority, 1)))
            && (priority > 4 ==> (k < |e.tx| <==> FreeTx(e) != {}))
            && (k < |e.tx| ==> forall i :: 0 <= i < k ==> !e.tx[i].TxFree?)
  {
    var k := First(e.tx, TxVacant());
    if k < |e.tx| {
      CountPositive(e.tx, TxVacant(), k);
    } else {
      CountZero(e.tx, TxVacant());
    }
    CountIsSize(e.tx, TxVacant());
    CountIsSize(e.tx, TxMine(e.peer));
    assert FreeTx(e) == Where(e.tx, TxVacant());
    assert OwnTx(e) == Where(e.tx, TxMine(e.peer));
  }

  // ---- Where the fragments go

  // The fragments from i on, as they stand in new slots.
  ghost function Pieces(e: Endpoint, ch: nat, stream: u32, bytes: Bytes, priority: nat, i: nat): seq<TxSlot>
    requires WF(e) && ValidChannel(ch) && 0 < |bytes| <= MESSAGE_MAX && i <= Fragments(|bytes|)
  {
    seq(Fragments(|bytes|) - i, j requires 0 <= j < Fragments(|bytes|) - i =>
      TxUsed(e.peer, priority, 0, FragOf(ch, Plus(e.next[ch], j), stream, bytes, i + j)))
  }

  // Piece j is in slot at[j], which was free, and nowhere else; all other slots are as they were.
  ghost predicate Placed(before: seq<TxSlot>, after: seq<TxSlot>, at: seq<nat>, pieces: seq<TxSlot>) {
    && |after| == |before| && |at| == |pieces|
    && (forall j :: 0 <= j < |at| ==> at[j] < |before| && before[at[j]].TxFree? && after[at[j]] == pieces[j])
    && (forall j, l :: 0 <= j < l < |at| ==> at[j] != at[l])
    && (forall k :: 0 <= k < |after| && k !in at ==> after[k] == before[k])
  }

  lemma {:induction false} FillPlaces(e: Endpoint, ch: nat, stream: u32, bytes: Bytes, priority: nat, i: nat)
      returns (at: seq<nat>)
    requires WF(e) && ValidChannel(ch) && 0 < |bytes| <= MESSAGE_MAX && i <= Fragments(|bytes|)
    requires TxAvailable(e, priority) >= Fragments(|bytes|) - i
    ensures Placed(e.tx, Fill(e, ch, stream, bytes, priority, i).tx, at, Pieces(e, ch, stream, bytes, priority, i))
    decreases Fragments(|bytes|) - i
  {
    if i == Fragments(|bytes|) {
      at := [];
    } else {
      var f := FragOf(ch, e.next[ch], stream, bytes, i);
      AvailableForetellsAlloc(e, priority, f);
      var k := TxAlloc(e, priority);
      var m := Occupy(e, k, priority, f);
      assert Fill(e, ch, stream, bytes, priority, i) == Fill(m, ch, stream, bytes, priority, i + 1);
      hide TxAvailable, TxAlloc, Fill, FragOf, Placed, Pieces;
      PiecesUnfold(e, k, ch, stream, bytes, priority, i);
      var rest := FillPlaces(m, ch, stream, bytes, priority, i + 1);
      at := [k] + rest;
      PlacesOne(e.tx, k, TxUsed(e.peer, priority, 0, f), Fill(m, ch, stream, bytes, priority, i + 1).tx, rest,
                Pieces(m, ch, stream, bytes, priority, i + 1));
    }
  }

  lemma {:induction false} PiecesUnfold(e: Endpoint, k: nat, ch: nat, stream: u32, bytes: Bytes, priority: nat, i: nat)
    requires WF(e) && ValidChannel(ch) && 0 < |bytes| <= MESSAGE_MAX && i < Fragments(|bytes|) && k < |e.tx|
    ensures var f := FragOf(ch, e.next[ch], stream, bytes, i);
            Pieces(e, ch, stream, bytes, priority, i) ==
            [TxUsed(e.peer, priority, 0, f)] + Pieces(Occupy(e, k, priority, f), ch, stream, bytes, priority, i + 1)
  {
    hide Chunk, Fragments, TxOk, RxOk, ReOk, PendsOk;
    var f := FragOf(ch, e.next[ch], stream, bytes, i);
    var all, rest := Pieces(e, ch, stream, bytes, priority, i),
                     Pieces(Occupy(e, k, priority, f), ch, stream, bytes, priority, i + 1);
    forall j | 0 <= j < |all| ensures all[j] == ([TxUsed(e.peer, priority, 0, f)] + rest)[j] {
      if j > 0 { PlusTwice(e.next[ch], j - 1); }
    }
  }

  lemma {:induction false} PlacesOne(before: seq<TxSlot>, k: nat, x: TxSlot, after: seq<TxSlot>, rest: seq<nat>,
                                     pieces: seq<TxSlot>)
    requires k < |before| && before[k].TxFree? && x.TxUsed? && Placed(before[k := x], after, rest, pieces)
    ensures Placed(before, after, [k] + rest, [x] + pieces)
  {
    var at := [k] + rest;
    assert k !in rest;
    forall l | 0 <= l < |after| && l !in at ensures after[l] == before[l] {
      assert l != at[0];
      assert forall j :: 0 <= j < |rest| ==> rest[j] == at[j + 1];
    }
  }

  lemma {:induction false} PlusTwice(s: SeqNum, j: nat)
    ensures Plus(Plus(s, 1), j) == Plus(s, j + 1)
  {
  }

  // ---- What is sent

  // The DATA packet of fragment j of the message.
  ghost function DataNo(b: Binding, ch: nat, first: SeqNum, stream: u32, bytes: Bytes, j: nat): Packet
    requires ValidChannel(ch) && 0 < |bytes| <= MESSAGE_MAX && j < Fragments(|bytes|)
  {
    Data(b, FragOf(ch, Plus(first, j), stream, bytes, j), Fragments(|bytes|) > 1, ch == 8)
  }

  // The DATA packets of the message from fragment i on, in order.
  ghost predicate SentWhole(before: seq<Packet>, after: seq<Packet>, b: Binding, ch: nat, first: SeqNum, stream: u32,
                            bytes: Bytes, i: nat)
    requires ValidChannel(ch) && 0 < |bytes| <= MESSAGE_MAX && i <= Fragments(|bytes|)
  {
    && |after| == |before| + Fragments(|bytes|) - i && after[..|before|] == before
    && forall j :: i <= j < Fragments(|bytes|) ==>
         after[|before| + j - i] == DataNo(b, ch, first, stream, bytes, j)
  }

  lemma {:induction false} SendsWhole(e: Endpoint, ch: nat, first: SeqNum, stream: u32, bytes: Bytes, i: nat)
    requires ValidChannel(ch) && 0 < |bytes| <= MESSAGE_MAX && i <= Fragments(|bytes|)
    ensures SentWhole(e.log.sent, SendFrags(e, ch, first, stream, bytes, i).log.sent, e.binding, ch, first, stream,
                      bytes, i)
    decreases Fragments(|bytes|) - i
  {
    if i < Fragments(|bytes|) {
      var p := DataNo(e.binding, ch, first, stream, bytes, i);
      SendsOne(e, ch, first, stream, bytes, i);
      hide DataNo, Plus, Fragments, SendFrags;
      SendsWhole(Send(e, p), ch, first, stream, bytes, i + 1);
      var after := SendFrags(Send(e, p), ch, first, stream, bytes, i + 1).log.sent;
      OneMore(e.log.sent, p, after, e.binding, ch, first, stream, bytes, i);
    }
  }

  lemma {:induction false} OneMore(before: seq<Packet>, p: Packet, after: seq<Packet>, b: Binding, ch: nat,
                                   first: SeqNum, stream: u32, bytes: Bytes, i: nat)
    requires ValidChannel(ch) && 0 < |bytes| <= MESSAGE_MAX && i < Fragments(|bytes|)
    requires p == DataNo(b, ch, first, stream, bytes, i)
    requires SentWhole(before + [p], after, b, ch, first, stream, bytes, i + 1)
    ensures SentWhole(before, after, b, ch, first, stream, bytes, i)
  {
    hide DataNo, Fragments;
    var m := before + [p];
    assert after[..|before|] == m[..|before|] == before;
    assert after[|before|] == m[|before|] == p;
  }

  lemma {:induction false} SendsOne(e: Endpoint, ch: nat, first: SeqNum, stream: u32, bytes: Bytes, i: nat)
    requires ValidChannel(ch) && 0 < |bytes| <= MESSAGE_MAX && i < Fragments(|bytes|)
    ensures SendFrags(e, ch, first, stream, bytes, i) ==
            SendFrags(Send(e, DataNo(e.binding, ch, first, stream, bytes, i)), ch, first, stream, bytes, i + 1)
  {
  }

  // ---- A submission

  // Taken: in slots whole, on record, and on its way when the route is up.
  ghost predicate Taken(s: Endpoint, s': Endpoint, ch: nat, bytes: Bytes, priority: nat, stream: u32)
    requires WF(s) && WF(s') && ValidChannel(ch) && 0 < |bytes| <= MESSAGE_MAX
  {
    && (exists at: seq<nat> :: Placed(s.tx, s'.tx, at, Pieces(s, ch, stream, bytes, priority, 0)))
    && s'.next[ch].n == s.next[ch].n + Fragments(|bytes|)
    && s'.log.submitted == s.log.submitted + [Msg(ch, s.next[ch].n, stream, bytes)]
    && (s.routeUp ==> SentWhole(s.log.sent, s'.log.sent, s.binding, ch, s.next[ch], stream, bytes, 0))
    && (!s.routeUp ==> s'.log.sent == s.log.sent)
    && s' == s.(tx := s'.tx, next := s.next[ch := s'.next[ch]], nextStream := s'.nextStream,
                log := s.log.(submitted := s'.log.submitted, sent := s'.log.sent))
  }

  // Refused for want of room: the numbers it would have had are skipped and reported lost to both ends.
  ghost predicate Refused(s: Endpoint, s': Endpoint, ch: nat, n: nat)
    requires WF(s) && WF(s') && ValidChannel(ch) && n >= 1
  {
    var last := Plus(s.next[ch], n - 1);
    && s'.next[ch].n == s.next[ch].n + n
    && s' == s.(next := s.next[ch := s'.next[ch]], nextStream := s'.nextStream,
                log := s.log.(lost := s.log.lost + [LostEvent(true, ch, Overflow, s.next[ch], last)],
                              sent := s.log.sent + [Lost(s.binding, ch, Overflow, false, s.next[ch], last)]))
  }

  // A message of 1..2432 bytes on a channel of a ready peer is taken exactly when there is room for all its
  // fragments; the stream id is the next one, never 0.
  lemma {:induction false} SubmitExactly(s: Endpoint, ch: nat, bytes: Bytes, priority: nat)
    requires WF(s)
    ensures var (s', err) := Submit(s, ch, bytes, priority);
            var legal := 1 <= ch < 10 && 1 <= |bytes| <= 2432;
            && (!legal ==> err == InvalidArg && s' == s)
            && (legal && !s.ready ==> err == InvalidState && s' == s)
            && (legal && s.ready ==>
                  var n := Fragments(|bytes|);
                  var stream: u32 := if s.nextStream == 0 then 1 else s.nextStream;
                  && (err == Ok <==> TxRoom(s, priority, n)) && (err == NoMem <==> !TxRoom(s, priority, n))
                  && s'.nextStream == (stream + 1) % 0x1_0000_0000
                  && (err == Ok ==> Taken(s, s', ch, bytes, priority, stream))
                  && (err == NoMem ==> Refused(s, s', ch, n)))
  {
    if 1 <= ch < 10 && 1 <= |bytes| <= 2432 && s.ready {
      SubmitReady(s, ch, bytes, priority);
    }
  }

  lemma {:induction false} SubmitReady(s: Endpoint, ch: nat, bytes: Bytes, priority: nat)
    requires WF(s) && ValidChannel(ch) && 1 <= |bytes| <= MESSAGE_MAX && s.ready
    ensures var (s', err) := Submit(s, ch, bytes, priority);
            var stream := NextStreamOf(s);
            && (TxRoom(s, priority, Fragments(|bytes|)) ==> err == Ok && Taken(s, s', ch, bytes, priority, stream))
            && (!TxRoom(s, priority, Fragments(|bytes|)) ==> err == NoMem && Refused(s, s', ch, Fragments(|bytes|)))
            && s'.nextStream == NextStream(stream)
  {
    hide Submit, TxAvailable, SendFrags, TxRoom, Fragments, Taken, Noted, Refused, NextStreamOf, NextStream;
    var stream := NextStreamOf(s);
    var e := s.(nextStream := NextStream(stream));
    SubmitIs(s, bytes, priority, ch);
    SubmitErr(s, ch, bytes, priority);
    ManyFragments(bytes);
    RoomExactly(s, priority, Fragments(|bytes|));
    SameRoom(s, e, priority);
    if TxAvailable(e, priority) >= Fragments(|bytes|) {
      TakenIs(s, ch, bytes, priority, stream);
    } else {
      RefusedIs(s, ch, Fragments(|bytes|), stream);
    }
  }

  lemma {:induction false} ManyFragments(bytes: Bytes)
    requires 1 <= |bytes|
    ensures Fragments(|bytes|) >= 1
  {
  }

  lemma {:induction false} RefusedIs(s: Endpoint, ch: nat, n: nat, stream: u32)
    requires WF(s) && ValidChannel(ch) && n >= 1
    ensures var e := s.(nextStream := NextStream(stream));
            var s' := SendLost(e.(next := e.next[ch := Plus(e.next[ch], n)]), ch, Overflow, e.next[ch],
                               Plus(e.next[ch], n - 1));
            WF(s') && Refused(s, s', ch, n) && s'.nextStream == NextStream(stream)
  {
  }

  // What filling the slots changes beside them.
  lemma {:induction false} NotedShape(e: Endpoint, stream: u32, bytes: Bytes, priority: nat, ch: nat)
    requires WF(e) && ValidChannel(ch) && 0 < |bytes| <= MESSAGE_MAX
    requires TxAvailable(e, priority) >= Fragments(|bytes|)
    ensures var r := Noted(e, stream, bytes, priority, ch);
            && r.next[ch].n == e.next[ch].n + Fragments(|bytes|)
            && r.log == e.log.(submitted := e.log.submitted + [Msg(ch, e.next[ch].n, stream, bytes)])
            && r == e.(tx := r.tx, next := e.next[ch := r.next[ch]], log := r.log)
            && r.tx == Fill(e, ch, stream, bytes, priority, 0).tx
  {
    NotedAccepted(e, stream, bytes, priority, ch);
    hide Fill, TxAvailable, PieceOf, InSlot, Fragments;
  }

  lemma {:induction false} TakenIs(s: Endpoint, ch: nat, bytes: Bytes, priority: nat, stream: u32)
    requires WF(s) && ValidChannel(ch) && 1 <= |bytes| <= MESSAGE_MAX
    requires TxAvailable(s.(nextStream := NextStream(stream)), priority) >= Fragments(|bytes|)
    ensures var e := s.(nextStream := NextStream(stream));
            var noted := Noted(e, stream, bytes, priority, ch);
            var s' := if s.routeUp then SendFrags(noted, ch, s.next[ch], stream, bytes, 0) else noted;
            WF(s') && Taken(s, s', ch, bytes, priority, stream) && s'.nextStream == NextStream(stream)
  {
    hide Fill, SendFrags, TxAvailable, Placed, Pieces, SentWhole, Fragments, Noted, NextStream;
    var e := s.(nextStream := NextStream(stream));
    var noted := Noted(e, stream, bytes, priority, ch);
    var at := FillPlaces(e, ch, stream, bytes, priority, 0);
    NotedShape(e, stream, bytes, priority, ch);
    PiecesSame(s, e, ch, stream, bytes, priority);
    SendsWhole(noted, ch, s.next[ch], stream, bytes, 0);
  }

  lemma {:induction false} SubmitErr(s: Endpoint, ch: nat, bytes: Bytes, priority: nat)
    requires WF(s) && ValidChannel(ch) && 1 <= |bytes| <= MESSAGE_MAX && s.ready
    ensures Submit(s, ch, bytes, priority).1 ==
            if TxAvailable(s, priority) < Fragments(|bytes|) then NoMem else Ok
  {
    hide Fill, SendFrags, SendLost;
    SameRoom(s, s.(nextStream := NextStream(NextStreamOf(s))), priority);
  }

  lemma {:induction false} SameRoom(s: Endpoint, e: Endpoint, priority: nat)
    requires e == s.(nextStream := e.nextStream)
    ensures TxAvailable(e, priority) == TxAvailable(s, priority)
  {
  }

  lemma {:induction false} PiecesSame(s: Endpoint, e: Endpoint, ch: nat, stream: u32, bytes: Bytes, priority: nat)
    requires WF(s) && WF(e) && ValidChannel(ch) && 0 < |bytes| <= MESSAGE_MAX
    requires e == s.(nextStream := e.nextStream)
    ensures Pieces(e, ch, stream, bytes, priority, 0) == Pieces(s, ch, stream, bytes, priority, 0)
  {
  }
}
