// The reliable context as the C code keeps it: tables updated in place by loops
// (keemash_mesh_core.c:96-131, 376-1450).  Each method is proved equal to the function of the same
// operation in Reliable.dfy and Handlers.dfy.
module MeshContext {
  import opened Base
  import opened Serial
  import opened Slots
  import opened MeshTypes
  import opened Reliable
  import opened Handlers
  import PL = PendingLost

  lemma {:induction false} AllFreeWF(e: Endpoint)
    requires |e.next| == CHANNELS && |e.expected| == CHANNELS && |e.pend| == LOST_RANGES
    requires forall i :: 0 <= i < |e.tx| ==> e.tx[i].TxFree?
    requires forall i :: 0 <= i < |e.rx| ==> e.rx[i].RxFree?
    requires forall i :: 0 <= i < |e.re| ==> e.re[i].ReFree?
    requires forall i :: 0 <= i < |e.pend| ==> e.pend[i].PendFree?
    ensures WF(e)
  {
  }

  class RelContext {
    const cfg: Config
    const peer: nat
    const next: array<SeqNum>
    const expected: array<SeqNum>
    const tx: array<TxSlot>
    const rx: array<RxSlot>
    const re: array<ReSlot>
    const pend: array<PendSlot>
    var binding: Binding
    var ready: bool
    var routeUp: bool
    var nextStream: u32
    ghost var log: Log

    ghost function View(): Endpoint
      reads this, next, expected, tx, rx, re, pend
    {
      Endpoint(cfg, peer, binding, ready, routeUp, nextStream, next[..], expected[..],
               tx[..], rx[..], re[..], pend[..], log)
    }

    ghost predicate Valid()
      reads this, next, expected, tx, rx, re, pend
    {
      next != expected && WF(View())
    }

    // keemash_rel_init and the creation of a peer, followed by a handshake that binds it
    constructor (cfg: Config, peer: nat, binding: Binding, stream: u32,
                 txSlots: nat, rxSlots: nat, reSlots: nat)
      ensures Valid() && fresh(next) && fresh(expected) && fresh(tx) && fresh(rx) && fresh(re) && fresh(pend)
      ensures View() == Endpoint(cfg, peer, binding, true, true, stream,
                                 seq(CHANNELS, _ => Seq(1, 1)), seq(CHANNELS, _ => Seq(1, 1)),
                                 seq(txSlots, _ => TxFree), seq(rxSlots, _ => RxFree),
                                 seq(reSlots, _ => ReFree), seq(LOST_RANGES, _ => PendFree),
                                 Log([], [], [], [], []))
    {
      this.cfg, this.peer, this.binding := cfg, peer, binding;
      ready, routeUp, nextStream := true, true, stream;
      next := new SeqNum[CHANNELS](_ => Seq(1, 1));
      expected := new SeqNum[CHANNELS](_ => Seq(1, 1));
      tx := new TxSlot[txSlots](_ => TxFree);
      rx := new RxSlot[rxSlots](_ => RxFree);
      re := new ReSlot[reSlots](_ => ReFree);
      pend := new PendSlot[LOST_RANGES](_ => PendFree);
      log := Log([], [], [], [], []);
      new;
      hide WF;
      assert next[..] == seq(CHANNELS, _ => Seq(1, 1)) && expected[..] == seq(CHANNELS, _ => Seq(1, 1));
      assert tx[..] == seq(txSlots, _ => TxFree) && rx[..] == seq(rxSlots, _ => RxFree);
      assert re[..] == seq(reSlots, _ => ReFree) && pend[..] == seq(LOST_RANGES, _ => PendFree);
      AllFreeWF(View());
    }

    // ---- Output and single updates

    // record_lost
    method RecordLost(ghost asSender: bool, ch: nat, reason: Reason, first: SeqNum, last: SeqNum)
      modifies this`log
      ensures View() == Record(old(View()), asSender, ch, reason, first, last)
    {
      log := log.(lost := log.lost + [LostEvent(asSender, ch, reason, first, last)]);
    }

    // send_packet and raw_send: the packet is handed to the transport
    method SendPacket(ghost p: Packet)
      modifies this`log
      ensures View() == Send(old(View()), p)
    {
      log := log.(sent := log.sent + [p]);
    }

    method MoveExpected(ch: nat, sn: SeqNum)
      requires Valid() && ValidChannel(ch)
      modifies expected
      ensures Valid() && View() == SetExpected(old(View()), ch, sn)
    {
      expected[ch] := sn;
    }

    method SkipPendingSlot(ch: nat, p: nat)
      requires Valid() && ValidChannel(ch) && p < pend.Length && pend[p].PendUsed?
      modifies expected, pend
      ensures Valid() && View() == SkipPending(old(View()), ch, p)
    {
      ghost var e := View();
      expected[ch] := Plus(pend[p].last, 1);
      pend[p] := PendFree;
      assert expected[..] == e.expected[ch := Plus(e.pend[p].last, 1)];
      assert pend[..] == e.pend[p := PendFree];
    }

    method TakeBufferedSlot(ch: nat, k: nat) returns (f: Frag)
      requires Valid() && ValidChannel(ch) && k < rx.Length && rx[k].RxUsed?
      modifies expected, rx
      ensures Valid() && View() == TakeBuffered(old(View()), ch, k) && f == old(rx[k].frag)
    {
      ghost var e := View();
      f := rx[k].frag;
      rx[k] := RxFree;
      expected[ch] := Plus(expected[ch], 1);
      assert expected[..] == e.expected[ch := Plus(e.expected[ch], 1)];
      assert rx[..] == e.rx[k := RxFree];
    }

    // ---- Searches

    method PendFind(ch: nat, sn: SeqNum) returns (p: nat)
      ensures p == First(pend[..], PendAt(ch, sn))
    {
      p := 0;
      while p < pend.Length && !(pend[p].PendUsed? && pend[p].channel == ch &&
                                 InRange(sn, pend[p].first, pend[p].last))
        invariant p <= pend.Length
        invariant forall j :: 0 <= j < p ==> !PendAt(ch, sn)(pend[..][j])
      {
        p := p + 1;
      }
      FirstUnique(pend[..], PendAt(ch, sn), p);
    }

    method TouchedFind(ch: nat, f: SeqNum, l: SeqNum) returns (i: nat)
      ensures i == First(pend[..], PL.TouchedBy(ch, f, l))
    {
      i := 0;
      while i < pend.Length && !(pend[i].PendUsed? && pend[i].channel == ch &&
                                 PL.Touches(f, l, pend[i].first, pend[i].last))
        invariant i <= pend.Length
        invariant forall j :: 0 <= j < i ==> !PL.TouchedBy(ch, f, l)(pend[..][j])
      {
        i := i + 1;
      }
      FirstUnique(pend[..], PL.TouchedBy(ch, f, l), i);
    }

    method RxFind(ch: nat, sn: SeqNum) returns (i: nat)
      ensures i == First(rx[..], RxAt(peer, ch, sn))
    {
      i := 0;
      while i < rx.Length && !(rx[i].RxUsed? && rx[i].peer == peer && rx[i].frag.channel == ch &&
                               Same(rx[i].frag.sn, sn))
        invariant i <= rx.Length
        invariant forall j :: 0 <= j < i ==> !RxAt(peer, ch, sn)(rx[..][j])
      {
        i := i + 1;
      }
      FirstUnique(rx[..], RxAt(peer, ch, sn), i);
    }

    method TxFind(ch: nat, sn: SeqNum) returns (i: nat)
      ensures i == First(tx[..], TxAt(peer, ch, sn))
    {
      i := 0;
      while i < tx.Length && !(tx[i].TxUsed? && tx[i].peer == peer && tx[i].frag.channel == ch &&
                               Same(tx[i].frag.sn, sn))
        invariant i <= tx.Length
        invariant forall j :: 0 <= j < i ==> !TxAt(peer, ch, sn)(tx[..][j])
      {
        i := i + 1;
      }
      FirstUnique(tx[..], TxAt(peer, ch, sn), i);
    }

    // rx_alloc
    method AllocRx() returns (k: nat)
      ensures k == RxAlloc(View())
    {
      var depth := 0;
      for i := 0 to rx.Length
        invariant depth == Count(rx[..i], RxMine(peer))
      {
        assert rx[..i + 1][..i] == rx[..i];
        if rx[i].RxUsed? && rx[i].peer == peer {
          depth := depth + 1;
        }
      }
      assert rx[..rx.Length] == rx[..];
      if depth >= cfg.perPeerRx {
        return rx.Length;
      }
      k := 0;
      while k < rx.Length && rx[k].RxUsed?
        invariant k <= rx.Length
        invariant forall j :: 0 <= j < k ==> !RxVacant()(rx[..][j])
      {
        k := k + 1;
      }
      FirstUnique(rx[..], RxVacant(), k);
    }

    // reassembly_find with create = true
    method FindReassembly(f: Frag) returns (k: nat)
      ensures k == FindRe(View(), f)
    {
      k := 0;
      while k < re.Length && !(re[k].ReUsed? && re[k].peer == peer && re[k].channel == f.channel &&
                               re[k].stream == f.stream)
        invariant k <= re.Length
        invariant forall j :: 0 <= j < k ==> !ReKey(peer, f.channel, f.stream)(re[..][j])
      {
        k := k + 1;
      }
      FirstUnique(re[..], ReKey(peer, f.channel, f.stream), k);
      if k < re.Length {
        if re[k].count != f.count || !Same(re[k].first, FirstSn(f)) {
          k := re.Length;
        }
        return;
      }
      var depth := 0;
      for i := 0 to re.Length
        invariant depth == Count(re[..i], ReMine(peer))
      {
        assert re[..i + 1][..i] == re[..i];
        if re[i].ReUsed? && re[i].peer == peer {
          depth := depth + 1;
        }
      }
      assert re[..re.Length] == re[..];
      if depth >= cfg.perPeerRe {
        return re.Length;
      }
      k := 0;
      while k < re.Length && re[k].ReUsed?
        invariant k <= re.Length
        invariant forall j :: 0 <= j < k ==> !ReVacant()(re[..][j])
      {
        k := k + 1;
      }
      FirstUnique(re[..], ReVacant(), k);
    }

    // ---- pending_lost_add

    method JoinOthers(i: nat)
      requires pend.Length == LOST_RANGES && i < pend.Length && pend[i].PendUsed?
      modifies pend
      ensures pend[..] == PL.JoinFrom(old(pend[..]), i, 0)
    {
      for j := 0 to pend.Length
        invariant pend[i].PendUsed?
        invariant PL.JoinFrom(pend[..], i, j) == PL.JoinFrom(old(pend[..]), i, 0)
      {
        var range, other := pend[i], pend[j];
        if j != i && other.PendUsed? && other.channel == range.channel &&
           PL.Touches(range.first, range.last, other.first, other.last) {
          ghost var before := pend[..];
          pend[i] := PendUsed(range.channel,
                              if Before(other.first, range.first) then other.first else range.first,
                              if Before(range.last, other.last) then other.last else range.last);
          pend[j] := PendFree;
          assert pend[..] == before[i := PL.Hull(range, other.first, other.last)][j := PendFree];
        }
      }
    }

    // One pass: range i grows by the new range and absorbs every other one it touches.
    method MergeInto(i: nat, ch: nat, f: SeqNum, l: SeqNum)
      requires pend.Length == LOST_RANGES && i < pend.Length && pend[i].PendUsed? && pend[i].channel == ch
      modifies pend
      ensures pend[i].PendUsed?
      ensures pend[..] == PL.JoinFrom(old(pend[..])[i := PL.Hull(old(pend[i]), f, l)], i, 0)
    {
      ghost var before := pend[..];
      var range := pend[i];
      pend[i] := PendUsed(ch,
                          if Before(f, range.first) then f else range.first,
                          if Before(range.last, l) then l else range.last);
      assert pend[..] == before[i := PL.Hull(before[i], f, l)];
      JoinOthers(i);
      assert pend[..][i].PendUsed?;
    }

    method PendingLostAdd(ch: nat, f: SeqNum, l: SeqNum) returns (ok: bool)
      requires pend.Length == LOST_RANGES
      modifies pend
      ensures (pend[..], ok) == PL.Add(old(pend[..]), ch, f, l)
    {
      hide PL.JoinFrom, PL.Hull, PL.Place, PL.Merge;
      var first, last := f, l;
      var pass := 0;
      ghost var target := PL.Merge(pend[..], ch, f, l, pend.Length);
      while pass < pend.Length
        invariant pass <= pend.Length
        invariant PL.Merge(pend[..], ch, first, last, pend.Length - pass) == target
      {
        PL.MergeUnfolds(pend[..], ch, first, last, pend.Length - pass);
        var i := TouchedFind(ch, first, last);
        if i == pend.Length {
          break;
        }
        assert PL.TouchedBy(ch, first, last)(pend[..][i]);
        MergeInto(i, ch, first, last);
        first, last := pend[i].first, pend[i].last;
        pass := pass + 1;
      }
      PL.MergeUnfolds(pend[..], ch, first, last, pend.Length - pass);
      assert (pend[..], first, last) == target;
      ok := PlaceRange(ch, first, last);
    }

    method PlaceRange(ch: nat, f: SeqNum, l: SeqNum) returns (ok: bool)
      modifies pend
      ensures (pend[..], ok) == PL.Place(old(pend[..]), ch, f, l)
    {
      var c := 0;
      while c < pend.Length && !(pend[c].PendUsed? && pend[c].channel == ch &&
                                 InRange(f, pend[c].first, pend[c].last) &&
                                 InRange(l, pend[c].first, pend[c].last))
        invariant c <= pend.Length
        invariant forall j :: 0 <= j < c ==> !PL.Covering(ch, f, l)(pend[..][j])
      {
        c := c + 1;
      }
      FirstUnique(pend[..], PL.Covering(ch, f, l), c);
      if c < pend.Length {
        return true;
      }
      var k := 0;
      while k < pend.Length && pend[k].PendUsed?
        invariant k <= pend.Length
        invariant forall j :: 0 <= j < k ==> !PL.Vacant()(pend[..][j])
      {
        k := k + 1;
      }
      FirstUnique(pend[..], PL.Vacant(), k);
      if k == pend.Length {
        return false;
      }
      pend[k] := PendUsed(ch, f, l);
      return true;
    }

    // ---- deliver_fragment, receiver_drop_range, consume_contiguous

    method StoreFragment(k: nat, f: Frag)
      requires Valid() && k < re.Length && FragOk(f)
      modifies this`log, re
      ensures Valid() && View() == Store(old(View()), k, f)
    {
      var slot := if re[k].ReUsed? then re[k] else
        ReUsed(peer, f.channel, f.stream, FirstSn(f), f.count,
               seq(MAX_FRAGMENTS, _ => 0), {}, seq(MESSAGE_MAX, _ => 0), f.msg);
      ghost var e := View();
      var at := f.index * INNER_MAX;
      slot := slot.(data := slot.data[..at] + f.payload + slot.data[at + |f.payload|..],
                    lens := slot.lens[f.index := |f.payload|],
                    received := slot.received + {f.index});
      assert slot == Filled(if e.re[k].ReUsed? then e.re[k] else Opened(e, f), f);
      if slot.received != UpTo(slot.count) {
        re[k] := slot;
        assert View() == e.(re := e.re[k := slot]);
        return;
      }
      var total := 0;
      for i := 0 to slot.count
        invariant total == Total(slot.lens, i)
      {
        total := total + slot.lens[i];
      }
      log := log.(delivered := log.delivered +
                               [Delivery(slot.channel, slot.first.n, slot.count, slot.stream, slot.data[..total])]);
      re[k] := ReFree;
      assert re[..] == e.re[k := ReFree];
    }

    method DeliverFragment(f: Frag)
      requires Valid() && FragOk(f) && JustPassed(View(), f)
      modifies this, next, expected, tx, rx, re, pend
      ensures Valid() && View() == Deliver(old(View()), f)
      decreases Measure(View()), 2
    {
      log := log.(passed := log.passed + [f]);
      ghost var e := View();
      assert WF(e);
      if f.count <= 1 {
        log := log.(delivered := log.delivered + [Delivery(f.channel, f.sn.n, 1, f.stream, f.payload)]);
        return;
      }
      var k := FindReassembly(f);
      if k < re.Length {
        StoreFragment(k, f);
      } else {
        DropStaysBehind(e, f);
        DropRange(f.channel, Overflow, FirstSn(f), LastSn(f));
      }
    }

    method PurgeRx(ch: nat, first: SeqNum, last: SeqNum)
      requires Valid()
      modifies rx
      ensures rx[..] == Purge(old(View()), ch, first, last).rx
    {
      ghost var e := View();
      for i := 0 to rx.Length
        invariant forall j :: 0 <= j < i ==> rx[j] == RxKept(e, ch, first, last, e.rx[j])
        invariant forall j :: i <= j < rx.Length ==> rx[j] == e.rx[j]
      {
        if rx[i].RxUsed? && rx[i].peer == peer && rx[i].frag.channel == ch &&
           InRange(rx[i].frag.sn, first, last) {
          rx[i] := RxFree;
        }
      }
    }

    method PurgeRe(ch: nat, first: SeqNum, last: SeqNum)
      requires Valid()
      modifies re
      ensures re[..] == Purge(old(View()), ch, first, last).re
    {
      ghost var e := View();
      for i := 0 to re.Length
        invariant forall j :: 0 <= j < i ==> re[j] == ReKept(e, ch, first, last, e.re[j])
        invariant forall j :: i <= j < re.Length ==> re[j] == e.re[j]
      {
        if re[i].ReUsed? && re[i].peer == peer && re[i].channel == ch && ReOverlaps(re[i], first, last) {
          re[i] := ReFree;
        }
      }
    }

    // The first half of receiver_drop_range: free what lies in the range and report it.
    method StartDrop(ch: nat, reason: Reason, first: SeqNum, last: SeqNum)
      requires Valid() && ValidChannel(ch)
      modifies this`log, rx, re
      ensures Valid()
      ensures View() == Record(Purge(old(View()), ch, first, last), false, ch, reason, first, last)
    {
      ghost var e := View();
      PurgeRx(ch, first, last);
      assert Valid() by {
        assert View() == e.(rx := Purge(e, ch, first, last).rx);
      }
      PurgeRe(ch, first, last);
      assert View() == Purge(e, ch, first, last);
      RecordLost(false, ch, reason, first, last);
    }

    method DropRange(ch: nat, reason: Reason, first: SeqNum, last: SeqNum)
      requires Valid() && ValidChannel(ch)
      modifies this, next, expected, tx, rx, re, pend
      ensures Valid() && View() == Drop(old(View()), ch, reason, first, last)
      decreases Measure(View()), 1
    {
      hide Before, InRange, PL.Add, ClearPeer, Deliver, Consume, Purge, Count, SetExpected;
      StartDrop(ch, reason, first, last);
      ghost var d := View();
      ghost var report := Lost(binding, ch, reason, true, first, last);
      if InRange(expected[ch], first, last) {
        MoveExpected(ch, Plus(last, 1));
        ConsumeContiguous(ch);
        SendPacket(report);
      } else if Before(expected[ch], first) {
        AddKeepsOk(d.pend, ch, first, last);
        var ok := PendingLostAdd(ch, first, last);
        assert View() == d.(pend := PL.Add(d.pend, ch, first, last).0);
        if !ok {
          ClearPeerBuffers(Overflow);
          return;
        }
        SendPacket(report);
      } else {
        SendPacket(report);
      }
    }

    // One round of the loop of consume_contiguous.
    method ConsumeStep(ch: nat) returns (more: bool)
      requires Valid() && ValidChannel(ch)
      modifies this, next, expected, tx, rx, re, pend
      ensures Valid() && Consume(View(), ch) == Consume(old(View()), ch)
      ensures more ==> Measure(View()) < old(Measure(View()))
      ensures !more ==> View() == Consume(old(View()), ch)
      decreases Measure(View()), 0, 0
    {
      hide InRange, Deliver, Drop, Measure;
      ghost var e := View();
      var p := PendFind(ch, expected[ch]);
      if p < pend.Length {
        SkipPendingSlot(ch, p);
        return true;
      }
      var k := RxFind(ch, expected[ch]);
      if k == rx.Length {
        return false;
      }
      var f := TakeBufferedSlot(ch, k);
      DeliverFragment(f);
      return true;
    }

    method ConsumeContiguous(ch: nat)
      requires Valid() && ValidChannel(ch)
      modifies this, next, expected, tx, rx, re, pend
      ensures Valid() && View() == Consume(old(View()), ch)
      decreases Measure(View()), 0, 1
    {
      hide Consume;
      ghost var target := Consume(View(), ch);
      var more := true;
      while more
        invariant Valid() && Measure(View()) <= old(Measure(View()))
        invariant Consume(View(), ch) == target
        invariant !more ==> View() == target
        decreases Measure(View()), more
      {
        more := ConsumeStep(ch);
      }
    }

    // ---- clear_peer_buffers

    method NoteSpan(count: array<nat>, first: array<SeqNum>, last: array<SeqNum>, f: Frag)
      requires count.Length == first.Length == last.Length == CHANNELS && first != last
      requires f.channel < CHANNELS
      modifies count, first, last
      ensures forall c :: 0 <= c < CHANNELS && c != f.channel ==>
                count[c] == old(count[c]) && first[c] == old(first[c]) && last[c] == old(last[c])
      ensures var n, lo, hi := old(count[f.channel]), old(first[f.channel]), old(last[f.channel]);
              && count[f.channel] == n + 1
              && first[f.channel] == (if n == 0 || Before(f.sn, lo) then f.sn else lo)
              && last[f.channel] == (if n == 0 || Before(hi, f.sn) then f.sn else hi)
    {
      var ch := f.channel;
      if count[ch] == 0 || Before(f.sn, first[ch]) {
        first[ch] := f.sn;
      }
      if count[ch] == 0 || Before(last[ch], f.sn) {
        last[ch] := f.sn;
      }
      count[ch] := count[ch] + 1;
    }

    // Frees the peer's tx slots and notes the span of each channel.
    method CollectTx(count: array<nat>, first: array<SeqNum>, last: array<SeqNum>)
      requires Valid() && count.Length == first.Length == last.Length == CHANNELS
      requires first != last && {first, last} !! {next, expected}
      requires forall c :: 0 <= c < CHANNELS ==> count[c] == 0 && first[c] == Seq(0, 0) && last[c] == Seq(0, 0)
      modifies tx, count, first, last
      ensures forall c :: 0 <= c < CHANNELS ==> (count[c], first[c], last[c]) == TxSpan(old(tx[..]), peer, c)
      ensures forall j :: 0 <= j < tx.Length ==> tx[j] == if TxMine(peer)(old(tx[j])) then TxFree else old(tx[j])
    {
      hide Before, TxSpan;
      ghost var e := View();
      assert e.tx[..0] == [];
      TxSpanStarts(peer);
      for i := 0 to tx.Length
        invariant forall c :: 0 <= c < CHANNELS ==> (count[c], first[c], last[c]) == TxSpan(e.tx[..i], peer, c)
        invariant forall j :: 0 <= j < i ==> tx[j] == if TxMine(peer)(e.tx[j]) then TxFree else e.tx[j]
        invariant forall j :: i <= j < tx.Length ==> tx[j] == e.tx[j]
      {
        assert e.tx[..i + 1][..i] == e.tx[..i];
        TxSpanGrows(e.tx[..i + 1], peer);
        if tx[i].TxUsed? && tx[i].peer == peer {
          assert TxOk(e.tx[i]);
          NoteSpan(count, first, last, tx[i].frag);
          tx[i] := TxFree;
        }
      }
      assert e.tx[..tx.Length] == e.tx;
    }

    method ClearRx(reason: Reason, ghost e: Endpoint)
      requires e.rx == rx[..] && e.peer == peer && e.log == log
      modifies this`log, rx
      ensures log == RecordRx(e, reason, 0).log
      ensures forall j :: 0 <= j < rx.Length ==> rx[j] == if RxMine(peer)(e.rx[j]) then RxFree else e.rx[j]
    {
      for i := 0 to rx.Length
        invariant RecordRx(e.(log := log), reason, i) == RecordRx(e, reason, 0)
        invariant forall j :: 0 <= j < i ==> rx[j] == if RxMine(peer)(e.rx[j]) then RxFree else e.rx[j]
        invariant forall j :: i <= j < rx.Length ==> rx[j] == e.rx[j]
      {
        if rx[i].RxUsed? && rx[i].peer == peer {
          var f := rx[i].frag;
          log := log.(lost := log.lost + [LostEvent(false, f.channel, reason, f.sn, f.sn)]);
          rx[i] := RxFree;
        }
      }
    }

    method ClearRe(reason: Reason, ghost e: Endpoint)
      requires e.re == re[..] && e.peer == peer && e.log == log
      modifies this`log, re
      ensures log == RecordRe(e, reason, 0).log
      ensures forall j :: 0 <= j < re.Length ==> re[j] == if ReMine(peer)(e.re[j]) then ReFree else e.re[j]
    {
      hide Plus, Minus;
      for i := 0 to re.Length
        invariant RecordRe(e.(log := log), reason, i) == RecordRe(e, reason, 0)
        invariant forall j :: 0 <= j < i ==> re[j] == if ReMine(peer)(e.re[j]) then ReFree else e.re[j]
        invariant forall j :: i <= j < re.Length ==> re[j] == e.re[j]
      {
        if re[i].ReUsed? && re[i].peer == peer {
          var slot := re[i];
          log := log.(lost := log.lost + [LostEvent(false, slot.channel, reason, slot.first,
                                                    Minus(Plus(slot.first, slot.count), 1))]);
          re[i] := ReFree;
        }
      }
    }

    method ResetCounters()
      requires next != expected && next.Length == expected.Length == CHANNELS && pend.Length == LOST_RANGES
      modifies this`ready, next, expected, pend
      ensures !ready
      ensures next[..] == Restarted(old(next[..])) && expected[..] == Restarted(old(expected[..]))
      ensures pend[..] == seq(LOST_RANGES, _ => PendFree)
    {
      ghost var n0, e0 := next[..], expected[..];
      for ch := 1 to CHANNELS
        invariant forall c :: 1 <= c < ch ==> next[c] == Seq(1, 1) && expected[c] == Seq(1, 1)
        invariant next[0] == n0[0] && expected[0] == e0[0]
      {
        next[ch], expected[ch] := Seq(1, 1), Seq(1, 1);
      }
      for i := 0 to pend.Length
        invariant forall j :: 0 <= j < i ==> pend[j] == PendFree
        modifies pend
      {
        pend[i] := PendFree;
      }
      ready := false;
      assert forall i :: 0 <= i < CHANNELS ==> next[..][i] == Restarted(n0)[i];
      assert forall i :: 0 <= i < CHANNELS ==> expected[..][i] == Restarted(e0)[i];
    }

    method ReportTx(count: array<nat>, first: array<SeqNum>, last: array<SeqNum>, reason: Reason,
                    ghost slots: seq<TxSlot>, start: nat)
      requires count.Length == first.Length == last.Length == CHANNELS
      requires forall c :: 0 <= c < CHANNELS ==> (count[c], first[c], last[c]) == TxSpan(slots, peer, c)
      requires start <= CHANNELS
      modifies this`log
      ensures View() == RecordTx(old(View()), slots, reason, start)
    {
      hide TxSpan, RecordTx;
      ghost var e := View();
      for ch := start to CHANNELS
        invariant View() == e.(log := log)
        invariant RecordTx(View(), slots, reason, ch) == RecordTx(e, slots, reason, start)
      {
        RecordTxUnfolds(View(), slots, reason, ch);
        if count[ch] > 0 {
          RecordLost(true, ch, reason, first[ch], last[ch]);
        }
      }
      RecordTxEnds(View(), slots, reason);
    }

    // The slots of the peer go, each reported; counters are still as they were.
    method ClearSlots(reason: Reason, count: array<nat>, first: array<SeqNum>, last: array<SeqNum>)
      requires Valid() && count.Length == first.Length == last.Length == CHANNELS
      requires first != last && {first, last} !! {next, expected}
      requires forall c :: 0 <= c < CHANNELS ==> count[c] == 0 && first[c] == Seq(0, 0) && last[c] == Seq(0, 0)
      modifies this`log, tx, rx, re, count, first, last
      ensures forall c :: 0 <= c < CHANNELS ==> (count[c], first[c], last[c]) == TxSpan(old(tx[..]), peer, c)
      ensures log == RecordRe(RecordRx(old(View()), reason, 0), reason, 0).log
      ensures tx[..] == Emptied(old(View())).tx
      ensures rx[..] == Emptied(old(View())).rx
      ensures re[..] == Emptied(old(View())).re
    {
      hide RecordRx, RecordRe, TxSpan, WF;
      ghost var e := View();
      CollectTx(count, first, last);
      ClearRx(reason, e);
      ClearRe(reason, RecordRx(e, reason, 0));
    }

    method ClearPeerBuffers(reason: Reason)
      requires Valid()
      modifies this, next, expected, tx, rx, re, pend
      ensures Valid() && View() == ClearPeer(old(View()), reason)
    {
      hide RecordRx, RecordRe, RecordTx, TxSpan, WF, Restarted, Emptied;
      ghost var e := View();
      ShapeOf(e);
      var count := new nat[CHANNELS](_ => 0);
      var first := new SeqNum[CHANNELS](_ => Seq(0, 0));
      var last := new SeqNum[CHANNELS](_ => Seq(0, 0));
      ClearSlots(reason, count, first, last);
      ResetCounters();
      ghost var b := RecordRe(RecordRx(e, reason, 0), reason, 0);
      EmptiedParts(e, b);
      assert View() == Emptied(b);
      ReportTx(count, first, last, reason, e.tx, 1);
      assert WF(ClearPeer(e, reason));
      assert View() == ClearPeer(e, reason);
    }

    // ---- Acknowledgements

    // sack_bitmap
    method SackBitmap(ch: nat) returns (sack: set<nat>)
      requires Valid() && ValidChannel(ch)
      ensures sack == SackBits(View(), ch, WINDOW)
    {
      SackBitsUnfolds(View(), ch, 0);
      hide SackBits;
      sack := {};
      for bit := 0 to WINDOW
        invariant sack == SackBits(View(), ch, bit)
      {
        SackBitsUnfolds(View(), ch, bit);
        var k := RxFind(ch, Plus(expected[ch], bit));
        if k < rx.Length {
          sack := sack + {bit};
        }
      }
    }

    // send_ack
    method SendAckPacket(ch: nat, nack: bool)
      requires Valid() && ValidChannel(ch)
      modifies this`log
      ensures Valid() && View() == SendAck(old(View()), ch, nack)
    {
      hide SackBits;
      var sack := SackBitmap(ch);
      ghost var p := Ack(binding, ch, Minus(expected[ch], 1), sack, nack,
                         if nack then expected[ch] else Seq(0, 0));
      ghost var e := View();
      SendPacket(p);
      assert View() == SendAck(e, ch, nack);
      assert WF(SendAck(e, ch, nack));
    }

    // ack_slots
    method FreeAcked(ch: nat, ack: SeqNum, sack: set<nat>)
      requires Valid()
      modifies tx
      ensures Valid() && View() == AckSlots(old(View()), ch, ack, sack)
    {
      ghost var e := View();
      for i := 0 to tx.Length
        invariant forall j :: 0 <= j < i ==> tx[j] == TxKeptByAck(e, ch, ack, sack, e.tx[j])
        invariant forall j :: i <= j < tx.Length ==> tx[j] == e.tx[j]
      {
        if tx[i].TxUsed? && tx[i].frag.channel == ch && tx[i].peer == peer {
          var sn := tx[i].frag.sn;
          var accepted := !Before(ack, sn);
          if !accepted {
            var delta := (sn.w - ack.w - 1) % MOD;
            accepted := delta < 32 && delta in sack;
          }
          if accepted {
            tx[i] := TxFree;
          }
        }
      }
      assert tx[..] == AckSlots(e, ch, ack, sack).tx;
      assert View() == AckSlots(e, ch, ack, sack);
    }

    // retransmit_slot
    method RetransmitSlot(k: nat)
      requires Valid() && k < tx.Length && tx[k].TxUsed?
      modifies this`log, tx
      ensures Valid() && View() == Retransmit(old(View()), k)
    {
      ghost var e := View();
      var slot := tx[k];
      tx[k] := slot.(retries := (slot.retries + 1) % 256);
      assert tx[..] == e.tx[k := e.tx[k].(retries := (e.tx[k].retries + 1) % 256)];
      log := log.(sent := log.sent + [Data(binding, slot.frag, slot.frag.count > 1,
                                           slot.frag.channel == TIME_CHANNEL)]);
      assert View() == Retransmit(e, k);
    }

    // send_lost
    method ReportOwnLoss(ch: nat, reason: Reason, first: SeqNum, last: SeqNum)
      modifies this`log
      ensures View() == SendLost(old(View()), ch, reason, first, last)
    {
      RecordLost(true, ch, reason, first, last);
      SendPacket(Lost(binding, ch, reason, false, first, last));
    }

    // handle_ack_packet
    method HandleAckPacket(p: Packet) returns (err: Err)
      requires Valid() && p.Ack?
      modifies this, tx
      ensures Valid() && (View(), err) == HandleAck(old(View()), p)
    {
      hide AckSlots, Retransmit, SendLost;
      ghost var e := View();
      if !ready || p.binding != binding || !ValidChannel(p.channel) {
        return InvalidState;
      }
      routeUp := true;
      assert View() == e.(routeUp := true);
      FreeAcked(p.channel, p.ack, p.sack);
      if p.isNack && p.nack.w != 0 {
        var k := TxFind(p.channel, p.nack);
        if k < tx.Length {
          RetransmitSlot(k);
        } else {
          ghost var a := View();
          ReportOwnLoss(p.channel, Overflow, p.nack, p.nack);
          LossKeepsTables(a, p.channel, p.nack, p.nack);
        }
      }
      return Ok;
    }

    // ---- LOST packets

    method FreeLost(ch: nat, first: SeqNum, last: SeqNum)
      requires Valid()
      modifies tx
      ensures tx[..] == seq(|old(tx[..])|, i requires 0 <= i < |old(tx[..])| =>
                              TxKeptByLoss(old(View()), ch, first, last, old(tx[..])[i]))
    {
      ghost var e := View();
      for i := 0 to tx.Length
        invariant forall j :: 0 <= j < i ==> tx[j] == TxKeptByLoss(e, ch, first, last, e.tx[j])
        invariant forall j :: i <= j < tx.Length ==> tx[j] == e.tx[j]
      {
        if tx[i].TxUsed? && tx[i].frag.channel == ch && tx[i].peer == peer &&
           InRange(tx[i].frag.sn, first, last) {
          tx[i] := TxFree;
        }
      }
    }

    // handle_lost_packet
    method HandleLostPacket(p: Packet) returns (err: Err)
      requires Valid() && p.Lost?
      modifies this, next, expected, tx, rx, re, pend
      ensures Valid() && (View(), err) == HandleLost(old(View()), p)
    {
      hide Consume, ClearPeer, PL.Add, InRange, Before, SetExpected;
      ghost var e := View();
      ghost var target := HandleLost(e, p);
      var ch := p.channel;
      if !ready || p.binding != binding || !ValidChannel(ch) {
        return InvalidState;
      }
      if p.receiverDrop {
        FreeLost(ch, p.first, p.last);
        RecordLost(true, ch, p.reason, p.first, p.last);
        assert View() == target.0;
        return Ok;
      }
      if InRange(expected[ch], p.first, p.last) {
        MoveExpected(ch, Plus(p.last, 1));
        ConsumeContiguous(ch);
      } else if Before(expected[ch], p.first) {
        AddKeepsOk(e.pend, ch, p.first, p.last);
        var ok := PendingLostAdd(ch, p.first, p.last);
        assert View() == e.(pend := PL.Add(e.pend, ch, p.first, p.last).0);
        if !ok {
          ClearPeerBuffers(Overflow);
          return NoMem;
        }
      }
      RecordLost(false, ch, p.reason, p.first, p.last);
      assert View() == target.0;
      return Ok;
    }

    // ---- DATA packets

    method BufferFragment(k: nat, f: Frag)
      requires Valid() && FragOk(f) && k < rx.Length
      modifies rx
      ensures Valid() && View() == old(View()).(rx := old(View()).rx[k := RxUsed(peer, f)])
    {
      ghost var e := View();
      rx[k] := RxUsed(peer, f);
      assert rx[..] == e.rx[k := RxUsed(peer, f)];
    }

    // handle_data after its checks
    method AcceptFragment(f: Frag) returns (err: Err)
      requires Valid() && FragOk(f)
      modifies this, next, expected, tx, rx, re, pend
      ensures Valid() && (View(), err) == AcceptData(old(View()), f)
    {
      hide Deliver, Consume, Drop, SendAck, Before, RxAlloc, RxAt;
      var ch := f.channel;
      if Before(f.sn, expected[ch]) {
        SendAckPacket(ch, false);
        return Ok;
      }
      if Same(f.sn, expected[ch]) {
        MoveExpected(ch, Plus(expected[ch], 1));
        DeliverFragment(f);
        ConsumeContiguous(ch);
        SendAckPacket(ch, false);
        return Ok;
      }
      if (f.sn.w - expected[ch].w) % MOD >= WINDOW {
        SendAckPacket(ch, true);
        return Ok;
      }
      var found := RxFind(ch, f.sn);
      if found == rx.Length {
        var k := AllocRx();
        if k == rx.Length {
          DropRange(ch, Overflow, f.sn, f.sn);
          return NoMem;
        }
        BufferFragment(k, f);
      }
      SendAckPacket(ch, true);
      return Ok;
    }

    // What a LATEST packet overtakes is discarded.
    method DiscardOvertaken(ch: nat, sn: SeqNum)
      requires Valid() && ValidChannel(ch)
      modifies rx, pend, expected
      ensures Valid() && View() == JumpToLatest(old(View()), ch, sn)
    {
      ghost var e := View();
      for i := 0 to rx.Length
        invariant forall j :: 0 <= j < i ==>
                    rx[j] == if RxMine(peer)(e.rx[j]) && e.rx[j].frag.channel == ch then RxFree else e.rx[j]
        invariant forall j :: i <= j < rx.Length ==> rx[j] == e.rx[j]
        modifies rx
      {
        if rx[i].RxUsed? && rx[i].frag.channel == ch && rx[i].peer == peer {
          rx[i] := RxFree;
        }
      }
      for i := 0 to pend.Length
        invariant forall j :: 0 <= j < i ==>
                    pend[j] == if e.pend[j].PendUsed? && e.pend[j].channel == ch then PendFree else e.pend[j]
        invariant forall j :: i <= j < pend.Length ==> pend[j] == e.pend[j]
        modifies pend
      {
        if pend[i].PendUsed? && pend[i].channel == ch {
          pend[i] := PendFree;
        }
      }
      expected[ch] := sn;
      assert expected[..] == e.expected[ch := sn];
      assert rx[..] == JumpToLatest(e, ch, sn).rx && pend[..] == JumpToLatest(e, ch, sn).pend;
      assert View() == JumpToLatest(e, ch, sn);
    }

    // handle_data
    method HandleDataPacket(p: Packet) returns (err: Err)
      requires Valid() && p.Data?
      modifies this, next, expected, tx, rx, re, pend
      ensures Valid() && (View(), err) == HandleData(old(View()), p)
    {
      hide AcceptData, JumpToLatest, Before;
      ghost var e := View();
      var f := p.frag;
      if !FragOk(f) || (f.count > 1 && !p.fragmented) {
        return InvalidArg;
      }
      if !ready || p.binding != binding {
        return InvalidState;
      }
      routeUp := true;
      assert View() == e.(routeUp := true);
      if p.latest {
        if f.channel != TIME_CHANNEL || f.count != 1 {
          return InvalidArg;
        }
        if Before(expected[f.channel], f.sn) {
          DiscardOvertaken(f.channel, f.sn);
        }
      }
      err := AcceptFragment(f);
    }

    // keemash_rel_handle_rx
    method ReceivePacket(p: Packet) returns (err: Err)
      requires Valid()
      modifies this, next, expected, tx, rx, re, pend
      ensures Valid() && (View(), err) == Receive(old(View()), p)
    {
      match p
      case Data(_, _, _, _) => err := HandleDataPacket(p);
      case Ack(_, _, _, _, _, _) => err := HandleAckPacket(p);
      case Lost(_, _, _, _, _, _) => err := HandleLostPacket(p);
    }

    // ---- keemash_rel_submit

    method CountTx() returns (used: nat, free: nat)
      ensures used == Count(tx[..], TxMine(peer)) && free == Count(tx[..], TxVacant())
    {
      used, free := 0, 0;
      for i := 0 to tx.Length
        invariant used == Count(tx[..i], TxMine(peer)) && free == Count(tx[..i], TxVacant())
      {
        assert tx[..i + 1][..i] == tx[..i];
        if tx[i].TxUsed? && tx[i].peer == peer {
          used := used + 1;
        }
        if tx[i].TxFree? {
          free := free + 1;
        }
      }
      assert tx[..tx.Length] == tx[..];
    }

    // tx_available
    method AvailableTx(priority: nat) returns (n: nat)
      ensures n == TxAvailable(View(), priority)
    {
      var used, free := CountTx();
      if priority < PRIORITY_CONTROL {
        if free <= cfg.reservedControl {
          return 0;
        }
        free := free - cfg.reservedControl;
      }
      var limit := cfg.perPeerTx;
      if priority < PRIORITY_CONTROL {
        limit := if limit > cfg.perPeerControlReserve then limit - cfg.perPeerControlReserve else 0;
      }
      var peerFree := if used < limit then limit - used else 0;
      n := if free > peerFree then peerFree else free;
    }

    // tx_alloc
    method AllocTx(priority: nat) returns (k: nat)
      ensures k == TxAlloc(View(), priority)
    {
      var used, free := CountTx();
      var limit := cfg.perPeerTx;
      var nonControl := if limit > cfg.perPeerControlReserve then limit - cfg.perPeerControlReserve else 0;
      if (priority < PRIORITY_CONTROL && used >= nonControl) || (priority == PRIORITY_CONTROL && used >= limit) {
        return tx.Length;
      }
      if priority < PRIORITY_CONTROL && free <= cfg.reservedControl {
        return tx.Length;
      }
      k := 0;
      while k < tx.Length && tx[k].TxUsed?
        invariant k <= tx.Length
        invariant forall j :: 0 <= j < k ==> !TxVacant()(tx[..][j])
      {
        k := k + 1;
      }
      FirstUnique(tx[..], TxVacant(), k);
    }

    method OccupySlot(k: nat, priority: nat, f: Frag)
      requires Valid() && k < tx.Length && FragOk(f)
      modifies tx, next
      ensures Valid() && View() == Occupy(old(View()), k, priority, f)
    {
      ghost var e := View();
      tx[k] := TxUsed(peer, priority, 0, f);
      next[f.channel] := Plus(next[f.channel], 1);
      assert tx[..] == e.tx[k := TxUsed(peer, priority, 0, f)];
      assert next[..] == e.next[f.channel := Plus(e.next[f.channel], 1)];
    }

    // The slots of a message, filled one after the other.  tx_alloc cannot fail here.
    method FillSlots(ch: nat, stream: u32, bytes: Bytes, priority: nat)
      requires Valid() && ValidChannel(ch) && 0 < |bytes| <= MESSAGE_MAX
      requires TxAvailable(View(), priority) >= Fragments(|bytes|)
      modifies tx, next
      ensures Valid() && View() == Fill(old(View()), ch, stream, bytes, priority, 0)
    {
      hide TxAvailable, TxAlloc, Chunk, Occupy;
      var n := Fragments(|bytes|);
      ghost var e := View();
      for i := 0 to n
        invariant Valid() && TxAvailable(View(), priority) >= n - i
        invariant Fill(View(), ch, stream, bytes, priority, i) == Fill(e, ch, stream, bytes, priority, 0)
      {
        var f := Frag(ch, next[ch], i, n, stream, Chunk(bytes, i), bytes);
        assert f == FragOf(ch, next[ch], stream, bytes, i);
        AvailableForetellsAlloc(View(), priority, f);
        var k := AllocTx(priority);
        OccupySlot(k, priority, f);
      }
    }

    method SendFragments(ch: nat, first: SeqNum, stream: u32, bytes: Bytes)
      requires Valid() && ValidChannel(ch) && 0 < |bytes| <= MESSAGE_MAX
      modifies this`log
      ensures Valid() && View() == SendFrags(old(View()), ch, first, stream, bytes, 0)
    {
      hide Chunk;
      ghost var e := View();
      for i := 0 to Fragments(|bytes|)
        invariant View() == e.(log := log)
        invariant SendFrags(View(), ch, first, stream, bytes, i) == SendFrags(e, ch, first, stream, bytes, 0)
      {
        SendPacket(DataOf(View(), FragOf(ch, Plus(first, i), stream, bytes, i)));
      }
    }

    method SubmitMessage(ch: nat, bytes: Bytes, priority: nat) returns (err: Err)
      requires Valid()
      modifies this, tx, next
      ensures Valid() && (View(), err) == Submit(old(View()), ch, bytes, priority)
    {
      hide Fill, SendFrags, TxAvailable, SendLost, Count, Fragments, PendsOk;
      ghost var e := View();
      if |bytes| == 0 || ch == 0 || ch >= CHANNELS || |bytes| > MESSAGE_MAX {
        return InvalidArg;
      }
      if !ready {
        return InvalidState;
      }
      var n := Fragments(|bytes|);
      var first := next[ch];
      var stream := nextStream;
      nextStream := NextStream(nextStream);
      if stream == 0 {
        stream := nextStream;
        nextStream := NextStream(nextStream);
      }
      ghost var a := e.(nextStream := NextStream(stream));
      assert View() == a;
      var available := AvailableTx(priority);
      if available < n {
        next[ch] := Plus(next[ch], n);
        assert next[..] == a.next[ch := Plus(first, n)];
        ghost var b := View();
        assert b == a.(next := a.next[ch := Plus(first, n)]);
        ReportOwnLoss(ch, Overflow, first, Plus(first, n - 1));
        LossKeepsTables(b, ch, first, Plus(first, n - 1));
        return NoMem;
      }
      FillSlots(ch, stream, bytes, priority);
      log := log.(submitted := log.submitted + [Msg(ch, first.n, stream, bytes)]);
      if routeUp {
        SendFragments(ch, first, stream, bytes);
      }
      return Ok;
    }

    // ---- keemash_rel_poll and the other entry points

    method ExpireSlot(k: nat)
      requires Valid() && k < re.Length && ReMine(peer)(re[k])
      modifies this`log, re
      ensures Valid() && View() == Expire(old(View()), k)
    {
      hide Plus, Minus;
      ghost var e := View();
      var slot := re[k];
      var last := Minus(Plus(slot.first, slot.count), 1);
      RecordLost(false, slot.channel, FragmentTimeout, slot.first, last);
      SendPacket(Lost(binding, slot.channel, FragmentTimeout, true, slot.first, last));
      re[k] := ReFree;
      assert re[..] == e.re[k := ReFree];
      assert View() == Expire(e, k);
    }

    method ExhaustSlot(k: nat)
      requires Valid() && k < tx.Length && tx[k].TxUsed?
      modifies this, next, expected, tx, rx, re, pend
      ensures Valid() && View() == Exhaust(old(View()), k)
    {
      hide ClearPeer;
      var f := tx[k].frag;
      SendPacket(Lost(binding, f.channel, RetryExhausted, false, f.sn, f.sn));
      ClearPeerBuffers(RetryExhausted);
    }

    method SupersedeChannel(ch: nat) returns (removed: nat)
      requires Valid()
      modifies tx
      ensures Valid() && View() == Supersede(old(View()), ch)
      ensures removed == Count(old(tx[..]), TxOwn(peer, ch))
    {
      ghost var e := View();
      removed := 0;
      for i := 0 to tx.Length
        invariant removed == Count(e.tx[..i], TxOwn(peer, ch))
        invariant forall j :: 0 <= j < i ==>
                    tx[j] == if TxMine(peer)(e.tx[j]) && e.tx[j].frag.channel == ch then TxFree else e.tx[j]
        invariant forall j :: i <= j < tx.Length ==> tx[j] == e.tx[j]
      {
        assert e.tx[..i + 1][..i] == e.tx[..i];
        TxSpanGrows(e.tx[..i + 1], peer);
        if tx[i].TxUsed? && tx[i].frag.channel == ch && tx[i].peer == peer {
          tx[i] := TxFree;
          removed := removed + 1;
        }
      }
      assert e.tx[..tx.Length] == e.tx;
      assert tx[..] == Supersede(e, ch).tx;
      assert View() == Supersede(e, ch);
    }
  }

  lemma {:induction false} LossKeepsTables(e: Endpoint, ch: nat, first: SeqNum, last: SeqNum)
    requires WF(e)
    ensures WF(SendLost(e, ch, Overflow, first, last))
  {
  }

  // Emptying looks at the tables, not at the log.
  lemma {:induction false} EmptiedParts(e: Endpoint, b: Endpoint)
    requires WF(e) && b == e.(log := b.log)
    ensures WF(b)
    ensures Emptied(b) == e.(tx := Emptied(e).tx, rx := Emptied(e).rx, re := Emptied(e).re,
                             next := Restarted(e.next), expected := Restarted(e.expected),
                             pend := seq(LOST_RANGES, _ => PendFree), ready := false, log := b.log)
  {
    assert Emptied(b).tx == Emptied(e).tx && Emptied(b).rx == Emptied(e).rx && Emptied(b).re == Emptied(e).re;
  }

  lemma {:induction false} ShapeOf(e: Endpoint)
    requires WF(e)
    ensures |e.next| == |e.expected| == CHANNELS && |e.pend| == LOST_RANGES
  {
  }
}
