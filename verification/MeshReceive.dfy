// The receiver's operations keep the channel invariant: nothing settled is unsettled, fragments pass
// in order, and what is handed up is a submitted message.
module MeshReceive {
  import opened Base
  import opened Serial
  import opened Slots
  import opened MeshTypes
  import opened Reliable
  import opened Handlers
  import opened MeshInvariant
  import opened MeshFrame
  import PL = PendingLost

  // The expected number moves forward and no number loses its standing.
  ghost predicate Keeps(s: Endpoint, e: Endpoint, e': Endpoint, ch: nat)
    requires WF(e) && WF(e') && ValidChannel(ch)
  {
    && e.expected[ch].n <= e'.expected[ch].n
    && (forall n :: Settled(s, e, ch, n) ==> Settled(s, e', ch, n))
    && (forall n :: Told(e.log, false, ch, n) ==> Told(e'.log, false, ch, n))
  }

  lemma {:induction false} ToldKept(a: Log, b: Log, asSender: bool, ch: nat)
    requires |a.lost| <= |b.lost| && b.lost[..|a.lost|] == a.lost
    ensures forall n :: Told(a, asSender, ch, n) ==> Told(b, asSender, ch, n)
  {
    forall n | Told(a, asSender, ch, n) ensures Told(b, asSender, ch, n) {
      var i :| 0 <= i < |a.lost| && Tells(a.lost[i], asSender, ch, n);
      assert b.lost[i] == a.lost[i];
    }
  }

  lemma {:induction false} KeepsFrom(s: Endpoint, e: Endpoint, e': Endpoint, ch: nat)
    requires WF(e) && WF(e') && ValidChannel(ch)
    requires e'.peer == e.peer && |e.rx| == |e'.rx| && e.expected[ch].n <= e'.expected[ch].n
    requires |e.log.lost| <= |e'.log.lost| && e'.log.lost[..|e.log.lost|] == e.log.lost
    requires forall i :: 0 <= i < |e.rx| && RxOn(e, e.rx[i], ch) ==>
               e'.rx[i] == e.rx[i] || e.rx[i].frag.sn.n < e'.expected[ch].n ||
               Reported(s, e', ch, e.rx[i].frag.sn.n)
    ensures Keeps(s, e, e', ch)
  {
    ToldKept(e.log, e'.log, false, ch);
    forall n | Settled(s, e, ch, n) ensures Settled(s, e', ch, n) {
      if Buffered(e, ch, n) {
        var i :| 0 <= i < |e.rx| && RxOn(e, e.rx[i], ch) && e.rx[i].frag.sn.n == n;
        if e'.rx[i] == e.rx[i] {
          assert RxOn(e', e'.rx[i], ch);
        }
      }
    }
  }

  lemma {:induction false} KeepsTrans(s: Endpoint, a: Endpoint, b: Endpoint, c: Endpoint, ch: nat)
    requires WF(a) && WF(b) && WF(c) && ValidChannel(ch)
    requires Keeps(s, a, b, ch) && Keeps(s, b, c, ch)
    ensures Keeps(s, a, c, ch)
  {
  }

  // Earlier acknowledgements stay truthful.
  lemma {:induction false} PacketsKept(s: Endpoint, e: Endpoint, e': Endpoint, ch: nat)
    requires WF(s) && WF(e) && WF(e') && ValidChannel(ch)
    requires ReceiverPacketsOk(s, e, ch) && Keeps(s, e, e', ch) && e'.log.sent == e.log.sent
    ensures ReceiverPacketsOk(s, e', ch)
  {
    forall i | 0 <= i < |e'.log.sent| && FromReceiver(e'.log.sent[i], ch)
      ensures ReceiverPacketOk(s, e', e'.log.sent[i], ch)
    {
      assert ReceiverPacketOk(s, e, e.log.sent[i], ch);
    }
  }

  lemma {:induction false} ThenSendKeeps(s: Endpoint, e: Endpoint, p: Packet, ch: nat, done: int)
    requires WF(s) && WF(e) && ValidChannel(ch)
    requires ReceiverInv(s, e, ch, done) && ReceiverPacketOk(s, e, p, ch)
    ensures ReceiverInv(s, Send(e, p), ch, done) && Keeps(s, e, Send(e, p), ch)
    ensures Drained(e, ch) ==> Drained(Send(e, p), ch)
  {
    var e' := Send(e, p);
    KeepsFrom(s, e, e', ch);
    forall i | 0 <= i < |e'.log.sent| && FromReceiver(e'.log.sent[i], ch)
      ensures ReceiverPacketOk(s, e', e'.log.sent[i], ch)
    {
      if i < |e.log.sent| {
        assert e'.log.sent[i] == e.log.sent[i];
        assert ReceiverPacketOk(s, e, e.log.sent[i], ch);
      }
    }
    assert ReceiverPacketsOk(s, e', ch);
    SameButPackets(s, e, e', ch, done);
  }

  // The parts of the invariant that do not look at packets carry over when the rest is unchanged.
  lemma {:induction false} SameButPackets(s: Endpoint, e: Endpoint, e': Endpoint, ch: nat, done: int)
    requires WF(s) && WF(e) && WF(e') && ValidChannel(ch)
    requires ReceiverInv(s, e, ch, done) && ReceiverPacketsOk(s, e', ch)
    requires e' == e.(log := e'.log) && e'.log == e.log.(sent := e'.log.sent)
    ensures ReceiverInv(s, e', ch, done)
  {
    assert forall n :: WasPassed(e, ch, n) ==> WasPassed(e', ch, n);
    assert forall i :: 0 <= i < |e.rx| && RxOn(e', e'.rx[i], ch) ==> RxOn(e, e.rx[i], ch);
    assert forall k :: 0 <= k < |e.re| && ReOn(e', e'.re[k], ch) ==> ReOn(e, e.re[k], ch);
  }

  // ---- Passing one fragment

  lemma {:induction false} NotePassed(s: Endpoint, e: Endpoint, f: Frag)
    requires WF(s) && WF(e) && ValidChannel(f.channel)
    requires ReceiverInv(s, e, f.channel, f.sn.n) && Genuine(s.log, f)
    requires f.sn.n < e.expected[f.channel].n
    ensures var e' := e.(log := e.log.(passed := e.log.passed + [f]));
            ReceiverInv(s, e', f.channel, f.sn.n + 1) && Keeps(s, e, e', f.channel)
  {
    var ch, n := f.channel, f.sn.n;
    var e' := e.(log := e.log.(passed := e.log.passed + [f]));
    KeepsFrom(s, e, e', ch);
    PacketsKept(s, e, e', ch);
    assert e'.log.passed[|e.log.passed|] == f;
    assert WasPassed(e', ch, n);
    forall m | 1 <= m < n + 1 ensures WasPassed(e', ch, m) || Reported(s, e', ch, m) {
      if m < n && WasPassed(e, ch, m) {
        var i :| 0 <= i < |e.log.passed| && e.log.passed[i].channel == ch && e.log.passed[i].sn.n == m;
        assert e'.log.passed[i] == e.log.passed[i];
      }
    }
    assert PassedGood(s, e', ch, n + 1);
    forall k | 0 <= k < |e'.re| && ReOn(e', e'.re[k], ch) ensures SlotGood(s, e'.re[k], ch, n + 1) {
      assert ReOn(e, e.re[k], ch);
      SlotGoodLater(s, e.re[k], ch, n, n + 1);
    }
    assert RxGood(s, e', ch) by {
      assert forall i :: 0 <= i < |e.rx| && RxOn(e', e'.rx[i], ch) ==> RxOn(e, e.rx[i], ch);
    }
  }

  lemma {:induction false} SlotGoodLater(s: Endpoint, slot: ReSlot, ch: nat, done: int, later: int)
    requires WF(s) && ValidChannel(ch) && SlotGood(s, slot, ch, done) && done <= later
    ensures SlotGood(s, slot, ch, later)
  {
    forall i | i in slot.received ensures PartGood(slot, i, later) {
      assert PartGood(slot, i, done);
    }
  }

  // Two submitted messages of one channel with the same first number are one message.
  lemma {:induction false} OneMessage(s: Endpoint, m: Msg, m': Msg)
    requires |s.next| == CHANNELS && ValidChannel(m.channel) && MsgsOk(s, m.channel)
    requires m in s.log.submitted && m' in s.log.submitted
    requires m.channel == m'.channel && m.first == m'.first
    ensures m == m'
  {
    var i :| 0 <= i < |s.log.submitted| && s.log.submitted[i] == m;
    var j :| 0 <= j < |s.log.submitted| && s.log.submitted[j] == m';
    assert MsgOk(s, s.log.submitted[i]) && MsgOk(s, s.log.submitted[j]);
  }

  // Of two different submitted messages one lies wholly before the other.
  lemma {:induction false} MessagesOrdered(s: Endpoint, m: Msg, m': Msg)
    requires |s.next| == CHANNELS && ValidChannel(m.channel) && MsgsOk(s, m.channel)
    requires m in s.log.submitted && m' in s.log.submitted && m.channel == m'.channel && m != m'
    ensures m.first + Fragments(|m.bytes|) <= m'.first || m'.first + Fragments(|m'.bytes|) <= m.first
  {
    var i :| 0 <= i < |s.log.submitted| && s.log.submitted[i] == m;
    var j :| 0 <= j < |s.log.submitted| && s.log.submitted[j] == m';
  }

  lemma {:induction false} HandUpSingle(s: Endpoint, e: Endpoint, f: Frag)
    requires WF(s) && WF(e) && ValidChannel(f.channel)
    requires Genuine(s.log, f) && f.count <= 1
    requires ReceiverInv(s, e, f.channel, f.sn.n + 1) && DeliveredGood(s, e, f.channel, f.sn.n)
    ensures var e' := HandUp(e, Delivery(f.channel, f.sn.n, 1, f.stream, f.payload));
            ReceiverInv(s, e', f.channel, f.sn.n + 1) && Keeps(s, e, e', f.channel)
  {
    assert f.payload == f.msg;
    HandUpKeeps(s, e, Delivery(f.channel, f.sn.n, 1, f.stream, f.payload), f.sn.n + 1);
  }

  lemma {:induction false} HandUpKeeps(s: Endpoint, e: Endpoint, d: Delivery, done: int)
    requires WF(s) && WF(e) && ValidChannel(d.channel)
    requires ReceiverInv(s, e, d.channel, done)
    requires Msg(d.channel, d.first, d.stream, d.bytes) in s.log.submitted
    requires d.count == Fragments(|d.bytes|) && d.first + d.count <= done
    requires forall i :: 0 <= i < |e.log.delivered| && e.log.delivered[i].channel == d.channel ==>
               e.log.delivered[i].first + e.log.delivered[i].count <= d.first
    ensures ReceiverInv(s, HandUp(e, d), d.channel, done) && Keeps(s, e, HandUp(e, d), d.channel)
  {
    var e' := HandUp(e, d);
    KeepsFrom(s, e, e', d.channel);
    PacketsKept(s, e, e', d.channel);
    assert DeliveredGood(s, e', d.channel, done);
    assert forall n :: WasPassed(e, d.channel, n) ==> WasPassed(e', d.channel, n);
    assert forall i :: 0 <= i < |e.rx| && RxOn(e', e'.rx[i], d.channel) ==> RxOn(e, e.rx[i], d.channel);
    assert forall k :: 0 <= k < |e.re| && ReOn(e', e'.re[k], d.channel) ==> ReOn(e, e.re[k], d.channel);
  }

  // ---- Reassembly

  lemma {:induction false} ChunkSpan(len: nat, i: nat)
    requires 0 < len <= MESSAGE_MAX && i < Fragments(len)
    ensures i * INNER_MAX < len && i < MAX_FRAGMENTS
    ensures i * INNER_MAX + ChunkLen(len, i) <= len
    ensures i + 1 < Fragments(len) ==> ChunkLen(len, i) == INNER_MAX
    ensures i + 1 == Fragments(len) ==> i * INNER_MAX + ChunkLen(len, i) == len
  {
  }

  lemma {:induction false} OpenedGood(s: Endpoint, e: Endpoint, f: Frag, done: int)
    requires WF(s) && ValidChannel(f.channel) && Genuine(s.log, f) && 2 <= f.count
    requires Live(s, f.channel, f.sn.n - f.index)
    ensures SlotGood(s, Opened(e, f), f.channel, done)
  {
  }

  lemma {:induction false} FilledGood(s: Endpoint, slot: ReSlot, f: Frag)
    requires WF(s) && ValidChannel(f.channel) && Genuine(s.log, f) && FragOk(f)
    requires SlotGood(s, slot, f.channel, f.sn.n + 1)
    requires slot.msg == f.msg && slot.first.n == f.sn.n - f.index && slot.count == f.count
    ensures SlotGood(s, Filled(slot, f), f.channel, f.sn.n + 1)
  {
    var r := Filled(slot, f);
    ChunkSpan(|f.msg|, f.index);
    forall i | i in r.received ensures PartGood(r, i, f.sn.n + 1) {
      if i == f.index {
        PartPlaced(slot, f);
      } else {
        assert PartGood(slot, i, f.sn.n + 1);
        ChunkSpan(|f.msg|, i);
        PartUntouched(slot, f, i);
      }
    }
  }

  lemma {:induction false} PartPlaced(slot: ReSlot, f: Frag)
    requires slot.ReUsed? && ReOk(slot) && FragOk(f)
    ensures Filled(slot, f).data[f.index * INNER_MAX..][..|f.payload|] == f.payload
  {
  }

  lemma {:induction false} PartUntouched(slot: ReSlot, f: Frag, i: nat)
    requires slot.ReUsed? && ReOk(slot) && FragOk(f)
    requires i < MAX_FRAGMENTS && i != f.index
    ensures Filled(slot, f).lens[i] == slot.lens[i]
    ensures Filled(slot, f).data[i * INNER_MAX..][..slot.lens[i]] ==
            slot.data[i * INNER_MAX..][..slot.lens[i]]
  {
    var r := Filled(slot, f);
    var at, from := f.index * INNER_MAX, i * INNER_MAX;
    assert slot.lens[i] <= INNER_MAX;
    forall j | from <= j < from + slot.lens[i] ensures r.data[j] == slot.data[j] {
      if i < f.index {
        assert j < at;
      } else {
        assert j >= at + |f.payload|;
      }
    }
    assert r.data[from..][..slot.lens[i]] == slot.data[from..][..slot.lens[i]];
  }

  // The first k parts, one after the other, are the first k chunks of the message.
  lemma {:induction false} PartsJoin(slot: ReSlot, k: nat, done: int)
    requires slot.ReUsed? && ReOk(slot) && 0 < |slot.msg| <= MESSAGE_MAX
    requires k <= slot.count == Fragments(|slot.msg|)
    requires forall i :: 0 <= i < slot.count ==> PartGood(slot, i, done)
    ensures var t := Total(slot.lens, k);
            && t == (if k < slot.count then k * INNER_MAX else |slot.msg|)
            && t <= |slot.msg| && slot.data[..t] == slot.msg[..t]
  {
    if k > 0 {
      PartsJoin(slot, k - 1, done);
      ChunkSpan(|slot.msg|, k - 1);
      assert PartGood(slot, k - 1, done);
      var t, u := Total(slot.lens, k - 1), Total(slot.lens, k);
      assert t == (k - 1) * INNER_MAX && u == t + slot.lens[k - 1];
      assert slot.data[..u] == slot.data[..t] + slot.data[t..][..slot.lens[k - 1]];
      assert slot.msg[..u] == slot.msg[..t] + slot.msg[t..][..slot.lens[k - 1]];
    }
  }

  // What FindRe finds: a slot of the same message, or a free one.
  lemma {:induction false} FoundSlot(s: Endpoint, e: Endpoint, f: Frag)
    requires WF(s) && WF(e) && FragOk(f) && Genuine(s.log, f) && f.sn.n < s.next[f.channel].n
    requires MsgsOk(s, f.channel) && ReGood(s, e, f.channel, f.sn.n + 1) && 2 <= f.count
    requires Live(s, f.channel, f.sn.n - f.index)
    requires FindRe(e, f) < |e.re| && e.re[FindRe(e, f)].ReUsed?
    ensures var slot := e.re[FindRe(e, f)];
            && ReOn(e, slot, f.channel) && SlotGood(s, slot, f.channel, f.sn.n + 1)
            && slot.msg == f.msg && slot.first.n == f.sn.n - f.index && slot.count == f.count
  {
    var k := FindRe(e, f);
    var slot := e.re[k];
    assert ReKey(e.peer, f.channel, f.stream)(slot);
    assert ReOn(e, slot, f.channel) && SlotGood(s, slot, f.channel, f.sn.n + 1);
    var m, m' := Msg(f.channel, slot.first.n, f.stream, slot.msg), Msg(f.channel, f.sn.n - f.index, f.stream, f.msg);
    MessageBelow(s, m);
    MessageBelow(s, m');
    SameExact(slot.first, FirstSn(f));
    OneMessage(s, m, m');
  }

  lemma {:induction false} MessageBelow(s: Endpoint, m: Msg)
    requires |s.next| == CHANNELS && ValidChannel(m.channel) && MsgsOk(s, m.channel)
    requires m in s.log.submitted
    ensures MsgOk(s, m)
  {
    var i :| 0 <= i < |s.log.submitted| && s.log.submitted[i] == m;
  }

  lemma {:induction false} ReplaceSlot(s: Endpoint, e: Endpoint, k: nat, slot: ReSlot, ch: nat, done: int)
    requires WF(s) && WF(e) && ValidChannel(ch) && k < |e.re| && ReOk(slot)
    requires ReceiverInv(s, e, ch, done)
    requires slot.ReUsed? ==> SlotGood(s, slot, ch, done)
    ensures var e' := e.(re := e.re[k := slot]);
            WF(e') && ReceiverInv(s, e', ch, done) && Keeps(s, e, e', ch)
  {
    var e' := e.(re := e.re[k := slot]);
    KeepsFrom(s, e, e', ch);
    PacketsKept(s, e, e', ch);
    forall j | 0 <= j < |e'.re| && ReOn(e', e'.re[j], ch) ensures SlotGood(s, e'.re[j], ch, done) {
      if j != k {
        assert ReOn(e, e.re[j], ch);
      }
    }
    assert forall n :: WasPassed(e, ch, n) ==> WasPassed(e', ch, n);
    assert forall i :: 0 <= i < |e.rx| && RxOn(e', e'.rx[i], ch) ==> RxOn(e, e.rx[i], ch);
  }

  // A complete slot holds exactly its message, and no earlier delivery reaches as far.
  lemma {:induction false} CompletedMessage(s: Endpoint, e: Endpoint, slot: ReSlot, f: Frag)
    requires WF(s) && FragOk(f) && MsgsOk(s, f.channel)
    requires SlotGood(s, slot, f.channel, f.sn.n + 1) && Complete(slot)
    requires slot.msg == f.msg && slot.first.n == f.sn.n - f.index && slot.count == f.count
    requires DeliveredGood(s, e, f.channel, f.sn.n)
    ensures slot.data[..Total(slot.lens, slot.count)] == slot.msg
    ensures slot.first.n + slot.count <= f.sn.n + 1
    ensures forall i :: 0 <= i < |e.log.delivered| && e.log.delivered[i].channel == f.channel ==>
              e.log.delivered[i].first + e.log.delivered[i].count <= slot.first.n
  {
    var done := f.sn.n + 1;
    forall i | 0 <= i < slot.count ensures PartGood(slot, i, done) {
      assert i in slot.received;
    }
    PartsJoin(slot, slot.count, done);
    assert PartGood(slot, slot.count - 1, done);
    var m := Msg(f.channel, slot.first.n, slot.stream, slot.msg);
    forall i | 0 <= i < |e.log.delivered| && e.log.delivered[i].channel == f.channel
      ensures e.log.delivered[i].first + e.log.delivered[i].count <= slot.first.n
    {
      var d := e.log.delivered[i];
      var m' := Msg(f.channel, d.first, d.stream, d.bytes);
      assert m' in s.log.submitted;
      if m' != m {
        MessagesOrdered(s, m, m');
        MessageBelow(s, m');
      }
    }
  }

  lemma {:induction false} StoreKeeps(s: Endpoint, e: Endpoint, f: Frag)
    requires WF(s) && WF(e) && FragOk(f) && Genuine(s.log, f) && f.sn.n < s.next[f.channel].n
    requires MsgsOk(s, f.channel) && 2 <= f.count && Live(s, f.channel, f.sn.n - f.index)
    requires ReceiverInv(s, e, f.channel, f.sn.n + 1) && DeliveredGood(s, e, f.channel, f.sn.n)
    requires FindRe(e, f) < |e.re|
    ensures var e' := Store(e, FindRe(e, f), f);
            ReceiverInv(s, e', f.channel, f.sn.n + 1) && Keeps(s, e, e', f.channel)
  {
    var k, ch, done := FindRe(e, f), f.channel, f.sn.n + 1;
    if e.re[k].ReUsed? {
      FoundSlot(s, e, f);
    } else {
      OpenedGood(s, e, f, done);
    }
    var start := if e.re[k].ReUsed? then e.re[k] else Opened(e, f);
    FilledGood(s, start, f);
    var slot := Filled(start, f);
    if Complete(slot) {
      CompletedMessage(s, e, slot, f);
      ReplaceSlot(s, e, k, ReFree, ch, done);
      var e1 := e.(re := e.re[k := ReFree]);
      var d := Delivery(slot.channel, slot.first.n, slot.count, slot.stream,
                        slot.data[..Total(slot.lens, slot.count)]);
      HandUpKeeps(s, e1, d, done);
      KeepsTrans(s, e, e1, HandUp(e1, d), ch);
    } else {
      ReplaceSlot(s, e, k, slot, ch, done);
    }
  }
}
