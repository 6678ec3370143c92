// What becomes of each message: once the receiver's expected number is past it, it was handed up, or a
// number of it was reported lost.
module MeshAccount {
  import opened Base
  import opened Serial
  import opened Slots
  import opened MeshTypes
  import opened Reliable
  import opened Handlers
  import opened MeshInvariant
  import opened MeshReceive
  import opened MeshConsume
  import PL = PendingLost

  // No number of the message was reported lost.
  ghost predicate Intact(s: Endpoint, r: Endpoint, m: Msg) {
    forall n :: m.first <= n < m.first + Fragments(|m.bytes|) ==> !Reported(s, r, m.channel, n)
  }

  ghost predicate HandedUp(r: Endpoint, m: Msg) {
    exists i :: 0 <= i < |r.log.delivered| && Delivers(r.log.delivered[i], m)
  }

  ghost predicate Delivers(d: Delivery, m: Msg) {
    Msg(d.channel, d.first, d.stream, d.bytes) == m
  }

  ghost predicate Just(xs: set<nat>, n: int) {
    forall i: nat :: i in xs <==> i < n
  }

  // The slot has just the first n fragments of the message.
  ghost predicate Collects(r: Endpoint, slot: ReSlot, m: Msg, n: int) {
    && ReOn(r, slot, m.channel) && slot.first.n == m.first && slot.stream == m.stream && Just(slot.received, n)
  }

  ghost predicate InHand(r: Endpoint, m: Msg, done: int) {
    exists k :: 0 <= k < |r.re| && Collects(r, r.re[k], m, done - m.first)
  }

  // A message of which no number was reported lost is handed up, or as far as done in one slot.
  ghost predicate Progressed(s: Endpoint, r: Endpoint, m: Msg, done: int) {
    m.first < done && Intact(s, r, m) ==>
      if m.first + Fragments(|m.bytes|) <= done then HandedUp(r, m) else InHand(r, m, done)
  }

  ghost predicate OnePerStream(r: Endpoint, ch: nat) {
    forall i, j :: 0 <= i < j < |r.re| && ReOn(r, r.re[i], ch) && ReOn(r, r.re[j], ch) ==>
                     r.re[i].stream != r.re[j].stream
  }

  ghost predicate Progress(s: Endpoint, r: Endpoint, ch: nat, done: int) {
    && OnePerStream(r, ch)
    && forall j :: 0 <= j < |s.log.submitted| && s.log.submitted[j].channel == ch ==>
                     Progressed(s, r, s.log.submitted[j], done)
  }

  // ---- What keeps it

  // Reports and deliveries only grow.
  ghost predicate Grown(s: Endpoint, e: Endpoint, e': Endpoint, ch: nat) {
    && e'.peer == e.peer && |e'.re| == |e.re|
    && (forall n :: Reported(s, e, ch, n) ==> Reported(s, e', ch, n))
    && |e.log.delivered| <= |e'.log.delivered| && e'.log.delivered[..|e.log.delivered|] == e.log.delivered
  }

  // Slots of the channel stay, or are freed with a number of theirs reported.
  ghost predicate SlotsKept(s: Endpoint, e: Endpoint, e': Endpoint, ch: nat)
    requires |e'.re| == |e.re|
  {
    && (forall k :: 0 <= k < |e.re| && ReOn(e', e'.re[k], ch) ==> e'.re[k] == e.re[k])
    && (forall k :: 0 <= k < |e.re| && ReOn(e, e.re[k], ch) ==> e'.re[k] == e.re[k] || Spoilt(s, e', e.re[k], ch))
  }

  ghost predicate Spoilt(s: Endpoint, e: Endpoint, slot: ReSlot, ch: nat)
    requires slot.ReUsed?
  {
    exists n :: slot.first.n <= n < slot.first.n + slot.count && Reported(s, e, ch, n)
  }

  lemma {:induction false} SpoiltNotIntact(s: Endpoint, e: Endpoint, slot: ReSlot, m: Msg)
    requires slot.ReUsed? && slot.first.n == m.first && slot.count == Fragments(|m.bytes|)
    ensures Spoilt(s, e, slot, m.channel) ==> !Intact(s, e, m)
  {
    hide Reported;
  }

  lemma {:induction false} HandedUpKept(s: Endpoint, e: Endpoint, e': Endpoint, ch: nat, m: Msg)
    requires Grown(s, e, e', ch) && HandedUp(e, m)
    ensures HandedUp(e', m)
  {
    var i :| 0 <= i < |e.log.delivered| && Delivers(e.log.delivered[i], m);
    assert e'.log.delivered[i] == e.log.delivered[i];
  }

  // A slot that collects a message is of that message.
  lemma {:induction false} CollectsWhole(s: Endpoint, e: Endpoint, k: nat, m: Msg, n: int, done: int)
    requires WF(s) && ValidChannel(m.channel) && MsgsOk(s, m.channel) && ReGood(s, e, m.channel, done)
    requires m in s.log.submitted && k < |e.re| && Collects(e, e.re[k], m, n)
    ensures e.re[k].msg == m.bytes && e.re[k].count == Fragments(|m.bytes|)
  {
    var slot := e.re[k];
    assert SlotGood(s, slot, m.channel, done);
    OneMessage(s, m, Msg(m.channel, slot.first.n, slot.stream, slot.msg));
  }

  lemma {:induction false} ProgressKept(s: Endpoint, e: Endpoint, e': Endpoint, ch: nat, done: int, good: int)
    requires WF(s) && ValidChannel(ch) && MsgsOk(s, ch) && ReGood(s, e, ch, good)
    requires Progress(s, e, ch, done) && Grown(s, e, e', ch) && SlotsKept(s, e, e', ch)
    ensures Progress(s, e', ch, done)
  {
    hide Reported, MsgsOk, ReGood;
    forall i, j | 0 <= i < j < |e'.re| && ReOn(e', e'.re[i], ch) && ReOn(e', e'.re[j], ch)
      ensures e'.re[i].stream != e'.re[j].stream
    {
      assert ReOn(e, e.re[i], ch) && ReOn(e, e.re[j], ch);
    }
    forall j | 0 <= j < |s.log.submitted| && s.log.submitted[j].channel == ch
      ensures Progressed(s, e', s.log.submitted[j], done)
    {
      var m := s.log.submitted[j];
      assert Progressed(s, e, m, done);
      if m.first < done && Intact(s, e', m) {
        assert Intact(s, e, m);
        if m.first + Fragments(|m.bytes|) <= done {
          HandedUpKept(s, e, e', ch, m);
        } else {
          var k :| 0 <= k < |e.re| && Collects(e, e.re[k], m, done - m.first);
          CollectsWhole(s, e, k, m, done - m.first, good);
          SpoiltNotIntact(s, e', e.re[k], m);
          assert Collects(e', e'.re[k], m, done - m.first);
        }
      }
    }
  }

  // The same slots.
  lemma {:induction false} ProgressSame(s: Endpoint, e: Endpoint, e': Endpoint, ch: nat, done: int)
    requires Progress(s, e, ch, done) && Grown(s, e, e', ch) && e'.re == e.re
    ensures Progress(s, e', ch, done)
  {
    hide Reported;
    forall i, j | 0 <= i < j < |e'.re| && ReOn(e', e'.re[i], ch) && ReOn(e', e'.re[j], ch)
      ensures e'.re[i].stream != e'.re[j].stream
    {
      assert ReOn(e, e.re[i], ch) && ReOn(e, e.re[j], ch);
    }
    forall j | 0 <= j < |s.log.submitted| && s.log.submitted[j].channel == ch
      ensures Progressed(s, e', s.log.submitted[j], done)
    {
      var m := s.log.submitted[j];
      assert Progressed(s, e, m, done);
      if m.first < done && Intact(s, e', m) {
        assert Intact(s, e, m);
        if m.first + Fragments(|m.bytes|) <= done {
          HandedUpKept(s, e, e', ch, m);
        } else {
          var k :| 0 <= k < |e.re| && Collects(e, e.re[k], m, done - m.first);
          assert Collects(e', e'.re[k], m, done - m.first);
        }
      }
    }
  }

  lemma {:induction false} GrownBy(s: Endpoint, e: Endpoint, e': Endpoint, ch: nat)
    requires e'.peer == e.peer && |e'.re| == |e.re|
    requires |e.log.lost| <= |e'.log.lost| && e'.log.lost[..|e.log.lost|] == e.log.lost
    requires |e.log.delivered| <= |e'.log.delivered| && e'.log.delivered[..|e.log.delivered|] == e.log.delivered
    ensures Grown(s, e, e', ch)
  {
    ToldKept(e.log, e'.log, false, ch);
  }

  // Over numbers that were reported lost.
  lemma {:induction false} ProgressJump(s: Endpoint, e: Endpoint, ch: nat, done: int, later: int)
    requires Progress(s, e, ch, done) && done <= later
    requires forall n :: done <= n < later ==> Reported(s, e, ch, n)
    requires |s.next| == CHANNELS && ValidChannel(ch) && MsgsOk(s, ch)
    ensures Progress(s, e, ch, later)
  {
    hide Reported;
    forall j | 0 <= j < |s.log.submitted| && s.log.submitted[j].channel == ch
      ensures Progressed(s, e, s.log.submitted[j], later)
    {
      var m := s.log.submitted[j];
      assert Progressed(s, e, m, done) && MsgOk(s, m);
      if done < later && m.first < later && m.first + Fragments(|m.bytes|) > done {
        var n := if m.first < done then done else m.first;
        assert Reported(s, e, ch, n);
        assert !Intact(s, e, m);
      }
    }
  }

  // ---- One fragment

  // The message a fragment is of.
  ghost function Own(f: Frag): Msg {
    Msg(f.channel, f.sn.n - f.index, f.stream, f.msg)
  }

  // Only the fragment's own message changes its standing.
  lemma {:induction false} OthersPass(s: Endpoint, e: Endpoint, e': Endpoint, f: Frag, m: Msg)
    requires |s.next| == CHANNELS && ValidChannel(f.channel) && MsgsOk(s, f.channel) && Genuine(s.log, f)
    requires Grown(s, e, e', f.channel) && m in s.log.submitted && m.channel == f.channel
    requires m != Own(f) && Progressed(s, e, m, f.sn.n)
    ensures Progressed(s, e', m, f.sn.n + 1)
  {
    hide Reported;
    MessagesOrdered(s, Own(f), m);
    if m.first < f.sn.n + 1 && Intact(s, e', m) {
      assert Intact(s, e, m);
      MessageBelow(s, m);
      assert m.first + Fragments(|m.bytes|) <= f.sn.n;
      HandedUpKept(s, e, e', f.channel, m);
    }
  }

  lemma {:induction false} SinglePasses(s: Endpoint, e: Endpoint, f: Frag)
    requires WF(s) && ValidChannel(f.channel) && MsgsOk(s, f.channel) && Genuine(s.log, f) && f.count <= 1
    requires Progress(s, e, f.channel, f.sn.n)
    ensures Progress(s, HandUp(e, Delivery(f.channel, f.sn.n, 1, f.stream, f.payload)), f.channel, f.sn.n + 1)
  {
    var e' := HandUp(e, Delivery(f.channel, f.sn.n, 1, f.stream, f.payload));
    var own := Own(f);
    GrownBy(s, e, e', f.channel);
    assert f.payload == f.msg;
    assert Delivers(e'.log.delivered[|e.log.delivered|], own);
    forall j | 0 <= j < |s.log.submitted| && s.log.submitted[j].channel == f.channel
      ensures Progressed(s, e', s.log.submitted[j], f.sn.n + 1)
    {
      var m := s.log.submitted[j];
      assert Progressed(s, e, m, f.sn.n);
      if m != own { OthersPass(s, e, e', f, m); }
    }
    assert forall k :: 0 <= k < |e.re| && ReOn(e', e'.re[k], f.channel) ==> ReOn(e, e.re[k], f.channel);
  }

  // A slot found for a fragment holds just the fragments before it, when nothing was reported.
  lemma {:induction false} FoundCollects(s: Endpoint, e: Endpoint, f: Frag)
    requires WF(s) && WF(e) && FragOk(f) && Genuine(s.log, f) && MsgsOk(s, f.channel) && 2 <= f.count
    requires f.sn.n < s.next[f.channel].n && Live(s, f.channel, f.sn.n - f.index)
    requires ReGood(s, e, f.channel, f.sn.n + 1) && FindRe(e, f) < |e.re| && OnePerStream(e, f.channel)
    requires Progressed(s, e, Own(f), f.sn.n) && Intact(s, e, Own(f))
    ensures var slot := e.re[FindRe(e, f)];
            Just((if slot.ReUsed? then slot.received else {}) + {f.index}, f.index + 1)
    ensures f.index > 0 ==> e.re[FindRe(e, f)].ReUsed?
  {
    var k, m := FindRe(e, f), Own(f);
    hide Reported, Intact, MsgsOk, Live, ReGood;
    if f.index > 0 {
      var j :| 0 <= j < |e.re| && Collects(e, e.re[j], m, f.sn.n - m.first);
      assert ReKey(e.peer, f.channel, f.stream)(e.re[j]);
      assert ReKey(e.peer, f.channel, f.stream)(e.re[k]);
      assert ReOn(e, e.re[k], f.channel);
      assert j == k;
    } else if e.re[k].ReUsed? {
      FoundSlot(s, e, f);
      forall i: nat | i in e.re[k].received ensures i < 1 {
        assert PartGood(e.re[k], i, f.sn.n + 1);
      }
    }
  }

  lemma {:induction false} StorePasses(s: Endpoint, e: Endpoint, f: Frag)
    requires WF(s) && WF(e) && FragOk(f) && Genuine(s.log, f) && MsgsOk(s, f.channel) && 2 <= f.count
    requires f.sn.n < s.next[f.channel].n && Live(s, f.channel, f.sn.n - f.index)
    requires ReGood(s, e, f.channel, f.sn.n + 1) && DeliveredGood(s, e, f.channel, f.sn.n) && FindRe(e, f) < |e.re|
    requires Progress(s, e, f.channel, f.sn.n)
    ensures Progress(s, Store(e, FindRe(e, f), f), f.channel, f.sn.n + 1)
  {
    var ch, e' := f.channel, Store(e, FindRe(e, f), f);
    var own := Own(f);
    hide Reported, MsgsOk, ReGood, DeliveredGood, Live, Store, FindRe, Intact;
    StoreGrows(s, e, f);
    StoreOnePerStream(s, e, f);
    forall j | 0 <= j < |s.log.submitted| && s.log.submitted[j].channel == ch
      ensures Progressed(s, e', s.log.submitted[j], f.sn.n + 1)
    {
      var m := s.log.submitted[j];
      assert Progressed(s, e, m, f.sn.n);
      if m != own { OthersPass(s, e, e', f, m); } else { OwnPasses(s, e, f); }
    }
  }

  lemma {:induction false} StoreGrows(s: Endpoint, e: Endpoint, f: Frag)
    requires WF(e) && FragOk(f) && FindRe(e, f) < |e.re|
    ensures Grown(s, e, Store(e, FindRe(e, f), f), f.channel)
    ensures Store(e, FindRe(e, f), f).log.lost == e.log.lost
  {
    GrownBy(s, e, Store(e, FindRe(e, f), f), f.channel);
  }

  lemma {:induction false} StoreOnePerStream(s: Endpoint, e: Endpoint, f: Frag)
    requires WF(e) && FragOk(f) && FindRe(e, f) < |e.re| && OnePerStream(e, f.channel)
    ensures OnePerStream(Store(e, FindRe(e, f), f), f.channel)
  {
    var k, ch, e' := FindRe(e, f), f.channel, Store(e, FindRe(e, f), f);
    assert e.re[k].ReFree? ==> forall j :: 0 <= j < |e.re| ==> !ReKey(e.peer, ch, f.stream)(e.re[j]);
    assert e.re[k].ReUsed? ==> ReKey(e.peer, ch, f.stream)(e.re[k]);
    forall i, j | 0 <= i < j < |e'.re| && ReOn(e', e'.re[i], ch) && ReOn(e', e'.re[j], ch)
      ensures e'.re[i].stream != e'.re[j].stream
    {
      assert i != k ==> ReOn(e, e.re[i], ch);
      assert j != k ==> ReOn(e, e.re[j], ch);
    }
  }

  lemma {:induction false} CompleteExactly(slot: ReSlot, n: nat)
    requires slot.ReUsed? && slot.count > 0 && Just(slot.received, n)
    ensures Complete(slot) <==> n == slot.count
  {
    var all := UpTo(slot.count);
    assert n > slot.count ==> slot.count in slot.received && slot.count !in all;
    assert n < slot.count ==> n !in slot.received && n in all;
    assert n == slot.count ==> slot.received == all;
  }

  // The slot the fragment goes to, before.
  ghost function Start(e: Endpoint, f: Frag): ReSlot
    requires FindRe(e, f) < |e.re|
  {
    if e.re[FindRe(e, f)].ReUsed? then e.re[FindRe(e, f)] else Opened(e, f)
  }

  // The slot the fragment goes to, with the fragment in it.
  ghost function OwnSlot(e: Endpoint, f: Frag): ReSlot
    requires WF(e) && FragOk(f) && FindRe(e, f) < |e.re|
  {
    Filled(Start(e, f), f)
  }

  lemma {:induction false} OwnSlotGood(s: Endpoint, e: Endpoint, f: Frag)
    requires WF(s) && WF(e) && FragOk(f) && Genuine(s.log, f) && MsgsOk(s, f.channel) && 2 <= f.count
    requires f.sn.n < s.next[f.channel].n && Live(s, f.channel, f.sn.n - f.index)
    requires ReGood(s, e, f.channel, f.sn.n + 1) && FindRe(e, f) < |e.re| && OnePerStream(e, f.channel)
    requires Progressed(s, e, Own(f), f.sn.n) && Intact(s, e, Own(f))
    ensures var slot := OwnSlot(e, f);
            && slot.ReUsed? && SlotGood(s, slot, f.channel, f.sn.n + 1) && slot.peer == e.peer
            && slot.msg == f.msg && slot.first.n == f.sn.n - f.index && slot.count == f.count
            && slot.stream == f.stream && slot.channel == f.channel
            && Just(slot.received, f.index + 1)
  {
    FoundCollects(s, e, f);
    hide Intact, Genuine, Live, ReGood, FindRe, Progressed, OnePerStream, SlotGood, MsgsOk, Filled, Just;
    StartGood(s, e, f);
    FilledGood(s, Start(e, f), f);
    FilledFields(Start(e, f), f);
  }

  lemma {:induction false} StartGood(s: Endpoint, e: Endpoint, f: Frag)
    requires WF(s) && WF(e) && FragOk(f) && Genuine(s.log, f) && MsgsOk(s, f.channel) && 2 <= f.count
    requires f.sn.n < s.next[f.channel].n && Live(s, f.channel, f.sn.n - f.index)
    requires ReGood(s, e, f.channel, f.sn.n + 1) && FindRe(e, f) < |e.re|
    ensures var slot := Start(e, f);
            && SlotGood(s, slot, f.channel, f.sn.n + 1) && slot.ReUsed? && ReOk(slot) && slot.peer == e.peer
            && slot.msg == f.msg && slot.first.n == f.sn.n - f.index && slot.count == f.count
            && slot.stream == f.stream && slot.channel == f.channel
            && (e.re[FindRe(e, f)].ReFree? ==> slot.received == {})
  {
    hide MsgsOk, ReGood, Genuine, SlotGood;
    if e.re[FindRe(e, f)].ReUsed? {
      FoundKey(e, f);
      FoundSlot(s, e, f);
      SlotUsed(s, e.re[FindRe(e, f)], f.channel, f.sn.n + 1);
    } else {
      OpenedGood(s, e, f, f.sn.n + 1);
      SlotUsed(s, Opened(e, f), f.channel, f.sn.n + 1);
    }
  }

  lemma {:induction false} SlotUsed(s: Endpoint, slot: ReSlot, ch: nat, done: int)
    requires WF(s) && ValidChannel(ch) && SlotGood(s, slot, ch, done)
    ensures slot.ReUsed? && ReOk(slot) && slot.channel == ch
  {
  }

  lemma {:induction false} FilledFields(slot: ReSlot, f: Frag)
    requires slot.ReUsed? && ReOk(slot) && FragOk(f)
    ensures var r := Filled(slot, f);
            && r.ReUsed? && r.peer == slot.peer && r.channel == slot.channel && r.stream == slot.stream
            && r.first == slot.first && r.count == slot.count && r.msg == slot.msg
            && r.received == slot.received + {f.index}
  {
  }

  lemma {:induction false} FoundKey(e: Endpoint, f: Frag)
    requires FindRe(e, f) < |e.re|
    ensures e.re[FindRe(e, f)].ReUsed? ==> ReKey(e.peer, f.channel, f.stream)(e.re[FindRe(e, f)])
  {
  }

  // The fragment's own message is handed up with its last fragment, and until then is in one slot.
  lemma {:induction false} OwnPasses(s: Endpoint, e: Endpoint, f: Frag)
    requires WF(s) && WF(e) && FragOk(f) && Genuine(s.log, f) && MsgsOk(s, f.channel) && 2 <= f.count
    requires f.sn.n < s.next[f.channel].n && Live(s, f.channel, f.sn.n - f.index)
    requires ReGood(s, e, f.channel, f.sn.n + 1) && DeliveredGood(s, e, f.channel, f.sn.n) && FindRe(e, f) < |e.re|
    requires OnePerStream(e, f.channel) && Progressed(s, e, Own(f), f.sn.n)
    ensures Progressed(s, Store(e, FindRe(e, f), f), Own(f), f.sn.n + 1)
  {
    var k, e', m := FindRe(e, f), Store(e, FindRe(e, f), f), Own(f);
    StoreGrows(s, e, f);
    if Intact(s, e', m) {
      assert Intact(s, e, m);
      hide Intact, MsgsOk, ReGood, Genuine, Live, FindRe, SlotGood, DeliveredGood, OnePerStream, OwnSlot, Filled,
           FragOk, Grown, Just;
      OwnSlotGood(s, e, f);
      var slot := OwnSlot(e, f);
      CompleteExactly(slot, f.index + 1);
      StoreIs(e, f);
      hide Store, Complete;
      if Complete(slot) {
        CompletedMessage(s, e, slot, f);
        assert Delivers(e'.log.delivered[|e.log.delivered|], m);
      } else {
        assert Collects(e', e'.re[k], m, f.sn.n + 1 - m.first);
      }
    }
  }

  lemma {:induction false} StoreIs(e: Endpoint, f: Frag)
    requires WF(e) && FragOk(f) && FindRe(e, f) < |e.re| && OwnSlot(e, f).ReUsed? && ReOk(OwnSlot(e, f))
    requires OwnSlot(e, f).count <= MAX_FRAGMENTS
    ensures var k, slot, e' := FindRe(e, f), OwnSlot(e, f), Store(e, FindRe(e, f), f);
            && e'.peer == e.peer && |e'.re| == |e.re|
            && (!Complete(slot) ==> e'.re[k] == slot)
            && (Complete(slot) ==>
                  e'.log.delivered == e.log.delivered + [Delivery(slot.channel, slot.first.n, slot.count, slot.stream,
                                                                  slot.data[..Total(slot.lens, slot.count)])])
  {
  }

  // ---- The recursion consume_contiguous -> deliver_fragment -> receiver_drop_range

  // A slot the drop frees overlaps the range it reports.
  lemma {:induction false} OverlapReported(s: Endpoint, e: Endpoint, slot: ReSlot, ch: nat, first: SeqNum,
                                           last: SeqNum, done: int)
    requires WF(s) && ValidChannel(ch) && MsgsOk(s, ch) && SlotGood(s, slot, ch, done)
    requires 1 <= first.n <= last.n < s.next[ch].n && Live(s, ch, first.n)
    requires forall n :: first.n <= n <= last.n ==> Told(e.log, false, ch, n)
    ensures ReOverlaps(slot, first, last) ==> Spoilt(s, e, slot, ch)
  {
    hide Told, PartGood;
    var slotLast := Plus(slot.first, slot.count - 1);
    MessageBelow(s, Msg(ch, slot.first.n, slot.stream, slot.msg));
    InRangeExact(slot.first, first, last);
    InRangeExact(slotLast, first, last);
    InRangeExact(first, slot.first, slotLast);
    hide InRange;
    if ReOverlaps(slot, first, last) {
      var n := if first.n <= slot.first.n <= last.n then slot.first.n
               else if first.n <= slotLast.n <= last.n then slotLast.n else first.n;
      assert Told(e.log, false, ch, n) && Reported(s, e, ch, n);
    }
  }

  lemma {:induction false} DropStarts(s: Endpoint, e: Endpoint, ch: nat, reason: Reason, first: SeqNum,
                                      last: SeqNum, done: int)
    requires WF(s) && WF(e) && ValidChannel(ch) && MsgsOk(s, ch)
    requires ReGood(s, e, ch, e.expected[ch].n) && Progress(s, e, ch, done)
    requires 1 <= first.n <= last.n < s.next[ch].n && Live(s, ch, first.n)
    ensures var d := Record(Purge(e, ch, first, last), false, ch, reason, first, last);
            Progress(s, d, ch, done) && forall n :: first.n <= n <= last.n ==> Reported(s, d, ch, n)
  {
    var d := Record(Purge(e, ch, first, last), false, ch, reason, first, last);
    forall n | first.n <= n <= last.n ensures Told(d.log, false, ch, n) {
      assert Tells(d.log.lost[|e.log.lost|], false, ch, n);
    }
    GrownBy(s, e, d, ch);
    hide Told, SlotGood, ReOverlaps, Progress, MsgsOk;
    forall k | 0 <= k < |e.re| && ReOn(e, e.re[k], ch)
      ensures d.re[k] == e.re[k] || Spoilt(s, d, e.re[k], ch)
    {
      assert SlotGood(s, e.re[k], ch, e.expected[ch].n);
      OverlapReported(s, d, e.re[k], ch, first, last, e.expected[ch].n);
    }
    assert SlotsKept(s, e, d, ch);
    hide ReGood, SlotsKept, Grown;
    ProgressKept(s, e, d, ch, done, e.expected[ch].n);
  }

  lemma {:induction false} SendProgress(s: Endpoint, e: Endpoint, p: Packet, ch: nat, done: int)
    requires Progress(s, e, ch, done)
    ensures Progress(s, Send(e, p), ch, done)
  {
    GrownBy(s, e, Send(e, p), ch);
    ProgressSame(s, e, Send(e, p), ch, done);
  }

  lemma {:induction false} PlaceProgress(s: Endpoint, e: Endpoint, e': Endpoint, ch: nat, done: int)
    requires Progress(s, e, ch, done) && e'.peer == e.peer && e'.re == e.re && e'.log.lost == e.log.lost
    requires e'.log.delivered == e.log.delivered
    ensures Progress(s, e', ch, done)
  {
    GrownBy(s, e, e', ch);
    ProgressSame(s, e, e', ch, done);
  }

  // The expected number jumps over reported numbers.
  lemma {:induction false} JumpProgress(s: Endpoint, e: Endpoint, ch: nat, sn: SeqNum, done: int)
    requires WF(s) && WF(e) && ValidChannel(ch) && MsgsOk(s, ch)
    requires Progress(s, e, ch, done) && done <= sn.n
    requires forall n :: done <= n < sn.n ==> Reported(s, e, ch, n)
    ensures Progress(s, SetExpected(e, ch, sn), ch, sn.n)
  {
    hide Progress, Reported;
    ProgressJump(s, e, ch, done, sn.n);
    PlaceProgress(s, e, SetExpected(e, ch, sn), ch, sn.n);
  }

  // A drop of a range that holds the expected number or lies behind it, with all numbers from done on.
  lemma {:induction false} DropProgress(s: Endpoint, e: Endpoint, ch: nat, reason: Reason, first: SeqNum,
                                        last: SeqNum, done: int)
    requires WF(s) && WF(e) && ValidChannel(ch) && SenderInv(s, ch)
    requires ReceiverInv(s, e, ch, e.expected[ch].n) && Progress(s, e, ch, done)
    requires 1 <= first.n <= last.n < s.next[ch].n && Live(s, ch, first.n)
    requires first.n <= e.expected[ch].n && done <= e.expected[ch].n
    requires done == e.expected[ch].n || (first.n <= done && e.expected[ch].n <= last.n + 1)
    ensures var e' := Drop(e, ch, reason, first, last);
            Progress(s, e', ch, e'.expected[ch].n)
    decreases Measure(e), 1
  {
    var d := Record(Purge(e, ch, first, last), false, ch, reason, first, last);
    DropStartKeeps(s, e, ch, reason, first, last);
    DropStarts(s, e, ch, reason, first, last, done);
    InRangeExact(e.expected[ch], first, last);
    BeforeExact(e.expected[ch], first);
    var report := Lost(e.binding, ch, reason, true, first, last);
    hide Progress, Reported, Keeps, RxGood, PendGood, PassedGood, Accounted, ReGood, ReceiverPacketsOk, DeliveredGood,
         InRange, Before, Consume;
    assert Drop(e, ch, reason, first, last) ==
           if InRange(d.expected[ch], first, last) then Send(Consume(SetExpected(d, ch, Plus(last, 1)), ch), report)
           else Send(d, report);
    hide Drop;
    if InRange(d.expected[ch], first, last) {
      JumpKeeps(s, d, ch, Plus(last, 1));
      JumpProgress(s, d, ch, Plus(last, 1), done);
      var m := SetExpected(d, ch, Plus(last, 1));
      ConsumeProgress(s, m, ch);
      SendProgress(s, Consume(m, ch), report, ch, Consume(m, ch).expected[ch].n);
    } else {
      ProgressJump(s, d, ch, done, e.expected[ch].n);
      SendProgress(s, d, report, ch, e.expected[ch].n);
    }
  }

  lemma {:induction false} DeliverProgress(s: Endpoint, e: Endpoint, f: Frag)
    requires WF(s) && WF(e) && FragOk(f) && SenderInv(s, f.channel)
    requires e.expected[f.channel].n == f.sn.n + 1 && JustPassed(e, f)
    requires ReceiverInv(s, e, f.channel, f.sn.n) && Genuine(s.log, f)
    requires Live(s, f.channel, f.sn.n - f.index)
    requires Progress(s, e, f.channel, f.sn.n)
    ensures var e' := Deliver(e, f);
            Progress(s, e', f.channel, e'.expected[f.channel].n)
    decreases Measure(e), 2
  {
    hide Keeps, RxGood, PendGood, PassedGood, Accounted, ReGood, ReceiverPacketsOk, Store, FindRe, Drop, Before,
         Progress;
    var ch := f.channel;
    var e1 := e.(log := e.log.(passed := e.log.passed + [f]));
    NotePassed(s, e, f);
    PlaceProgress(s, e, e1, ch, f.sn.n);
    assert DeliveredGood(s, e1, ch, f.sn.n);
    if f.count <= 1 {
      SinglePasses(s, e1, f);
    } else if FindRe(e1, f) < |e1.re| {
      StorePasses(s, e1, f);
    } else {
      DropStaysBehind(e1, f);
      MessageBelow(s, Own(f));
      DropProgress(s, e1, ch, Overflow, FirstSn(f), LastSn(f), f.sn.n);
    }
  }

  lemma {:induction false} ConsumeProgress(s: Endpoint, e: Endpoint, ch: nat)
    requires WF(s) && WF(e) && ValidChannel(ch) && SenderInv(s, ch)
    requires ReceiverInv(s, e, ch, e.expected[ch].n) && Progress(s, e, ch, e.expected[ch].n)
    ensures var e' := Consume(e, ch);
            Progress(s, e', ch, e'.expected[ch].n)
    decreases Measure(e), 0
  {
    hide Keeps, PendGood, PassedGood, Accounted, ReGood, DeliveredGood, ReceiverPacketsOk, Deliver, Count, InRange,
         Progress;
    var p := First(e.pend, PendAt(ch, e.expected[ch]));
    if p < |e.pend| {
      CountUpdate(e.pend, PendAny(), p, PendFree);
      SkipPendingKeeps(s, e, ch, p);
      SkipProgress(s, e, ch, p);
      ConsumeProgress(s, SkipPending(e, ch, p), ch);
    } else {
      var k := First(e.rx, RxAt(e.peer, ch, e.expected[ch]));
      if k < |e.rx| {
        CountUpdate(e.rx, RxAny(), k, RxFree);
        var f := e.rx[k].frag;
        assert RxOn(e, e.rx[k], ch);
        SameExact(f.sn, e.expected[ch]);
        TakeBufferedKeeps(s, e, ch, k);
        var m := TakeBuffered(e, ch, k);
        PlaceProgress(s, e, m, ch, f.sn.n);
        DeliverKeeps(s, m, f);
        DeliverProgress(s, m, f);
        ConsumeProgress(s, Deliver(m, f), ch);
      }
    }
  }

  lemma {:induction false} SkipProgress(s: Endpoint, e: Endpoint, ch: nat, p: nat)
    requires WF(s) && WF(e) && ValidChannel(ch) && SenderInv(s, ch) && p < |e.pend|
    requires ReceiverInv(s, e, ch, e.expected[ch].n) && Progress(s, e, ch, e.expected[ch].n)
    requires PendAt(ch, e.expected[ch])(e.pend[p])
    ensures var e' := SkipPending(e, ch, p);
            Progress(s, e', ch, e'.expected[ch].n)
  {
    hide Progress;
    var range := e.pend[p];
    assert PL.On(range, ch);
    InRangeExact(e.expected[ch], range.first, range.last);
    forall n | e.expected[ch].n <= n < range.last.n + 1 ensures Reported(s, e, ch, n) {
      assert PL.Holds(e.pend, ch, n);
    }
    JumpProgress(s, e, ch, Plus(range.last, 1), e.expected[ch].n);
    PlaceProgress(s, SetExpected(e, ch, Plus(range.last, 1)), SkipPending(e, ch, p), ch, range.last.n + 1);
  }
}
