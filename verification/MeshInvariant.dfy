// What holds between a sender `s` and a receiver `r` of one channel throughout an epoch.
module MeshInvariant {
  import opened Base
  import opened Serial
  import opened Slots
  import opened MeshTypes
  import opened Reliable
  import opened Handlers
  import PL = PendingLost

  // ---- Histories

  // The fragment is one piece of a message the sender gave tx slots to.
  ghost predicate Genuine(log: Log, f: Frag) {
    && ValidChannel(f.channel) && 0 < |f.msg| <= MESSAGE_MAX
    && f.count == Fragments(|f.msg|) && f.index < f.count
    && f.payload == Chunk(f.msg, f.index)
    && Msg(f.channel, f.sn.n - f.index, f.stream, f.msg) in log.submitted
  }

  ghost predicate Tells(ev: LostEvent, asSender: bool, ch: nat, n: int) {
    ev.asSender == asSender && ev.channel == ch && ev.first.n <= n <= ev.last.n
  }

  ghost predicate Told(log: Log, asSender: bool, ch: nat, n: int) {
    exists i :: 0 <= i < |log.lost| && Tells(log.lost[i], asSender, ch, n)
  }

  // One end or the other reported the loss of number n.
  ghost predicate Reported(s: Endpoint, r: Endpoint, ch: nat, n: int) {
    Told(s.log, true, ch, n) || Told(r.log, false, ch, n)
  }

  ghost predicate RxOn(r: Endpoint, slot: RxSlot, ch: nat) {
    slot.RxUsed? && slot.peer == r.peer && slot.frag.channel == ch
  }

  ghost predicate ReOn(r: Endpoint, slot: ReSlot, ch: nat) {
    slot.ReUsed? && slot.peer == r.peer && slot.channel == ch
  }

  ghost predicate TxOn(s: Endpoint, slot: TxSlot, ch: nat) {
    slot.TxUsed? && slot.peer == s.peer && slot.frag.channel == ch
  }

  ghost predicate Buffered(r: Endpoint, ch: nat, n: int) {
    exists i :: 0 <= i < |r.rx| && RxOn(r, r.rx[i], ch) && r.rx[i].frag.sn.n == n
  }

  ghost predicate InSlot(s: Endpoint, ch: nat, n: int) {
    exists i :: 0 <= i < |s.tx| && TxOn(s, s.tx[i], ch) && s.tx[i].frag.sn.n == n
  }

  // The receiver has number n, is past it, or one end reported it lost.
  ghost predicate Settled(s: Endpoint, r: Endpoint, ch: nat, n: int)
    requires WF(r) && ValidChannel(ch)
  {
    Buffered(r, ch, n) || n < r.expected[ch].n || Reported(s, r, ch, n)
  }

  ghost predicate WasPassed(r: Endpoint, ch: nat, n: int) {
    exists i :: 0 <= i < |r.log.passed| && r.log.passed[i].channel == ch && r.log.passed[i].sn.n == n
  }

  // Live numbers lie less than half a turn below the next number to issue; with it, any two live
  // numbers differ by less than 2^31, where section 3.2 of RFC 1982 defines their order.
  ghost predicate Live(s: Endpoint, ch: nat, n: int)
    requires |s.next| == CHANNELS && ValidChannel(ch)
  {
    s.next[ch].n - HALF < n
  }

  // ---- The sender's side

  ghost predicate MsgOk(s: Endpoint, m: Msg)
    requires |s.next| == CHANNELS && ValidChannel(m.channel)
  {
    0 < |m.bytes| <= MESSAGE_MAX && 1 <= m.first &&
    m.first + Fragments(|m.bytes|) <= s.next[m.channel].n
  }

  ghost predicate MsgsOk(s: Endpoint, ch: nat)
    requires |s.next| == CHANNELS && ValidChannel(ch)
  {
    && (forall i :: 0 <= i < |s.log.submitted| && s.log.submitted[i].channel == ch ==>
          MsgOk(s, s.log.submitted[i]))
    && (forall i, j :: 0 <= i < j < |s.log.submitted| && s.log.submitted[i].channel == ch &&
                       s.log.submitted[j].channel == ch ==>
          s.log.submitted[i].first + Fragments(|s.log.submitted[i].bytes|) <= s.log.submitted[j].first)
  }

  ghost predicate TxGood(s: Endpoint, ch: nat)
    requires |s.next| == CHANNELS && ValidChannel(ch)
  {
    forall i :: 0 <= i < |s.tx| && TxOn(s, s.tx[i], ch) ==>
      Genuine(s.log, s.tx[i].frag) && s.tx[i].frag.sn.n < s.next[ch].n && Live(s, ch, s.tx[i].frag.sn.n)
  }

  ghost predicate FromSender(p: Packet, ch: nat) {
    match p
    case Data(_, f, _, _) => f.channel == ch
    case Lost(_, c, _, drop, _, _) => c == ch && !drop
    case Ack(_, _, _, _, _, _) => false
  }

  ghost predicate FromReceiver(p: Packet, ch: nat) {
    match p
    case Data(_, _, _, _) => false
    case Lost(_, c, _, drop, _, _) => c == ch && drop
    case Ack(_, c, _, _, _, _) => c == ch
  }

  ghost predicate SenderPacketOk(s: Endpoint, p: Packet, ch: nat)
    requires |s.next| == CHANNELS && ValidChannel(ch)
  {
    match p
    case Data(_, f, fragmented, latest) =>
      Genuine(s.log, f) && f.sn.n < s.next[ch].n && fragmented == (f.count > 1) &&
      latest == (f.channel == TIME_CHANNEL)
    case Lost(_, _, _, _, first, last) =>
      1 <= first.n <= last.n < s.next[ch].n &&
      forall n :: first.n <= n <= last.n ==> Told(s.log, true, ch, n)
    case Ack(_, _, _, _, _, _) => true
  }

  ghost predicate SenderPacketsOk(s: Endpoint, ch: nat)
    requires |s.next| == CHANNELS && ValidChannel(ch)
  {
    forall i :: 0 <= i < |s.log.sent| && FromSender(s.log.sent[i], ch) ==>
      SenderPacketOk(s, s.log.sent[i], ch)
  }

  ghost predicate SenderInv(s: Endpoint, ch: nat)
    requires WF(s) && ValidChannel(ch)
  {
    1 <= s.next[ch].n && MsgsOk(s, ch) && TxGood(s, ch) && SenderPacketsOk(s, ch)
  }

  // ---- The receiver's side.  `done` is the number up to which everything was dealt with.

  ghost predicate RxGood(s: Endpoint, r: Endpoint, ch: nat)
    requires WF(s) && ValidChannel(ch)
  {
    forall i :: 0 <= i < |r.rx| && RxOn(r, r.rx[i], ch) ==>
      var f := r.rx[i].frag;
      Genuine(s.log, f) && f.sn.n < s.next[ch].n && Live(s, ch, f.sn.n - f.index)
  }

  ghost predicate PendGood(s: Endpoint, r: Endpoint, ch: nat)
    requires WF(s) && ValidChannel(ch)
  {
    && (forall i :: 0 <= i < |r.pend| && PL.On(r.pend[i], ch) ==>
          r.pend[i].first.n <= r.pend[i].last.n < s.next[ch].n && Live(s, ch, r.pend[i].first.n))
    && (forall n :: PL.Holds(r.pend, ch, n) ==> Reported(s, r, ch, n))
    && PL.Separated(r.pend, ch)
  }

  // No pending range holds the expected number.
  ghost predicate Drained(r: Endpoint, ch: nat)
    requires WF(r) && ValidChannel(ch)
  {
    !PL.Holds(r.pend, ch, r.expected[ch].n)
  }

  ghost predicate PassedGood(s: Endpoint, r: Endpoint, ch: nat, done: int) {
    && (forall i :: 0 <= i < |r.log.passed| && r.log.passed[i].channel == ch ==>
          Genuine(s.log, r.log.passed[i]) && r.log.passed[i].sn.n < done)
    && (forall i, j :: 0 <= i < j < |r.log.passed| && r.log.passed[i].channel == ch &&
                       r.log.passed[j].channel == ch ==>
          r.log.passed[i].sn.n < r.log.passed[j].sn.n)
  }

  ghost predicate Accounted(s: Endpoint, r: Endpoint, ch: nat, done: int) {
    forall n :: 1 <= n < done ==> WasPassed(r, ch, n) || Reported(s, r, ch, n)
  }

  // The buffer holds, in place, the fragments received so far of one submitted message.
  ghost predicate PartGood(slot: ReSlot, i: nat, done: int)
    requires slot.ReUsed? && ReOk(slot)
  {
    && i < slot.count == Fragments(|slot.msg|) && i * INNER_MAX <= |slot.msg| && i < MAX_FRAGMENTS
    && slot.first.n + i < done
    && slot.lens[i] == ChunkLen(|slot.msg|, i)
    && slot.data[i * INNER_MAX..][..slot.lens[i]] == Chunk(slot.msg, i)
  }

  ghost predicate SlotGood(s: Endpoint, slot: ReSlot, ch: nat, done: int)
    requires WF(s) && ValidChannel(ch)
  {
    && slot.ReUsed? && ReOk(slot) && slot.channel == ch
    && Msg(ch, slot.first.n, slot.stream, slot.msg) in s.log.submitted
    && 0 < |slot.msg| <= MESSAGE_MAX && slot.count == Fragments(|slot.msg|) && 2 <= slot.count
    && Live(s, ch, slot.first.n)
    && forall i :: i in slot.received ==> PartGood(slot, i, done)
  }

  ghost predicate ReGood(s: Endpoint, r: Endpoint, ch: nat, done: int)
    requires WF(s) && ValidChannel(ch)
  {
    forall k :: 0 <= k < |r.re| && ReOn(r, r.re[k], ch) ==> SlotGood(s, r.re[k], ch, done)
  }

  // Every message handed up is a submitted one, whole; positions increase strictly.
  ghost predicate DeliveredGood(s: Endpoint, r: Endpoint, ch: nat, done: int) {
    && (forall i :: 0 <= i < |r.log.delivered| && r.log.delivered[i].channel == ch ==>
          var d := r.log.delivered[i];
          && Msg(ch, d.first, d.stream, d.bytes) in s.log.submitted
          && d.count == Fragments(|d.bytes|) && d.first + d.count <= done)
    && (forall i, j :: 0 <= i < j < |r.log.delivered| && r.log.delivered[i].channel == ch &&
                       r.log.delivered[j].channel == ch ==>
          r.log.delivered[i].first + r.log.delivered[i].count <= r.log.delivered[j].first)
  }

  ghost predicate ReceiverPacketOk(s: Endpoint, r: Endpoint, p: Packet, ch: nat)
    requires WF(s) && WF(r) && ValidChannel(ch)
  {
    match p
    case Data(_, _, _, _) => true
    case Lost(_, _, _, _, first, last) =>
      1 <= first.n <= last.n < s.next[ch].n &&
      forall n :: first.n <= n <= last.n ==> Told(r.log, false, ch, n)
    case Ack(_, _, ack, sack, isNack, nack) =>
      && ack.n < r.expected[ch].n
      && (forall b :: b in sack ==> b < WINDOW && Settled(s, r, ch, ack.n + 1 + b))
      && (isNack ==> 1 <= nack.n < s.next[ch].n && nack.n == ack.n + 1)
  }

  ghost predicate ReceiverPacketsOk(s: Endpoint, r: Endpoint, ch: nat)
    requires WF(s) && WF(r) && ValidChannel(ch)
  {
    forall i :: 0 <= i < |r.log.sent| && FromReceiver(r.log.sent[i], ch) ==>
      ReceiverPacketOk(s, r, r.log.sent[i], ch)
  }

  ghost predicate ReceiverInv(s: Endpoint, r: Endpoint, ch: nat, done: int)
    requires WF(s) && WF(r) && ValidChannel(ch)
  {
    && 1 <= done <= r.expected[ch].n <= s.next[ch].n && Live(s, ch, r.expected[ch].n)
    && RxGood(s, r, ch) && PendGood(s, r, ch)
    && PassedGood(s, r, ch, done) && Accounted(s, r, ch, done)
    && ReGood(s, r, ch, done) && DeliveredGood(s, r, ch, done)
    && ReceiverPacketsOk(s, r, ch)
  }

  // Every number issued is in a tx slot, or settled at the receiver.
  ghost predicate NothingVanished(s: Endpoint, r: Endpoint, ch: nat)
    requires WF(s) && WF(r) && ValidChannel(ch)
  {
    forall n :: 1 <= n < s.next[ch].n ==> InSlot(s, ch, n) || Settled(s, r, ch, n)
  }

  // The whole invariant of one direction of one channel.
  ghost predicate DirInv(s: Endpoint, r: Endpoint, ch: nat)
    requires WF(s) && WF(r) && ValidChannel(ch)
  {
    && SenderInv(s, ch) && ReceiverInv(s, r, ch, r.expected[ch].n) && Drained(r, ch)
    && NothingVanished(s, r, ch)
  }

  // ---- What one operation may touch

  ghost predicate Extends<T(!new)>(xs: seq<T>, ys: seq<T>, p: T -> bool) {
    |xs| <= |ys| && ys[..|xs|] == xs && forall i :: |xs| <= i < |ys| ==> p(ys[i])
  }

  // An operation on the receiving side of channel ch.
  ghost predicate ReceiverStep(e: Endpoint, e': Endpoint, ch: nat) {
    && e'.cfg == e.cfg && e'.peer == e.peer && e'.next == e.next && e'.tx == e.tx
    && e'.log.submitted == e.log.submitted
    && |e'.expected| == |e.expected|
    && (forall c :: 0 <= c < |e.expected| && c != ch ==> e'.expected[c] == e.expected[c])
    && |e'.rx| == |e.rx|
    && (forall i :: 0 <= i < |e.rx| && e'.rx[i] != e.rx[i] ==>
          && (e.rx[i].RxUsed? ==> RxOn(e, e.rx[i], ch))
          && (e'.rx[i].RxUsed? ==> RxOn(e, e'.rx[i], ch)))
    && |e'.re| == |e.re|
    && (forall i :: 0 <= i < |e.re| && e'.re[i] != e.re[i] ==>
          && (e.re[i].ReUsed? ==> ReOn(e, e.re[i], ch))
          && (e'.re[i].ReUsed? ==> ReOn(e, e'.re[i], ch)))
    && PL.OthersKept(e.pend, e'.pend, ch)
    && Extends(e.log.sent, e'.log.sent, p => FromReceiver(p, ch))
    && Extends(e.log.lost, e'.log.lost, (v: LostEvent) => !v.asSender && v.channel == ch)
    && Extends(e.log.passed, e'.log.passed, (f: Frag) => f.channel == ch)
    && Extends(e.log.delivered, e'.log.delivered, (d: Delivery) => d.channel == ch)
  }

  // An operation on the sending side of channel ch.
  ghost predicate SenderStep(e: Endpoint, e': Endpoint, ch: nat) {
    && e'.cfg == e.cfg && e'.peer == e.peer && e'.expected == e.expected
    && e'.rx == e.rx && e'.re == e.re && e'.pend == e.pend
    && e'.log.passed == e.log.passed && e'.log.delivered == e.log.delivered
    && |e'.next| == |e.next| && (forall c :: 0 <= c < |e.next| && c != ch ==> e'.next[c] == e.next[c])
    && |e'.tx| == |e.tx|
    && (forall i :: 0 <= i < |e.tx| && e'.tx[i] != e.tx[i] ==>
          && (e.tx[i].TxUsed? ==> TxOn(e, e.tx[i], ch))
          && (e'.tx[i].TxUsed? ==> TxOn(e, e'.tx[i], ch)))
    && Extends(e.log.submitted, e'.log.submitted, (m: Msg) => m.channel == ch)
    && Extends(e.log.sent, e'.log.sent, p => FromSender(p, ch))
    && Extends(e.log.lost, e'.log.lost, (v: LostEvent) => v.asSender && v.channel == ch)
  }

  lemma {:induction false} ReceiverStepTrans(a: Endpoint, b: Endpoint, c: Endpoint, ch: nat)
    requires ReceiverStep(a, b, ch) && ReceiverStep(b, c, ch)
    ensures ReceiverStep(a, c, ch)
  {
    assert a.log.sent == c.log.sent[..|a.log.sent|];
    assert a.log.lost == c.log.lost[..|a.log.lost|];
    assert a.log.passed == c.log.passed[..|a.log.passed|];
    assert a.log.delivered == c.log.delivered[..|a.log.delivered|];
  }
}
