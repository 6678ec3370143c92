// What each operation of the reliable protocol does to an endpoint (keemash_mesh_core.c:376-1450).
//
// These functions are compiled: every decision they take reads 32-bit words, never a ghost tag.
// `MeshContext.dfy` proves the in-place code equal to them; `MeshInvariant.dfy` and
// `MeshSystem.dfy` prove what they achieve.
module Reliable {
  import opened Base
  import opened Serial
  import opened Slots
  import opened MeshTypes
  import PL = PendingLost

  // ---- Well-formed tables

  predicate FragOk(f: Frag) {
    ValidChannel(f.channel) && 1 <= f.count <= MAX_FRAGMENTS && f.index < f.count &&
    |f.payload| <= INNER_MAX
  }

  predicate RxOk(s: RxSlot) {
    s.RxUsed? ==> FragOk(s.frag)
  }

  predicate TxOk(s: TxSlot) {
    s.TxUsed? ==> FragOk(s.frag)
  }

  predicate ReOk(s: ReSlot) {
    s.ReUsed? ==>
      && ValidChannel(s.channel) && s.count <= MAX_FRAGMENTS
      && |s.lens| == MAX_FRAGMENTS && |s.data| == MESSAGE_MAX
      && forall i :: 0 <= i < MAX_FRAGMENTS ==> s.lens[i] <= INNER_MAX
  }

  predicate PendOk(s: PendSlot) {
    s.PendUsed? ==> ValidChannel(s.channel)
  }

  predicate PendsOk(pend: seq<PendSlot>) {
    forall i :: 0 <= i < |pend| ==> PendOk(pend[i])
  }

  predicate WF(e: Endpoint) {
    && |e.next| == CHANNELS && |e.expected| == CHANNELS && |e.pend| == LOST_RANGES
    && (forall i :: 0 <= i < |e.tx| ==> TxOk(e.tx[i]))
    && (forall i :: 0 <= i < |e.rx| ==> RxOk(e.rx[i]))
    && (forall i :: 0 <= i < |e.re| ==> ReOk(e.re[i]))
    && PendsOk(e.pend)
  }

  // ---- What a search looks for

  function RxAny(): RxSlot -> bool {
    (s: RxSlot) => s.RxUsed?
  }

  function RxVacant(): RxSlot -> bool {
    (s: RxSlot) => s.RxFree?
  }

  function RxMine(peer: nat): RxSlot -> bool {
    (s: RxSlot) => s.RxUsed? && s.peer == peer
  }

  function RxAt(peer: nat, ch: nat, sn: SeqNum): RxSlot -> bool {
    (s: RxSlot) => s.RxUsed? && s.peer == peer && s.frag.channel == ch && Same(s.frag.sn, sn)
  }

  function ReVacant(): ReSlot -> bool {
    (s: ReSlot) => s.ReFree?
  }

  function ReMine(peer: nat): ReSlot -> bool {
    (s: ReSlot) => s.ReUsed? && s.peer == peer
  }

  function ReKey(peer: nat, ch: nat, stream: u32): ReSlot -> bool {
    (s: ReSlot) => s.ReUsed? && s.peer == peer && s.channel == ch && s.stream == stream
  }

  function PendAny(): PendSlot -> bool {
    (s: PendSlot) => s.PendUsed?
  }

  function PendAt(ch: nat, sn: SeqNum): PendSlot -> bool {
    (s: PendSlot) => s.PendUsed? && s.channel == ch && InRange(sn, s.first, s.last)
  }

  function TxVacant(): TxSlot -> bool {
    (s: TxSlot) => s.TxFree?
  }

  function TxMine(peer: nat): TxSlot -> bool {
    (s: TxSlot) => s.TxUsed? && s.peer == peer
  }

  function TxAt(peer: nat, ch: nat, sn: SeqNum): TxSlot -> bool {
    (s: TxSlot) => s.TxUsed? && s.peer == peer && s.frag.channel == ch && Same(s.frag.sn, sn)
  }

  function TxOwn(peer: nat, ch: nat): TxSlot -> bool {
    (s: TxSlot) => s.TxUsed? && s.peer == peer && s.frag.channel == ch
  }

  // ---- Output

  function Record(e: Endpoint, ghost asSender: bool, ch: nat, reason: Reason,
                  first: SeqNum, last: SeqNum): Endpoint
  {
    e.(log := e.log.(lost := e.log.lost + [LostEvent(asSender, ch, reason, first, last)]))
  }

  function Send(e: Endpoint, ghost p: Packet): Endpoint {
    e.(log := e.log.(sent := e.log.sent + [p]))
  }

  function DataOf(e: Endpoint, f: Frag): Packet {
    Data(e.binding, f, f.count > 1, f.channel == TIME_CHANNEL)
  }

  // ---- Receiving: the recursion consume_contiguous -> deliver_fragment -> receiver_drop_range

  // How many more times the recursion can go round: buffered fragments plus pending lost ranges.
  function Measure(e: Endpoint): nat {
    Count(e.rx, RxAny()) + Count(e.pend, PendAny())
  }

  function FirstSn(f: Frag): SeqNum {
    Minus(f.sn, f.index)
  }

  function LastSn(f: Frag): SeqNum
    requires f.count > 0
  {
    Plus(FirstSn(f), f.count - 1)
  }

  // reassembly_find(create = true): the slot to use, or |re| when there is none.
  function FindRe(e: Endpoint, f: Frag): (k: nat)
    ensures k <= |e.re|
  {
    var k := First(e.re, ReKey(e.peer, f.channel, f.stream));
    if k < |e.re| then
      if e.re[k].count != f.count || !Same(e.re[k].first, FirstSn(f)) then |e.re| else k
    else if Count(e.re, ReMine(e.peer)) >= e.cfg.perPeerRe then |e.re|
    else First(e.re, ReVacant())
  }

  function Opened(e: Endpoint, f: Frag): ReSlot {
    ReUsed(e.peer, f.channel, f.stream, FirstSn(f), f.count,
           seq(MAX_FRAGMENTS, _ => 0), {}, seq(MESSAGE_MAX, _ => 0), f.msg)
  }

  // memcpy of one fragment into its place in the message buffer
  function Filled(s: ReSlot, f: Frag): (r: ReSlot)
    requires s.ReUsed? && ReOk(s) && FragOk(f)
    ensures r.ReUsed? && ReOk(r)
  {
    var at := f.index * INNER_MAX;
    s.(data := s.data[..at] + f.payload + s.data[at + |f.payload|..],
       lens := s.lens[f.index := |f.payload|],
       received := s.received + {f.index})
  }

  function Total(lens: seq<nat>, k: nat): (t: nat)
    requires k <= |lens|
    requires forall i :: 0 <= i < k ==> lens[i] <= INNER_MAX
    ensures t <= k * INNER_MAX
  {
    if k == 0 then 0 else Total(lens, k - 1) + lens[k - 1]
  }

  // {0, .., n - 1}: the mask (1 << n) - 1
  function UpTo(n: nat): (r: set<nat>)
    ensures forall i: nat :: i in r <==> i < n
  {
    if n == 0 then {} else UpTo(n - 1) + {n - 1}
  }

  predicate Complete(s: ReSlot)
    requires s.ReUsed?
  {
    s.received == UpTo(s.count)
  }

  function HandUp(e: Endpoint, ghost d: Delivery): Endpoint {
    e.(log := e.log.(delivered := e.log.delivered + [d]))
  }

  function Store(e: Endpoint, k: nat, f: Frag): (r: Endpoint)
    requires WF(e) && k < |e.re| && FragOk(f)
    ensures WF(r) && r.rx == e.rx && r.pend == e.pend && r.expected == e.expected
  {
    var s := Filled(if e.re[k].ReUsed? then e.re[k] else Opened(e, f), f);
    if !Complete(s) then e.(re := e.re[k := s])
    else
      var bytes := s.data[..Total(s.lens, s.count)];
      HandUp(e.(re := e.re[k := ReFree]),
             Delivery(s.channel, s.first.n, s.count, s.stream, bytes))
  }

  // A fragment is delivered right after the expected number moved past it.
  predicate JustPassed(e: Endpoint, f: Frag)
    requires |e.expected| == CHANNELS && ValidChannel(f.channel)
  {
    Same(e.expected[f.channel], Plus(f.sn, 1))
  }

  // deliver_fragment
  function Deliver(e: Endpoint, f: Frag): (r: Endpoint)
    requires WF(e) && FragOk(f) && JustPassed(e, f)
    ensures WF(r) && Measure(r) <= Measure(e) && r.ready == e.ready
    decreases Measure(e), 2
  {
    var e := e.(log := e.log.(passed := e.log.passed + [f]));
    if f.count <= 1 then
      HandUp(e, Delivery(f.channel, f.sn.n, 1, f.stream, f.payload))
    else
      var k := FindRe(e, f);
      if k < |e.re| then Store(e, k, f)
      else
        DropStaysBehind(e, f);
        Drop(e, f.channel, Overflow, FirstSn(f), LastSn(f))
  }

  // A drop reached from deliver_fragment covers the expected number or lies wholly behind it.
  lemma {:induction false} DropStaysBehind(e: Endpoint, f: Frag)
    requires |e.expected| == CHANNELS && FragOk(f) && JustPassed(e, f)
    ensures !Before(e.expected[f.channel], FirstSn(f)) ||
            InRange(e.expected[f.channel], FirstSn(f), LastSn(f))
  {
    var passed := Plus(f.sn, 1);
    BeforeExact(passed, FirstSn(f));
    assert Before(e.expected[f.channel], FirstSn(f)) == Before(passed, FirstSn(f));
  }

  function RxKept(e: Endpoint, ch: nat, first: SeqNum, last: SeqNum, s: RxSlot): RxSlot {
    if s.RxUsed? && s.peer == e.peer && s.frag.channel == ch && InRange(s.frag.sn, first, last)
    then RxFree else s
  }

  predicate ReOverlaps(s: ReSlot, first: SeqNum, last: SeqNum)
    requires s.ReUsed?
  {
    var slotLast := if s.count == 0 then Minus(s.first, 1) else Plus(s.first, s.count - 1);
    InRange(s.first, first, last) || InRange(slotLast, first, last) ||
    InRange(first, s.first, slotLast)
  }

  function ReKept(e: Endpoint, ch: nat, first: SeqNum, last: SeqNum, s: ReSlot): ReSlot {
    if s.ReUsed? && s.peer == e.peer && s.channel == ch && ReOverlaps(s, first, last)
    then ReFree else s
  }

  function Purge(e: Endpoint, ch: nat, first: SeqNum, last: SeqNum): (r: Endpoint)
    requires WF(e)
    ensures WF(r) && Measure(r) <= Measure(e)
  {
    var rx := seq(|e.rx|, i requires 0 <= i < |e.rx| => RxKept(e, ch, first, last, e.rx[i]));
    var re := seq(|e.re|, i requires 0 <= i < |e.re| => ReKept(e, ch, first, last, e.re[i]));
    CountMono(e.rx, rx, RxAny(), RxAny());
    e.(rx := rx, re := re)
  }

  function SetExpected(e: Endpoint, ch: nat, sn: SeqNum): (r: Endpoint)
    requires WF(e) && ValidChannel(ch)
    ensures WF(r) && Measure(r) == Measure(e)
  {
    e.(expected := e.expected[ch := sn])
  }

  // receiver_drop_range
  function Drop(e: Endpoint, ch: nat, reason: Reason, first: SeqNum, last: SeqNum): (r: Endpoint)
    requires WF(e) && ValidChannel(ch)
    ensures WF(r)
    ensures !Before(e.expected[ch], first) || InRange(e.expected[ch], first, last) ==>
              Measure(r) <= Measure(e) && r.ready == e.ready
    decreases Measure(e), 1
  {
    var d := Record(Purge(e, ch, first, last), false, ch, reason, first, last);
    var report := Lost(e.binding, ch, reason, true, first, last);
    if InRange(d.expected[ch], first, last) then
      Send(Consume(SetExpected(d, ch, Plus(last, 1)), ch), report)
    else if Before(d.expected[ch], first) then Await(d, ch, first, last, report)
    else Send(d, report)
  }

  // A dropped range ahead of the expected number waits in the table; when that is full the peer is cleared.
  function Await(e: Endpoint, ch: nat, first: SeqNum, last: SeqNum, ghost report: Packet): (r: Endpoint)
    requires WF(e) && ValidChannel(ch)
    ensures WF(r)
  {
    var (pend, ok) := PL.Add(e.pend, ch, first, last);
    AddKeepsOk(e.pend, ch, first, last);
    if ok then Send(e.(pend := pend), report) else ClearPeer(e.(pend := pend), Overflow)
  }

  // consume_contiguous
  function Consume(e: Endpoint, ch: nat): (r: Endpoint)
    requires WF(e) && ValidChannel(ch)
    ensures WF(r) && Measure(r) <= Measure(e) && r.ready == e.ready
    decreases Measure(e), 0
  {
    var p := First(e.pend, PendAt(ch, e.expected[ch]));
    if p < |e.pend| then Consume(SkipPending(e, ch, p), ch)
    else
      var k := First(e.rx, RxAt(e.peer, ch, e.expected[ch]));
      if k == |e.rx| then e else Consume(Deliver(TakeBuffered(e, ch, k), e.rx[k].frag), ch)
  }

  function SkipPending(e: Endpoint, ch: nat, p: nat): (r: Endpoint)
    requires WF(e) && ValidChannel(ch) && p < |e.pend| && e.pend[p].PendUsed?
    ensures WF(r) && Measure(r) < Measure(e)
  {
    CountUpdate(e.pend, PendAny(), p, PendFree);
    SetExpected(e, ch, Plus(e.pend[p].last, 1)).(pend := e.pend[p := PendFree])
  }

  function TakeBuffered(e: Endpoint, ch: nat, k: nat): (r: Endpoint)
    requires WF(e) && ValidChannel(ch) && k < |e.rx|
    ensures WF(r) && (e.rx[k].RxUsed? ==> Measure(r) < Measure(e))
  {
    CountUpdate(e.rx, RxAny(), k, RxFree);
    SetExpected(e, ch, Plus(e.expected[ch], 1)).(rx := e.rx[k := RxFree])
  }

  lemma {:induction false} JoinKeepsOk(pend: seq<PendSlot>, i: nat, j: nat)
    requires i < |pend| && j <= |pend| && pend[i].PendUsed? && PendsOk(pend)
    ensures PendsOk(PL.JoinFrom(pend, i, j))
    decreases |pend| - j
  {
    if j < |pend| {
      if j != i && PL.TouchedBy(pend[i].channel, pend[i].first, pend[i].last)(pend[j]) {
        var next := pend[i := PL.Hull(pend[i], pend[j].first, pend[j].last)][j := PendFree];
        assert PendOk(pend[i]);
        JoinKeepsOk(next, i, j + 1);
      } else {
        JoinKeepsOk(pend, i, j + 1);
      }
    }
  }

  lemma {:induction false} MergeKeepsOk(pend: seq<PendSlot>, ch: nat, f: SeqNum, l: SeqNum, passes: nat)
    requires PendsOk(pend)
    ensures PendsOk(PL.Merge(pend, ch, f, l, passes).0)
    decreases passes
  {
    if passes > 0 {
      var i := First(pend, PL.TouchedBy(ch, f, l));
      if i < |pend| {
        var widened := pend[i := PL.Hull(pend[i], f, l)];
        assert PendOk(pend[i]);
        JoinKeepsOk(widened, i, 0);
        var joined := PL.JoinFrom(widened, i, 0);
        MergeKeepsOk(joined, ch, joined[i].first, joined[i].last, passes - 1);
      }
    }
  }

  lemma {:induction false} AddKeepsOk(pend: seq<PendSlot>, ch: nat, f: SeqNum, l: SeqNum)
    requires ValidChannel(ch) && PendsOk(pend)
    ensures PendsOk(PL.Add(pend, ch, f, l).0)
  {
    MergeKeepsOk(pend, ch, f, l, |pend|);
    var m := PL.Merge(pend, ch, f, l, |pend|);
    PlaceKeepsOk(m.0, ch, m.1, m.2);
  }

  lemma {:induction false} PlaceKeepsOk(pend: seq<PendSlot>, ch: nat, f: SeqNum, l: SeqNum)
    requires ValidChannel(ch) && PendsOk(pend)
    ensures PendsOk(PL.Place(pend, ch, f, l).0)
  {
  }

  // ---- The end of an epoch: clear_peer_buffers

  function RecordRx(e: Endpoint, reason: Reason, i: nat): (r: Endpoint)
    requires i <= |e.rx|
    ensures r == e.(log := r.log)
    decreases |e.rx| - i
  {
    if i == |e.rx| then e
    else
      var s := e.rx[i];
      RecordRx(if RxMine(e.peer)(s) then Record(e, false, s.frag.channel, reason, s.frag.sn, s.frag.sn)
               else e, reason, i + 1)
  }

  function RecordRe(e: Endpoint, reason: Reason, i: nat): (r: Endpoint)
    requires i <= |e.re|
    ensures r == e.(log := r.log)
    decreases |e.re| - i
  {
    if i == |e.re| then e
    else
      var s := e.re[i];
      RecordRe(if ReMine(e.peer)(s) then
                 Record(e, false, s.channel, reason, s.first, Minus(Plus(s.first, s.count), 1))
               else e, reason, i + 1)
  }

  // The span of the peer's tx slots on one channel: how many, the lowest and the highest number.
  function TxSpan(tx: seq<TxSlot>, peer: nat, ch: nat): (r: (nat, SeqNum, SeqNum))
  {
    if |tx| == 0 then (0, Seq(0, 0), Seq(0, 0))
    else
      var (count, first, last) := TxSpan(tx[..|tx| - 1], peer, ch);
      var s := tx[|tx| - 1];
      if !TxMine(peer)(s) || s.frag.channel != ch then (count, first, last)
      else
        (count + 1,
         if count == 0 || Before(s.frag.sn, first) then s.frag.sn else first,
         if count == 0 || Before(last, s.frag.sn) then s.frag.sn else last)
  }

  lemma {:induction false} TxSpanStarts(peer: nat)
    ensures forall ch: nat :: TxSpan([], peer, ch) == (0, Seq(0, 0), Seq(0, 0))
  {
  }

  lemma {:induction false} TxSpanGrows(tx: seq<TxSlot>, peer: nat)
    requires |tx| > 0
    ensures forall ch: nat ::
              var (count, first, last) := TxSpan(tx[..|tx| - 1], peer, ch);
              var s := tx[|tx| - 1];
              TxSpan(tx, peer, ch) ==
              if !TxMine(peer)(s) || s.frag.channel != ch then (count, first, last)
              else
                (count + 1,
                 if count == 0 || Before(s.frag.sn, first) then s.frag.sn else first,
                 if count == 0 || Before(last, s.frag.sn) then s.frag.sn else last)
  {
    hide Before;
  }

  function RecordTx(e: Endpoint, tx: seq<TxSlot>, reason: Reason, ch: nat): (r: Endpoint)
    requires ch <= CHANNELS
    ensures r == e.(log := r.log)
    decreases CHANNELS - ch
  {
    if ch == CHANNELS then e
    else
      var (count, first, last) := TxSpan(tx, e.peer, ch);
      RecordTx(if count > 0 then Record(e, true, ch, reason, first, last) else e, tx, reason, ch + 1)
  }

  lemma {:induction false} RecordTxUnfolds(e: Endpoint, tx: seq<TxSlot>, reason: Reason, ch: nat)
    requires ch < CHANNELS
    ensures var (count, first, last) := TxSpan(tx, e.peer, ch);
            RecordTx(e, tx, reason, ch) ==
            RecordTx(if count > 0 then Record(e, true, ch, reason, first, last) else e, tx, reason, ch + 1)
  {
    hide TxSpan;
  }

  lemma {:induction false} RecordTxEnds(e: Endpoint, tx: seq<TxSlot>, reason: Reason)
    ensures RecordTx(e, tx, reason, CHANNELS) == e
  {
  }

  // The peer's slots, ranges and counters as after the epoch ended.
  function Emptied(e: Endpoint): (r: Endpoint)
    requires WF(e)
    ensures WF(r) && !r.ready
  {
    var tx := seq(|e.tx|, i requires 0 <= i < |e.tx| =>
                    if TxMine(e.peer)(e.tx[i]) then TxFree else e.tx[i]);
    var rx := seq(|e.rx|, i requires 0 <= i < |e.rx| =>
                    if RxMine(e.peer)(e.rx[i]) then RxFree else e.rx[i]);
    var re := seq(|e.re|, i requires 0 <= i < |e.re| =>
                    if ReMine(e.peer)(e.re[i]) then ReFree else e.re[i]);
    e.(tx := tx, rx := rx, re := re,
       next := Restarted(e.next), expected := Restarted(e.expected),
       pend := seq(LOST_RANGES, _ => PendFree),
       ready := false)
  }

  function Restarted(counters: seq<SeqNum>): (r: seq<SeqNum>)
    requires |counters| == CHANNELS
    ensures |r| == CHANNELS
  {
    seq(CHANNELS, i requires 0 <= i < CHANNELS => if i == 0 then counters[0] else Seq(1, 1))
  }

  function ClearPeer(e: Endpoint, reason: Reason): (r: Endpoint)
    requires WF(e)
    ensures WF(r) && !r.ready
  {
    RecordTx(Emptied(RecordRe(RecordRx(e, reason, 0), reason, 0)), e.tx, reason, 1)
  }
}
