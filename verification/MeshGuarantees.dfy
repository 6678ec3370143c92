// What the reliable protocol guarantees in every reachable state of an epoch, and at its end.
module MeshGuarantees {
  import opened Base
  import opened Serial
  import opened Slots
  import opened MeshTypes
  import opened Reliable
  import opened Handlers
  import opened MeshInvariant
  import opened MeshSystem

  // The sending and receiving ends of one direction.
  function Sender(sys: System, fromA: bool): Endpoint {
    if fromA then sys.a else sys.b
  }

  function Receiver(sys: System, fromA: bool): Endpoint {
    if fromA then sys.b else sys.a
  }

  lemma {:induction false} Direction(run: seq<System>, i: nat, fromA: bool, c: nat)
    requires Epoch(run) && i < |run| && Ordered(c)
    ensures DirInv(Sender(run[i], fromA), Receiver(run[i], fromA), c)
  {
    RunInv(run, i);
    assert Both(run[i].a, run[i].b, c);
  }

  // No number vanishes: each one issued is in a tx slot, buffered at the receiver, below its expected
  // number, or reported lost by one end.
  lemma {:induction false} NoNumberVanishes(run: seq<System>, i: nat, fromA: bool, c: nat, n: int)
    requires Epoch(run) && i < |run| && Ordered(c)
    requires 1 <= n < Sender(run[i], fromA).next[c].n
    ensures var (s, r) := (Sender(run[i], fromA), Receiver(run[i], fromA));
            InSlot(s, c, n) || Buffered(r, c, n) || n < r.expected[c].n || Reported(s, r, c, n)
  {
    Direction(run, i, fromA, c);
  }

  // However old, an acknowledgement in the network tells the truth about the receiver's present state.
  lemma {:induction false} AcknowledgementsStayTrue(run: seq<System>, i: nat, fromA: bool, c: nat, p: Packet)
    requires Epoch(run) && i < |run| && Ordered(c)
    requires p.Ack? && p.channel == c && p in Receiver(run[i], fromA).log.sent
    ensures var (s, r) := (Sender(run[i], fromA), Receiver(run[i], fromA));
            && p.ack.n < r.expected[c].n
            && (forall b :: b in p.sack ==> Settled(s, r, c, p.ack.n + 1 + b))
  {
    Direction(run, i, fromA, c);
    ArrivedFromReceiver(Sender(run[i], fromA), Receiver(run[i], fromA), p, c);
  }

  ghost predicate PassedAt(r: Endpoint, c: nat, k: nat, n: int) {
    k < |r.log.passed| && r.log.passed[k].channel == c && r.log.passed[k].sn.n == n
  }

  // Every number below the expected one was passed on exactly once, or reported lost; fragments are
  // passed on in order of their numbers.
  lemma {:induction false} FragmentsPassInOrder(run: seq<System>, i: nat, fromA: bool, c: nat, n: int)
    requires Epoch(run) && i < |run| && Ordered(c)
    ensures var (s, r) := (Sender(run[i], fromA), Receiver(run[i], fromA));
            && (1 <= n < r.expected[c].n ==> Reported(s, r, c, n) || exists k: nat :: PassedAt(r, c, k, n))
            && (forall k: nat, k': nat :: PassedAt(r, c, k, n) && PassedAt(r, c, k', n) ==> k == k')
            && (forall k: nat :: PassedAt(r, c, k, n) ==> n < r.expected[c].n)
            && (forall k, k' :: 0 <= k < k' < |r.log.passed| && r.log.passed[k].channel == c &&
                                r.log.passed[k'].channel == c ==>
                  r.log.passed[k].sn.n < r.log.passed[k'].sn.n)
  {
    Direction(run, i, fromA, c);
    var (s, r) := (Sender(run[i], fromA), Receiver(run[i], fromA));
    if 1 <= n < r.expected[c].n && !Reported(s, r, c, n) {
      assert WasPassed(r, c, n);
      var k :| 0 <= k < |r.log.passed| && r.log.passed[k].channel == c && r.log.passed[k].sn.n == n;
      assert PassedAt(r, c, k, n);
    }
  }

  // Delivery d is submission number k of the sender, whole.
  ghost predicate Carries(s: Endpoint, d: Delivery, k: nat) {
    k < |s.log.submitted| && s.log.submitted[k] == Msg(d.channel, d.first, d.stream, d.bytes)
  }

  // Every message handed to the application is byte for byte one that was submitted, of 1..2432 bytes.
  lemma {:induction false} DeliveredWhole(run: seq<System>, i: nat, fromA: bool, c: nat, x: nat)
    requires Epoch(run) && i < |run| && Ordered(c)
    requires x < |Receiver(run[i], fromA).log.delivered|
    requires Receiver(run[i], fromA).log.delivered[x].channel == c
    ensures var d := Receiver(run[i], fromA).log.delivered[x];
            1 <= |d.bytes| <= MESSAGE_MAX && exists k: nat :: Carries(Sender(run[i], fromA), d, k)
  {
    Direction(run, i, fromA, c);
    var s, d := Sender(run[i], fromA), Receiver(run[i], fromA).log.delivered[x];
    assert Msg(c, d.first, d.stream, d.bytes) in s.log.submitted;
    var k :| 0 <= k < |s.log.submitted| && s.log.submitted[k] == Msg(c, d.first, d.stream, d.bytes);
    assert Carries(s, d, k) && MsgOk(s, s.log.submitted[k]);
  }

  // Messages are handed up in the order they were submitted, and no submission twice.
  lemma {:induction false} DeliveredInOrderOnce(run: seq<System>, i: nat, fromA: bool, c: nat, x: nat, y: nat,
                                                k: nat, l: nat)
    requires Epoch(run) && i < |run| && Ordered(c)
    requires x < y < |Receiver(run[i], fromA).log.delivered|
    requires Receiver(run[i], fromA).log.delivered[x].channel == c
    requires Receiver(run[i], fromA).log.delivered[y].channel == c
    requires Carries(Sender(run[i], fromA), Receiver(run[i], fromA).log.delivered[x], k)
    requires Carries(Sender(run[i], fromA), Receiver(run[i], fromA).log.delivered[y], l)
    ensures k < l
  {
    Direction(run, i, fromA, c);
    var s, r := Sender(run[i], fromA), Receiver(run[i], fromA);
    assert MsgOk(s, s.log.submitted[k]) && MsgOk(s, s.log.submitted[l]);
    assert r.log.delivered[x].first + r.log.delivered[x].count <= r.log.delivered[y].first;
  }

  // ---- The end of an epoch

  lemma {:induction false} RecordRxTells(e: Endpoint, reason: Reason, i: nat, j: nat)
    requires i <= j < |e.rx| && RxMine(e.peer)(e.rx[j])
    ensures Told(RecordRx(e, reason, i).log, false, e.rx[j].frag.channel, e.rx[j].frag.sn.n)
    decreases |e.rx| - i
  {
    var s := e.rx[i];
    var m := if RxMine(e.peer)(s) then Record(e, false, s.frag.channel, reason, s.frag.sn, s.frag.sn) else e;
    if i == j {
      assert Tells(m.log.lost[|e.log.lost|], false, s.frag.channel, s.frag.sn.n);
      RecordRxGrows(m, reason, i + 1, s.frag.channel, s.frag.sn.n, false);
    } else {
      RecordRxTells(m, reason, i + 1, j);
    }
  }

  lemma {:induction false} RecordRxGrows(e: Endpoint, reason: Reason, i: nat, c: nat, n: int, asSender: bool)
    requires i <= |e.rx| && Told(e.log, asSender, c, n)
    ensures Told(RecordRx(e, reason, i).log, asSender, c, n)
    decreases |e.rx| - i
  {
    if i < |e.rx| {
      var s := e.rx[i];
      var m := if RxMine(e.peer)(s) then Record(e, false, s.frag.channel, reason, s.frag.sn, s.frag.sn) else e;
      ToldGrows(e.log, m.log, asSender, c, n);
      RecordRxGrows(m, reason, i + 1, c, n, asSender);
    }
  }

  lemma {:induction false} ToldGrows(a: Log, b: Log, asSender: bool, c: nat, n: int)
    requires Told(a, asSender, c, n) && |a.lost| <= |b.lost| && b.lost[..|a.lost|] == a.lost
    ensures Told(b, asSender, c, n)
  {
    var i :| 0 <= i < |a.lost| && Tells(a.lost[i], asSender, c, n);
    assert b.lost[i] == a.lost[i];
  }

  lemma {:induction false} RecordReGrows(e: Endpoint, reason: Reason, i: nat, c: nat, n: int, asSender: bool)
    requires i <= |e.re| && Told(e.log, asSender, c, n)
    ensures Told(RecordRe(e, reason, i).log, asSender, c, n)
    decreases |e.re| - i
  {
    if i < |e.re| {
      var s := e.re[i];
      var m := if ReMine(e.peer)(s) then
                 Record(e, false, s.channel, reason, s.first, Minus(Plus(s.first, s.count), 1))
               else e;
      ToldGrows(e.log, m.log, asSender, c, n);
      RecordReGrows(m, reason, i + 1, c, n, asSender);
    }
  }

  lemma {:induction false} RecordTxGrows(e: Endpoint, tx: seq<TxSlot>, reason: Reason, ch: nat, c: nat, n: int,
                                         asSender: bool)
    requires ch <= CHANNELS && Told(e.log, asSender, c, n)
    ensures Told(RecordTx(e, tx, reason, ch).log, asSender, c, n)
    decreases CHANNELS - ch
  {
    if ch < CHANNELS {
      var (count, first, last) := TxSpan(tx, e.peer, ch);
      var m := if count > 0 then Record(e, true, ch, reason, first, last) else e;
      ToldGrows(e.log, m.log, asSender, c, n);
      RecordTxGrows(m, tx, reason, ch + 1, c, n, asSender);
    }
  }

  // The span reported for a channel covers every slot it still held.
  lemma {:induction false} SpanCovers(tx: seq<TxSlot>, peer: nat, ch: nat, base: int, j: nat)
    requires j < |tx| && TxMine(peer)(tx[j]) && tx[j].frag.channel == ch
    requires forall i :: 0 <= i < |tx| && TxMine(peer)(tx[i]) && tx[i].frag.channel == ch ==>
               base <= tx[i].frag.sn.n < base + HALF
    ensures var (count, first, last) := TxSpan(tx, peer, ch);
            count > 0 && first.n <= tx[j].frag.sn.n <= last.n
  {
    SpanBounds(tx, peer, ch, base);
  }

  lemma {:induction false} SpanBounds(tx: seq<TxSlot>, peer: nat, ch: nat, base: int)
    requires forall i :: 0 <= i < |tx| && TxMine(peer)(tx[i]) && tx[i].frag.channel == ch ==>
               base <= tx[i].frag.sn.n < base + HALF
    ensures var (count, first, last) := TxSpan(tx, peer, ch);
            && (count > 0 ==> base <= first.n <= last.n < base + HALF)
            && forall i :: 0 <= i < |tx| && TxMine(peer)(tx[i]) && tx[i].frag.channel == ch ==>
                 count > 0 && first.n <= tx[i].frag.sn.n <= last.n
  {
    if |tx| > 0 {
      var prev := tx[..|tx| - 1];
      assert forall i :: 0 <= i < |prev| ==> prev[i] == tx[i];
      SpanBounds(prev, peer, ch, base);
      var (count, first, last) := TxSpan(prev, peer, ch);
      var s := tx[|tx| - 1];
      if TxMine(peer)(s) && s.frag.channel == ch && count > 0 {
        BeforeExact(s.frag.sn, first);
        BeforeExact(last, s.frag.sn);
      }
    }
  }

  lemma {:induction false} RecordTxTells(e: Endpoint, tx: seq<TxSlot>, reason: Reason, ch: nat, c: nat, base: int,
                                         j: nat)
    requires ch <= c < CHANNELS && j < |tx| && TxMine(e.peer)(tx[j]) && tx[j].frag.channel == c
    requires forall i :: 0 <= i < |tx| && TxMine(e.peer)(tx[i]) && tx[i].frag.channel == c ==>
               base <= tx[i].frag.sn.n < base + HALF
    ensures Told(RecordTx(e, tx, reason, ch).log, true, c, tx[j].frag.sn.n)
    decreases CHANNELS - ch
  {
    var (count, first, last) := TxSpan(tx, e.peer, ch);
    var m := if count > 0 then Record(e, true, ch, reason, first, last) else e;
    if ch == c {
      SpanCovers(tx, e.peer, ch, base, j);
      assert Tells(m.log.lost[|e.log.lost|], true, c, tx[j].frag.sn.n);
      RecordTxGrows(m, tx, reason, ch + 1, c, tx[j].frag.sn.n, true);
    } else {
      RecordTxTells(m, tx, reason, ch + 1, c, base, j);
    }
  }

  lemma {:induction false} ClearReportsSlots(s: Endpoint, r: Endpoint, reason: Reason, c: nat, n: int)
    requires WF(s) && WF(r) && ValidChannel(c) && SenderInv(s, c) && InSlot(s, c, n)
    ensures Told(ClearPeer(s, reason).log, true, c, n)
  {
    var j :| 0 <= j < |s.tx| && TxOn(s, s.tx[j], c) && s.tx[j].frag.sn.n == n;
    var e := Emptied(RecordRe(RecordRx(s, reason, 0), reason, 0));
    forall i | 0 <= i < |s.tx| && TxMine(s.peer)(s.tx[i]) && s.tx[i].frag.channel == c
      ensures s.next[c].n - HALF <= s.tx[i].frag.sn.n < s.next[c].n - HALF + HALF
    {
      assert TxOn(s, s.tx[i], c);
    }
    assert e.peer == s.peer && TxMine(e.peer)(s.tx[j]);
    RecordTxTells(e, s.tx, reason, 1, c, s.next[c].n - HALF, j);
  }

  lemma {:induction false} ClearReportsBuffered(r: Endpoint, reason: Reason, c: nat, n: int)
    requires WF(r) && ValidChannel(c) && Buffered(r, c, n)
    ensures Told(ClearPeer(r, reason).log, false, c, n)
  {
    var j :| 0 <= j < |r.rx| && RxOn(r, r.rx[j], c) && r.rx[j].frag.sn.n == n;
    assert RxMine(r.peer)(r.rx[j]);
    RecordRxTells(r, reason, 0, j);
    ClearGrows(r, RecordRx(r, reason, 0), reason, c, n, false);
  }

  lemma {:induction false} ClearKeepsReports(e: Endpoint, reason: Reason, c: nat, n: int, asSender: bool)
    requires WF(e) && Told(e.log, asSender, c, n)
    ensures Told(ClearPeer(e, reason).log, asSender, c, n)
  {
    RecordRxGrows(e, reason, 0, c, n, asSender);
    ClearGrows(e, RecordRx(e, reason, 0), reason, c, n, asSender);
  }

  // Even the end of an epoch loses nothing silently: whichever end clears, each number issued is by
  // then below the receiver's expected number, reported lost, or still held by the other end.
  lemma {:induction false} ClearLosesNothing(run: seq<System>, i: nat, fromA: bool, c: nat, n: int, reason: Reason)
    requires Epoch(run) && i < |run| && Ordered(c)
    requires 1 <= n < Sender(run[i], fromA).next[c].n
    ensures var (s, r) := (Sender(run[i], fromA), Receiver(run[i], fromA));
            && (n < r.expected[c].n || Buffered(r, c, n) ||
                Told(ClearPeer(s, reason).log, true, c, n) || Told(r.log, false, c, n))
            && (n < r.expected[c].n || InSlot(s, c, n) ||
                Told(s.log, true, c, n) || Told(ClearPeer(r, reason).log, false, c, n))
  {
    hide ClearPeer;
    Direction(run, i, fromA, c);
    var s, r := Sender(run[i], fromA), Receiver(run[i], fromA);
    if InSlot(s, c, n) {
      ClearReportsSlots(s, r, reason, c, n);
    }
    if Buffered(r, c, n) {
      ClearReportsBuffered(r, reason, c, n);
    }
    if Told(s.log, true, c, n) {
      ClearKeepsReports(s, reason, c, n, true);
    }
    if Told(r.log, false, c, n) {
      ClearKeepsReports(r, reason, c, n, false);
    }
  }

  lemma {:induction false} ClearGrows(e: Endpoint, m: Endpoint, reason: Reason, c: nat, n: int, asSender: bool)
    requires WF(e) && m == RecordRx(e, reason, 0) && Told(m.log, asSender, c, n)
    ensures Told(ClearPeer(e, reason).log, asSender, c, n)
  {
    RecordReGrows(m, reason, 0, c, n, asSender);
    var x := Emptied(RecordRe(m, reason, 0));
    assert x.log == RecordRe(m, reason, 0).log;
    RecordTxGrows(x, e.tx, reason, 1, c, n, asSender);
  }
}
