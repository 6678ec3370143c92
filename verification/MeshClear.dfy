// The end of an epoch, and giving up on a message or a slot: what is left, and what is reported.
module MeshClear {
  import opened Base
  import opened Serial
  import opened Slots
  import opened MeshTypes
  import opened Reliable
  import opened Handlers
  import opened MeshInvariant
  import G = MeshGuarantees

  // ---- What is reported

  // Events are only added, and those added give the reason.
  ghost predicate Adds(a: seq<LostEvent>, b: seq<LostEvent>, reason: Reason) {
    |a| <= |b| && b[..|a|] == a && forall i :: |a| <= i < |b| ==> b[i].reason == reason
  }

  lemma {:induction false} AddsTrans(a: seq<LostEvent>, b: seq<LostEvent>, c: seq<LostEvent>, reason: Reason)
    requires Adds(a, b, reason) && Adds(b, c, reason)
    ensures Adds(a, c, reason)
  {
    assert a == c[..|a|];
  }

  lemma {:induction false} ToldOneMore(a: Log, b: Log, v: LostEvent, asSender: bool, c: nat, n: int)
    requires b.lost == a.lost + [v]
    ensures Told(b, asSender, c, n) <==> Told(a, asSender, c, n) || Tells(v, asSender, c, n)
  {
    if Told(a, asSender, c, n) {
      var i :| 0 <= i < |a.lost| && Tells(a.lost[i], asSender, c, n);
      assert b.lost[i] == a.lost[i];
    }
    if Tells(v, asSender, c, n) { assert b.lost[|a.lost|] == v; }
    if Told(b, asSender, c, n) {
      var i :| 0 <= i < |b.lost| && Tells(b.lost[i], asSender, c, n);
      assert i < |a.lost| ==> a.lost[i] == b.lost[i];
    }
  }

  ghost predicate RxFrom(e: Endpoint, i: int, c: nat, n: int) {
    exists j :: i <= j < |e.rx| && 0 <= j && RxOn(e, e.rx[j], c) && e.rx[j].frag.sn.n == n
  }

  lemma {:induction false} RecordRxExactly(e: Endpoint, reason: Reason, i: nat, asSender: bool, c: nat, n: int)
    requires i <= |e.rx|
    ensures var e' := RecordRx(e, reason, i);
            && (Told(e'.log, asSender, c, n) <==> Told(e.log, asSender, c, n) || (!asSender && RxFrom(e, i, c, n)))
            && Adds(e.log.lost, e'.log.lost, reason) && e'.log == e.log.(lost := e'.log.lost)
    decreases |e.rx| - i
  {
    if i < |e.rx| {
      var s := e.rx[i];
      var m := if RxMine(e.peer)(s) then Record(e, false, s.frag.channel, reason, s.frag.sn, s.frag.sn) else e;
      RecordRxExactly(m, reason, i + 1, asSender, c, n);
      hide Told;
      assert RxFrom(e, i, c, n) <==> (RxOn(e, s, c) && s.frag.sn.n == n) || RxFrom(m, i + 1, c, n);
      if RxMine(e.peer)(s) {
        ToldOneMore(e.log, m.log, LostEvent(false, s.frag.channel, reason, s.frag.sn, s.frag.sn), asSender, c, n);
        AddsTrans(e.log.lost, m.log.lost, RecordRx(e, reason, i).log.lost, reason);
      }
    }
  }

  ghost predicate ReFrom(e: Endpoint, i: int, c: nat, n: int) {
    exists j :: i <= j < |e.re| && 0 <= j && ReOn(e, e.re[j], c) &&
                e.re[j].first.n <= n < e.re[j].first.n + e.re[j].count
  }

  lemma {:induction false} ReFromStep(e: Endpoint, i: nat, c: nat, n: int)
    requires i < |e.re|
    ensures ReFrom(e, i, c, n) <==>
            (ReOn(e, e.re[i], c) && e.re[i].first.n <= n < e.re[i].first.n + e.re[i].count) || ReFrom(e, i + 1, c, n)
  {
  }

  lemma {:induction false} ReFromSame(e: Endpoint, m: Endpoint, i: nat, c: nat, n: int)
    requires m.re == e.re && m.peer == e.peer
    ensures ReFrom(m, i, c, n) == ReFrom(e, i, c, n)
  {
  }

  lemma {:induction false} RecordReExactly(e: Endpoint, reason: Reason, i: nat, asSender: bool, c: nat, n: int)
    requires i <= |e.re|
    ensures var e' := RecordRe(e, reason, i);
            && (Told(e'.log, asSender, c, n) <==> Told(e.log, asSender, c, n) || (!asSender && ReFrom(e, i, c, n)))
            && Adds(e.log.lost, e'.log.lost, reason) && e'.log == e.log.(lost := e'.log.lost)
    decreases |e.re| - i
  {
    if i < |e.re| {
      var s := e.re[i];
      if ReMine(e.peer)(s) {
        var last := Minus(Plus(s.first, s.count), 1);
        var m := Record(e, false, s.channel, reason, s.first, last);
        RecordReExactly(m, reason, i + 1, asSender, c, n);
        ReFromStep(e, i, c, n);
        ReFromSame(e, m, i + 1, c, n);
        hide Told, ReFrom;
        ToldOneMore(e.log, m.log, LostEvent(false, s.channel, reason, s.first, last), asSender, c, n);
        AddsTrans(e.log.lost, m.log.lost, RecordRe(e, reason, i).log.lost, reason);
      } else {
        ReFromStep(e, i, c, n);
        hide Told, ReFrom, Adds;
        RecordReExactly(e, reason, i + 1, asSender, c, n);
      }
    }
  }

  ghost predicate Spans(tx: seq<TxSlot>, peer: nat, c: nat, n: int) {
    var (count, first, last) := TxSpan(tx, peer, c);
    count > 0 && first.n <= n <= last.n
  }

  lemma {:induction false} RecordTxExactly(e: Endpoint, tx: seq<TxSlot>, reason: Reason, ch: nat, asSender: bool,
                                           c: nat, n: int)
    requires ch <= CHANNELS
    ensures var e' := RecordTx(e, tx, reason, ch);
            && (Told(e'.log, asSender, c, n) <==>
                  Told(e.log, asSender, c, n) || (asSender && ch <= c < CHANNELS && Spans(tx, e.peer, c, n)))
            && Adds(e.log.lost, e'.log.lost, reason) && e'.log == e.log.(lost := e'.log.lost)
    decreases CHANNELS - ch
  {
    if ch < CHANNELS {
      var (count, first, last) := TxSpan(tx, e.peer, ch);
      var m := if count > 0 then Record(e, true, ch, reason, first, last) else e;
      RecordTxUnfolds(e, tx, reason, ch);
      RecordTxExactly(m, tx, reason, ch + 1, asSender, c, n);
      hide Told, TxSpan, RecordTx;
      if count > 0 {
        ToldOneMore(e.log, m.log, LostEvent(true, ch, reason, first, last), asSender, c, n);
        AddsTrans(e.log.lost, m.log.lost, RecordTx(e, tx, reason, ch).log.lost, reason);
      }
    }
  }

  ghost predicate TxNumber(tx: seq<TxSlot>, peer: nat, c: nat, i: int, n: int) {
    0 <= i < |tx| && tx[i].TxUsed? && tx[i].peer == peer && tx[i].frag.channel == c && tx[i].frag.sn.n == n
  }

  // The span's ends are numbers of slots.
  lemma {:induction false} SpanAttained(tx: seq<TxSlot>, peer: nat, c: nat)
    ensures var (count, first, last) := TxSpan(tx, peer, c);
            count > 0 ==>
              (exists i :: TxNumber(tx, peer, c, i, first.n)) && (exists i :: TxNumber(tx, peer, c, i, last.n))
  {
    if |tx| > 0 {
      var prev := tx[..|tx| - 1];
      SpanAttained(prev, peer, c);
      var (count, first, last) := TxSpan(prev, peer, c);
      var (count', first', last') := TxSpan(tx, peer, c);
      hide Before;
      if count' > 0 {
        var s := tx[|tx| - 1];
        if first' == first && count > 0 {
          var i :| TxNumber(prev, peer, c, i, first.n);
          assert TxNumber(tx, peer, c, i, first'.n);
        } else {
          assert TxNumber(tx, peer, c, |tx| - 1, first'.n);
        }
        if last' == last && count > 0 {
          var i :| TxNumber(prev, peer, c, i, last.n);
          assert TxNumber(tx, peer, c, i, last'.n);
        } else {
          assert TxNumber(tx, peer, c, |tx| - 1, last'.n);
        }
      }
    }
  }

  // A number lies in the span exactly when it lies between the numbers of two slots.
  lemma {:induction false} SpansExactly(tx: seq<TxSlot>, peer: nat, c: nat, base: int, n: int)
    requires forall i, m :: TxNumber(tx, peer, c, i, m) ==> base <= m < base + HALF
    ensures Spans(tx, peer, c, n) <==>
            exists i, j, lo, hi :: TxNumber(tx, peer, c, i, lo) && TxNumber(tx, peer, c, j, hi) && lo <= n <= hi
  {
    SpanAttained(tx, peer, c);
    forall i | 0 <= i < |tx| && TxMine(peer)(tx[i]) && tx[i].frag.channel == c
      ensures base <= tx[i].frag.sn.n < base + HALF
    {
      assert TxNumber(tx, peer, c, i, tx[i].frag.sn.n);
    }
    G.SpanBounds(tx, peer, c, base);
    hide TxSpan;
  }

  // ---- clear_peer_buffers

  // Between two numbers the peer still had in tx slots.
  ghost predicate Unsent(e: Endpoint, c: nat, n: int) {
    exists i, j, lo, hi :: TxNumber(e.tx, e.peer, c, i, lo) && TxNumber(e.tx, e.peer, c, j, hi) && lo <= n <= hi
  }

  // In a message begun and not yet handed up.
  ghost predicate Begun(e: Endpoint, c: nat, n: int) {
    exists j :: 0 <= j < |e.re| && ReOn(e, e.re[j], c) && e.re[j].first.n <= n < e.re[j].first.n + e.re[j].count
  }

  // On the sending side the numbers from the lowest to the highest in a slot are reported lost, on the receiving side
  // those buffered or in a message begun; no others, all with the reason, and nothing is sent or handed up.
  lemma {:induction false} ClearReports(e: Endpoint, reason: Reason, c: nat, n: int, base: int)
    requires WF(e) && ValidChannel(c)
    requires forall i, m :: TxNumber(e.tx, e.peer, c, i, m) ==> base <= m < base + HALF
    ensures var e' := ClearPeer(e, reason);
            && (Told(e'.log, true, c, n) <==> Told(e.log, true, c, n) || Unsent(e, c, n))
            && (Told(e'.log, false, c, n) <==> Told(e.log, false, c, n) || Buffered(e, c, n) || Begun(e, c, n))
            && Adds(e.log.lost, e'.log.lost, reason) && e'.log == e.log.(lost := e'.log.lost)
  {
    ClearStages(e, reason, true, c, n);
    ClearStages(e, reason, false, c, n);
    SpansExactly(e.tx, e.peer, c, base, n);
    hide ClearPeer, Told, Spans, WF, Adds;
    assert RxFrom(e, 0, c, n) <==> Buffered(e, c, n);
    assert ReFrom(e, 0, c, n) <==> Begun(e, c, n);
  }

  lemma {:induction false} ClearStages(e: Endpoint, reason: Reason, asSender: bool, c: nat, n: int)
    requires WF(e) && ValidChannel(c)
    ensures var e' := ClearPeer(e, reason);
            && (Told(e'.log, asSender, c, n) <==>
                  || Told(e.log, asSender, c, n)
                  || (if asSender then Spans(e.tx, e.peer, c, n) else RxFrom(e, 0, c, n) || ReFrom(e, 0, c, n)))
            && Adds(e.log.lost, e'.log.lost, reason) && e'.log == e.log.(lost := e'.log.lost)
  {
    var a := RecordRx(e, reason, 0);
    var b := RecordRe(a, reason, 0);
    EmptiedLog(b);
    hide RecordRx, RecordRe, RecordTx, Emptied, Told, Spans, Adds, RxFrom, ReFrom, WF;
    RecordRxExactly(e, reason, 0, asSender, c, n);
    RecordReExactly(a, reason, 0, asSender, c, n);
    RecordTxExactly(Emptied(b), e.tx, reason, 1, asSender, c, n);
    ReFromSame(e, a, 0, c, n);
    assert ClearPeer(e, reason) == RecordTx(Emptied(b), e.tx, reason, 1);
    AddsTrans(e.log.lost, a.log.lost, b.log.lost, reason);
    AddsTrans(e.log.lost, b.log.lost, ClearPeer(e, reason).log.lost, reason);
  }

  lemma {:induction false} EmptiedLog(e: Endpoint)
    requires WF(e)
    ensures Emptied(e).log == e.log && Emptied(e).peer == e.peer
  {
  }

  // No table keeps anything of the peer and every counter starts again at 1; what other peers have stays.
  ghost predicate Gone(e: Endpoint, e': Endpoint)
    requires WF(e) && WF(e')
  {
    && !e'.ready && e'.peer == e.peer && e'.cfg == e.cfg && e'.binding == e.binding
    && (forall c: nat :: ValidChannel(c) ==> e'.next[c].n == 1 && e'.expected[c].n == 1)
    && |e'.pend| == 8 && (forall i :: 0 <= i < |e'.pend| ==> e'.pend[i].PendFree?)
    && |e'.tx| == |e.tx| && |e'.rx| == |e.rx| && |e'.re| == |e.re|
    && (forall i :: 0 <= i < |e.tx| ==>
          e'.tx[i] == if e.tx[i].TxUsed? && e.tx[i].peer == e.peer then TxFree else e.tx[i])
    && (forall i :: 0 <= i < |e.rx| ==>
          e'.rx[i] == if e.rx[i].RxUsed? && e.rx[i].peer == e.peer then RxFree else e.rx[i])
    && (forall i :: 0 <= i < |e.re| ==>
          e'.re[i] == if e.re[i].ReUsed? && e.re[i].peer == e.peer then ReFree else e.re[i])
  }

  lemma {:induction false} ClearLeaves(e: Endpoint, reason: Reason)
    requires WF(e)
    ensures Gone(e, ClearPeer(e, reason))
  {
    var b := RecordRe(RecordRx(e, reason, 0), reason, 0);
    hide RecordRx, RecordRe, RecordTx, WF;
    EmptiedGone(b);
    hide Emptied;
    assert ClearPeer(e, reason) == Emptied(b).(log := ClearPeer(e, reason).log);
  }

  lemma {:induction false} EmptiedGone(e: Endpoint)
    requires WF(e)
    ensures Gone(e, Emptied(e))
  {
    var e' := Emptied(e);
    forall i | 0 <= i < |e.tx|
      ensures e'.tx[i] == if e.tx[i].TxUsed? && e.tx[i].peer == e.peer then TxFree else e.tx[i]
    {
      assert TxMine(e.peer)(e.tx[i]) <==> e.tx[i].TxUsed? && e.tx[i].peer == e.peer;
    }
    forall i | 0 <= i < |e.rx|
      ensures e'.rx[i] == if e.rx[i].RxUsed? && e.rx[i].peer == e.peer then RxFree else e.rx[i]
    {
      assert RxMine(e.peer)(e.rx[i]) <==> e.rx[i].RxUsed? && e.rx[i].peer == e.peer;
    }
    forall i | 0 <= i < |e.re|
      ensures e'.re[i] == if e.re[i].ReUsed? && e.re[i].peer == e.peer then ReFree else e.re[i]
    {
      assert ReMine(e.peer)(e.re[i]) <==> e.re[i].ReUsed? && e.re[i].peer == e.peer;
    }
  }

  // ---- Giving up

  // A slot out of retries: the other end is told of its number, and the epoch ends.
  lemma {:induction false} ExhaustExactly(e: Endpoint, k: nat, c: nat, n: int, base: int)
    requires WF(e) && k < |e.tx| && e.tx[k].TxUsed? && ValidChannel(c)
    requires forall i, m :: TxNumber(e.tx, e.peer, c, i, m) ==> base <= m < base + HALF
    ensures var (e', f) := (Exhaust(e, k), e.tx[k].frag);
            && Gone(e, e')
            && e'.log.sent == e.log.sent + [Lost(e.binding, f.channel, RetryExhausted, false, f.sn, f.sn)]
            && (Told(e'.log, true, c, n) <==> Told(e.log, true, c, n) || Unsent(e, c, n))
            && (Told(e'.log, false, c, n) <==> Told(e.log, false, c, n) || Buffered(e, c, n) || Begun(e, c, n))
            && Adds(e.log.lost, e'.log.lost, RetryExhausted)
  {
    var f := e.tx[k].frag;
    var m := Send(e, Lost(e.binding, f.channel, RetryExhausted, false, f.sn, f.sn));
    hide ClearPeer, Adds, Told, Gone, Unsent, Begun, Buffered;
    ClearReports(m, RetryExhausted, c, n, base);
    ClearLeaves(m, RetryExhausted);
    GoneSame(e, m, ClearPeer(m, RetryExhausted));
    assert Told(m.log, true, c, n) == Told(e.log, true, c, n) by { SameLost(e.log, m.log, true, c, n); }
    assert Told(m.log, false, c, n) == Told(e.log, false, c, n) by { SameLost(e.log, m.log, false, c, n); }
    TablesSame(e, m, c, n);
  }

  lemma {:induction false} TablesSame(e: Endpoint, m: Endpoint, c: nat, n: int)
    requires m == e.(log := m.log)
    ensures Unsent(m, c, n) == Unsent(e, c, n)
    ensures Begun(m, c, n) == Begun(e, c, n)
    ensures Buffered(m, c, n) == Buffered(e, c, n)
  {
  }

  lemma {:induction false} GoneSame(e: Endpoint, m: Endpoint, x: Endpoint)
    requires WF(e) && WF(m) && WF(x) && m == e.(log := m.log) && Gone(m, x)
    ensures Gone(e, x)
  {
  }

  lemma {:induction false} SameLost(a: Log, b: Log, asSender: bool, c: nat, n: int)
    requires b.lost == a.lost
    ensures Told(a, asSender, c, n) == Told(b, asSender, c, n)
  {
  }

  // A message that waited too long: its numbers are reported, to both ends, and its slot is free.
  lemma {:induction false} ExpireExactly(e: Endpoint, k: nat)
    requires WF(e) && k < |e.re| && e.re[k].ReUsed? && e.re[k].peer == e.peer
    ensures var (e', slot) := (Expire(e, k), e.re[k]);
            exists last: SeqNum ::
              && last.n == slot.first.n + slot.count - 1
              && e'.log.lost == e.log.lost + [LostEvent(false, slot.channel, FragmentTimeout, slot.first, last)]
              && e'.log.sent ==
                 e.log.sent + [Lost(e.binding, slot.channel, FragmentTimeout, true, slot.first, last)]
              && e' == e.(re := e.re[k := ReFree], log := e.log.(lost := e'.log.lost, sent := e'.log.sent))
  {
    assert Minus(Plus(e.re[k].first, e.re[k].count), 1).n == e.re[k].first.n + e.re[k].count - 1;
  }
}
