// The table of lost ranges still ahead of the expected number (keemash_mesh_core.c:666-732).
module PendingLost {
  import opened Base
  import opened Serial
  import opened Slots
  import opened MeshTypes

  // Two circular ranges overlap or are adjacent.
  predicate Touches(f: SeqNum, l: SeqNum, rf: SeqNum, rl: SeqNum) {
    InRange(f, rf, rl) || InRange(l, rf, rl) || InRange(rf, f, l) || InRange(rl, f, l) ||
    Same(Plus(rl, 1), f) || Same(Plus(l, 1), rf)
  }

  function TouchedBy(ch: nat, f: SeqNum, l: SeqNum): PendSlot -> bool {
    (p: PendSlot) => p.PendUsed? && p.channel == ch && Touches(f, l, p.first, p.last)
  }

  function Covering(ch: nat, f: SeqNum, l: SeqNum): PendSlot -> bool {
    (p: PendSlot) => p.PendUsed? && p.channel == ch && InRange(f, p.first, p.last) &&
                     InRange(l, p.first, p.last)
  }

  function Vacant(): PendSlot -> bool {
    (p: PendSlot) => p.PendFree?
  }

  function Hull(p: PendSlot, f: SeqNum, l: SeqNum): (r: PendSlot)
    requires p.PendUsed?
    ensures r.PendUsed? && r.channel == p.channel
  {
    p.(first := if Before(f, p.first) then f else p.first,
       last := if Before(p.last, l) then l else p.last)
  }

  // One sweep over j: slot i absorbs every other range of its channel that touches it.
  function JoinFrom(pend: seq<PendSlot>, i: nat, j: nat): (r: seq<PendSlot>)
    requires i < |pend| && j <= |pend| && pend[i].PendUsed?
    ensures |r| == |pend| && r[i].PendUsed? && r[i].channel == pend[i].channel
    decreases |pend| - j
  {
    if j == |pend| then pend
    else if j != i && TouchedBy(pend[i].channel, pend[i].first, pend[i].last)(pend[j]) then
      JoinFrom(pend[i := Hull(pend[i], pend[j].first, pend[j].last)][j := PendFree], i, j + 1)
    else JoinFrom(pend, i, j + 1)
  }

  // The merge passes; returns the table and the range still to be placed.
  function Merge(pend: seq<PendSlot>, ch: nat, f: SeqNum, l: SeqNum, passes: nat)
    : (r: (seq<PendSlot>, SeqNum, SeqNum))
    ensures |r.0| == |pend|
    decreases passes
  {
    if passes == 0 then (pend, f, l)
    else
      var i := First(pend, TouchedBy(ch, f, l));
      if i == |pend| then (pend, f, l)
      else
        var joined := JoinFrom(pend[i := Hull(pend[i], f, l)], i, 0);
        Merge(joined, ch, joined[i].first, joined[i].last, passes - 1)
  }

  lemma {:induction false} MergeUnfolds(pend: seq<PendSlot>, ch: nat, f: SeqNum, l: SeqNum, passes: nat)
    ensures var i := First(pend, TouchedBy(ch, f, l));
            Merge(pend, ch, f, l, passes) ==
            if passes == 0 || i == |pend| then (pend, f, l)
            else
              var joined := JoinFrom(pend[i := Hull(pend[i], f, l)], i, 0);
              Merge(joined, ch, joined[i].first, joined[i].last, passes - 1)
  {
    hide JoinFrom, Hull, TouchedBy;
  }

  function Place(pend: seq<PendSlot>, ch: nat, f: SeqNum, l: SeqNum): (r: (seq<PendSlot>, bool))
    ensures |r.0| == |pend|
  {
    if First(pend, Covering(ch, f, l)) < |pend| then (pend, true)
    else
      var k := First(pend, Vacant());
      if k < |pend| then (pend[k := PendUsed(ch, f, l)], true) else (pend, false)
  }

  // pending_lost_add
  function Add(pend: seq<PendSlot>, ch: nat, f: SeqNum, l: SeqNum): (r: (seq<PendSlot>, bool))
    ensures |r.0| == |pend|
  {
    var m := Merge(pend, ch, f, l, |pend|);
    Place(m.0, ch, m.1, m.2)
  }

  // ---- What the table denotes

  ghost predicate On(p: PendSlot, ch: nat) {
    p.PendUsed? && p.channel == ch
  }

  // `n` lies in a pending range of the channel.
  ghost predicate Holds(pend: seq<PendSlot>, ch: nat, n: int) {
    exists i :: 0 <= i < |pend| && On(pend[i], ch) && pend[i].first.n <= n <= pend[i].last.n
  }

  ghost predicate Apart(p: PendSlot, q: PendSlot)
    requires p.PendUsed? && q.PendUsed?
  {
    p.last.n + 1 < q.first.n || q.last.n + 1 < p.first.n
  }

  // The channel's ranges are pairwise disjoint and not adjacent.
  ghost predicate Separated(pend: seq<PendSlot>, ch: nat) {
    forall i, j :: 0 <= i < j < |pend| && On(pend[i], ch) && On(pend[j], ch) ==>
      Apart(pend[i], pend[j])
  }

  // Every range of the channel lies less than half a turn from the mark, ahead of or behind it.
  ghost predicate AroundMark(p: PendSlot, mark: int)
    requires p.PendUsed?
  {
    p.first.n <= p.last.n &&
    ((mark - HALF < p.first.n && p.last.n < mark) || (mark < p.first.n && p.last.n < mark + HALF))
  }

  ghost predicate Around(pend: seq<PendSlot>, ch: nat, mark: int) {
    forall i :: 0 <= i < |pend| && On(pend[i], ch) ==> AroundMark(pend[i], mark)
  }

  ghost predicate OthersKept(pend: seq<PendSlot>, pend': seq<PendSlot>, ch: nat) {
    |pend'| == |pend| &&
    forall i :: 0 <= i < |pend| && (pend[i] != pend'[i]) ==>
      (pend[i].PendUsed? ==> pend[i].channel == ch) &&
      (pend'[i].PendUsed? ==> pend'[i].channel == ch)
  }

  // ---- pending_lost_add is set union

  lemma {:induction false} TouchesExact(f: SeqNum, l: SeqNum, rf: SeqNum, rl: SeqNum, mark: int)
    requires mark < f.n <= l.n < mark + HALF
    requires rf.n <= rl.n
    requires (mark - HALF < rf.n && rl.n < mark) || (mark < rf.n && rl.n < mark + HALF)
    ensures Touches(f, l, rf, rl) <==> rf.n <= l.n + 1 && f.n <= rl.n + 1
  {
    InRangeExact(f, rf, rl);
    InRangeExact(l, rf, rl);
    InRangeExact(rf, f, l);
    InRangeExact(rl, f, l);
    SameExact(Plus(rl, 1), f);
    SameExact(Plus(l, 1), rf);
  }

  lemma {:induction false} HullExact(p: PendSlot, f: SeqNum, l: SeqNum, mark: int)
    requires p.PendUsed? && mark < p.first.n <= p.last.n < mark + HALF
    requires mark < f.n <= l.n < mark + HALF
    ensures Hull(p, f, l).first.n == if f.n < p.first.n then f.n else p.first.n
    ensures Hull(p, f, l).last.n == if l.n > p.last.n then l.n else p.last.n
  {
    BeforeExact(f, p.first);
    BeforeExact(p.last, l);
  }

  // `pend` with slot i widened by absorbing slot j denotes what it denoted before.
  ghost predicate SameNumbers(pend: seq<PendSlot>, pend': seq<PendSlot>, ch: nat) {
    forall n :: Holds(pend', ch, n) <==> Holds(pend, ch, n)
  }

  // Slot i is ahead of the mark and apart from each of the first j slots of its channel; the rest
  // are apart from each other.
  ghost predicate Joining(pend: seq<PendSlot>, ch: nat, mark: int, i: nat, j: nat) {
    i < |pend| && j <= |pend| && On(pend[i], ch) && mark < pend[i].first.n &&
    Around(pend, ch, mark) &&
    (forall k :: 0 <= k < j && k != i && On(pend[k], ch) ==> Apart(pend[i], pend[k])) &&
    (forall k, m :: 0 <= k < m < |pend| && k != i && m != i && On(pend[k], ch) && On(pend[m], ch) ==>
       Apart(pend[k], pend[m]))
  }

  ghost function Absorbed(pend: seq<PendSlot>, i: nat, j: nat): (r: seq<PendSlot>)
    requires i < |pend| && j < |pend| && i != j && pend[i].PendUsed? && pend[j].PendUsed?
    ensures |r| == |pend|
  {
    pend[i := Hull(pend[i], pend[j].first, pend[j].last)][j := PendFree]
  }

  lemma {:induction false} AbsorbSameNumbers(pend: seq<PendSlot>, ch: nat, mark: int, i: nat, j: nat)
    requires i < |pend| && j < |pend| && i != j && On(pend[i], ch) && On(pend[j], ch)
    requires mark < pend[i].first.n <= pend[i].last.n < mark + HALF
    requires mark < pend[j].first.n <= pend[j].last.n < mark + HALF
    requires !Apart(pend[i], pend[j])
    ensures SameNumbers(pend, Absorbed(pend, i, j), ch)
  {
    HullExact(pend[i], pend[j].first, pend[j].last, mark);
    hide Hull;
    var pend' := Absorbed(pend, i, j);
    forall n ensures Holds(pend', ch, n) <==> Holds(pend, ch, n) {
      if Holds(pend', ch, n) {
        var k :| 0 <= k < |pend'| && On(pend'[k], ch) && pend'[k].first.n <= n <= pend'[k].last.n;
        var m := if k != i then k else if pend[i].first.n <= n <= pend[i].last.n then i else j;
        assert On(pend[m], ch) && pend[m].first.n <= n <= pend[m].last.n;
      }
      if Holds(pend, ch, n) {
        var k :| 0 <= k < |pend| && On(pend[k], ch) && pend[k].first.n <= n <= pend[k].last.n;
        var m := if k == j then i else k;
        assert On(pend'[m], ch) && pend'[m].first.n <= n <= pend'[m].last.n;
      }
    }
  }

  lemma {:induction false} AbsorbExact(pend: seq<PendSlot>, ch: nat, mark: int, i: nat, j: nat)
    requires Joining(pend, ch, mark, i, j) && j < |pend| && j != i
    requires On(pend[j], ch) && !Apart(pend[i], pend[j])
    ensures mark < pend[j].first.n
    ensures var pend' := Absorbed(pend, i, j);
            Joining(pend', ch, mark, i, j + 1) && SameNumbers(pend, pend', ch) &&
            OthersKept(pend, pend', ch)
  {
    assert AroundMark(pend[i], mark) && AroundMark(pend[j], mark);
    HullExact(pend[i], pend[j].first, pend[j].last, mark);
    AbsorbSameNumbers(pend, ch, mark, i, j);
    hide Hull, SameNumbers;
  }

  lemma {:induction false} JoinExact(pend: seq<PendSlot>, ch: nat, mark: int, i: nat, j: nat)
    requires Joining(pend, ch, mark, i, j)
    ensures var r := JoinFrom(pend, i, j);
            Joining(r, ch, mark, i, |r|) && SameNumbers(pend, r, ch) && OthersKept(pend, r, ch)
    decreases |pend| - j
  {
    hide Hull, Touches;
    if j < |pend| {
      if j != i && On(pend[j], ch) {
        TouchesExact(pend[i].first, pend[i].last, pend[j].first, pend[j].last, mark);
        if !Apart(pend[i], pend[j]) {
          AbsorbExact(pend, ch, mark, i, j);
          JoinExact(Absorbed(pend, i, j), ch, mark, i, j + 1);
        } else {
          JoinExact(pend, ch, mark, i, j + 1);
        }
      } else {
        JoinExact(pend, ch, mark, i, j + 1);
      }
    }
  }

  lemma {:induction false} JoinedSeparated(pend: seq<PendSlot>, ch: nat, mark: int, i: nat)
    requires Joining(pend, ch, mark, i, |pend|)
    ensures Separated(pend, ch)
  {
  }

  // A later pass finds only the slot that holds the range already and changes nothing.
  lemma {:induction false} MergeStable(pend: seq<PendSlot>, ch: nat, mark: int, i: nat, passes: nat)
    requires Joining(pend, ch, mark, i, |pend|)
    ensures Merge(pend, ch, pend[i].first, pend[i].last, passes) ==
            (pend, pend[i].first, pend[i].last)
    decreases passes
  {
    if passes > 0 {
      var f, l := pend[i].first, pend[i].last;
      forall k | 0 <= k < |pend| && On(pend[k], ch)
        ensures TouchedBy(ch, f, l)(pend[k]) <==> k == i
      {
        TouchesExact(f, l, pend[k].first, pend[k].last, mark);
      }
      FirstUnique(pend, TouchedBy(ch, f, l), i);
      HullExact(pend[i], f, l, mark);
      BeforeExact(f, f);
      BeforeExact(l, l);
      assert pend[i := Hull(pend[i], f, l)] == pend;
      JoinStable(pend, ch, mark, i, 0);
      MergeStable(pend, ch, mark, i, passes - 1);
    }
  }

  lemma {:induction false} JoinStable(pend: seq<PendSlot>, ch: nat, mark: int, i: nat, j: nat)
    requires Joining(pend, ch, mark, i, |pend|) && j <= |pend|
    ensures JoinFrom(pend, i, j) == pend
    decreases |pend| - j
  {
    if j < |pend| {
      if j != i && On(pend[j], ch) {
        TouchesExact(pend[i].first, pend[i].last, pend[j].first, pend[j].last, mark);
      }
      JoinStable(pend, ch, mark, i, j + 1);
    }
  }

  // The main result: when the channel's ranges are apart and lie around the mark, and the new range
  // lies ahead of it, a successful add unites exactly the new range with the set, and a refused one
  // changes nothing; either way the ranges stay apart.
  lemma {:induction false} AddIsUnion(pend: seq<PendSlot>, ch: nat, f: SeqNum, l: SeqNum, mark: int)
    requires Around(pend, ch, mark) && Separated(pend, ch)
    requires mark < f.n <= l.n < mark + HALF
    ensures var (pend', ok) := Add(pend, ch, f, l);
            && OthersKept(pend, pend', ch)
            && Around(pend', ch, mark) && Separated(pend', ch)
            && (ok ==> forall n :: Holds(pend', ch, n) <==> Holds(pend, ch, n) || f.n <= n <= l.n)
            && (!ok ==> pend' == pend)
  {
    hide Hull, JoinFrom, Touches, Place;
    forall k | 0 <= k < |pend| && On(pend[k], ch)
      ensures Touches(f, l, pend[k].first, pend[k].last) <==>
              pend[k].first.n <= l.n + 1 && f.n <= pend[k].last.n + 1
    {
      TouchesExact(f, l, pend[k].first, pend[k].last, mark);
    }
    var i := First(pend, TouchedBy(ch, f, l));
    if i == |pend| {
      assert forall k :: 0 <= k < |pend| && On(pend[k], ch) ==> !TouchedBy(ch, f, l)(pend[k]);
      PlaceApart(pend, ch, f, l, mark);
    } else {
      assert TouchedBy(ch, f, l)(pend[i]);
      MergedIsUnion(pend, ch, f, l, mark, i);
    }
  }

  // The case of a range that touches others: the first of them absorbs it and the rest.
  lemma {:induction false} MergedIsUnion(pend: seq<PendSlot>, ch: nat, f: SeqNum, l: SeqNum, mark: int, i: nat)
    requires Around(pend, ch, mark) && Separated(pend, ch)
    requires mark < f.n <= l.n < mark + HALF
    requires i < |pend| && i == First(pend, TouchedBy(ch, f, l)) && On(pend[i], ch)
    requires pend[i].first.n <= l.n + 1 && f.n <= pend[i].last.n + 1
    ensures var (pend', ok) := Add(pend, ch, f, l);
            && ok && OthersKept(pend, pend', ch)
            && Around(pend', ch, mark) && Separated(pend', ch)
            && forall n :: Holds(pend', ch, n) <==> Holds(pend, ch, n) || f.n <= n <= l.n
  {
    hide Hull, JoinFrom, Touches, Place, Merge, First;
    WidenExact(pend, ch, f, l, mark, i);
    var widened := pend[i := Hull(pend[i], f, l)];
    assert Joining(widened, ch, mark, i, 0);
    JoinExact(widened, ch, mark, i, 0);
    var joined := JoinFrom(widened, i, 0);
    JoinedSeparated(joined, ch, mark, i);
    MergeStable(joined, ch, mark, i, |pend| - 1);
    MergeOnce(pend, ch, f, l, i);
    assert Merge(pend, ch, f, l, |pend|) == (joined, joined[i].first, joined[i].last);
    assert AroundMark(joined[i], mark);
    PlaceCovered(joined, ch, i);
  }

  lemma {:induction false} MergeOnce(pend: seq<PendSlot>, ch: nat, f: SeqNum, l: SeqNum, i: nat)
    requires i < |pend| && i == First(pend, TouchedBy(ch, f, l)) && pend[i].PendUsed?
    ensures var joined := JoinFrom(pend[i := Hull(pend[i], f, l)], i, 0);
            Merge(pend, ch, f, l, |pend|) ==
            Merge(joined, ch, joined[i].first, joined[i].last, |pend| - 1)
  {
    hide Hull, JoinFrom, Touches;
  }

  lemma {:induction false} PlaceCovered(pend: seq<PendSlot>, ch: nat, i: nat)
    requires i < |pend| && On(pend[i], ch) && pend[i].first.n <= pend[i].last.n < pend[i].first.n + MOD
    ensures Place(pend, ch, pend[i].first, pend[i].last) == (pend, true)
  {
    InRangeExact(pend[i].first, pend[i].first, pend[i].last);
    InRangeExact(pend[i].last, pend[i].first, pend[i].last);
    assert Covering(ch, pend[i].first, pend[i].last)(pend[i]);
    assert First(pend, Covering(ch, pend[i].first, pend[i].last)) <= i;
  }

  lemma {:induction false} WidenExact(pend: seq<PendSlot>, ch: nat, f: SeqNum, l: SeqNum, mark: int, i: nat)
    requires Around(pend, ch, mark) && mark < f.n <= l.n < mark + HALF
    requires i < |pend| && On(pend[i], ch)
    requires pend[i].first.n <= l.n + 1 && f.n <= pend[i].last.n + 1
    ensures var widened := pend[i := Hull(pend[i], f, l)];
            && Around(widened, ch, mark) && mark < widened[i].first.n
            && OthersKept(pend, widened, ch)
            && forall n :: Holds(widened, ch, n) <==> Holds(pend, ch, n) || f.n <= n <= l.n
  {
    HullExact(pend[i], f, l, mark);
    var widened := pend[i := Hull(pend[i], f, l)];
    forall n
      ensures Holds(widened, ch, n) <==> Holds(pend, ch, n) || f.n <= n <= l.n
    {
      if Holds(widened, ch, n) {
        var k :| 0 <= k < |pend| && On(widened[k], ch) && widened[k].first.n <= n <= widened[k].last.n;
        assert k != i ==> widened[k] == pend[k];
      }
      if Holds(pend, ch, n) {
        var k :| 0 <= k < |pend| && On(pend[k], ch) && pend[k].first.n <= n <= pend[k].last.n;
        assert On(widened[k], ch) && widened[k].first.n <= n <= widened[k].last.n;
      }
      if f.n <= n <= l.n {
        assert widened[i].first.n <= n <= widened[i].last.n;
      }
    }
  }

  // A range that touches nothing goes into the first free slot.
  lemma {:induction false} PlaceApart(pend: seq<PendSlot>, ch: nat, f: SeqNum, l: SeqNum, mark: int)
    requires Around(pend, ch, mark) && Separated(pend, ch)
    requires mark < f.n <= l.n < mark + HALF
    requires forall k :: 0 <= k < |pend| && On(pend[k], ch) ==>
               !Touches(f, l, pend[k].first, pend[k].last) &&
               (pend[k].last.n + 1 < f.n || l.n + 1 < pend[k].first.n)
    ensures var (pend', ok) := Place(pend, ch, f, l);
            && OthersKept(pend, pend', ch)
            && Around(pend', ch, mark) && Separated(pend', ch)
            && (ok ==> forall n :: Holds(pend', ch, n) <==> Holds(pend, ch, n) || f.n <= n <= l.n)
            && (!ok ==> pend' == pend)
  {
    var c := First(pend, Covering(ch, f, l));
    if c < |pend| {
      assert On(pend[c], ch) && Touches(f, l, pend[c].first, pend[c].last);
      assert false;
    }
    var v := First(pend, Vacant());
    if v < |pend| {
      var pend' := pend[v := PendUsed(ch, f, l)];
      forall n ensures Holds(pend', ch, n) <==> Holds(pend, ch, n) || f.n <= n <= l.n {
        if Holds(pend, ch, n) {
          var k :| 0 <= k < |pend| && On(pend[k], ch) && pend[k].first.n <= n <= pend[k].last.n;
          assert pend'[k] == pend[k];
        }
        if f.n <= n <= l.n {
          assert On(pend'[v], ch);
        }
      }
    }
  }

  // A range is taken exactly when it touches a pending one or a slot is free.
  lemma {:induction false} AddTakesExactly(pend: seq<PendSlot>, ch: nat, f: SeqNum, l: SeqNum, mark: int)
    requires Around(pend, ch, mark) && Separated(pend, ch)
    requires mark < f.n <= l.n < mark + HALF
    ensures Add(pend, ch, f, l).1 <==>
            exists k :: 0 <= k < |pend| && (pend[k].PendFree? ||
              (On(pend[k], ch) && pend[k].first.n <= l.n + 1 && f.n <= pend[k].last.n + 1))
  {
    hide Hull, JoinFrom, Touches;
    forall k | 0 <= k < |pend| && On(pend[k], ch)
      ensures Touches(f, l, pend[k].first, pend[k].last) <==>
              pend[k].first.n <= l.n + 1 && f.n <= pend[k].last.n + 1
    {
      TouchesExact(f, l, pend[k].first, pend[k].last, mark);
    }
    var i := First(pend, TouchedBy(ch, f, l));
    if i < |pend| {
      assert TouchedBy(ch, f, l)(pend[i]);
      MergedIsUnion(pend, ch, f, l, mark, i);
    } else {
      forall k | 0 <= k < |pend| && On(pend[k], ch)
        ensures !(pend[k].first.n <= l.n + 1 && f.n <= pend[k].last.n + 1)
      {
        assert !TouchedBy(ch, f, l)(pend[k]);
      }
      PlaceTakesExactly(pend, ch, f, l);
    }
  }

  lemma {:induction false} PlaceTakesExactly(pend: seq<PendSlot>, ch: nat, f: SeqNum, l: SeqNum)
    requires forall k :: 0 <= k < |pend| && On(pend[k], ch) ==> !Touches(f, l, pend[k].first, pend[k].last)
    ensures Place(pend, ch, f, l).1 <==> exists k :: 0 <= k < |pend| && pend[k].PendFree?
  {
    var c := First(pend, Covering(ch, f, l));
    if c < |pend| {
      assert On(pend[c], ch) && Touches(f, l, pend[c].first, pend[c].last);
      assert false;
    }
    var v := First(pend, Vacant());
    forall k | 0 <= k < v ensures !pend[k].PendFree? {
      assert !Vacant()(pend[k]);
    }
  }
}
