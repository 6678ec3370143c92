// 32-bit serial numbers, compared as in section 3.2 of RFC 1982
// (keemash_mesh_core.c:134-152).
//
// A `SeqNum` is the 32-bit word `w` the code holds, together with a ghost tag `n`: the number the
// word would be had it never wrapped.  Compiled code sees only `w`, so no branch can depend on the
// tag; the tag is what the specifications speak about.
module Serial {
  import opened Base

  const MOD: int := 0x1_0000_0000
  const HALF: int := 0x8000_0000

  datatype Seq = Seq(w: u32, ghost n: int)

  type SeqNum = s: Seq | s.w == s.n % MOD witness Seq(0, 0)

  // `s + k` in uint32_t arithmetic
  function Plus(s: SeqNum, k: nat): (r: SeqNum)
    ensures r.n == s.n + k
  {
    Seq((s.w + k) % MOD, s.n + k)
  }

  // `s - k` in uint32_t arithmetic
  function Minus(s: SeqNum, k: nat): (r: SeqNum)
    ensures r.n == s.n - k
  {
    Seq((s.w - k) % MOD, s.n - k)
  }

  predicate Same(a: SeqNum, b: SeqNum) {
    a.w == b.w
  }

  // seq_before: (int32_t)(a - b) < 0
  predicate Before(a: SeqNum, b: SeqNum) {
    (a.w - b.w) % MOD >= HALF
  }

  // seq_in_range: (uint32_t)(s - first) <= (uint32_t)(last - first)
  predicate InRange(s: SeqNum, first: SeqNum, last: SeqNum) {
    (s.w - first.w) % MOD <= (last.w - first.w) % MOD
  }

  // The word difference of two numbers less than a turn apart.
  lemma {:induction false} Difference(a: SeqNum, b: SeqNum)
    requires -MOD < a.n - b.n < MOD
    ensures (a.w - b.w) % MOD == if a.n >= b.n then a.n - b.n else a.n - b.n + MOD
  {
    var d := (a.n - b.n) % MOD;
    assert (a.w - b.w) % MOD == d;
  }

  // Two words are equal exactly when the numbers are, within one turn of the circle.
  lemma {:induction false} SameExact(a: SeqNum, b: SeqNum)
    requires -MOD < a.n - b.n < MOD
    ensures Same(a, b) <==> a.n == b.n
  {
  }

  // Word order is number order for numbers less than half a turn apart.
  lemma {:induction false} BeforeExact(a: SeqNum, b: SeqNum)
    requires -HALF <= a.n - b.n < HALF
    ensures Before(a, b) <==> a.n < b.n
  {
    Difference(a, b);
  }

  // Membership in a circular range is membership in the interval for numbers that lie less than a
  // turn beyond either end.
  lemma {:induction false} InRangeExact(s: SeqNum, first: SeqNum, last: SeqNum)
    requires first.n <= last.n < first.n + MOD
    requires last.n - MOD < s.n < first.n + MOD
    ensures InRange(s, first, last) <==> first.n <= s.n <= last.n
  {
    Difference(s, first);
    Difference(last, first);
  }
}
