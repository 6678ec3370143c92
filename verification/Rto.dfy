// The retransmission timeout estimator (keemash_mesh_core.c:852-868, 883-886), of the form of
// sections 2 and 3 of RFC 6298, in uint32_t milliseconds.
module Rto {
  import opened Base

  const MOD: int := 0x1_0000_0000
  const SAMPLE_MAX: int := 60000

  datatype Bounds = Bounds(minRto: u32, maxRto: u32)
  datatype Estimate = Estimate(srtt: u32, rttvar: u32, rto: u32)

  function Add32(a: u32, b: u32): u32 { (a + b) % MOD }
  function Mul32(a: u32, b: u32): u32 { (a * b) % MOD }

  predicate Usable(sample: u32) {
    0 < sample <= SAMPLE_MAX
  }

  function Clamp(cfg: Bounds, rto: u32): u32 {
    var low := if rto < cfg.minRto then cfg.minRto else rto;
    if low > cfg.maxRto then cfg.maxRto else low
  }

  // update_rto, in wrapping arithmetic
  function Updated(cfg: Bounds, e: Estimate, sample: u32): Estimate {
    if !Usable(sample) then e
    else
      var diff := if e.srtt > sample then e.srtt - sample else sample - e.srtt;
      var srtt := if e.srtt == 0 then sample else Add32(Mul32(7, e.srtt), sample) / 8;
      var rttvar := if e.srtt == 0 then sample / 2 else Add32(Mul32(3, e.rttvar), diff) / 4;
      Estimate(srtt, rttvar, Clamp(cfg, Add32(srtt, Mul32(4, rttvar))))
  }

  class Estimator {
    const cfg: Bounds
    var srtt: u32
    var rttvar: u32
    var rto: u32

    ghost function View(): Estimate
      reads this
    {
      Estimate(srtt, rttvar, rto)
    }

    constructor (cfg: Bounds, initialRto: u32)
      ensures View() == Estimate(0, 0, initialRto) && this.cfg == cfg
    {
      this.cfg := cfg;
      srtt, rttvar, rto := 0, 0, initialRto;
    }

    method UpdateRto(sample: u32)
      modifies this
      ensures View() == Updated(cfg, old(View()), sample)
    {
      if sample == 0 || sample > SAMPLE_MAX {
        return;
      }
      if srtt == 0 {
        srtt := sample;
        rttvar := sample / 2;
      } else {
        var diff := if srtt > sample then srtt - sample else sample - srtt;
        rttvar := Add32(Mul32(3, rttvar), diff) / 4;
        srtt := Add32(Mul32(7, srtt), sample) / 8;
      }
      var next := Add32(srtt, Mul32(4, rttvar));
      if next < cfg.minRto {
        next := cfg.minRto;
      }
      if next > cfg.maxRto {
        next := cfg.maxRto;
      }
      rto := next;
    }
  }

  // The estimate after a run of samples, from a fresh peer.
  function After(cfg: Bounds, initialRto: u32, samples: seq<u32>): Estimate {
    if |samples| == 0 then Estimate(0, 0, initialRto)
    else Updated(cfg, After(cfg, initialRto, samples[..|samples| - 1]), samples[|samples| - 1])
  }

  // Every usable sample lies between lo and hi.
  ghost predicate Within(samples: seq<u32>, lo: int, hi: int) {
    forall i :: 0 <= i < |samples| && Usable(samples[i]) ==> lo <= samples[i] <= hi
  }

  ghost predicate SomeUsable(samples: seq<u32>) {
    exists i :: 0 <= i < |samples| && Usable(samples[i])
  }

  // A sample of 0 or above 60000 is ignored.  For any other none of the sums and products of the update wraps, at
  // the first sample or later: each equals its reading over the integers; and the timeout is srtt + 4 * rttvar, or
  // the bound that is violated by it.
  lemma {:induction false} UpdateExact(cfg: Bounds, e: Estimate, sample: u32)
    requires e.srtt <= SAMPLE_MAX && e.rttvar <= SAMPLE_MAX
    ensures sample == 0 || sample > 60000 ==> Updated(cfg, e, sample) == e
    ensures 1 <= sample <= 60000 ==>
            var first, diff := e.srtt == 0, if e.srtt > sample then e.srtt - sample else sample - e.srtt;
            var srtt := if first then sample else (7 * e.srtt + sample) / 8;
            var rttvar := if first then sample / 2 else (3 * e.rttvar + diff) / 4;
            && Updated(cfg, e, sample).srtt == srtt <= SAMPLE_MAX
            && Updated(cfg, e, sample).rttvar == rttvar <= SAMPLE_MAX
            && (cfg.minRto <= srtt + 4 * rttvar <= cfg.maxRto ==> Updated(cfg, e, sample).rto == srtt + 4 * rttvar)
            && (srtt + 4 * rttvar < cfg.minRto <= cfg.maxRto ==> Updated(cfg, e, sample).rto == cfg.minRto)
            && (srtt + 4 * rttvar > cfg.maxRto || cfg.minRto > cfg.maxRto ==> Updated(cfg, e, sample).rto == cfg.maxRto)
  {
    if !Usable(sample) { return; }
    var first, diff := e.srtt == 0, if e.srtt > sample then e.srtt - sample else sample - e.srtt;
    NoWrap(7, e.srtt, sample);
    NoWrap(3, e.rttvar, diff);
    var srtt := if first then sample else (7 * e.srtt + sample) / 8;
    var rttvar := if first then sample / 2 else (3 * e.rttvar + diff) / 4;
    NoWrap(4, rttvar, srtt);
    hide Mul32, Add32;
  }

  // k * x + y for the small numbers an update deals in.
  lemma {:induction false} NoWrap(k: u32, x: u32, y: u32)
    requires k <= 7 && x <= SAMPLE_MAX && y <= SAMPLE_MAX
    ensures Add32(Mul32(k, x), y) == k * x + y && Add32(y, Mul32(k, x)) == k * x + y
  {
    assert 0 <= k * x <= 7 * SAMPLE_MAX;
  }

  // Over any run of samples: the smoothed time stays between the smallest and the largest sample and
  // never returns to 0, the variation stays at most 60000, nothing wraps, and the timeout is in range
  // once a sample was used.
  lemma {:induction false} EstimateBounded(cfg: Bounds, initialRto: u32, samples: seq<u32>, lo: int, hi: int)
    requires 0 < lo <= hi <= SAMPLE_MAX && Within(samples, lo, hi) && cfg.minRto <= cfg.maxRto
    ensures var e := After(cfg, initialRto, samples);
            && (SomeUsable(samples) <==> e.srtt != 0)
            && (e.srtt != 0 ==> lo <= e.srtt <= hi && cfg.minRto <= e.rto <= cfg.maxRto)
            && (e.srtt == 0 ==> e.rto == initialRto && e.rttvar == 0)
            && e.rttvar <= SAMPLE_MAX
  {
    if |samples| > 0 {
      var before, last := samples[..|samples| - 1], samples[|samples| - 1];
      assert forall i :: 0 <= i < |before| ==> before[i] == samples[i];
      EstimateBounded(cfg, initialRto, before, lo, hi);
      var e := After(cfg, initialRto, before);
      if SomeUsable(before) {
        var i :| 0 <= i < |before| && Usable(before[i]);
        assert Usable(samples[i]);
      }
      if Usable(last) {
        assert lo <= samples[|samples| - 1] <= hi;
        UpdateExact(cfg, e, last);
      } else if SomeUsable(samples) {
        var i :| 0 <= i < |samples| && Usable(samples[i]);
        assert Usable(before[i]);
      }
    }
  }
}
