// The scheduler's task, one pass at a time (keemash_weekly_schedule.c:309-515), and what a run of passes does.
//
// Local time is a function of the epoch; what the application answers to its n-th call is a parameter.
module WeeklyRun {
  import opened Base
  import opened WeeklyCalendar

  const NEVER: nat := 0xFFFF_FFFF
  const WORDS: int := 0x1_0000_0000
  const RETRY_MS: nat := 5000
  const CONTINUITY_LIMIT: nat := 120
  const DRIFT_LIMIT: nat := 5
  const VALID_EPOCH: int := 1577836800

  datatype Local = Local(weekday: nat, minute: nat, day: nat)

  type LocalTime = l: Local | l.weekday < 7 && l.minute < DAY && l.day < NEVER
    witness Local(0, 0, 0)

  datatype Applied = Applied(index: nat, catchUp: bool, day: nat, ok: bool)

  // `log` is what the application was called with, and what came of it.
  datatype Sched = Sched(config: Config, lastRun: seq<nat>, catchUpPending: bool,
                         clockValid: bool, wallEpoch: nat, sampleMs: u32,
                         retryPending: bool, retryGeneration: nat, retryDay: nat, nextRetryMs: u32, retryIndex: nat,
                         log: seq<Applied>)

  datatype World = World(local: int -> LocalTime, answer: nat -> bool, catchUpReady: bool)

  // The wall clock counts as set from the start of 2020 on.
  type Epoch = e: int | VALID_EPOCH < e witness VALID_EPOCH + 1

  datatype Sample = NoClock(ms: u32) | Clock(ms: u32, epoch: Epoch)

  predicate SchedOk(s: Sched) {
    && |s.lastRun| == MAX_POINTS && s.config.count <= MAX_POINTS
    && (forall k :: 0 <= k < s.config.count ==> s.config.points[k].minute < DAY)
    && (s.retryPending && s.retryGeneration == s.config.generation ==> s.retryIndex < MAX_POINTS)
    && (s.clockValid ==> s.wallEpoch > VALID_EPOCH)
  }

  // ---- Clocks

  function Sub(a: int, b: int): u32 {
    (a - b) % WORDS
  }

  predicate DeadlineReached(now: u32, deadline: u32) {
    Sub(now, deadline) < 0x8000_0000
  }

  // The milliseconds are rounded in 32 bits.
  predicate Continuous(previous: int, current: int, previousMs: u32, currentMs: u32) {
    var wall := current - previous;
    var monotonic := (Sub(currentMs, previousMs) + 500) % WORDS / 1000;
    0 <= wall <= CONTINUITY_LIMIT && wall - monotonic <= DRIFT_LIMIT && monotonic - wall <= DRIFT_LIMIT
  }

  // ---- Applying a point

  function RecordResult(s: Sched, index: nat, catchUp: bool, day: nat, ok: bool, now: u32): Sched
    requires SchedOk(s) && index < s.config.count
  {
    if ok && catchUp then s.(nextRetryMs := 0, catchUpPending := false)
    else if ok then s.(nextRetryMs := 0, lastRun := s.lastRun[index := day], retryPending := false)
    else if catchUp then s.(nextRetryMs := (now + RETRY_MS) % WORDS)
    else
      s.(nextRetryMs := (now + RETRY_MS) % WORDS, retryPending := true, retryGeneration := s.config.generation,
         retryIndex := index, retryDay := day)
  }

  function ApplyPoint(w: World, s: Sched, index: nat, catchUp: bool, day: nat, now: u32): (bool, Sched)
    requires SchedOk(s) && index < s.config.count
  {
    var ok := w.answer(|s.log|);
    (ok, RecordResult(s, index, catchUp, day, ok, now).(log := s.log + [Applied(index, catchUp, day, ok)]))
  }

  predicate RetryWait(s: Sched, index: nat, day: nat, now: u32) {
    && s.retryPending && s.retryGeneration == s.config.generation && s.retryIndex == index && s.retryDay == day
    && !DeadlineReached(now, s.nextRetryMs)
  }

  function RunScheduled(w: World, s: Sched, index: nat, day: nat, now: u32): (t: Sched)
    requires SchedOk(s) && index < s.config.count
    ensures SchedOk(t) && t.config == s.config
  {
    if s.lastRun[index] == day || RetryWait(s, index, day, now) then s
    else ApplyPoint(w, s, index, false, day, now).1
  }

  predicate Due(c: Config, index: nat, l: LocalTime)
    requires index < c.count <= MAX_POINTS
  {
    AppliesOn(c.points[index], l.weekday) && c.points[index].minute == l.minute
  }

  // The points due at a local time, from point i on.
  function RunMinute(w: World, s: Sched, l: LocalTime, now: u32, i: nat): (t: Sched)
    requires SchedOk(s) && i <= s.config.count
    ensures SchedOk(t) && t.config == s.config
    decreases s.config.count - i
  {
    if i == s.config.count then s
    else
      var next := if Due(s.config, i, l) then RunScheduled(w, s, i, l.day, now) else s;
      RunMinute(w, next, l, now, i + 1)
  }

  function RunRetry(w: World, s: Sched, now: u32): (t: Sched)
    requires SchedOk(s)
    ensures SchedOk(t) && t.config == s.config
  {
    if s.retryPending && s.retryGeneration == s.config.generation && s.retryIndex < s.config.count &&
       DeadlineReached(now, s.nextRetryMs) then
      ApplyPoint(w, s, s.retryIndex, false, s.retryDay, now).1
    else s
  }

  // ---- Minute boundaries

  // The first whole minute after `epoch`.
  function NextBoundary(epoch: nat): nat {
    (epoch / 60 + 1) * 60
  }

  // The whole minutes from `boundary` on, up to `epoch`.
  function BoundariesFrom(boundary: nat, epoch: nat): (bs: seq<nat>)
    decreases epoch - boundary
  {
    if boundary > epoch then [] else [boundary] + BoundariesFrom(boundary + 60, epoch)
  }

  function RunBoundaries(w: World, s: Sched, bs: seq<nat>, now: u32): (t: Sched)
    requires SchedOk(s)
    ensures SchedOk(t) && t.config == s.config
    decreases |bs|
  {
    if |bs| == 0 then s else RunBoundaries(w, RunMinute(w, s, w.local(bs[0]), now, 0), bs[1..], now)
  }

  // ---- One pass

  predicate ContinuousAt(s: Sched, x: Sample) {
    x.Clock? && s.clockValid && Continuous(s.wallEpoch, x.epoch, s.sampleMs, x.ms)
  }

  // The first locked section.
  function TakeSample(s: Sched, x: Sample): (t: Sched)
    requires SchedOk(s)
    ensures SchedOk(t) && t.config == s.config
  {
    match x
    case NoClock(_) => s.(clockValid := false)
    case Clock(ms, epoch) =>
      var base := if ContinuousAt(s, x) then s
                  else s.(catchUpPending := s.config.enabled, retryPending := false, nextRetryMs := 0);
      base.(clockValid := true, wallEpoch := epoch, sampleMs := ms)
  }

  predicate CatchUpDue(s: Sched, x: Sample) {
    && s.catchUpPending && s.config.enabled && x.Clock?
    && (s.nextRetryMs == 0 || DeadlineReached(x.ms, s.nextRetryMs))
  }

  // `latest` is the point the catch-up finds.
  function CatchUp(w: World, s: Sched, x: Sample, latest: nat): (t: Sched)
    requires SchedOk(s) && x.Clock? && (latest != NO_INDEX ==> latest < s.config.count)
    ensures SchedOk(t) && t.config == s.config
  {
    if latest == NO_INDEX then s.(catchUpPending := false, nextRetryMs := 0)
    else
      var l := w.local(x.epoch);
      var (ok, t) := ApplyPoint(w, s, latest, true, l.day, x.ms);
      if ok && s.config.points[latest].minute == l.minute then t.(lastRun := t.lastRun[latest := l.day]) else t
  }

  // What the catch-up looks for: the last point that came up since midnight six days back.
  ghost predicate IsLatest(c: Config, l: LocalTime, latest: nat, age: nat)
    requires c.count <= MAX_POINTS
  {
    && (latest != NO_INDEX ==>
          LastUpTo(c, l.weekday * DAY + l.minute, latest, age) &&
          InWindow(l.weekday, l.minute, l.weekday * DAY + l.minute - age))
    && (latest == NO_INDEX ==> NoneInWindow(c, l.weekday, l.minute))
  }

  // The whole minutes a pass crosses.
  function Crossed(s: Sched, x: Sample): seq<nat> {
    if s.config.enabled && ContinuousAt(s, x) && s.wallEpoch < x.epoch
    then BoundariesFrom(NextBoundary(s.wallEpoch), x.epoch) else []
  }

  function Tick(w: World, s: Sched, x: Sample, latest: nat): (t: Sched)
    requires SchedOk(s) && (latest != NO_INDEX ==> latest < s.config.count)
    ensures SchedOk(t) && t.config == s.config
  {
    var taken := TakeSample(s, x);
    var due := CatchUpDue(taken, x);
    var ready := if due && !w.catchUpReady then taken.(catchUpPending := false) else taken;
    if x.NoClock? || !s.config.enabled then ready
    else
      var caught := if due && w.catchUpReady then CatchUp(w, ready, x, latest) else ready;
      var retried := RunRetry(w, caught, x.ms);
      var crossed := RunBoundaries(w, retried, Crossed(s, x), x.ms);
      RunMinute(w, crossed, w.local(x.epoch), x.ms, 0)
  }

  // Samples, each with the point its catch-up finds.
  function RunTicks(w: World, s: Sched, xs: seq<(Sample, nat)>): (t: Sched)
    requires SchedOk(s) && forall i :: 0 <= i < |xs| ==> xs[i].1 != NO_INDEX ==> xs[i].1 < s.config.count
    ensures SchedOk(t) && t.config == s.config
    decreases |xs|
  {
    if |xs| == 0 then s else RunTicks(w, Tick(w, s, xs[0].0, xs[0].1), xs[1..])
  }

  // ---- A minute applies just the points that are due then

  predicate Ready(s: Sched, index: nat, l: LocalTime, now: u32)
    requires SchedOk(s) && index < s.config.count
  {
    Due(s.config, index, l) && s.lastRun[index] != l.day && !RetryWait(s, index, l.day, now)
  }

  // Applying one point does not change whether another is ready.
  lemma {:induction false} OthersStayReady(w: World, s: Sched, index: nat, l: LocalTime, now: u32, k: nat)
    requires SchedOk(s) && index < s.config.count && k < s.config.count && k != index
    requires Ready(s, k, l, now)
    ensures Ready(RunScheduled(w, s, index, l.day, now), k, l, now)
  {
    hide AppliesOn, DeadlineReached;
  }

  predicate AppliedSince(s: Sched, from: nat, index: nat, day: nat) {
    exists n :: from <= n < |s.log| && s.log[n].index == index && s.log[n].day == day && !s.log[n].catchUp
  }

  // A point that is ready when its minute is run is applied.
  lemma {:induction false} ReadyIsApplied(w: World, s: Sched, l: LocalTime, now: u32, i: nat, k: nat)
    requires SchedOk(s) && i <= k < s.config.count && Ready(s, k, l, now)
    ensures AppliedSince(RunMinute(w, s, l, now, i), |s.log|, k, l.day)
    decreases s.config.count - i
  {
    var next := if Due(s.config, i, l) then RunScheduled(w, s, i, l.day, now) else s;
    LogGrows(w, next, l, now, i + 1);
    if i < k {
      if Due(s.config, i, l) {
        OthersStayReady(w, s, i, l, now, k);
      }
      assert |s.log| <= |next.log|;
      ReadyIsApplied(w, next, l, now, i + 1, k);
    } else {
      assert next.log[|s.log|] == RunMinute(w, s, l, now, i).log[|s.log|];
    }
  }

  lemma {:induction false} LogGrows(w: World, s: Sched, l: LocalTime, now: u32, i: nat)
    requires SchedOk(s) && i <= s.config.count
    ensures s.log <= RunMinute(w, s, l, now, i).log
    decreases s.config.count - i
  {
    if i < s.config.count {
      var next := if Due(s.config, i, l) then RunScheduled(w, s, i, l.day, now) else s;
      assert s.log <= next.log;
      LogGrows(w, next, l, now, i + 1);
    }
  }

  // And nothing else is: what a minute applies is due then, on that day.
  lemma {:induction false} OnlyDueApplied(w: World, s: Sched, l: LocalTime, now: u32, i: nat, n: nat)
    requires SchedOk(s) && i <= s.config.count && |s.log| <= n < |RunMinute(w, s, l, now, i).log|
    ensures var a := RunMinute(w, s, l, now, i).log[n];
            i <= a.index < s.config.count && Due(s.config, a.index, l) && a.day == l.day && !a.catchUp
    decreases s.config.count - i
  {
    hide AppliesOn;
    if i < s.config.count {
      var next := if Due(s.config, i, l) then RunScheduled(w, s, i, l.day, now) else s;
      LogGrows(w, next, l, now, i + 1);
      if n >= |next.log| {
        OnlyDueApplied(w, next, l, now, i + 1, n);
      }
    }
  }

  // ---- Every minute boundary once

  lemma {:induction false} BoundariesAt(boundary: nat, epoch: nat)
    ensures var bs := BoundariesFrom(boundary, epoch);
            && |bs| == (if boundary <= epoch then (epoch - boundary) / 60 + 1 else 0)
            && forall i :: 0 <= i < |bs| ==> bs[i] == boundary + 60 * i
    decreases epoch - boundary
  {
    if boundary <= epoch {
      BoundariesAt(boundary + 60, epoch);
      assert BoundariesFrom(boundary, epoch) == [boundary] + BoundariesFrom(boundary + 60, epoch);
    }
  }

  lemma {:induction false} MinuteIndex(boundary: nat, b: nat, epoch: nat) returns (i: nat)
    requires boundary % 60 == 0 && b % 60 == 0 && boundary <= b <= epoch
    ensures b == boundary + 60 * i && i < (epoch - boundary) / 60 + 1
  {
    i := (b - boundary) / 60;
  }

  // The list holds, in order, just the whole minutes of its range.
  lemma {:induction false} BoundariesExact(boundary: nat, epoch: nat)
    requires boundary % 60 == 0
    ensures var bs := BoundariesFrom(boundary, epoch);
            && (forall i, j :: 0 <= i < j < |bs| ==> bs[i] < bs[j])
            && (forall b :: b in bs <==> boundary <= b <= epoch && b % 60 == 0)
  {
    BoundariesAt(boundary, epoch);
    var bs := BoundariesFrom(boundary, epoch);
    hide BoundariesFrom;
    forall b | boundary <= b <= epoch && b % 60 == 0
      ensures b in bs
    {
      var i := MinuteIndex(boundary, b, epoch);
      assert bs[i] == b;
    }
  }

  lemma {:induction false} NextIs(epoch: nat, boundary: nat)
    requires boundary % 60 == 0 && boundary - 60 <= epoch < boundary
    ensures NextBoundary(epoch) == boundary
  {
  }

  lemma {:induction false} BoundariesJoin(boundary: nat, middle: nat, epoch: nat)
    requires boundary % 60 == 0 && middle <= epoch && boundary <= middle + 60
    ensures BoundariesFrom(boundary, epoch) ==
            BoundariesFrom(boundary, middle) +
            BoundariesFrom(if boundary > middle then boundary else NextBoundary(middle), epoch)
    decreases middle + 60 - boundary
  {
    if boundary <= middle {
      BoundariesJoin(boundary + 60, middle, epoch);
      if boundary + 60 > middle { NextIs(middle, boundary + 60); }
      hide NextBoundary;
    }
  }

  // The boundaries crossed by a run, pass by pass.
  function CrossedAll(w: World, s: Sched, xs: seq<(Sample, nat)>): seq<nat>
    requires SchedOk(s) && forall i :: 0 <= i < |xs| ==> xs[i].1 != NO_INDEX ==> xs[i].1 < s.config.count
    decreases |xs|
  {
    if |xs| == 0 then []
    else Crossed(s, xs[0].0) + CrossedAll(w, Tick(w, s, xs[0].0, xs[0].1), xs[1..])
  }

  // Every sample of the run goes on from the one before.
  predicate ContinuousRun(w: World, s: Sched, xs: seq<(Sample, nat)>)
    requires SchedOk(s) && forall i :: 0 <= i < |xs| ==> xs[i].1 != NO_INDEX ==> xs[i].1 < s.config.count
    decreases |xs|
  {
    |xs| > 0 ==> ContinuousAt(s, xs[0].0) && ContinuousRun(w, Tick(w, s, xs[0].0, xs[0].1), xs[1..])
  }

  lemma {:induction false} TickKeepsSample(w: World, s: Sched, x: Sample, latest: nat)
    requires SchedOk(s) && (latest != NO_INDEX ==> latest < s.config.count) && x.Clock?
    ensures Tick(w, s, x, latest).wallEpoch == x.epoch && Tick(w, s, x, latest).clockValid
  {
    hide CatchUpDue, ContinuousAt, Crossed, DeadlineReached, Due, RunBoundaries, RunMinute, RunScheduled;
    assert SchedOk(TakeSample(s, x));
    var taken := TakeSample(s, x);
    var due := CatchUpDue(taken, x);
    if s.config.enabled {
      var ready := if due && !w.catchUpReady then taken.(catchUpPending := false) else taken;
      var caught := if due && w.catchUpReady then CatchUp(w, ready, x, latest) else ready;
      var retried := RunRetry(w, caught, x.ms);
      var crossed := RunBoundaries(w, retried, Crossed(s, x), x.ms);
      BoundariesKeepClock(w, retried, Crossed(s, x), x.ms);
      MinuteKeepsClock(w, crossed, w.local(x.epoch), x.ms, 0);
    }
  }

  lemma {:induction false} MinuteKeepsClock(w: World, s: Sched, l: LocalTime, now: u32, i: nat)
    requires SchedOk(s) && i <= s.config.count
    ensures RunMinute(w, s, l, now, i).wallEpoch == s.wallEpoch && RunMinute(w, s, l, now, i).clockValid == s.clockValid
    decreases s.config.count - i
  {
    if i < s.config.count {
      var next := if Due(s.config, i, l) then RunScheduled(w, s, i, l.day, now) else s;
      hide SchedOk;
      MinuteKeepsClock(w, next, l, now, i + 1);
    }
  }

  lemma {:induction false} BoundariesKeepClock(w: World, s: Sched, bs: seq<nat>, now: u32)
    requires SchedOk(s)
    ensures RunBoundaries(w, s, bs, now).wallEpoch == s.wallEpoch
    ensures RunBoundaries(w, s, bs, now).clockValid == s.clockValid
    decreases |bs|
  {
    hide RunMinute, SchedOk;
    if |bs| > 0 {
      MinuteKeepsClock(w, s, w.local(bs[0]), now, 0);
      BoundariesKeepClock(w, RunMinute(w, s, w.local(bs[0]), now, 0), bs[1..], now);
    }
  }

  // While the schedule is enabled and the clock runs on, the passes together cross the whole minutes from
  // the first sample to the last, in order.
  lemma {:induction false} CrossedIsRange(w: World, s: Sched, xs: seq<(Sample, nat)>)
    requires SchedOk(s) && forall i :: 0 <= i < |xs| ==> xs[i].1 != NO_INDEX ==> xs[i].1 < s.config.count
    requires s.config.enabled && ContinuousRun(w, s, xs)
    ensures var last := RunTicks(w, s, xs).wallEpoch;
            s.wallEpoch <= last && CrossedAll(w, s, xs) == BoundariesFrom(NextBoundary(s.wallEpoch), last)
    decreases |xs|
  {
    if |xs| > 0 {
      hide SchedOk, Tick, Continuous, BoundariesFrom, NextBoundary;
      var x := xs[0].0;
      var t := Tick(w, s, x, xs[0].1);
      TickKeepsSample(w, s, x, xs[0].1);
      ContinuousForward(s, x);
      CrossedIsRange(w, t, xs[1..]);
      RangeJoin(s.wallEpoch, x.epoch, RunTicks(w, s, xs).wallEpoch);
      assert s.wallEpoch == x.epoch ==> Crossed(s, x) == [];
    }
  }

  lemma {:induction false} ContinuousForward(s: Sched, x: Sample)
    requires ContinuousAt(s, x)
    ensures s.wallEpoch <= x.epoch <= s.wallEpoch + CONTINUITY_LIMIT
  {
  }

  lemma {:induction false} RangeJoin(first: nat, middle: nat, last: nat)
    requires first <= middle <= last
    ensures BoundariesFrom(NextBoundary(first), last) ==
            (if first < middle then BoundariesFrom(NextBoundary(first), middle) else []) +
            BoundariesFrom(NextBoundary(middle), last)
  {
    if first < middle {
      BoundariesJoin(NextBoundary(first), middle, last);
      if NextBoundary(first) > middle {
        assert NextBoundary(first) == NextBoundary(middle);
      }
    }
  }

  // Every whole minute after the first sample and up to the last is visited exactly once, in order.
  lemma {:induction false} EveryBoundaryOnce(w: World, s: Sched, xs: seq<(Sample, nat)>)
    requires SchedOk(s) && forall i :: 0 <= i < |xs| ==> xs[i].1 != NO_INDEX ==> xs[i].1 < s.config.count
    requires s.config.enabled && ContinuousRun(w, s, xs)
    ensures var last := RunTicks(w, s, xs).wallEpoch;
            var bs := CrossedAll(w, s, xs);
            && (forall i, j :: 0 <= i < j < |bs| ==> bs[i] < bs[j])
            && (forall b :: b in bs <==> s.wallEpoch < b <= last && b % 60 == 0)
  {
    hide BoundariesFrom, ContinuousRun, Crossed, CrossedAll, RunTicks, SchedOk, Tick;
    CrossedIsRange(w, s, xs);
    BoundariesExact(NextBoundary(s.wallEpoch), RunTicks(w, s, xs).wallEpoch);
    forall b | s.wallEpoch < b && b % 60 == 0
      ensures NextBoundary(s.wallEpoch) <= b
    {
    }
  }
}
