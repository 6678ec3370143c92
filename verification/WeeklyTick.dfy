// What one pass of the scheduler's task calls the application with, and what it leaves: exactly, and without
// a word of how the pass goes about it (keemash_weekly_schedule.c:309-515).
module WeeklyTick {
  import opened Base
  import opened WeeklyCalendar
  import opened WeeklyRun

  // ---- Clocks

  // On the true, unwrapped times, less than half a turn of the counter apart.
  lemma {:induction false} DeadlineExactly(now: nat, deadline: nat)
    requires -0x8000_0000 <= now - deadline < 0x8000_0000
    ensures DeadlineReached(now % WORDS, deadline % WORDS) <==> now >= deadline
  {
    var (a: int, b: int) := (now % WORDS, deadline % WORDS);
    assert (a - b) % WORDS == (now - deadline) % WORDS;
  }

  // The wall clock went forward by at most 120 seconds, and within 5 of the monotonic time, rounded to seconds.
  lemma {:induction false} ContinuousExactly(previous: int, current: int, from: nat, to: nat)
    requires from <= to && to - from + 500 < WORDS
    ensures Continuous(previous, current, from % WORDS, to % WORDS) <==>
            && 0 <= current - previous <= 120
            && -5 <= current - previous - (to - from + 500) / 1000 <= 5
  {
    SubExactly(from, to);
    hide Sub;
    var elapsed := to - from;
    assert (elapsed + 500) % WORDS == elapsed + 500;
  }

  lemma {:induction false} SubExactly(from: nat, to: nat)
    requires from <= to < from + WORDS
    ensures Sub(to % WORDS, from % WORDS) == to - from
  {
    var (a: int, b: int) := (to % WORDS, from % WORDS);
    assert (a - b) % WORDS == (to - from) % WORDS;
  }

  // ---- Scheduled applications, one after another

  // A retry of this point for this day is pending.
  predicate PendingOf(s: Sched, k: nat, day: nat) {
    s.retryPending && s.retryGeneration == s.config.generation && s.retryIndex == k && s.retryDay == day
  }

  // What an application leaves: a success no retry, and the point marked as run that day; a failure a retry of that
  // point for that day, 5 seconds later.
  predicate Leaves(t: Sched, a: Applied, now: u32) {
    && !a.catchUp && a.index < t.config.count && a.index < |t.lastRun|
    && if a.ok then !t.retryPending && t.nextRetryMs == 0 && t.lastRun[a.index] == a.day
       else PendingOf(t, a.index, a.day) && t.nextRetryMs == (now + 5000) % 0x1_0000_0000
  }

  // From s to t by scheduled applications only: the answers are the application's, the last one's outcome stands, and
  // without any nothing changes.
  predicate Scheduled(w: World, s: Sched, t: Sched, now: u32) {
    && s.log <= t.log
    && t == s.(log := t.log, lastRun := t.lastRun, retryPending := t.retryPending,
               retryGeneration := t.retryGeneration, retryIndex := t.retryIndex, retryDay := t.retryDay,
               nextRetryMs := t.nextRetryMs)
    && (|t.log| == |s.log| ==> t == s)
    && (|t.log| > |s.log| ==> Leaves(t, t.log[|t.log| - 1], now))
    && forall n :: |s.log| <= n < |t.log| ==> t.log[n].ok == w.answer(n)
  }

  // A point counts as run that day, or waits for that day's retry, only when it was so before or was applied since.
  predicate Accounted(s: Sched, t: Sched, k: nat, day: nat)
    requires k < |s.lastRun| && k < |t.lastRun|
  {
    && (t.lastRun[k] == day ==> AppliedSince(t, |s.log|, k, day) || s.lastRun[k] == day)
    && (PendingOf(t, k, day) ==> AppliedSince(t, |s.log|, k, day) || PendingOf(s, k, day))
  }

  lemma {:induction false} ScheduledTrans(w: World, s: Sched, t: Sched, u: Sched, now: u32)
    requires Scheduled(w, s, t, now) && Scheduled(w, t, u, now)
    ensures Scheduled(w, s, u, now)
  {
  }

  lemma {:induction false} SinceGrows(t: Sched, u: Sched, from: nat, k: nat, day: nat)
    requires AppliedSince(t, from, k, day) && t.log <= u.log
    ensures AppliedSince(u, from, k, day)
  {
    var n :| from <= n < |t.log| && t.log[n].index == k && t.log[n].day == day && !t.log[n].catchUp;
    assert u.log[n] == t.log[n];
  }

  lemma {:induction false} SinceEarlier(t: Sched, from: nat, earlier: nat, k: nat, day: nat)
    requires AppliedSince(t, from, k, day) && earlier <= from
    ensures AppliedSince(t, earlier, k, day)
  {
  }

  lemma {:induction false} AccountedTrans(s: Sched, t: Sched, u: Sched, k: nat, day: nat)
    requires k < |s.lastRun| && k < |t.lastRun| && k < |u.lastRun| && s.log <= t.log <= u.log
    requires Accounted(s, t, k, day) && Accounted(t, u, k, day)
    ensures Accounted(s, u, k, day)
  {
    hide AppliedSince, PendingOf;
    if AppliedSince(u, |t.log|, k, day) { SinceEarlier(u, |t.log|, |s.log|, k, day); }
    if AppliedSince(t, |s.log|, k, day) { SinceGrows(t, u, |s.log|, k, day); }
  }

  lemma {:induction false} ApplyScheduled(w: World, s: Sched, index: nat, day: nat, now: u32)
    requires SchedOk(s) && index < s.config.count
    ensures var t := ApplyPoint(w, s, index, false, day, now).1;
            && SchedOk(t) && Scheduled(w, s, t, now) && t.log == s.log + [Applied(index, false, day, w.answer(|s.log|))]
            && forall k, d :: 0 <= k < s.config.count && 0 <= d ==> Accounted(s, t, k, d)
  {
    var t := ApplyPoint(w, s, index, false, day, now).1;
    assert AppliedSince(t, |s.log|, index, day) by { assert t.log[|s.log|].index == index; }
  }

  // ---- One minute

  lemma {:induction false} PointScheduled(w: World, s: Sched, index: nat, day: nat, now: u32)
    requires SchedOk(s) && index < s.config.count
    ensures var t := RunScheduled(w, s, index, day, now);
            && Scheduled(w, s, t, now)
            && (forall k, d :: 0 <= k < s.config.count && 0 <= d ==> Accounted(s, t, k, d))
            && (AppliedSince(t, |s.log|, index, day) || s.lastRun[index] == day || RetryWait(s, index, day, now))
  {
    hide DeadlineReached;
    if !(s.lastRun[index] == day || RetryWait(s, index, day, now)) {
      ApplyScheduled(w, s, index, day, now);
      assert RunScheduled(w, s, index, day, now).log[|s.log|].index == index;
    }
  }

  // The point is run, waits for its retry or is applied.
  predicate Served(s: Sched, t: Sched, k: nat, day: nat, now: u32)
    requires k < |s.lastRun|
  {
    AppliedSince(t, |s.log|, k, day) || s.lastRun[k] == day || RetryWait(s, k, day, now)
  }

  lemma {:induction false} MinuteScheduled(w: World, s: Sched, l: LocalTime, now: u32, i: nat)
    requires SchedOk(s) && i <= s.config.count
    ensures var t := RunMinute(w, s, l, now, i);
            && Scheduled(w, s, t, now)
            && (forall k, d :: 0 <= k < s.config.count && 0 <= d ==> Accounted(s, t, k, d))
            && (forall k :: i <= k < s.config.count && Due(s.config, k, l) ==> Served(s, t, k, l.day, now))
    decreases s.config.count - i
  {
    hide Scheduled, Accounted, Served, Due, RunScheduled, RetryWait;
    if i < s.config.count {
      var next := if Due(s.config, i, l) then RunScheduled(w, s, i, l.day, now) else s;
      var t := RunMinute(w, next, l, now, i + 1);
      PointScheduled(w, s, i, l.day, now);
      NothingScheduled(w, s, now);
      MinuteScheduled(w, next, l, now, i + 1);
      ScheduledTrans(w, s, next, t, now);
      ScheduledLog(w, s, next, now);
      ScheduledLog(w, next, t, now);
      forall k, d | 0 <= k < s.config.count && 0 <= d ensures Accounted(s, t, k, d) {
        AccountedTrans(s, next, t, k, d);
      }
      forall k | i <= k < s.config.count && Due(s.config, k, l) ensures Served(s, t, k, l.day, now) {
        if k == i {
          ServedGrows(s, next, t, k, l.day, now);
        } else {
          ServedEarlier(w, s, next, t, k, l.day, now);
        }
      }
    } else {
      NothingScheduled(w, s, now);
    }
  }

  lemma {:induction false} NothingScheduled(w: World, s: Sched, now: u32)
    requires SchedOk(s)
    ensures Scheduled(w, s, s, now) && forall k, d :: 0 <= k < s.config.count && 0 <= d ==> Accounted(s, s, k, d)
  {
  }

  lemma {:induction false} ScheduledLog(w: World, s: Sched, t: Sched, now: u32)
    requires Scheduled(w, s, t, now)
    ensures s.log <= t.log && t.config == s.config
  {
  }

  lemma {:induction false} ServedGrows(s: Sched, t: Sched, u: Sched, k: nat, day: nat, now: u32)
    requires k < |s.lastRun| && t.log <= u.log
    requires AppliedSince(t, |s.log|, k, day) || s.lastRun[k] == day || RetryWait(s, k, day, now)
    ensures Served(s, u, k, day, now)
  {
    hide RetryWait, AppliedSince;
    if AppliedSince(t, |s.log|, k, day) { SinceGrows(t, u, |s.log|, k, day); }
  }

  // What a later state makes of a point, told from an earlier one.
  lemma {:induction false} ServedEarlier(w: World, s: Sched, t: Sched, u: Sched, k: nat, day: nat, now: u32)
    requires k < |s.lastRun| && k < |t.lastRun|
    requires Scheduled(w, s, t, now) && Accounted(s, t, k, day) && t.log <= u.log && Served(t, u, k, day, now)
    ensures Served(s, u, k, day, now)
  {
    hide DeadlineReached;
    if AppliedSince(u, |t.log|, k, day) {
      SinceEarlier(u, |t.log|, |s.log|, k, day);
    } else if |t.log| > |s.log| {
      var last := |t.log| - 1;
      if RetryWait(t, k, day, now) {
        assert t.log[last].index == k && t.log[last].day == day;
        assert AppliedSince(t, |s.log|, k, day);
      }
      if AppliedSince(t, |s.log|, k, day) { SinceGrows(t, u, |s.log|, k, day); }
    }
  }

  // ---- A pass

  // The minutes a pass serves, each at its local time: those it crosses, then the present one.
  function Minutes(s: Sched, x: Sample): seq<nat>
    requires x.Clock?
  {
    Crossed(s, x) + [x.epoch]
  }

  // Every entry from `from` on is of a point due at one of the minutes, for that day.
  predicate DueEntries(w: World, t: Sched, from: nat, es: seq<nat>)
    requires t.config.count <= MAX_POINTS
  {
    forall n :: from <= n < |t.log| ==> DueEntry(w, t.config, t.log[n], es)
  }

  predicate DueEntry(w: World, c: Config, a: Applied, es: seq<nat>)
    requires c.count <= MAX_POINTS
  {
    exists i :: 0 <= i < |es| && a.index < c.count && Due(c, a.index, w.local(es[i])) &&
                a.day == w.local(es[i]).day && !a.catchUp
  }

  // Every point due at one of the minutes is served.
  predicate AllServed(w: World, s: Sched, t: Sched, es: seq<nat>, now: u32)
    requires SchedOk(s)
  {
    forall i, k :: 0 <= i < |es| && 0 <= k < s.config.count && Due(s.config, k, w.local(es[i])) ==>
                     Served(s, t, k, w.local(es[i]).day, now)
  }

  // The minutes one after the other.
  lemma {:induction false} MinutesScheduled(w: World, s: Sched, es: seq<nat>, now: u32)
    requires SchedOk(s)
    ensures var t := RunBoundaries(w, s, es, now);
            && Scheduled(w, s, t, now) && DueEntries(w, t, |s.log|, es) && AllServed(w, s, t, es, now)
            && (forall k, d :: 0 <= k < s.config.count && 0 <= d ==> Accounted(s, t, k, d))
    decreases |es|
  {
    hide Scheduled, Accounted, Due, RunMinute, RetryWait, DueEntries, AllServed;
    NothingScheduled(w, s, now);
    if |es| == 0 {
      NoMinutes(w, s, es, now);
    } else {
      var m := RunMinute(w, s, w.local(es[0]), now, 0);
      var t := RunBoundaries(w, m, es[1..], now);
      MinuteScheduled(w, s, w.local(es[0]), now, 0);
      MinutesScheduled(w, m, es[1..], now);
      ScheduledLog(w, s, m, now);
      ScheduledLog(w, m, t, now);
      ScheduledTrans(w, s, m, t, now);
      FirstMinuteDue(w, s, m, t, es, now);
      FirstMinuteServed(w, s, m, t, es, now);
      forall k, d | 0 <= k < s.config.count && 0 <= d ensures Accounted(s, t, k, d) {
        AccountedTrans(s, m, t, k, d);
      }
    }
  }

  lemma {:induction false} NoMinutes(w: World, s: Sched, es: seq<nat>, now: u32)
    requires SchedOk(s) && |es| == 0
    ensures DueEntries(w, s, |s.log|, es) && AllServed(w, s, s, es, now)
  {
  }

  lemma {:induction false} FirstMinuteDue(w: World, s: Sched, m: Sched, t: Sched, es: seq<nat>, now: u32)
    requires SchedOk(s) && |es| > 0 && m == RunMinute(w, s, w.local(es[0]), now, 0)
    requires m.log <= t.log && t.config == s.config && DueEntries(w, t, |m.log|, es[1..])
    ensures DueEntries(w, t, |s.log|, es)
  {
    hide Due, RunMinute;
    forall n | |s.log| <= n < |t.log| ensures DueEntry(w, t.config, t.log[n], es) {
      if n < |m.log| {
        OnlyDueApplied(w, s, w.local(es[0]), now, 0, n);
        assert t.log[n] == m.log[n];
      } else {
        var a := t.log[n];
        assert DueEntry(w, t.config, a, es[1..]);
        var i :| 0 <= i < |es[1..]| && a.index < t.config.count && Due(t.config, a.index, w.local(es[1..][i])) &&
                 a.day == w.local(es[1..][i]).day && !a.catchUp;
        assert es[1..][i] == es[i + 1];
      }
    }
  }

  lemma {:induction false} FirstMinuteServed(w: World, s: Sched, m: Sched, t: Sched, es: seq<nat>, now: u32)
    requires SchedOk(s) && |es| > 0 && SchedOk(m) && m.config == s.config
    requires Scheduled(w, s, m, now) && s.log <= m.log <= t.log
    requires forall k, d :: 0 <= k < s.config.count && 0 <= d ==> Accounted(s, m, k, d)
    requires forall k :: 0 <= k < s.config.count && Due(s.config, k, w.local(es[0])) ==>
               Served(s, m, k, w.local(es[0]).day, now)
    requires AllServed(w, m, t, es[1..], now)
    ensures AllServed(w, s, t, es, now)
  {
    hide Scheduled, Accounted, Due, RetryWait, AppliedSince;
    forall i, k | 0 <= i < |es| && 0 <= k < s.config.count && Due(s.config, k, w.local(es[i]))
      ensures Served(s, t, k, w.local(es[i]).day, now)
    {
      if i == 0 {
        assert Served(s, m, k, w.local(es[0]).day, now);
        ServedGrows(s, m, t, k, w.local(es[0]).day, now);
      } else {
        assert es[1..][i - 1] == es[i];
        assert Served(m, t, k, w.local(es[i]).day, now);
        ServedEarlier(w, s, m, t, k, w.local(es[i]).day, now);
      }
    }
  }

  lemma {:induction false} MinutesInOne(w: World, s: Sched, bs: seq<nat>, e: nat, now: u32)
    requires SchedOk(s)
    ensures RunBoundaries(w, s, bs + [e], now) == RunMinute(w, RunBoundaries(w, s, bs, now), w.local(e), now, 0)
    decreases |bs|
  {
    hide RunMinute;
    if |bs| == 0 {
      assert (bs + [e])[1..] == [];
    } else {
      assert (bs + [e])[1..] == bs[1..] + [e];
      MinutesInOne(w, RunMinute(w, s, w.local(bs[0]), now, 0), bs[1..], e, now);
    }
  }

  // ---- What a pass does first

  // A catch-up is due: the clock was just set or did not go on from the sample before, or one was due then and has
  // no failure to wait for.
  predicate CatchesUp(s: Sched, x: Sample) {
    && x.Clock? && s.config.enabled
    && (ContinuousAt(s, x) ==> s.catchUpPending && (s.nextRetryMs == 0 || DeadlineReached(x.ms, s.nextRetryMs)))
  }

  // The call a catch-up makes.
  function CatchEntries(w: World, s: Sched, x: Sample, latest: nat): seq<Applied> {
    if CatchesUp(s, x) && w.catchUpReady && latest != NO_INDEX
    then [Applied(latest, true, w.local(x.epoch).day, w.answer(|s.log|))] else []
  }

  // The deadline of a retry, once the catch-up has been.
  function Deadline(w: World, s: Sched, x: Sample, latest: nat): u32 {
    if CatchesUp(s, x) && w.catchUpReady then
      if latest != NO_INDEX && !w.answer(|s.log|) then (x.ms + 5000) % 0x1_0000_0000 else 0
    else if ContinuousAt(s, x) then s.nextRetryMs
    else 0
  }

  // A retry survives only while the clock goes on.
  predicate RetryDue(w: World, s: Sched, x: Sample, latest: nat) {
    && ContinuousAt(s, x) && s.retryPending && s.retryGeneration == s.config.generation
    && s.retryIndex < s.config.count && DeadlineReached(x.ms, Deadline(w, s, x, latest))
  }

  function RetryEntries(w: World, s: Sched, x: Sample, latest: nat): seq<Applied> {
    if RetryDue(w, s, x, latest)
    then [Applied(s.retryIndex, false, s.retryDay, w.answer(|s.log + CatchEntries(w, s, x, latest)|))] else []
  }

  // The catch-up succeeds with a point that is due at this very minute: it counts as run today.
  predicate Marks(w: World, s: Sched, x: Sample, latest: nat)
    requires SchedOk(s) && x.Clock? && (latest != NO_INDEX ==> latest < s.config.count)
  {
    && CatchesUp(s, x) && w.catchUpReady && latest != NO_INDEX && w.answer(|s.log|)
    && s.config.points[latest].minute == w.local(x.epoch).minute
  }

  predicate CatchMarks(w: World, s: Sched, x: Sample, latest: nat, k: nat, day: nat)
    requires SchedOk(s) && x.Clock? && (latest != NO_INDEX ==> latest < s.config.count)
  {
    Marks(w, s, x, latest) && k == latest && day == w.local(x.epoch).day
  }

  // The state after the sample and the catch-up.
  ghost predicate CaughtUp(w: World, s: Sched, x: Sample, latest: nat, c: Sched)
    requires SchedOk(s) && x.Clock? && (latest != NO_INDEX ==> latest < s.config.count)
  {
    && SchedOk(c) && c.config == s.config && c.log == s.log + CatchEntries(w, s, x, latest)
    && c.clockValid && c.wallEpoch == x.epoch && c.sampleMs == x.ms
    && c.nextRetryMs == Deadline(w, s, x, latest)
    && c.retryPending == (s.retryPending && ContinuousAt(s, x))
    && c.retryGeneration == s.retryGeneration && c.retryIndex == s.retryIndex && c.retryDay == s.retryDay
    && c.catchUpPending == (if CatchesUp(s, x) then w.catchUpReady && latest != NO_INDEX && !w.answer(|s.log|)
                            else s.catchUpPending)
    && c.lastRun == if Marks(w, s, x, latest) then s.lastRun[latest := w.local(x.epoch).day] else s.lastRun
  }

  lemma {:induction false} CatchUpExactly(w: World, s: Sched, x: Sample, latest: nat) returns (c: Sched)
    requires SchedOk(s) && (latest != NO_INDEX ==> latest < s.config.count) && x.Clock? && s.config.enabled
    ensures CaughtUp(w, s, x, latest, c)
    ensures Tick(w, s, x, latest) == RunBoundaries(w, RunRetry(w, c, x.ms), Minutes(s, x), x.ms)
  {
    hide Crossed, RunMinute, RunRetry, Continuous, DeadlineReached;
    var taken := TakeSample(s, x);
    var due := CatchUpDue(taken, x);
    assert due == CatchesUp(s, x);
    var ready := if due && !w.catchUpReady then taken.(catchUpPending := false) else taken;
    c := if due && w.catchUpReady then CatchUp(w, ready, x, latest) else ready;
    MinutesInOne(w, RunRetry(w, c, x.ms), Crossed(s, x), x.epoch, x.ms);
  }

  // ---- The retry

  lemma {:induction false} RetryExactly(w: World, s: Sched, x: Sample, latest: nat, c: Sched)
    requires SchedOk(s) && x.Clock? && (latest != NO_INDEX ==> latest < s.config.count) && CaughtUp(w, s, x, latest, c)
    ensures var r := RunRetry(w, c, x.ms);
            && Scheduled(w, c, r, x.ms)
            && r.log == s.log + CatchEntries(w, s, x, latest) + RetryEntries(w, s, x, latest)
            && forall k, d :: 0 <= k < s.config.count && 0 <= d ==> Accounted(c, r, k, d)
  {
    hide Continuous, DeadlineReached, CatchEntries, Deadline, Marks;
    NothingScheduled(w, c, x.ms);
    if RetryDue(w, s, x, latest) {
      ApplyScheduled(w, c, c.retryIndex, c.retryDay, x.ms);
    }
  }

  // ---- The whole pass

  // With the clock set and the schedule enabled, a pass calls the application first for the catch-up, if one is
  // due, then for the retry, if one is due, and then only for points due at the minutes it serves.
  lemma {:induction false} PassLog(w: World, s: Sched, x: Sample, latest: nat)
    requires SchedOk(s) && (latest != NO_INDEX ==> latest < s.config.count) && x.Clock? && s.config.enabled
    ensures var t := Tick(w, s, x, latest);
            var first := s.log + CatchEntries(w, s, x, latest) + RetryEntries(w, s, x, latest);
            && first <= t.log && DueEntries(w, t, |first|, Minutes(s, x))
            && forall n :: |s.log| <= n < |t.log| ==> t.log[n].ok == w.answer(n)
  {
    var c := CatchUpExactly(w, s, x, latest);
    RetryExactly(w, s, x, latest, c);
    var r := RunRetry(w, c, x.ms);
    MinutesScheduled(w, r, Minutes(s, x), x.ms);
    hide Tick, RunRetry, RunBoundaries, DueEntries, Minutes, Accounted, AllServed;
    ScheduledLog(w, c, r, x.ms);
    var t := Tick(w, s, x, latest);
    ScheduledTrans(w, c, r, t, x.ms);
    CatchAnswers(w, s, x, latest, c, t);
  }

  lemma {:induction false} CatchAnswers(w: World, s: Sched, x: Sample, latest: nat, c: Sched, t: Sched)
    requires SchedOk(s) && x.Clock? && (latest != NO_INDEX ==> latest < s.config.count)
    requires CaughtUp(w, s, x, latest, c) && Scheduled(w, c, t, x.ms)
    ensures forall n :: |s.log| <= n < |t.log| ==> t.log[n].ok == w.answer(n)
  {
    hide CatchesUp, Deadline, Marks;
    forall n | |s.log| <= n < |t.log| ensures t.log[n].ok == w.answer(n) {
      if n < |c.log| { assert t.log[n] == c.log[n]; }
    }
  }

  // What it leaves: the outcome of the last scheduled application, or without one the retry as it was, with the
  // deadline the catch-up gave it, or none when the clock did not go on; and a catch-up still due exactly when it
  // was, unless it was made and succeeded, found nothing, or is not wanted.
  lemma {:induction false} PassLeaves(w: World, s: Sched, x: Sample, latest: nat)
    requires SchedOk(s) && (latest != NO_INDEX ==> latest < s.config.count) && x.Clock? && s.config.enabled
    ensures var t := Tick(w, s, x, latest);
            var caught := s.log + CatchEntries(w, s, x, latest);
            && caught <= t.log && t.clockValid && t.wallEpoch == x.epoch && t.sampleMs == x.ms
            && (|t.log| > |caught| ==> Leaves(t, t.log[|t.log| - 1], x.ms))
            && (|t.log| == |caught| ==>
                  && t.nextRetryMs == Deadline(w, s, x, latest)
                  && t.retryPending == (s.retryPending && ContinuousAt(s, x))
                  && t.retryGeneration == s.retryGeneration && t.retryIndex == s.retryIndex && t.retryDay == s.retryDay)
            && t.catchUpPending == (if CatchesUp(s, x) then w.catchUpReady && latest != NO_INDEX && !w.answer(|s.log|)
                                    else s.catchUpPending)
  {
    hide *;
    var c := PassScheduled(w, s, x, latest);
    OutcomeStands(w, s, x, latest, c, Tick(w, s, x, latest));
  }

  // After the sample and the catch-up, a pass consists of scheduled applications.
  lemma {:induction false} PassScheduled(w: World, s: Sched, x: Sample, latest: nat) returns (c: Sched)
    requires SchedOk(s) && (latest != NO_INDEX ==> latest < s.config.count) && x.Clock? && s.config.enabled
    ensures CaughtUp(w, s, x, latest, c) && Scheduled(w, c, Tick(w, s, x, latest), x.ms)
  {
    hide CaughtUp, Scheduled, DueEntries, AllServed, Minutes, Tick, RunRetry, RunBoundaries, Accounted;
    c := CatchUpExactly(w, s, x, latest);
    assert SchedOk(c) by { CaughtUpOk(w, s, x, latest, c); }
    RetryExactly(w, s, x, latest, c);
    var r := RunRetry(w, c, x.ms);
    MinutesScheduled(w, r, Minutes(s, x), x.ms);
    ScheduledTrans(w, c, r, Tick(w, s, x, latest), x.ms);
  }

  lemma {:induction false} CaughtUpOk(w: World, s: Sched, x: Sample, latest: nat, c: Sched)
    requires SchedOk(s) && x.Clock? && (latest != NO_INDEX ==> latest < s.config.count) && CaughtUp(w, s, x, latest, c)
    ensures SchedOk(c) && c.config == s.config
  {
  }

  lemma {:induction false} OutcomeStands(w: World, s: Sched, x: Sample, latest: nat, c: Sched, t: Sched)
    requires SchedOk(s) && x.Clock? && (latest != NO_INDEX ==> latest < s.config.count)
    requires CaughtUp(w, s, x, latest, c) && Scheduled(w, c, t, x.ms)
    ensures var caught := s.log + CatchEntries(w, s, x, latest);
            && caught <= t.log && t.clockValid && t.wallEpoch == x.epoch && t.sampleMs == x.ms
            && (|t.log| > |caught| ==> Leaves(t, t.log[|t.log| - 1], x.ms))
            && (|t.log| == |caught| ==>
                  && t.nextRetryMs == Deadline(w, s, x, latest)
                  && t.retryPending == (s.retryPending && ContinuousAt(s, x))
                  && t.retryGeneration == s.retryGeneration && t.retryIndex == s.retryIndex && t.retryDay == s.retryDay)
            && t.catchUpPending == (if CatchesUp(s, x) then w.catchUpReady && latest != NO_INDEX && !w.answer(|s.log|)
                                    else s.catchUpPending)
  {
    hide CatchEntries, Deadline, CatchesUp, Marks, ContinuousAt;
  }

  // Every point due at a minute it serves is applied in the pass, unless it was run that day already, waits for
  // that day's retry, or is what the catch-up has just applied.
  lemma {:induction false} DueIsApplied(w: World, s: Sched, x: Sample, latest: nat, i: nat, k: nat)
    requires SchedOk(s) && (latest != NO_INDEX ==> latest < s.config.count) && x.Clock? && s.config.enabled
    requires i < |Minutes(s, x)| && k < s.config.count && Due(s.config, k, w.local(Minutes(s, x)[i]))
    ensures var day := w.local(Minutes(s, x)[i]).day;
            || AppliedSince(Tick(w, s, x, latest), |s.log|, k, day)
            || s.lastRun[k] == day
            || (ContinuousAt(s, x) && PendingOf(s, k, day) && !DeadlineReached(x.ms, Deadline(w, s, x, latest)))
            || CatchMarks(w, s, x, latest, k, day)
  {
    var c := CatchUpExactly(w, s, x, latest);
    RetryExactly(w, s, x, latest, c);
    var r := RunRetry(w, c, x.ms);
    MinutesScheduled(w, r, Minutes(s, x), x.ms);
    var t, day := Tick(w, s, x, latest), w.local(Minutes(s, x)[i]).day;
    hide Tick, RunRetry, RunBoundaries, DueEntries, Minutes, CatchEntries, Deadline, CatchesUp, Marks, ContinuousAt,
         Due, DeadlineReached;
    assert Served(r, t, k, day, x.ms);
    ScheduledLog(w, c, r, x.ms);
    ScheduledLog(w, r, t, x.ms);
    ServedEarlier(w, c, r, t, k, day, x.ms);
    ServedAtFirst(w, s, x, latest, c, t, k, day);
  }

  lemma {:induction false} ServedAtFirst(w: World, s: Sched, x: Sample, latest: nat, c: Sched, t: Sched, k: nat,
                                         day: nat)
    requires SchedOk(s) && x.Clock? && (latest != NO_INDEX ==> latest < s.config.count)
    requires CaughtUp(w, s, x, latest, c) && k < s.config.count && Served(c, t, k, day, x.ms)
    ensures AppliedSince(t, |s.log|, k, day) || s.lastRun[k] == day || CatchMarks(w, s, x, latest, k, day) ||
            (ContinuousAt(s, x) && PendingOf(s, k, day) && !DeadlineReached(x.ms, Deadline(w, s, x, latest)))
  {
    hide DeadlineReached, Deadline, CatchesUp, Marks, ContinuousAt;
    if AppliedSince(t, |c.log|, k, day) { SinceEarlier(t, |c.log|, |s.log|, k, day); }
  }

  // Without the time, or while disabled, the application is not called.
  lemma {:induction false} IdlePass(w: World, s: Sched, x: Sample, latest: nat)
    requires SchedOk(s) && (latest != NO_INDEX ==> latest < s.config.count) && (x.NoClock? || !s.config.enabled)
    ensures var t := Tick(w, s, x, latest);
            && t.log == s.log && t.lastRun == s.lastRun && t.clockValid == x.Clock?
            && (x.NoClock? ==> t == s.(clockValid := false))
            && (x.Clock? ==> t.wallEpoch == x.epoch && t.sampleMs == x.ms)
            && (x.Clock? && !ContinuousAt(s, x) ==> !t.catchUpPending && !t.retryPending)
            && (x.Clock? && ContinuousAt(s, x) ==>
                  t.catchUpPending == s.catchUpPending && t.retryPending == s.retryPending)
  {
    hide Continuous, DeadlineReached;
  }

  // ---- The retry, by itself

  // While the clock goes on and no catch-up comes first, a pending retry whose deadline is reached is made, under
  // the day it was due, before anything else; what follows is due at the minutes served.
  lemma {:induction false} RetryIsMade(w: World, s: Sched, x: Sample, latest: nat)
    requires SchedOk(s) && (latest != NO_INDEX ==> latest < s.config.count) && x.Clock? && s.config.enabled
    requires ContinuousAt(s, x) && !(s.catchUpPending && w.catchUpReady)
    requires s.retryPending && s.retryGeneration == s.config.generation && s.retryIndex < s.config.count
    requires DeadlineReached(x.ms, s.nextRetryMs)
    ensures var t := Tick(w, s, x, latest);
            && s.log + [Applied(s.retryIndex, false, s.retryDay, w.answer(|s.log|))] <= t.log
            && DueEntries(w, t, |s.log| + 1, Minutes(s, x))
  {
    PassLog(w, s, x, latest);
    hide Tick, DueEntries, Minutes, ContinuousAt, DeadlineReached;
    assert CatchEntries(w, s, x, latest) == [] && Deadline(w, s, x, latest) == s.nextRetryMs;
    assert s.log + [] == s.log;
    assert RetryEntries(w, s, x, latest) == [Applied(s.retryIndex, false, s.retryDay, w.answer(|s.log|))];
  }

  // Before its deadline, for another generation, or when the clock did not go on, it is not made: without a
  // catch-up everything the application is called with is due at the minutes served.
  lemma {:induction false} RetryWaits(w: World, s: Sched, x: Sample, latest: nat)
    requires SchedOk(s) && (latest != NO_INDEX ==> latest < s.config.count) && x.Clock? && s.config.enabled
    requires CatchesUp(s, x) ==> !w.catchUpReady
    requires !(ContinuousAt(s, x) && s.retryPending && s.retryGeneration == s.config.generation &&
               s.retryIndex < s.config.count && DeadlineReached(x.ms, s.nextRetryMs))
    ensures var t := Tick(w, s, x, latest);
            s.log <= t.log && DueEntries(w, t, |s.log|, Minutes(s, x))
  {
    PassLog(w, s, x, latest);
    hide Tick, DueEntries, Minutes, ContinuousAt, DeadlineReached, CatchesUp;
    assert CatchEntries(w, s, x, latest) == [] && RetryEntries(w, s, x, latest) == [];
    assert s.log + [] + [] == s.log;
  }

  // A scheduled application that fails at the end of one pass is made again by the next, for the same day and before
  // anything else, exactly when 5 seconds have gone by; sooner, the next pass makes no retry.
  lemma {:induction false} FailureIsRetried(w: World, s: Sched, x: Sample, y: Sample, latest: nat, later: nat,
                                            from: nat, elapsed: nat)
    requires SchedOk(s) && (latest != NO_INDEX ==> latest < s.config.count) && x.Clock? && s.config.enabled
    requires later != NO_INDEX ==> later < s.config.count
    requires x.ms == from % WORDS && y.Clock? && y.ms == (from + elapsed) % WORDS && elapsed < 0x8000_0000
    requires var t := Tick(w, s, x, latest);
             && |t.log| > |s.log + CatchEntries(w, s, x, latest)| && !t.log[|t.log| - 1].ok
             && ContinuousAt(t, y) && (CatchesUp(t, y) ==> !w.catchUpReady)
    ensures var t := Tick(w, s, x, latest);
            var a, u := t.log[|t.log| - 1], Tick(w, t, y, later);
            && (elapsed >= 5000 ==>
                  && t.log + [Applied(a.index, false, a.day, w.answer(|t.log|))] <= u.log
                  && DueEntries(w, u, |t.log| + 1, Minutes(t, y)))
            && (elapsed < 5000 ==> t.log <= u.log && DueEntries(w, u, |t.log|, Minutes(t, y)))
  {
    hide Tick, DueEntries, Minutes, ContinuousAt, DeadlineReached, CatchesUp;
    PassLeaves(w, s, x, latest);
    var t := Tick(w, s, x, latest);
    RetryTime(from, elapsed);
    hide CatchEntries, Deadline;
    PassLog(w, t, y, later);
    NoCatchUp(w, t, y, later);
    assert t.log + [] == t.log;
  }

  lemma {:induction false} RetryTime(from: nat, elapsed: nat)
    requires elapsed < 0x8000_0000
    ensures DeadlineReached((from + elapsed) % WORDS, (from % WORDS + 5000) % WORDS) <==> elapsed >= 5000
  {
    DeadlineExactly(from + elapsed, from + 5000);
    hide DeadlineReached;
    AddThenWrap(from);
  }

  lemma {:induction false} AddThenWrap(n: nat)
    ensures (n % WORDS + 5000) % WORDS == (n + 5000) % WORDS
  {
    var q := n / WORDS;
    assert n + 5000 == q * WORDS + (n % WORDS + 5000);
    Turns(q, n % WORDS + 5000);
  }

  lemma {:induction false} Turns(q: nat, r: nat)
    ensures (q * WORDS + r) % WORDS == r % WORDS
  {
  }

  lemma {:induction false} NoCatchUp(w: World, s: Sched, x: Sample, latest: nat)
    requires SchedOk(s) && ContinuousAt(s, x) && (CatchesUp(s, x) ==> !w.catchUpReady)
    ensures CatchEntries(w, s, x, latest) == [] && Deadline(w, s, x, latest) == s.nextRetryMs
  {
  }
}
