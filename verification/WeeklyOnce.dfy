// No point is successfully applied on schedule twice on one local day, retries included, unless the calendar
// itself does what this file names (keemash_weekly_schedule.c:326-515).
module WeeklyOnce {
  import opened Base
  import opened WeeklyCalendar
  import opened WeeklyRun

  // A scheduled, successful application.
  predicate Success(a: Applied) {
    a.ok && !a.catchUp
  }

  predicate Hit(a: Applied, index: nat, day: nat) {
    Success(a) && a.index == index && a.day == day
  }

  predicate Done(log: seq<Applied>, index: nat, day: nat) {
    exists i :: 0 <= i < |log| && Hit(log[i], index, day)
  }

  predicate OncePerDay(log: seq<Applied>) {
    forall i, j :: 0 <= i < j < |log| && Success(log[i]) ==> !Hit(log[j], log[i].index, log[i].day)
  }

  // ---- Calendars

  type Calendar = int -> LocalTime

  // Local days do not go back.
  ghost predicate DaysForward(local: Calendar) {
    forall a: Epoch, b: Epoch :: a <= b ==> local(a).day <= local(b).day
  }

  // Whether a sample at `to` may follow one at `from`: on clocks that never step back, or on clocks that may
  // step back within the local day.
  predicate Reaches(local: Calendar, back: bool, from: Epoch, to: Epoch) {
    if back then local(from).day <= local(to).day else from <= to
  }

  predicate SameMinute(local: Calendar, a: Epoch, b: Epoch) {
    local(a).minute == local(b).minute
  }

  // What undoes the property.  A pass crosses the whole minute b on its way to its sample c, less than two
  // minutes later, at the same minute of a later day; its catch-up marks that later day before b is run.  And
  // an earlier sample, a, was at b's minute on b's day: an earlier instant, or, when the clock may step back,
  // b itself, provided that the clock can step back behind b and stay on that day.
  predicate Hides(local: Calendar, back: bool, a: Epoch, b: Epoch, c: Epoch) {
    && b % 60 == 0 && b < c < b + CONTINUITY_LIMIT && b - 1 > VALID_EPOCH
    && SameMinute(local, a, b) && SameMinute(local, b, c)
    && local(a).day == local(b).day < local(c).day
    && if back then local(b - 1).day == local(b).day else a < b
  }

  ghost predicate NothingHides(local: Calendar, back: bool) {
    forall a: Epoch, b: Epoch, c: Epoch :: !Hides(local, back, a, b, c)
  }

  // Without a catch-up there is nothing to hide.
  ghost predicate Sound(w: World, back: bool) {
    w.catchUpReady ==> NothingHides(w.local, back)
  }

  // ---- Where a pass stands

  // A pass goes from the sample `from` to the sample `to`; the log had `begun` entries when it began.
  datatype Pass = Pass(w: World, back: bool, from: Epoch, to: Epoch, begun: nat)

  function Now(p: Pass): LocalTime {
    p.w.local(p.to)
  }

  predicate DueAt(p: Pass, a: Epoch, minute: nat, day: nat) {
    p.w.local(a).minute == minute && p.w.local(a).day == day
  }

  // That minute of that day was visited by `upTo`.
  ghost predicate Seen(p: Pass, minute: nat, day: nat, upTo: Epoch) {
    exists a: Epoch :: DueAt(p, a, minute, day) && Reaches(p.w.local, p.back, a, upTo)
  }

  // What holds when `today` is the latest day worked on.
  ghost predicate Settled(p: Pass, s: Sched, today: nat) {
    && SchedOk(s) && today <= Now(p).day && p.begun <= |s.log| && OncePerDay(s.log)
    && (forall i :: 0 <= i < s.config.count ==> s.lastRun[i] == NEVER || s.lastRun[i] <= today || Marked(p, s, i))
    && (forall n :: 0 <= n < |s.log| && Success(s.log[n]) ==> LogOk(p, s, n, today))
    && (s.retryPending && s.retryGeneration == s.config.generation ==> RetryOk(p, s, today))
  }

  // This pass's catch-up has marked the point, due at this very minute, with this day, and the point has not
  // been run since.
  predicate Marked(p: Pass, s: Sched, i: nat)
    requires SchedOk(s) && i < s.config.count && p.begun <= |s.log|
  {
    && p.w.catchUpReady && s.lastRun[i] == Now(p).day && s.config.points[i].minute == Now(p).minute
    && forall n :: p.begun <= n < |s.log| && Success(s.log[n]) ==> s.log[n].index != i
  }

  // A success is of a day no later than the point's last, at a minute that was visited: before this pass, for
  // a success from before this pass.
  ghost predicate LogOk(p: Pass, s: Sched, n: nat, today: nat)
    requires SchedOk(s) && n < |s.log|
  {
    var a := s.log[n];
    && a.index < s.config.count && a.day <= today && s.lastRun[a.index] != NEVER && a.day <= s.lastRun[a.index]
    && Seen(p, s.config.points[a.index].minute, a.day, if n < p.begun then p.from else p.to)
  }

  // A pending retry is of a day no earlier than any success, and of none of them.
  ghost predicate RetryOk(p: Pass, s: Sched, today: nat)
    requires SchedOk(s)
  {
    && s.retryDay <= today && !Done(s.log, s.retryIndex, s.retryDay)
    && (s.retryIndex < s.config.count ==> Seen(p, s.config.points[s.retryIndex].minute, s.retryDay, p.to))
    && forall n :: 0 <= n < |s.log| && Success(s.log[n]) ==> s.log[n].day <= s.retryDay
  }

  lemma {:induction false} LaterDay(p: Pass, s: Sched, today: nat, later: nat)
    requires Settled(p, s, today) && today <= later <= Now(p).day
    ensures Settled(p, s, later)
  {
    forall n | 0 <= n < |s.log| && Success(s.log[n])
      ensures LogOk(p, s, n, later)
    {
      assert LogOk(p, s, n, today);
    }
  }

  // One application of a point that has not been done that day, on the latest day or on the retry's.
  lemma {:induction false} ApplyKeeps(p: Pass, s: Sched, index: nat, catchUp: bool, day: nat, ms: u32, today: nat)
    requires Settled(p, s, today) && index < s.config.count
    requires catchUp || (day <= today < NEVER && !Done(s.log, index, day) &&
               Seen(p, s.config.points[index].minute, day, p.to) &&
               forall n :: 0 <= n < |s.log| && Success(s.log[n]) ==> s.log[n].day <= day)
    ensures Settled(p, ApplyPoint(p.w, s, index, catchUp, day, ms).1, today)
  {
    var (ok, t) := ApplyPoint(p.w, s, index, catchUp, day, ms);
    assert t.log == s.log + [Applied(index, catchUp, day, ok)];
    assert catchUp || forall k :: 0 <= k < |s.log| ==> !Hit(s.log[k], index, day);
    forall i, j | 0 <= i < j < |t.log| && Success(t.log[i])
      ensures !Hit(t.log[j], t.log[i].index, t.log[i].day)
    {
      assert t.log[i] == s.log[i];
    }
    forall i | 0 <= i < s.config.count
      ensures t.lastRun[i] == NEVER || t.lastRun[i] <= today || Marked(p, t, i)
    {
      if Marked(p, s, i) && t.lastRun[i] == s.lastRun[i] && i != index {
        assert forall n :: p.begun <= n < |t.log| && Success(t.log[n]) ==> t.log[n].index != i;
      }
    }
    forall n | 0 <= n < |t.log| && Success(t.log[n])
      ensures LogOk(p, t, n, today)
    {
      if n < |s.log| {
        assert t.log[n] == s.log[n] && LogOk(p, s, n, today);
      }
    }
    if t.retryPending && t.retryGeneration == t.config.generation {
      forall i | 0 <= i < |t.log|
        ensures !Hit(t.log[i], t.retryIndex, t.retryDay)
      {
        assert i < |s.log| ==> t.log[i] == s.log[i];
      }
    }
  }

  // An instant at which nothing seen before this pass is due again with its day marked away.
  ghost predicate Clear(p: Pass, b: Epoch) {
    var l := p.w.local(b);
    && Reaches(p.w.local, p.back, b, p.to)
    && (p.w.catchUpReady && l.day < Now(p).day && l.minute == Now(p).minute ==> !Seen(p, l.minute, l.day, p.from))
  }

  // A run of a point due at b, the latest instant so far.
  lemma {:induction false} RunScheduledKeeps(p: Pass, s: Sched, index: nat, b: Epoch, ms: u32, today: nat)
    requires Settled(p, s, today) && index < s.config.count && Due(s.config, index, p.w.local(b))
    requires today <= p.w.local(b).day <= Now(p).day && Clear(p, b)
    ensures Settled(p, RunScheduled(p.w, s, index, p.w.local(b).day, ms), p.w.local(b).day)
  {
    var l := p.w.local(b);
    LaterDay(p, s, today, l.day);
    if s.lastRun[index] != l.day {
      forall n | 0 <= n < |s.log|
        ensures !Hit(s.log[n], index, l.day)
      {
        assert Success(s.log[n]) ==> LogOk(p, s, n, today);
      }
      assert DueAt(p, b, l.minute, l.day);
      assert Seen(p, s.config.points[index].minute, l.day, p.to);
      assert forall n :: 0 <= n < |s.log| && Success(s.log[n]) ==> LogOk(p, s, n, today) && s.log[n].day <= l.day;
      hide ApplyPoint, Settled, Due, Seen;
      ApplyKeeps(p, s, index, false, l.day, ms, l.day);
    }
  }

  lemma {:induction false} RunMinuteKeeps(p: Pass, s: Sched, b: Epoch, ms: u32, i: nat, today: nat)
    requires Settled(p, s, today) && i <= s.config.count
    requires today <= p.w.local(b).day <= Now(p).day && Clear(p, b)
    ensures Settled(p, RunMinute(p.w, s, p.w.local(b), ms, i), p.w.local(b).day)
    decreases s.config.count - i
  {
    hide Due, Hit, LogOk, OncePerDay, RetryOk, Marked, RunScheduled, Clear;
    var l := p.w.local(b);
    LaterDay(p, s, today, l.day);
    if i < s.config.count {
      if Due(s.config, i, l) {
        RunScheduledKeeps(p, s, i, b, ms, today);
      }
      var next := if Due(s.config, i, l) then RunScheduled(p.w, s, i, l.day, ms) else s;
      RunMinuteKeeps(p, next, b, ms, i + 1, l.day);
    }
  }

  lemma {:induction false} RunRetryKeeps(p: Pass, s: Sched, ms: u32, today: nat)
    requires Settled(p, s, today)
    ensures Settled(p, RunRetry(p.w, s, ms), today)
  {
    if s.retryPending && s.retryGeneration == s.config.generation && s.retryIndex < s.config.count {
      assert RetryOk(p, s, today);
      hide ApplyPoint, Settled;
      ApplyKeeps(p, s, s.retryIndex, false, s.retryDay, ms, today);
    }
  }

  // A catch-up at the current minute marks its point with the current day, which the boundaries still to be
  // run may not have reached.
  lemma {:induction false} CatchUpKeeps(p: Pass, s: Sched, x: Sample, latest: nat, today: nat)
    requires x.Clock? && x.epoch == p.to && Settled(p, s, today) && p.begun == |s.log| && p.w.catchUpReady
    requires latest != NO_INDEX ==> latest < s.config.count
    ensures Settled(p, CatchUp(p.w, s, x, latest), today)
  {
    if latest == NO_INDEX {
      SameHistory(p, s, s.(catchUpPending := false, nextRetryMs := 0), today);
    } else {
      var (ok, t) := ApplyPoint(p.w, s, latest, true, Now(p).day, x.ms);
      ApplyKeeps(p, s, latest, true, Now(p).day, x.ms, today);
      if ok && s.config.points[latest].minute == Now(p).minute {
        assert forall n :: p.begun <= n < |t.log| ==> !Success(t.log[n]);
        hide ApplyPoint, OncePerDay, Settled;
        MarkKeeps(p, t, latest, today);
      }
    }
  }

  lemma {:induction false} MarkKeeps(p: Pass, s: Sched, index: nat, today: nat)
    requires Settled(p, s, today) && index < s.config.count && s.config.points[index].minute == Now(p).minute
    requires p.w.catchUpReady && forall n :: p.begun <= n < |s.log| ==> !Success(s.log[n])
    ensures Settled(p, s.(lastRun := s.lastRun[index := Now(p).day]), today)
  {
    var t := s.(lastRun := s.lastRun[index := Now(p).day]);
    assert Marked(p, t, index);
    forall i | 0 <= i < t.config.count
      ensures t.lastRun[i] == NEVER || t.lastRun[i] <= today || Marked(p, t, i)
    {
      assert i != index ==> s.lastRun[i] == NEVER || s.lastRun[i] <= today || Marked(p, s, i);
    }
    forall n | 0 <= n < |t.log| && Success(t.log[n])
      ensures LogOk(p, t, n, today)
    {
      assert LogOk(p, s, n, today);
    }
    assert t.retryPending && t.retryGeneration == t.config.generation ==> RetryOk(p, s, today);
  }

  // Clock fields and the catch-up flag play no part; a retry may be dropped.
  lemma {:induction false} SameHistory(p: Pass, s: Sched, t: Sched, today: nat)
    requires Settled(p, s, today) && SchedOk(t)
    requires t.config == s.config && t.lastRun == s.lastRun && t.log == s.log
    requires t.retryPending ==> s.retryPending && t.retryGeneration == s.retryGeneration &&
                                t.retryIndex == s.retryIndex && t.retryDay == s.retryDay
    ensures Settled(p, t, today)
  {
    forall n | 0 <= n < |t.log| && Success(t.log[n])
      ensures LogOk(p, t, n, today)
    {
      assert LogOk(p, s, n, today);
    }
    forall i | 0 <= i < t.config.count
      ensures t.lastRun[i] == NEVER || t.lastRun[i] <= today || Marked(p, t, i)
    {
      assert s.lastRun[i] == NEVER || s.lastRun[i] <= today || Marked(p, s, i);
    }
    if t.retryPending && t.retryGeneration == t.config.generation {
      assert RetryOk(p, s, today);
    }
  }

  // ---- The boundaries of one pass

  ghost predicate BoundariesOk(p: Pass, bs: seq<nat>, today: nat) {
    && (forall i :: 0 <= i < |bs| ==>
          bs[i] > VALID_EPOCH && today <= p.w.local(bs[i]).day <= Now(p).day && Clear(p, bs[i]))
    && (forall i, j :: 0 <= i <= j < |bs| ==> p.w.local(bs[i]).day <= p.w.local(bs[j]).day)
  }

  lemma {:induction false} RunBoundariesKeeps(p: Pass, s: Sched, bs: seq<nat>, ms: u32, today: nat)
    requires Settled(p, s, today) && BoundariesOk(p, bs, today)
    ensures Settled(p, RunBoundaries(p.w, s, bs, ms), Now(p).day)
    decreases |bs|
  {
    assert SchedOk(s) && today <= Now(p).day;
    hide Settled, RunMinute, Clear;
    if |bs| == 0 {
      LaterDay(p, s, today, Now(p).day);
    } else {
      RunMinuteKeeps(p, s, bs[0], ms, 0, today);
      RunBoundariesKeeps(p, RunMinute(p.w, s, p.w.local(bs[0]), ms, 0), bs[1..], ms, p.w.local(bs[0]).day);
    }
  }

  // The sample before a continuous one came no earlier than the last one worked on.
  predicate Follows(local: Calendar, back: bool, from: Epoch, s: Sched)
    requires SchedOk(s)
  {
    s.clockValid ==> Reaches(local, back, from, s.wallEpoch)
  }

  // A whole minute between two continuous samples is clear when nothing hides.
  lemma {:induction false} BoundaryClear(p: Pass, previous: Epoch, b: Epoch)
    requires DaysForward(p.w.local) && Sound(p.w, p.back)
    requires previous < b <= p.to <= previous + CONTINUITY_LIMIT && b % 60 == 0
    requires Reaches(p.w.local, p.back, p.from, previous)
    ensures Clear(p, b)
  {
    var l := p.w.local(b);
    if p.w.catchUpReady && l.day < Now(p).day && l.minute == Now(p).minute {
      forall a: Epoch | DueAt(p, a, l.minute, l.day)
        ensures !Reaches(p.w.local, p.back, a, p.from)
      {
        assert !Hides(p.w.local, p.back, a, b, p.to);
        assert p.w.local(previous).day <= p.w.local(b - 1).day <= p.w.local(b).day;
      }
    }
  }

  lemma {:induction false} CrossedOk(p: Pass, s: Sched, x: Sample, today: nat)
    requires DaysForward(p.w.local) && Sound(p.w, p.back) && SchedOk(s)
    requires x.Clock? && x.epoch == p.to && Follows(p.w.local, p.back, p.from, s) && today <= p.w.local(p.from).day
    ensures BoundariesOk(p, Crossed(s, x), today)
  {
    hide Continuous, Sound, Clear;
    if s.config.enabled && ContinuousAt(s, x) && s.wallEpoch < x.epoch {
      ContinuousForward(s, x);
      BoundariesAt(NextBoundary(s.wallEpoch), x.epoch);
      var bs := BoundariesFrom(NextBoundary(s.wallEpoch), x.epoch);
      assert Crossed(s, x) == bs;
      assert s.wallEpoch < NextBoundary(s.wallEpoch) && NextBoundary(s.wallEpoch) % 60 == 0;
      assert p.w.local(p.from).day <= p.w.local(s.wallEpoch).day;
      hide BoundariesFrom, NextBoundary;
      forall i | 0 <= i < |bs|
        ensures s.wallEpoch < bs[i] <= x.epoch && bs[i] % 60 == 0 && Clear(p, bs[i])
      {
        assert i <= (x.epoch - NextBoundary(s.wallEpoch)) / 60;
        BoundaryClear(p, s.wallEpoch, bs[i]);
      }
    }
  }

  // ---- Between passes

  // The state after the pass that ended with the sample `from`.
  ghost predicate Rest(w: World, back: bool, s: Sched, from: Epoch) {
    && SchedOk(s) && Settled(Pass(w, back, from, from, |s.log|), s, w.local(from).day)
    && Follows(w.local, back, from, s)
  }

  lemma {:induction false} NextPass(w: World, back: bool, s: Sched, from: Epoch, to: Epoch)
    requires DaysForward(w.local) && Rest(w, back, s, from) && Reaches(w.local, back, from, to)
    ensures Settled(Pass(w, back, from, to, |s.log|), s, w.local(from).day)
  {
    var p, q := Pass(w, back, from, from, |s.log|), Pass(w, back, from, to, |s.log|);
    forall n | 0 <= n < |s.log| && Success(s.log[n])
      ensures LogOk(q, s, n, w.local(from).day)
    {
      assert LogOk(p, s, n, w.local(from).day);
      SeenLater(p, q, s.config.points[s.log[n].index].minute, s.log[n].day, from, from);
    }
    if s.retryPending && s.retryGeneration == s.config.generation {
      assert RetryOk(p, s, w.local(from).day);
      if s.retryIndex < s.config.count {
        SeenLater(p, q, s.config.points[s.retryIndex].minute, s.retryDay, from, to);
      }
    }
  }

  lemma {:induction false} SeenLater(p: Pass, q: Pass, minute: nat, day: nat, upTo: Epoch, later: Epoch)
    requires q.w == p.w && q.back == p.back && Seen(p, minute, day, upTo)
    requires Reaches(p.w.local, p.back, upTo, later)
    ensures Seen(q, minute, day, later)
  {
    var a: Epoch :| DueAt(p, a, minute, day) && Reaches(p.w.local, p.back, a, upTo);
    assert DueAt(q, a, minute, day) && Reaches(q.w.local, q.back, a, later);
  }

  lemma {:induction false} EndPass(p: Pass, s: Sched)
    requires Settled(p, s, Now(p).day) && Reaches(p.w.local, p.back, p.from, p.to)
    ensures Settled(Pass(p.w, p.back, p.to, p.to, |s.log|), s, Now(p).day)
  {
    var q := Pass(p.w, p.back, p.to, p.to, |s.log|);
    forall n | 0 <= n < |s.log| && Success(s.log[n])
      ensures LogOk(q, s, n, Now(p).day)
    {
      assert LogOk(p, s, n, Now(p).day);
      SeenLater(p, q, s.config.points[s.log[n].index].minute, s.log[n].day, if n < p.begun then p.from else p.to, p.to);
    }
    forall i | 0 <= i < s.config.count
      ensures s.lastRun[i] == NEVER || s.lastRun[i] <= Now(p).day
    {
      assert s.lastRun[i] == NEVER || s.lastRun[i] <= Now(p).day || Marked(p, s, i);
    }
    if s.retryPending && s.retryGeneration == s.config.generation {
      assert RetryOk(p, s, Now(p).day);
      if s.retryIndex < s.config.count {
        SeenLater(p, q, s.config.points[s.retryIndex].minute, s.retryDay, p.to, p.to);
      }
    }
  }

  // One pass to a sample that may follow the last one.
  // The state a pass starts from: the sample taken, and a catch-up that is not wanted dropped.
  ghost function Readied(w: World, s: Sched, x: Sample): Sched
    requires SchedOk(s)
  {
    var taken := TakeSample(s, x);
    if CatchUpDue(taken, x) && !w.catchUpReady then taken.(catchUpPending := false) else taken
  }

  lemma {:induction false} ReadiedKeeps(p: Pass, s: Sched, x: Sample, today: nat)
    requires SchedOk(s) && Settled(p, s, today) && x.Clock?
    ensures Settled(p, Readied(p.w, s, x), today) && Readied(p.w, s, x).log == s.log
  {
    hide Settled, CatchUpDue, TakeSample;
    TakenIs(s, x);
    SameHistory(p, s, Readied(p.w, s, x), today);
  }

  lemma {:induction false} EnabledKeeps(p: Pass, s: Sched, x: Sample, latest: nat, today: nat)
    requires DaysForward(p.w.local) && Sound(p.w, p.back) && SchedOk(s) && p.begun == |s.log| && s.config.enabled
    requires latest != NO_INDEX ==> latest < s.config.count
    requires x.Clock? && x.epoch == p.to && Follows(p.w.local, p.back, p.from, s) && today <= p.w.local(p.from).day
    requires Settled(p, s, today)
    ensures Settled(p, Tick(p.w, s, x, latest), Now(p).day)
  {
    hide DaysForward, Sound, Settled, CatchUp, RunRetry, RunBoundaries, RunMinute, TakeSample, CatchUpDue, Crossed,
         ContinuousAt;
    ReadiedKeeps(p, s, x, today);
    TakenIs(s, x);
    var ready, due := Readied(p.w, s, x), CatchUpDue(TakeSample(s, x), x);
    var caught := if due && p.w.catchUpReady then CatchUp(p.w, ready, x, latest) else ready;
    if due && p.w.catchUpReady { CatchUpKeeps(p, ready, x, latest, today); }
    RunRetryKeeps(p, caught, x.ms, today);
    CrossedOk(p, s, x, today);
    var retried := RunRetry(p.w, caught, x.ms);
    RunBoundariesKeeps(p, retried, Crossed(s, x), x.ms, today);
    NowIsClear(p);
    RunMinuteKeeps(p, RunBoundaries(p.w, retried, Crossed(s, x), x.ms), x.epoch, x.ms, 0, Now(p).day);
  }

  lemma {:induction false} TickKeeps(w: World, back: bool, s: Sched, x: Sample, latest: nat, from: Epoch)
    requires DaysForward(w.local) && Sound(w, back) && Rest(w, back, s, from)
    requires latest != NO_INDEX ==> latest < s.config.count
    requires x.Clock? ==> Reaches(w.local, back, from, x.epoch)
    ensures Rest(w, back, Tick(w, s, x, latest), if x.Clock? then x.epoch else from)
  {
    if x.NoClock? {
      NoClockKeeps(w, back, s, x, latest, from);
    } else {
      hide DaysForward, Sound, Settled, CatchUp, RunRetry, RunBoundaries, RunMinute, TakeSample, CatchUpDue, Crossed,
           ContinuousAt;
      var p, today := Pass(w, back, from, x.epoch, |s.log|), w.local(from).day;
      NextPass(w, back, s, from, x.epoch);
      ForwardDay(w.local, back, from, x.epoch);
      if s.config.enabled {
        EnabledKeeps(p, s, x, latest, today);
      } else {
        ReadiedKeeps(p, s, x, today);
        LaterDay(p, Readied(w, s, x), today, Now(p).day);
      }
      EndPass(p, Tick(w, s, x, latest));
      TickKeepsSample(w, s, x, latest);
    }
  }

  lemma {:induction false} NowIsClear(p: Pass)
    ensures Clear(p, p.to)
  {
  }

  lemma {:induction false} ForwardDay(local: Calendar, back: bool, from: Epoch, to: Epoch)
    requires DaysForward(local) && Reaches(local, back, from, to)
    ensures local(from).day <= local(to).day
  {
  }

  lemma {:induction false} TakenIs(s: Sched, x: Sample)
    requires SchedOk(s)
    ensures var t := TakeSample(s, x);
            && t.lastRun == s.lastRun && t.log == s.log
            && (t.retryPending ==> s.retryPending && t.retryGeneration == s.retryGeneration &&
                                   t.retryIndex == s.retryIndex && t.retryDay == s.retryDay)
  {
  }

  lemma {:induction false} NoClockKeeps(w: World, back: bool, s: Sched, x: Sample, latest: nat, from: Epoch)
    requires Rest(w, back, s, from) && x.NoClock? && (latest != NO_INDEX ==> latest < s.config.count)
    ensures Rest(w, back, Tick(w, s, x, latest), from)
  {
    hide Settled;
    var p, t := Pass(w, back, from, from, |s.log|), Tick(w, s, x, latest);
    SameHistory(p, s, t, w.local(from).day);
  }

  // ---- Runs

  // Each sample may follow the one before.
  predicate RunOk(local: Calendar, back: bool, xs: seq<(Sample, nat)>, from: Epoch)
    decreases |xs|
  {
    if |xs| == 0 then true
    else if xs[0].0.Clock? then
      Reaches(local, back, from, xs[0].0.epoch) && RunOk(local, back, xs[1..], xs[0].0.epoch)
    else RunOk(local, back, xs[1..], from)
  }

  // Each pass is given the point its catch-up finds.
  ghost predicate LatestOk(local: Calendar, c: Config, x: Sample, latest: nat)
    requires c.count <= MAX_POINTS
  {
    && (latest != NO_INDEX ==> latest < c.count)
    && (x.Clock? ==> exists age: nat :: IsLatest(c, local(x.epoch), latest, age))
  }

  ghost predicate Genuine(local: Calendar, c: Config, xs: seq<(Sample, nat)>)
    requires c.count <= MAX_POINTS
  {
    forall i :: 0 <= i < |xs| ==> LatestOk(local, c, xs[i].0, xs[i].1)
  }

  lemma {:induction false} RunKeeps(w: World, back: bool, s: Sched, xs: seq<(Sample, nat)>, from: Epoch)
    requires DaysForward(w.local) && Sound(w, back) && Rest(w, back, s, from)
    requires Genuine(w.local, s.config, xs) && RunOk(w.local, back, xs, from)
    ensures OncePerDay(RunTicks(w, s, xs).log)
    decreases |xs|
  {
    assert SchedOk(s) && OncePerDay(s.log);
    assert forall i :: 0 <= i < |xs| ==> LatestOk(w.local, s.config, xs[i].0, xs[i].1);
    hide Tick, DaysForward, Sound, OncePerDay, Rest, LatestOk;
    if |xs| > 0 {
      var x := xs[0].0;
      LatestInRange(w.local, s.config, x, xs[0].1);
      TickKeeps(w, back, s, x, xs[0].1, from);
      RunKeeps(w, back, Tick(w, s, x, xs[0].1), xs[1..], if x.Clock? then x.epoch else from);
    }
  }

  lemma {:induction false} LatestInRange(local: Calendar, c: Config, x: Sample, latest: nat)
    requires c.count <= MAX_POINTS && LatestOk(local, c, x, latest)
    ensures latest != NO_INDEX ==> latest < c.count
  {
  }

  // The scheduler as a start or a commit leaves it.
  predicate JustCommitted(s: Sched, maxAction: nat) {
    && ConfigValid(maxAction, s.config) && |s.lastRun| == MAX_POINTS
    && (forall i :: 0 <= i < MAX_POINTS ==> s.lastRun[i] == NEVER)
    && !s.retryPending && s.log == []
    && (s.clockValid ==> s.wallEpoch > VALID_EPOCH)
  }

  const FIRST_EPOCH: Epoch := VALID_EPOCH + 1

  // From a commit on, over any passes, whatever the application answers, without catch-up or on a calendar
  // that hides nothing: no point is successfully applied on schedule twice on one day.
  lemma {:induction false} AtMostOncePerDay(w: World, back: bool, maxAction: nat, s: Sched, xs: seq<(Sample, nat)>)
    requires DaysForward(w.local) && Sound(w, back)
    requires JustCommitted(s, maxAction) && Genuine(w.local, s.config, xs) && RunOk(w.local, back, xs, FIRST_EPOCH)
    ensures SchedOk(s) && OncePerDay(RunTicks(w, s, xs).log)
  {
    hide RunTicks, RunOk, Genuine, Sound;
    assert Rest(w, back, s, FIRST_EPOCH);
    RunKeeps(w, back, s, xs, FIRST_EPOCH);
  }
}
