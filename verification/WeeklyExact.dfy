// Exactly which calendars let a point succeed twice on one day, and which everyday conditions rule them out
// (keemash_weekly_schedule.c:452-515).
module WeeklyExact {
  import opened Base
  import opened WeeklyCalendar
  import opened WeeklyRun
  import opened WeeklyOnce

  type Samples = seq<(Sample, nat)>

  // A run of passes from a commit on, each given the point its catch-up finds.
  ghost predicate Possible(w: World, back: bool, s: Sched, xs: Samples) {
    && (exists maxAction: nat :: JustCommitted(s, maxAction)) && SchedOk(s)
    && Genuine(w.local, s.config, xs) && RunOk(w.local, back, xs, FIRST_EPOCH)
  }

  // On this calendar, whatever is configured and whatever the application answers, no run does a point twice.
  ghost predicate AlwaysOnce(local: Calendar, back: bool, catchUp: bool) {
    forall answer: nat -> bool, s: Sched, xs: Samples ::
      Possible(World(local, answer, catchUp), back, s, xs) ==>
        OncePerDay(RunTicks(World(local, answer, catchUp), s, xs).log)
  }

  // Local days never going back, the scheduler keeps to once a day on just the calendars that hide nothing.
  lemma {:induction false} AtMostOnceExactly(local: Calendar, back: bool, catchUp: bool)
    requires DaysForward(local)
    ensures AlwaysOnce(local, back, catchUp) <==> !catchUp || NothingHides(local, back)
  {
    if !catchUp || NothingHides(local, back) {
      forall answer: nat -> bool, s: Sched, xs: Samples | Possible(World(local, answer, catchUp), back, s, xs)
        ensures OncePerDay(RunTicks(World(local, answer, catchUp), s, xs).log)
      {
        var maxAction: nat :| JustCommitted(s, maxAction);
        AtMostOncePerDay(World(local, answer, catchUp), back, maxAction, s, xs);
      }
    } else {
      var a: Epoch, b: Epoch, c: Epoch :| Hides(local, back, a, b, c);
      var w, s, xs := HidingWorld(local), AtStart(local(b).minute), HidingRun(a, b, c);
      HidingRunsTwice(local, back, a, b, c);
      assert Possible(World(local, w.answer, true), back, s, xs);
    }
  }

  // There is always an answer to what a catch-up looks for.
  lemma {:induction false} SomeLatest(c: Config, l: LocalTime) returns (latest: nat, age: nat)
    requires c.count <= MAX_POINTS
    ensures IsLatest(c, l, latest, age) && (latest != NO_INDEX ==> latest < c.count)
  {
    hide Occurs;
    var now := l.weekday * DAY + l.minute;
    latest, age := NO_INDEX, 0;
    while age <= 6 * DAY + l.minute
      invariant forall k, t :: 0 <= k < c.count && now - age < t <= now ==> !Occurs(c.points[k], t)
    {
      if k: nat :| k < c.count && Occurs(c.points[k], now - age) {
        latest := k;
        return;
      }
      age := age + 1;
    }
  }

  // A pass does the same whatever point it is given, when no catch-up is due: it may as well be a right one.
  lemma {:induction false} PassIsGenuine(w: World, s: Sched, x: Sample, latest: nat, age: nat) returns (genuine: nat)
    requires SchedOk(s) && (latest != NO_INDEX ==> latest < s.config.count)
    requires CatchUpDue(TakeSample(s, x), x) && w.catchUpReady ==> IsLatest(s.config, w.local(x.epoch), latest, age)
    ensures LatestOk(w.local, s.config, x, genuine) && Tick(w, s, x, genuine) == Tick(w, s, x, latest)
  {
    hide IsLatest, CatchUpDue;
    genuine := latest;
    if x.Clock? && !(CatchUpDue(TakeSample(s, x), x) && w.catchUpReady) {
      var someAge;
      genuine, someAge := SomeLatest(s.config, w.local(x.epoch));
    }
  }

  // ---- A hidden success

  // The first and the second catch-up fail; everything else succeeds.
  function HidingWorld(local: Calendar): World {
    World(local, n => n != 0 && n != 2, true)
  }

  // One point, every day.
  function OnePoint(minute: nat): Config {
    ConfigData(1, true, false, 1,
               [Point(true, minute, 0, 127), NO_POINT, NO_POINT, NO_POINT, NO_POINT, NO_POINT, NO_POINT, NO_POINT])
  }

  function AtStart(minute: nat): Sched {
    Sched(OnePoint(minute), [NEVER, NEVER, NEVER, NEVER, NEVER, NEVER, NEVER, NEVER], true, false, 0, 0,
          false, 0, 0, 0, 0, [])
  }

  // A sample at a, an unset clock, and continuous samples around b.
  function HidingRun(a: Epoch, b: Epoch, c: Epoch): Samples
    requires b - 1 > VALID_EPOCH && b < c < b + CONTINUITY_LIMIT
  {
    [(Clock(1000, a), 0), (NoClock(2000), 0), (Clock(3000, b - 1), 0), (Clock(3000 + (c - b + 6) * 1000, c), 0)]
  }

  // The scheduler after a failed catch-up and then a success, on day `day`.
  function Ran(minute: nat, day: nat): Sched {
    AtStart(minute).(clockValid := false, lastRun := AtStart(minute).lastRun[0 := day],
                     log := [Applied(0, true, day, false), Applied(0, false, day, true)])
  }

  // One run of the only point, when it is due and has not run that day.
  lemma {:induction false} OnlyPointRuns(w: World, s: Sched, l: LocalTime, ms: u32, minute: nat)
    requires minute < DAY && SchedOk(s) && s.config == OnePoint(minute) && !s.retryPending
    ensures var t := RunMinute(w, s, l, ms, 0);
            && (l.minute != minute || s.lastRun[0] == l.day ==> t == s)
            && (l.minute == minute && s.lastRun[0] != l.day && w.answer(|s.log|) ==>
                  t == s.(nextRetryMs := 0, lastRun := s.lastRun[0 := l.day],
                          log := s.log + [Applied(0, false, l.day, true)]))
  {
    assert l.weekday < 7 && AppliesOn(s.config.points[0], l.weekday);
    assert Due(s.config, 0, l) <==> l.minute == minute;
    var next := if Due(s.config, 0, l) then RunScheduled(w, s, 0, l.day, ms) else s;
    assert RunMinute(w, s, l, ms, 0) == RunMinute(w, next, l, ms, 1);
  }

  // The catch-up always finds the only point, from today or yesterday.
  lemma {:induction false} OnlyPointIsLatest(l: LocalTime, minute: nat)
    requires minute < DAY
    ensures exists age: nat :: IsLatest(OnePoint(minute), l, 0, age)
  {
    var now, age, point := l.weekday * DAY + l.minute, (l.minute - minute) % DAY, OnePoint(minute).points[0];
    DailyAge(l.weekday, l.minute, minute);
    EveryDay(point, now - age);
    hide AppliesOn;
    forall t | now - age < t <= now
      ensures !Occurs(point, t)
    {
      Remainders(t, now - age);
    }
    hide Occurs;
    assert LastUpTo(OnePoint(minute), now, 0, age);
    assert IsLatest(OnePoint(minute), l, 0, age);
  }

  lemma {:induction false} DailyAge(weekday: nat, now: nat, minute: nat)
    requires now < DAY && minute < DAY
    ensures var age := (now - minute) % DAY;
            && 0 <= age < DAY && (weekday * DAY + now - age) % DAY == minute
            && InWindow(weekday, now, weekday * DAY + now - age)
  {
  }

  lemma {:induction false} EveryDay(point: Point, t: int)
    requires point.enabled && point.days == 127 && t % DAY == point.minute
    ensures Occurs(point, t)
  {
    var day := t / DAY % 7;
    assert OnDay(127, day);
  }

  lemma {:induction false} Remainders(t: int, u: int)
    requires u < t < u + DAY
    ensures t % DAY != u % DAY
  {
  }

  // The first pass: the catch-up fails, the scheduled run succeeds.
  lemma {:induction false} FirstPass(local: Calendar, a: Epoch)
    requires SchedOk(AtStart(local(a).minute))
    ensures Tick(HidingWorld(local), AtStart(local(a).minute), Clock(1000, a), 0) ==
            Ran(local(a).minute, local(a).day).(clockValid := true, wallEpoch := a, sampleMs := 1000)
  {
    hide RunMinute;
    var w, s, x := HidingWorld(local), AtStart(local(a).minute), Clock(1000, a);
    var taken := TakeSample(s, x);
    var caught := CatchUp(w, taken, x, 0);
    assert caught == taken.(nextRetryMs := 6000, log := [Applied(0, true, local(a).day, false)]);
    assert RunRetry(w, caught, 1000) == caught && Crossed(s, x) == [];
    OnlyPointRuns(w, caught, local(a), 1000, local(a).minute);
  }

  // The third, after the clock was lost: the catch-up fails again, and the point has run that day or is not due.
  lemma {:induction false} ThirdPass(local: Calendar, s: Sched, minute: nat, x: Epoch, ms: u32)
    requires minute < DAY && SchedOk(Ran(minute, local(x).day)) && ms + RETRY_MS < WORDS
    requires s.clockValid == false && s == Ran(minute, local(x).day).(wallEpoch := s.wallEpoch, sampleMs := s.sampleMs)
    ensures SchedOk(s)
    ensures Tick(HidingWorld(local), s, Clock(ms, x), 0) ==
            s.(catchUpPending := true, nextRetryMs := ms + RETRY_MS, clockValid := true, wallEpoch := x, sampleMs := ms,
               log := s.log + [Applied(0, true, local(x).day, false)])
  {
    hide RunMinute;
    var w, sample := HidingWorld(local), Clock(ms, x);
    var taken := TakeSample(s, sample);
    var caught := CatchUp(w, taken, sample, 0);
    assert RunRetry(w, caught, ms) == caught && Crossed(s, sample) == [];
    OnlyPointRuns(w, caught, local(x), ms, minute);
  }

  // The last: its catch-up marks the later day, and the boundary b runs the point again.
  lemma {:induction false} FourthPass(local: Calendar, s: Sched, minute: nat, b: Epoch, c: Epoch)
    requires minute < DAY && SchedOk(s) && s.config == OnePoint(minute) && |s.log| == 3 && !s.retryPending
    requires s.catchUpPending && s.nextRetryMs == 8000
    requires s.clockValid && s.wallEpoch == b - 1 && s.sampleMs == 3000
    requires b % 60 == 0 && b < c < b + CONTINUITY_LIMIT
    requires local(b).minute == local(c).minute == minute && local(b).day < local(c).day
    ensures var log := Tick(HidingWorld(local), s, Clock(3000 + (c - b + 6) * 1000, c), 0).log;
            |log| > 4 && s.log <= log && Hit(log[4], 0, local(b).day)
  {
    var w, x := HidingWorld(local), Clock(3000 + (c - b + 6) * 1000, c);
    LongStep(s, x, b, c);
    hide RunMinute, RunBoundaries, BoundariesFrom, ContinuousAt;
    var taken := TakeSample(s, x);
    var caught := CatchUp(w, taken, x, 0);
    assert caught == taken.(catchUpPending := false, nextRetryMs := 0, lastRun := s.lastRun[0 := local(c).day],
                            log := s.log + [Applied(0, true, local(c).day, true)]);
    assert RunRetry(w, caught, x.ms) == caught;
    OnlyPointRuns(w, caught, local(b), x.ms, minute);
    var again := RunMinute(w, caught, local(b), x.ms, 0);
    assert Hit(again.log[4], 0, local(b).day);
    BoundariesLogGrows(w, caught, Crossed(s, x), x.ms, b);
    var crossed := RunBoundaries(w, caught, Crossed(s, x), x.ms);
    LogGrows(w, crossed, local(c), x.ms, 0);
  }

  // From just before b, the pass is continuous and crosses b first.
  lemma {:induction false} LongStep(s: Sched, x: Sample, b: Epoch, c: Epoch)
    requires s.clockValid && s.wallEpoch == b - 1 && s.sampleMs == 3000
    requires b % 60 == 0 && b < c < b + CONTINUITY_LIMIT
    requires x == Clock(3000 + (c - b + 6) * 1000, c) && s.config.enabled
    ensures ContinuousAt(s, x) && |Crossed(s, x)| > 0 && Crossed(s, x)[0] == b && DeadlineReached(x.ms, 8000)
  {
    assert Sub(x.ms, s.sampleMs) == (c - b + 6) * 1000;
    assert NextBoundary(b - 1) == b;
    BoundariesAt(b, c);
  }

  lemma {:induction false} BoundariesLogGrows(w: World, s: Sched, bs: seq<nat>, ms: u32, b: nat)
    requires SchedOk(s) && |bs| > 0 && bs[0] == b
    ensures RunMinute(w, s, w.local(b), ms, 0).log <= RunBoundaries(w, s, bs, ms).log
    decreases |bs|
  {
    hide RunMinute;
    var next := RunMinute(w, s, w.local(b), ms, 0);
    if |bs| > 1 {
      BoundariesLogGrows(w, next, bs[1..], ms, bs[1]);
      LogGrows(w, next, w.local(bs[1]), ms, 0);
    }
  }

  lemma {:induction false} FourTicks(w: World, s: Sched, xs: Samples)
    requires SchedOk(s) && |xs| == 4
    requires forall i :: 0 <= i < |xs| ==> xs[i].1 == 0 < s.config.count
    ensures RunTicks(w, s, xs) ==
            Tick(w, Tick(w, Tick(w, Tick(w, s, xs[0].0, 0), xs[1].0, 0), xs[2].0, 0), xs[3].0, 0)
  {
    hide Tick;
    var (s1, xs1) := (Tick(w, s, xs[0].0, 0), xs[1..]);
    var (s2, xs2) := (Tick(w, s1, xs[1].0, 0), xs1[1..]);
    var (s3, xs3) := (Tick(w, s2, xs[2].0, 0), xs2[1..]);
    assert RunTicks(w, s, xs) == RunTicks(w, s1, xs1);
    assert RunTicks(w, s1, xs1) == RunTicks(w, s2, xs2);
    assert RunTicks(w, s2, xs2) == RunTicks(w, s3, xs3);
    assert |xs3[1..]| == 0;
  }

  lemma {:induction false} StartIsCommitted(minute: nat)
    requires minute < DAY
    ensures JustCommitted(AtStart(minute), 0) && SchedOk(AtStart(minute))
  {
    assert PointValid(0, OnePoint(minute).points[0]);
  }

  lemma {:induction false} HidingRunIsPossible(local: Calendar, back: bool, a: Epoch, b: Epoch, c: Epoch)
    requires DaysForward(local) && Hides(local, back, a, b, c)
    ensures Possible(HidingWorld(local), back, AtStart(local(b).minute), HidingRun(a, b, c))
  {
    var xs, config := HidingRun(a, b, c), OnePoint(local(b).minute);
    StartIsCommitted(local(b).minute);
    forall i | 0 <= i < |xs|
      ensures LatestOk(local, config, xs[i].0, xs[i].1)
    {
      if xs[i].0.Clock? { OnlyPointIsLatest(local(xs[i].0.epoch), local(b).minute); }
    }
    assert local(FIRST_EPOCH).day <= local(a).day;
    assert RunOk(local, back, xs[1..][1..][1..], b - 1);
    assert RunOk(local, back, xs[1..], a);
  }

  // The clock is lost.
  lemma {:induction false} SecondPass(w: World, s: Sched)
    requires SchedOk(s) && s.config.count > 0
    ensures Tick(w, s, NoClock(2000), 0) == s.(clockValid := false)
  {
  }

  // What the first three passes leave.
  function AfterThree(minute: nat, day: nat, b: Epoch): Sched
    requires b - 1 > VALID_EPOCH
  {
    var s := Ran(minute, day);
    s.(catchUpPending := true, nextRetryMs := 3000 + RETRY_MS, clockValid := true, wallEpoch := b - 1, sampleMs := 3000,
       log := s.log + [Applied(0, true, day, false)])
  }

  lemma {:induction false} ThreePasses(local: Calendar, a: Epoch, b: Epoch)
    requires b - 1 > VALID_EPOCH && SameMinute(local, a, b) && local(a).day == local(b - 1).day == local(b).day
    requires SchedOk(AtStart(local(b).minute))
    ensures var w, s := HidingWorld(local), AtStart(local(b).minute);
            Tick(w, Tick(w, Tick(w, s, Clock(1000, a), 0), NoClock(2000), 0), Clock(3000, b - 1), 0) ==
            AfterThree(local(b).minute, local(b).day, b)
  {
    var w, s := HidingWorld(local), AtStart(local(b).minute);
    FirstPass(local, a);
    hide Tick, HidingWorld;
    var s1 := Tick(w, s, Clock(1000, a), 0);
    SecondPass(w, s1);
    ThirdPass(local, Tick(w, s1, NoClock(2000), 0), local(b).minute, b - 1, 3000);
  }

  // Whatever hides a success makes some run do a point twice on one day.
  lemma {:induction false} HidingRunsTwice(local: Calendar, back: bool, a: Epoch, b: Epoch, c: Epoch)
    requires DaysForward(local) && Hides(local, back, a, b, c)
    ensures Possible(HidingWorld(local), back, AtStart(local(b).minute), HidingRun(a, b, c))
    ensures !OncePerDay(RunTicks(HidingWorld(local), AtStart(local(b).minute), HidingRun(a, b, c)).log)
  {
    HidingRunIsPossible(local, back, a, b, c);
    assert local(b - 1).day == local(b).day by {
      assert !back ==> local(a).day <= local(b - 1).day;
    }
    hide Tick, Possible, RunTicks, DaysForward, HidingWorld, OncePerDay, Hit, SchedOk;
    var w, s, xs, minute := HidingWorld(local), AtStart(local(b).minute), HidingRun(a, b, c), local(b).minute;
    ThreePasses(local, a, b);
    FourTicks(w, s, xs);
    var s3 := AfterThree(minute, local(b).day, b);
    FourthPass(local, s3, minute, b, c);
    var log := RunTicks(w, s, xs).log;
    assert log[1] == s3.log[1] == Applied(0, false, local(b).day, true);
    RunTwice(log, 1, 4);
  }

  lemma {:induction false} RunTwice(log: seq<Applied>, i: nat, j: nat)
    requires i < j < |log| && Success(log[i]) && Hit(log[j], log[i].index, log[i].day)
    ensures !OncePerDay(log)
  {
  }
}
