// The scheduler as one object: its task's loops, staging, and the stored copy of the configuration
// (keemash_weekly_schedule.c:213-515, 614-695).
module WeeklyScheduler {
  import opened Base
  import opened WeeklyCalendar
  import opened WeeklyRun
  import opened WeeklyOnce

  // ---- The stored copy: action and enabled flag share a byte

  const ENABLED_FLAG: nat := 128

  datatype StoredPoint = StoredPoint(minute: nat, days: nat, actionFlags: nat)

  datatype Blob = Blob(generation: nat, enabled: bool, persistent: bool, count: nat, points: seq<StoredPoint>)

  // action | flag, on a byte
  function ActionFlags(point: Point): nat {
    if point.enabled && point.action < ENABLED_FLAG then point.action + ENABLED_FLAG else point.action
  }

  function StorePoint(point: Point): StoredPoint {
    StoredPoint(point.minute, point.days, ActionFlags(point))
  }

  function LoadPoint(stored: StoredPoint): Point {
    Point(stored.actionFlags >= ENABLED_FLAG, stored.minute, stored.actionFlags % ENABLED_FLAG, stored.days)
  }

  function ConfigToBlob(c: Config): Blob
    requires c.count <= MAX_POINTS
  {
    Blob(c.generation, c.enabled, c.persistent, c.count,
         seq(MAX_POINTS, i requires 0 <= i < MAX_POINTS =>
           if i < c.count then StorePoint(c.points[i]) else StoredPoint(0, 0, 0)))
  }

  function BlobToConfig(b: Blob): Config
    requires |b.points| == MAX_POINTS
  {
    ConfigData(b.generation, b.enabled, b.persistent, b.count,
               seq(MAX_POINTS, i requires 0 <= i < MAX_POINTS =>
                 if i < b.count then LoadPoint(b.points[i]) else NO_POINT))
  }

  predicate SameConfig(a: Config, b: Config) {
    && a.generation == b.generation && a.enabled == b.enabled && a.persistent == b.persistent && a.count == b.count
    && forall i :: 0 <= i < a.count && i < MAX_POINTS ==> a.points[i] == b.points[i]
  }

  // Storing and loading give a configuration back exactly when no action needs the bit of the enabled flag.
  lemma {:induction false} StoreThenLoad(c: Config)
    requires c.count <= MAX_POINTS && forall i :: 0 <= i < c.count ==> c.points[i].action < 256
    ensures SameConfig(BlobToConfig(ConfigToBlob(c)), c) <==>
            forall i :: 0 <= i < c.count ==> c.points[i].action < ENABLED_FLAG
  {
    var back := BlobToConfig(ConfigToBlob(c));
    forall i | 0 <= i < c.count
      ensures back.points[i] == c.points[i] <==> c.points[i].action < ENABLED_FLAG
    {
      assert back.points[i] == LoadPoint(StorePoint(c.points[i]));
    }
  }

  // ---- Staging

  datatype Stage = Stage(active: bool, started: u32, received: seq<bool>, config: Config)

  const NO_STAGE: Stage := Stage(false, 0, [], ConfigData(0, false, false, 0, NoPoints()))

  datatype Status = Fine | InvalidArg | InvalidState | StoreFailed

  // The low `count` bits of the received mask, and no others.
  function AllReceived(count: nat): (mask: seq<bool>)
    ensures |mask| == MAX_POINTS
  {
    seq(MAX_POINTS, i => i < count)
  }

  function NoneReceived(): (mask: seq<bool>)
    ensures |mask| == MAX_POINTS
  {
    seq(MAX_POINTS, _ => false)
  }

  predicate StageOk(stage: Stage) {
    && stage.config.count <= MAX_POINTS
    && (stage.active ==> stage.config.generation != 0 && |stage.received| == MAX_POINTS)
  }

  // A stage left open for too long is dropped.
  function Unexpired(stage: Stage, now: u32, timeout: u32): Stage {
    if stage.active && Sub(now, stage.started) >= timeout then NO_STAGE else stage
  }

  lemma {:induction false} ElapsedExactly(from: nat, to: nat)
    requires from <= to < from + WORDS
    ensures Sub(to % WORDS, from % WORDS) == to - from
  {
    if to / WORDS == from / WORDS {
      assert to % WORDS - from % WORDS == to - from;
    } else {
      assert to % WORDS - from % WORDS == to - from - WORDS;
    }
  }

  // It is there as it was while less than the timeout has gone by on the true times; from then on none is open.
  lemma {:induction false} ExpiryExactly(stage: Stage, from: nat, to: nat, timeout: u32)
    requires from <= to < from + WORDS && stage.started == from % WORDS
    ensures var s := Unexpired(stage, to % WORDS, timeout);
            && (s.active <==> stage.active && to - from < timeout)
            && (s.active || !stage.active ==> s == stage)
  {
    ElapsedExactly(from, to);
    hide Sub;
  }

  // The stage a point or a commit of a generation may go to.
  predicate Open(stage: Stage, generation: nat) {
    stage.active && stage.config.generation == generation
  }

  predicate Committable(maxAction: nat, stage: Stage, generation: nat) {
    && Open(stage, generation) && |stage.received| == MAX_POINTS
    && (forall i :: 0 <= i < MAX_POINTS ==> (stage.received[i] <==> i < stage.config.count))
    && ConfigValid(maxAction, stage.config)
  }

  // What starting finds in the store: a valid configuration, or the empty one.
  function Loaded(maxAction: nat, stored: Option<Blob>): Config {
    if stored.Some? && |stored.value.points| == MAX_POINTS && stored.value.persistent &&
       ConfigValid(maxAction, BlobToConfig(stored.value)) then BlobToConfig(stored.value)
    else ConfigData(1, false, false, 0, NoPoints())
  }

  lemma {:induction false} LastIsThere(c: Config, now: int, latest: nat, age: nat)
    requires c.count <= MAX_POINTS && LastUpTo(c, now, latest, age)
    ensures latest < c.count
  {
  }

  class Scheduler {
    const maxAction: nat
    const stageTimeout: u32
    var config: Config
    const lastRun: array<nat>
    var catchUpPending: bool
    var clockValid: bool
    var wallEpoch: nat
    var sampleMs: u32
    var retryPending: bool
    var retryGeneration: nat
    var retryDay: nat
    var nextRetryMs: u32
    var retryIndex: nat
    var stage: Stage
    var stored: Option<Blob> // the stored copy
    var log: seq<Applied>             // the calls to the application since the last commit

    function View(): Sched
      reads this, lastRun
    {
      Sched(config, lastRun[..], catchUpPending, clockValid, wallEpoch, sampleMs,
            retryPending, retryGeneration, retryDay, nextRetryMs, retryIndex, log)
    }

    // The committed configuration is valid, always.
    predicate Valid()
      reads this, lastRun
    {
      lastRun.Length == MAX_POINTS && ConfigValid(maxAction, config) && SchedOk(View()) && StageOk(stage)
    }

    constructor (maxAction: nat, stageTimeout: u32, stored: Option<Blob>)
      ensures Valid() && this.maxAction == maxAction && config == Loaded(maxAction, stored)
      ensures JustCommitted(View(), maxAction) && fresh(lastRun)
    {
      this.maxAction, this.stageTimeout, this.stored := maxAction, stageTimeout, stored;
      config := Loaded(maxAction, stored);
      lastRun := new nat[MAX_POINTS](_ => NEVER);
      catchUpPending := Loaded(maxAction, stored).enabled;
      clockValid, wallEpoch, sampleMs := false, 0, 0;
      retryPending, retryGeneration, retryDay, nextRetryMs, retryIndex := false, 0, 0, 0, 0;
      stage, log := NO_STAGE, [];
    }

    // ---- Staging a new configuration

    method ExpireStage(now: u32)
      requires Valid()
      modifies `stage
      ensures Valid()
      ensures stage == Unexpired(old(stage), now, stageTimeout)
    {
      if stage.active && Sub(now, stage.started) >= stageTimeout {
        stage := NO_STAGE;
      }
    }

    method StageBegin(generation: nat, count: nat, enabled: bool, persistent: bool, now: u32) returns (status: Status)
      requires Valid()
      modifies `stage
      ensures Valid()
      ensures status == if generation == 0 || count > MAX_POINTS then InvalidArg else Fine
      ensures stage == if status == Fine
                       then Stage(true, now, NoneReceived(),
                                  ConfigData(generation, enabled, persistent, count, NoPoints()))
                       else old(stage)
    {
      if generation == 0 || count > MAX_POINTS { return InvalidArg; }
      stage := Stage(true, now, NoneReceived(), ConfigData(generation, enabled, persistent, count, NoPoints()));
      status := Fine;
    }

    method StagePoint(generation: nat, index: nat, point: Point, now: u32) returns (status: Status)
      requires Valid()
      modifies `stage
      ensures Valid()
      ensures var s := Unexpired(old(stage), now, stageTimeout);
              && (status == InvalidArg <==> !PointValid(maxAction, point))
              && (status == Fine <==>
                    PointValid(maxAction, point) && Open(s, generation) && index < s.config.count)
              && (status != InvalidArg && status != Fine ==> status == InvalidState && stage == s)
              && (status == InvalidArg ==> stage == old(stage))
              && (status == Fine ==>
                    stage == s.(received := s.received[index := true],
                                config := s.config.(points := s.config.points[index := point])))
    {
      if !PointValid(maxAction, point) { return InvalidArg; }
      ExpireStage(now);
      if !stage.active || stage.config.generation != generation || index >= stage.config.count { return InvalidState; }
      stage := stage.(received := stage.received[index := true],
                      config := stage.config.(points := stage.config.points[index := point]));
      status := Fine;
    }

    // A commit takes effect all at once, and only for a complete and valid stage that could be stored.
    method StageCommit(generation: nat, now: u32, storeOk: bool) returns (status: Status)
      requires Valid()
      modifies this, lastRun
      ensures Valid()
      ensures var s := Unexpired(old(stage), now, stageTimeout);
              && (status == Fine <==> Committable(maxAction, s, generation) && storeOk)
              && (status == StoreFailed <==> Committable(maxAction, s, generation) && !storeOk)
              && (status != Fine && status != StoreFailed ==> status == InvalidState)
              && (status != Fine ==> View() == old(View()) && stored == old(stored) && stage == s)
              && (status == Fine ==> config == s.config && stage == NO_STAGE)
      ensures status == Fine ==>
              && JustCommitted(View(), maxAction) && catchUpPending == config.enabled
              && clockValid == old(clockValid) && wallEpoch == old(wallEpoch)
              && stored == (if config.persistent then Some(ConfigToBlob(config)) else None)
    {
      ExpireStage(now);
      if !stage.active || stage.config.generation != generation || stage.received != AllReceived(stage.config.count) {
        return InvalidState;
      }
      var valid := CheckConfig(maxAction, stage.config);
      if !valid { return InvalidState; }
      if !storeOk { return StoreFailed; }
      Commit(stage.config);
      status := Fine;
    }

    method Commit(candidate: Config)
      requires Valid() && ConfigValid(maxAction, candidate)
      modifies this, lastRun
      ensures Valid() && config == candidate && JustCommitted(View(), maxAction) && stage == NO_STAGE
      ensures stored == if config.persistent then Some(ConfigToBlob(config)) else None
      ensures clockValid == old(clockValid) && wallEpoch == old(wallEpoch) && catchUpPending == candidate.enabled
    {
      stored := if candidate.persistent then Some(ConfigToBlob(candidate)) else None;
      config := candidate;
      stage := NO_STAGE;
      for i := 0 to MAX_POINTS
        modifies lastRun
        invariant forall k :: 0 <= k < i ==> lastRun[k] == NEVER
      {
        lastRun[i] := NEVER;
      }
      catchUpPending, retryPending, nextRetryMs, log := candidate.enabled, false, 0, [];
    }

    // ---- The task

    method RecordResult(index: nat, catchUp: bool, day: nat, ok: bool, now: u32)
      requires Valid() && index < config.count
      modifies this, lastRun
      ensures View() == WeeklyRun.RecordResult(old(View()), index, catchUp, day, ok, now)
      ensures stage == old(stage) && stored == old(stored)
    {
      if ok {
        nextRetryMs := 0;
        if catchUp {
          catchUpPending := false;
        } else {
          lastRun[index] := day;
          retryPending := false;
        }
      } else {
        nextRetryMs := (now + RETRY_MS) % WORDS;
        if !catchUp {
          retryPending, retryGeneration, retryIndex, retryDay := true, config.generation, index, day;
        }
      }
    }

    method ApplyPoint(w: World, index: nat, catchUp: bool, day: nat, now: u32) returns (ok: bool)
      requires Valid() && index < config.count
      modifies this, lastRun
      ensures Valid() && stage == old(stage) && stored == old(stored)
      ensures (ok, View()) == WeeklyRun.ApplyPoint(w, old(View()), index, catchUp, day, now)
    {
      hide ConfigValid;
      ok := w.answer(|log|);
      RecordResult(index, catchUp, day, ok, now);
      log := log + [Applied(index, catchUp, day, ok)];
    }

    method RunScheduled(w: World, index: nat, day: nat, now: u32)
      requires Valid() && index < config.count
      modifies this, lastRun
      ensures Valid() && stage == old(stage) && stored == old(stored)
      ensures View() == WeeklyRun.RunScheduled(w, old(View()), index, day, now)
    {
      hide ConfigValid, WeeklyRun.ApplyPoint;
      var wait := retryPending && retryGeneration == config.generation && retryIndex == index && retryDay == day &&
                  !DeadlineReached(now, nextRetryMs);
      if lastRun[index] != day && !wait {
        var ok := ApplyPoint(w, index, false, day, now);
      }
    }

    method RunMinute(w: World, l: LocalTime, now: u32)
      requires Valid()
      modifies this, lastRun
      ensures Valid() && stage == old(stage) && stored == old(stored)
      ensures View() == WeeklyRun.RunMinute(w, old(View()), l, now, 0)
    {
      hide ConfigValid, WeeklyRun.RunScheduled, AppliesOn;
      var i := 0;
      while i < config.count
        invariant Valid() && i <= config.count && stage == old(stage) && stored == old(stored)
        invariant WeeklyRun.RunMinute(w, View(), l, now, i) == WeeklyRun.RunMinute(w, old(View()), l, now, 0)
        decreases MAX_POINTS - i
      {
        if AppliesOn(config.points[i], l.weekday) && config.points[i].minute == l.minute {
          RunScheduled(w, i, l.day, now);
        }
        i := i + 1;
      }
    }

    method RunRetry(w: World, now: u32)
      requires Valid()
      modifies this, lastRun
      ensures Valid() && stage == old(stage) && stored == old(stored)
      ensures View() == WeeklyRun.RunRetry(w, old(View()), now)
    {
      hide ConfigValid, WeeklyRun.ApplyPoint;
      if retryPending && retryGeneration == config.generation && retryIndex < config.count &&
         DeadlineReached(now, nextRetryMs) {
        var ok := ApplyPoint(w, retryIndex, false, retryDay, now);
      }
    }

    method RunBoundaries(w: World, previous: nat, epoch: nat, now: u32)
      requires Valid()
      modifies this, lastRun
      ensures Valid() && stage == old(stage) && stored == old(stored)
      ensures View() == WeeklyRun.RunBoundaries(w, old(View()), BoundariesFrom(NextBoundary(previous), epoch), now)
    {
      hide ConfigValid, WeeklyRun.RunMinute;
      var boundary := (previous / 60 + 1) * 60;
      while boundary <= epoch
        invariant Valid() && stage == old(stage) && stored == old(stored)
        invariant WeeklyRun.RunBoundaries(w, View(), BoundariesFrom(boundary, epoch), now) ==
                  WeeklyRun.RunBoundaries(w, old(View()), BoundariesFrom(NextBoundary(previous), epoch), now)
        decreases epoch - boundary
      {
        assert BoundariesFrom(boundary, epoch)[1..] == BoundariesFrom(boundary + 60, epoch);
        RunMinute(w, w.local(boundary), now);
        boundary := boundary + 60;
      }
    }

    // Marks a caught-up point as done for the day when it is due at this very minute.
    method CatchUp(w: World, x: Sample) returns (ghost latest: nat, ghost age: nat)
      requires Valid() && x.Clock?
      modifies this, lastRun
      ensures Valid() && stage == old(stage) && stored == old(stored)
      ensures IsLatest(old(config), w.local(x.epoch), latest, age)
      ensures View() == WeeklyRun.CatchUp(w, old(View()), x, latest)
    {
      hide ConfigValid, LastUpTo, NoneInWindow, WeeklyRun.ApplyPoint;
      var l := w.local(x.epoch);
      var found;
      found, age := LatestPointIndex(config, l.weekday, l.minute);
      latest := found;
      if found != NO_INDEX { LastIsThere(config, l.weekday * DAY + l.minute, found, age); }
      if found == NO_INDEX {
        catchUpPending, nextRetryMs := false, 0;
      } else {
        var ok := ApplyPoint(w, found, true, l.day, x.ms);
        if ok && config.points[found].minute == l.minute {
          lastRun[found] := l.day;
        }
      }
    }

    // One pass of the task.
    method Tick(w: World, x: Sample) returns (ghost latest: nat, ghost age: nat)
      requires Valid()
      modifies this, lastRun
      ensures Valid() && stored == old(stored)
      ensures stage == Unexpired(old(stage), x.ms, stageTimeout)
      ensures latest != NO_INDEX ==> latest < old(config).count
      ensures View() == WeeklyRun.Tick(w, old(View()), x, latest)
      ensures CatchUpDue(TakeSample(old(View()), x), x) && w.catchUpReady ==>
              IsLatest(old(config), w.local(x.epoch), latest, age)
    {
      hide BoundariesFrom, WeeklyRun.CatchUp, ConfigValid, ContinuousAt, DeadlineReached, NextBoundary,
           NoneInWindow, Occurs, WeeklyRun.RunMinute, WeeklyRun.RunRetry, SchedOk, StageOk, Sub, TakeSample;
      latest, age := NO_INDEX, 0;
      ExpireStage(x.ms);
      var previous, continuous := wallEpoch, ContinuousAt(View(), x);
      ghost var before := View();
      Take(x);
      var due := CatchUpDue(View(), x);
      if due && !w.catchUpReady { DropCatchUp(); }
      if x.NoClock? || !config.enabled { return; }
      if due && w.catchUpReady {
        latest, age := CatchUp(w, x);
        assert latest != NO_INDEX ==> latest < config.count;
      }
      RunRetry(w, x.ms);
      if continuous && previous < x.epoch {
        RunBoundaries(w, previous, x.epoch, x.ms);
      }
      assert View() == WeeklyRun.RunBoundaries(w, View(), [], x.ms);
      RunMinute(w, w.local(x.epoch), x.ms);
    }

    method Take(x: Sample)
      requires Valid()
      modifies this
      ensures Valid() && stage == old(stage) && stored == old(stored)
      ensures View() == TakeSample(old(View()), x)
    {
      hide ConfigValid, Continuous;
      match x
      case NoClock(_) =>
        clockValid := false;
      case Clock(ms, epoch) =>
        if !(clockValid && Continuous(wallEpoch, epoch, sampleMs, ms)) {
          catchUpPending, retryPending, nextRetryMs := config.enabled, false, 0;
        }
        clockValid, wallEpoch, sampleMs := true, epoch, ms;
    }

    method DropCatchUp()
      requires Valid()
      modifies `catchUpPending
      ensures Valid() && View() == old(View()).(catchUpPending := false)
    {
      catchUpPending := false;
    }
  }
}
