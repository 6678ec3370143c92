// Weekly schedules over an endless calendar of minutes (keemash_weekly_schedule.c:108-195).
//
// Minute 0 of the calendar is a Monday's midnight; a day has 1440 minutes, a week 7 days.
module WeeklyCalendar {

  const MAX_POINTS: nat := 8
  const NO_INDEX: nat := 255
  const DAY: nat := 1440
  const WEEK: nat := 10080
  const NO_DISTANCE: nat := 65535
  const NEVER_SEEN: nat := 0xFFFF_FFFF // UINT_MAX

  datatype Point = Point(enabled: bool, minute: nat, action: nat, days: nat)

  datatype ConfigData = ConfigData(generation: nat, enabled: bool, persistent: bool, count: nat, points: seq<Point>)

  const NO_POINT: Point := Point(false, 0, 0, 0)

  function NoPoints(): (ps: seq<Point>)
    ensures |ps| == MAX_POINTS
  {
    [NO_POINT, NO_POINT, NO_POINT, NO_POINT, NO_POINT, NO_POINT, NO_POINT, NO_POINT]
  }

  type Config = c: ConfigData | |c.points| == MAX_POINTS
    witness ConfigData(1, false, false, 0, NoPoints())

  // ---- Days of a point

  function Power(day: nat): (r: nat)
    ensures r > 0
  {
    if day == 0 then 1 else if day == 1 then 2 else if day == 2 then 4 else if day == 3 then 8
    else if day == 4 then 16 else if day == 5 then 32 else 64
  }

  // Bit `day` of a mask.
  predicate OnDay(days: nat, day: int) {
    0 <= day < 7 && days / Power(day) % 2 == 1
  }

  // point_applies_on
  predicate AppliesOn(point: Point, day: int) {
    point.enabled && OnDay(point.days, day)
  }

  // Two masks have a day in common.
  predicate Overlap(a: nat, b: nat) {
    exists day :: 0 <= day < 7 && OnDay(a, day) && OnDay(b, day)
  }

  // ---- config_valid

  predicate PointValid(maxAction: nat, point: Point) {
    point.minute < DAY && 0 < point.days < 128 && point.action <= maxAction
  }

  predicate Clash(a: Point, b: Point) {
    a.enabled && b.enabled && a.minute == b.minute && Overlap(a.days, b.days)
  }

  predicate ConfigValid(maxAction: nat, c: Config) {
    && c.generation != 0 && c.count <= MAX_POINTS
    && (forall i :: 0 <= i < c.count ==> PointValid(maxAction, c.points[i]))
    && (forall i, j :: 0 <= j < i < c.count ==> !Clash(c.points[i], c.points[j]))
  }

  method CheckOverlap(a: nat, b: nat) returns (overlap: bool)
    ensures overlap <==> Overlap(a, b)
  {
    overlap := false;
    for day := 0 to 7
      invariant overlap <==> exists d :: 0 <= d < day && OnDay(a, d) && OnDay(b, d)
    {
      if OnDay(a, day) && OnDay(b, day) { overlap := true; }
    }
  }

  method CheckConfig(maxAction: nat, c: Config) returns (valid: bool)
    ensures valid <==> ConfigValid(maxAction, c)
  {
    if c.generation == 0 || c.count > MAX_POINTS { return false; }
    for i := 0 to c.count
      invariant forall k :: 0 <= k < i ==> PointValid(maxAction, c.points[k])
      invariant forall k, j :: 0 <= j < k < i ==> !Clash(c.points[k], c.points[j])
    {
      if !PointValid(maxAction, c.points[i]) { return false; }
      if c.points[i].enabled {
        for j := 0 to i
          invariant forall k :: 0 <= k < j ==> !Clash(c.points[i], c.points[k])
        {
          var overlap := CheckOverlap(c.points[i].days, c.points[j].days);
          assert Clash(c.points[i], c.points[j]) <==>
                 c.points[j].enabled && c.points[j].minute == c.points[i].minute && overlap;
          if c.points[j].enabled && c.points[j].minute == c.points[i].minute && overlap { return false; }
        }
      } else {
        assert forall k :: 0 <= k < i ==> !Clash(c.points[i], c.points[k]);
      }
    }
    valid := true;
  }

  // ---- The endless calendar

  // Whether a point falls on minute `t`.
  predicate Occurs(point: Point, t: int) {
    t % DAY == point.minute && AppliesOn(point, t / DAY % 7)
  }

  // A configuration is valid exactly when it has a generation, at most 8 points, each at a minute of the day, on
  // some days of the week and with an action there is, and no two of them ever fall on the same minute.
  lemma {:induction false} ValidMeansApart(maxAction: nat, c: Config)
    ensures ConfigValid(maxAction, c) <==>
            && c.generation != 0 && c.count <= 8
            && (forall i :: 0 <= i < c.count ==>
                  c.points[i].minute < 1440 && 1 <= c.points[i].days <= 127 && c.points[i].action <= maxAction)
            && forall i, j, t :: 0 <= j < i < c.count ==> !(Occurs(c.points[i], t) && Occurs(c.points[j], t))
  {
    if c.count <= 8 && forall i :: 0 <= i < c.count ==> c.points[i].minute < 1440 {
      hide OnDay, Clash, Occurs;
      forall i, j, t | 0 <= j < i < c.count && Occurs(c.points[i], t) && Occurs(c.points[j], t)
        ensures Clash(c.points[i], c.points[j])
      {
        MeetingClashes(c.points[i], c.points[j], t);
      }
      forall i, j | 0 <= j < i < c.count && Clash(c.points[i], c.points[j])
        ensures exists t :: Occurs(c.points[i], t) && Occurs(c.points[j], t)
      {
        var t := ClashMeets(c.points[i], c.points[j]);
      }
    }
  }

  lemma {:induction false} MeetingClashes(a: Point, b: Point, t: int)
    requires Occurs(a, t) && Occurs(b, t)
    ensures Clash(a, b)
  {
    hide OnDay;
    assert OnDay(a.days, t / DAY % 7) && OnDay(b.days, t / DAY % 7);
  }

  lemma {:induction false} ClashMeets(a: Point, b: Point) returns (t: int)
    requires Clash(a, b) && a.minute < DAY
    ensures Occurs(a, t) && Occurs(b, t)
  {
    hide OnDay;
    var day :| 0 <= day < 7 && OnDay(a.days, day) && OnDay(b.days, day);
    t := day * DAY + a.minute;
    SameDay(day, a.minute, t);
  }

  // ---- next_point_index

  // In how many minutes a point, taken `forward` days ahead, comes up next.
  function Ahead(point: Point, forward: nat, minute: nat): int {
    var delta: int := forward * DAY + point.minute - minute;
    if delta <= 0 then delta + WEEK else delta
  }

  // Point `best`, `distance` minutes ahead of now, is the first occurrence of any point after now.
  predicate FirstAfter(c: Config, now: int, best: nat, distance: int)
    requires c.count <= MAX_POINTS
  {
    && best < c.count && 0 < distance <= WEEK && Occurs(c.points[best], now + distance)
    && forall i, t :: 0 <= i < c.count && now < t < now + distance ==> !Occurs(c.points[i], t)
  }

  // The candidates the loops go through are exactly the occurrences of the coming week.
  lemma {:induction false} AheadOccurs(point: Point, weekday: nat, minute: nat, forward: nat)
    requires weekday < 7 && minute < DAY && forward < 7 && point.minute < DAY
    requires AppliesOn(point, (weekday + forward) % 7)
    ensures var d := Ahead(point, forward, minute);
            0 < d <= WEEK && Occurs(point, weekday * DAY + minute + d)
  {
    var t := weekday * DAY + minute + Ahead(point, forward, minute);
    var day := weekday + forward + if forward * DAY + point.minute - minute <= 0 then 7 else 0;
    assert t == day * DAY + point.minute;
    assert t / DAY == day && t % DAY == point.minute;
  }

  lemma {:induction false} OccursAhead(point: Point, weekday: nat, minute: nat, d: int) returns (forward: nat)
    requires weekday < 7 && minute < DAY && 0 < d <= WEEK && Occurs(point, weekday * DAY + minute + d)
    ensures forward < 7 && AppliesOn(point, (weekday + forward) % 7) && Ahead(point, forward, minute) == d
  {
    var t := weekday * DAY + minute + d;
    var days := t / DAY - weekday;
    assert t == (weekday + days) * DAY + point.minute;
    assert 0 <= days <= 7;
    forward := if days == 7 then 0 else days;
    assert (weekday + days) % 7 == (weekday + forward) % 7;
  }

  // No point ever falls on any minute.
  ghost predicate Empty(c: Config)
    requires c.count <= MAX_POINTS
  {
    forall k, t :: 0 <= k < c.count ==> !Occurs(c.points[k], t)
  }

  // The candidates seen so far, up to point i of day `forward`.
  predicate Seen(forward: nat, i: nat, f: nat, k: nat) {
    f < forward || (f == forward && k < i)
  }

  predicate BestAhead(c: Config, weekday: nat, minute: nat, forward: nat, i: nat, best: nat, distance: nat)
    requires c.count <= MAX_POINTS
  {
    && (best == NO_INDEX <==> distance == NEVER_SEEN)
    && (best != NO_INDEX ==>
          best < c.count && exists f :: 0 <= f < 7 && AppliesOn(c.points[best], (weekday + f) % 7) &&
                                        Ahead(c.points[best], f, minute) == distance)
    && (forall f, k :: 0 <= f < 7 && 0 <= k < c.count && Seen(forward, i, f, k) ==>
          AppliesOn(c.points[k], (weekday + f) % 7) ==> distance <= Ahead(c.points[k], f, minute))
  }

  lemma {:induction false} TakeAhead(c: Config, weekday: nat, minute: nat, forward: nat, i: nat, best: nat,
                                     distance: nat)
    requires c.count <= MAX_POINTS && weekday < 7 && minute < DAY && forward < 7 && i < c.count
    requires forall k :: 0 <= k < c.count ==> c.points[k].minute < DAY
    requires BestAhead(c, weekday, minute, forward, i, best, distance)
    ensures var d := Ahead(c.points[i], forward, minute);
            if AppliesOn(c.points[i], (weekday + forward) % 7) && d < distance
            then 0 < d <= WEEK && BestAhead(c, weekday, minute, forward, i + 1, i, d)
            else BestAhead(c, weekday, minute, forward, i + 1, best, distance)
  {
    hide AppliesOn;
    forall f, k | 0 <= f < 7 && 0 <= k < c.count && Seen(forward, i + 1, f, k)
      ensures Seen(forward, i, f, k) || (f == forward && k == i)
    {
    }
  }

  lemma {:induction false} SameDay(day: int, minute: int, t: int)
    requires 0 <= minute < DAY && t == day * DAY + minute
    ensures t / DAY == day && t % DAY == minute
  {
  }

  lemma {:induction false} SameWeekday(day: int, weeks: int)
    ensures (day - 7 * weeks) % 7 == day % 7
  {
  }

  // The week repeats: every occurrence has one in the week after now.
  lemma {:induction false} NextRound(point: Point, now: int, t: int) returns (s: int)
    requires Occurs(point, t)
    ensures now < s <= now + WEEK && Occurs(point, s)
  {
    var weeks := (t - now - 1) / WEEK;
    s := t - weeks * WEEK;
    assert s - now - 1 == (t - now - 1) % WEEK;
    var day := t / DAY;
    SameDay(day - 7 * weeks, t % DAY, s);
    assert (day - 7 * weeks) % 7 == day % 7 by { SameWeekday(day, weeks); }
  }

  lemma {:induction false} SeenAll(c: Config, weekday: nat, minute: nat, best: nat, distance: nat)
    requires c.count <= MAX_POINTS && weekday < 7 && minute < DAY
    requires forall k :: 0 <= k < c.count ==> c.points[k].minute < DAY
    requires BestAhead(c, weekday, minute, 7, 0, best, distance)
    ensures best != NO_INDEX ==> FirstAfter(c, weekday * DAY + minute, best, distance)
    ensures best == NO_INDEX ==> Empty(c)
  {
    hide AppliesOn, Occurs;
    var now := weekday * DAY + minute;
    if best != NO_INDEX {
      var f :| 0 <= f < 7 && AppliesOn(c.points[best], (weekday + f) % 7) &&
               Ahead(c.points[best], f, minute) == distance;
      AheadOccurs(c.points[best], weekday, minute, f);
    }
    forall k, t | 0 <= k < c.count && now < t <= now + WEEK && Occurs(c.points[k], t)
      ensures distance <= t - now
    {
      assert Occurs(c.points[k], weekday * DAY + minute + (t - now));
      var f := OccursAhead(c.points[k], weekday, minute, t - now);
      assert Seen(7, 0, f, k);
    }
    forall k, t | 0 <= k < c.count && Occurs(c.points[k], t)
      ensures best != NO_INDEX
    {
      var s := NextRound(c.points[k], now, t);
      assert distance <= s - now;
    }
  }

  method NextPointIndex(c: Config, weekday: nat, minute: nat) returns (best: nat, distance: nat)
    requires c.count <= MAX_POINTS && weekday < 7 && minute < DAY
    requires forall k :: 0 <= k < c.count ==> c.points[k].minute < DAY
    ensures best != NO_INDEX ==> FirstAfter(c, weekday * DAY + minute, best, distance)
    ensures best == NO_INDEX ==> distance == NO_DISTANCE && Empty(c)
  {
    hide Ahead, AppliesOn, Empty, FirstAfter, Occurs;
    best, distance := NO_INDEX, NEVER_SEEN;
    assert BestAhead(c, weekday, minute, 0, 0, best, distance);
    for forward := 0 to 7
      invariant BestAhead(c, weekday, minute, forward, 0, best, distance)
    {
      var day := (weekday + forward) % 7;
      for i := 0 to c.count
        invariant BestAhead(c, weekday, minute, forward, i, best, distance)
      {
        TakeAhead(c, weekday, minute, forward, i, best, distance);
        var delta := Ahead(c.points[i], forward, minute);
        if AppliesOn(c.points[i], day) && delta < distance {
          best, distance := i, delta;
        }
      }
      assert BestAhead(c, weekday, minute, forward + 1, 0, best, distance);
    }
    SeenAll(c, weekday, minute, best, distance);
    if best == NO_INDEX { distance := NO_DISTANCE; }
  }

  // In a valid configuration the first occurrence after now is one point's alone.
  lemma {:induction false} FirstIsUnique(maxAction: nat, c: Config, now: int, a: nat, b: nat, d: int, e: int)
    requires ConfigValid(maxAction, c) && FirstAfter(c, now, a, d) && FirstAfter(c, now, b, e)
    ensures a == b && d == e
  {
    ValidMeansApart(maxAction, c);
    assert Occurs(c.points[a], now + d) && Occurs(c.points[b], now + e);
  }

  // ---- latest_point_index

  // How many minutes ago a point, taken `back` days ago, came up; negative when it has yet to, today.
  function Ago(point: Point, back: nat, minute: nat): int {
    back * DAY + minute - point.minute
  }

  // The minutes looked at: from midnight six days back up to now.
  predicate InWindow(weekday: nat, minute: nat, t: int) {
    (weekday - 6) * DAY <= t <= weekday * DAY + minute
  }

  // Point `best` came up `age` minutes ago, and no point since then.
  predicate LastUpTo(c: Config, now: int, best: nat, age: nat)
    requires c.count <= MAX_POINTS
  {
    && best < c.count && Occurs(c.points[best], now - age)
    && forall i, t :: 0 <= i < c.count && now - age < t <= now ==> !Occurs(c.points[i], t)
  }

  ghost predicate NoneInWindow(c: Config, weekday: nat, minute: nat)
    requires c.count <= MAX_POINTS
  {
    forall k, t :: 0 <= k < c.count && InWindow(weekday, minute, t) ==> !Occurs(c.points[k], t)
  }

  lemma {:induction false} AgoOccurs(point: Point, weekday: nat, minute: nat, back: nat)
    requires weekday < 7 && minute < DAY && back < 7 && point.minute < DAY
    requires AppliesOn(point, (weekday - back + 7) % 7)
    ensures Occurs(point, weekday * DAY + minute - Ago(point, back, minute))
    ensures Ago(point, back, minute) >= 0 ==>
            InWindow(weekday, minute, weekday * DAY + minute - Ago(point, back, minute))
  {
    var t := (weekday - back) * DAY + point.minute;
    assert t / DAY == weekday - back && t % DAY == point.minute;
  }

  lemma {:induction false} OccursAgo(point: Point, weekday: nat, minute: nat, t: int) returns (back: nat)
    requires weekday < 7 && minute < DAY && InWindow(weekday, minute, t) && Occurs(point, t)
    ensures back < 7 && AppliesOn(point, (weekday - back + 7) % 7)
    ensures Ago(point, back, minute) == weekday * DAY + minute - t
  {
    var day := t / DAY;
    assert t == day * DAY + point.minute;
    assert weekday - 6 <= day <= weekday;
    back := weekday - day;
    assert day % 7 == (day + 7) % 7;
  }

  // A candidate of the loops: applies that day, and is not still to come today.
  predicate Candidate(point: Point, weekday: nat, back: nat, minute: nat) {
    AppliesOn(point, (weekday - back + 7) % 7) && !(back == 0 && point.minute > minute)
  }

  predicate BestAgo(c: Config, weekday: nat, minute: nat, back: nat, i: nat, best: nat, age: nat)
    requires c.count <= MAX_POINTS
  {
    && (best == NO_INDEX <==> age == NEVER_SEEN)
    && (best != NO_INDEX ==>
          best < c.count && exists f :: 0 <= f < 7 && Candidate(c.points[best], weekday, f, minute) &&
                                        Ago(c.points[best], f, minute) == age)
    && (forall f, k :: 0 <= f < 7 && 0 <= k < c.count && Seen(back, i, f, k) ==>
          Candidate(c.points[k], weekday, f, minute) ==> age <= Ago(c.points[k], f, minute))
  }

  lemma {:induction false} TakeAgo(c: Config, weekday: nat, minute: nat, back: nat, i: nat, best: nat, age: nat)
    requires c.count <= MAX_POINTS && weekday < 7 && minute < DAY && back < 7 && i < c.count
    requires forall k :: 0 <= k < c.count ==> c.points[k].minute < DAY
    requires BestAgo(c, weekday, minute, back, i, best, age)
    ensures var d := Ago(c.points[i], back, minute);
            && (Candidate(c.points[i], weekday, back, minute) ==> 0 <= d < WEEK)
            && if Candidate(c.points[i], weekday, back, minute) && d < age
               then 0 <= d && BestAgo(c, weekday, minute, back, i + 1, i, d)
               else BestAgo(c, weekday, minute, back, i + 1, best, age)
  {
    hide AppliesOn;
    forall f, k | 0 <= f < 7 && 0 <= k < c.count && Seen(back, i + 1, f, k)
      ensures Seen(back, i, f, k) || (f == back && k == i)
    {
    }
  }

  lemma {:induction false} SeenAllAgo(c: Config, weekday: nat, minute: nat, best: nat, age: nat)
    requires c.count <= MAX_POINTS && weekday < 7 && minute < DAY
    requires forall k :: 0 <= k < c.count ==> c.points[k].minute < DAY
    requires BestAgo(c, weekday, minute, 7, 0, best, age)
    ensures best != NO_INDEX ==>
            LastUpTo(c, weekday * DAY + minute, best, age) && InWindow(weekday, minute, weekday * DAY + minute - age)
    ensures best == NO_INDEX ==> NoneInWindow(c, weekday, minute)
  {
    hide AppliesOn, Occurs;
    var now := weekday * DAY + minute;
    if best != NO_INDEX {
      var f :| 0 <= f < 7 && Candidate(c.points[best], weekday, f, minute) && Ago(c.points[best], f, minute) == age;
      AgoOccurs(c.points[best], weekday, minute, f);
    }
    forall k, t | 0 <= k < c.count && InWindow(weekday, minute, t) && Occurs(c.points[k], t)
      ensures age <= now - t && best != NO_INDEX
    {
      var f := OccursAgo(c.points[k], weekday, minute, t);
      assert Seen(7, 0, f, k);
      assert Candidate(c.points[k], weekday, f, minute);
    }
    forall k, t | 0 <= k < c.count && now - age < t <= now && best != NO_INDEX
      ensures !Occurs(c.points[k], t)
    {
      assert InWindow(weekday, minute, t);
    }
  }

  // The most recent occurrence since midnight six days back.  A point whose only day is today, but later, is
  // not found: its last occurrence is seven days back.
  method LatestPointIndex(c: Config, weekday: nat, minute: nat) returns (best: nat, ghost age: nat)
    requires c.count <= MAX_POINTS && weekday < 7 && minute < DAY
    requires forall k :: 0 <= k < c.count ==> c.points[k].minute < DAY
    ensures best != NO_INDEX ==>
            LastUpTo(c, weekday * DAY + minute, best, age) && InWindow(weekday, minute, weekday * DAY + minute - age)
    ensures best == NO_INDEX ==> NoneInWindow(c, weekday, minute)
  {
    hide Ago, AppliesOn, InWindow, LastUpTo, NoneInWindow, Occurs;
    var bestAge: nat;
    best, bestAge := NO_INDEX, NEVER_SEEN;
    assert BestAgo(c, weekday, minute, 0, 0, best, bestAge);
    for back := 0 to 7
      invariant BestAgo(c, weekday, minute, back, 0, best, bestAge)
    {
      for i := 0 to c.count
        invariant BestAgo(c, weekday, minute, back, i, best, bestAge)
      {
        TakeAgo(c, weekday, minute, back, i, best, bestAge);
        var point := c.points[i];
        if AppliesOn(point, (weekday - back + 7) % 7) && !(back == 0 && point.minute > minute) {
          var candidate := Ago(point, back, minute);
          if candidate < bestAge {
            best, bestAge := i, candidate;
          }
        }
      }
      assert BestAgo(c, weekday, minute, back + 1, 0, best, bestAge);
    }
    SeenAllAgo(c, weekday, minute, best, bestAge);
    age := bestAge;
  }

  // In a valid configuration the most recent occurrence is one point's alone.
  lemma {:induction false} LastIsUnique(maxAction: nat, c: Config, now: int, a: nat, b: nat, d: nat, e: nat)
    requires ConfigValid(maxAction, c) && LastUpTo(c, now, a, d) && LastUpTo(c, now, b, e)
    ensures a == b && d == e
  {
    ValidMeansApart(maxAction, c);
    assert Occurs(c.points[a], now - d) && Occurs(c.points[b], now - e);
  }
}
