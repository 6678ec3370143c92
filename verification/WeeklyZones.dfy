// Calendars of time zones: which hide nothing, and one that does.
module WeeklyZones {
  import opened Base
  import opened WeeklyCalendar
  import opened WeeklyRun
  import opened WeeklyOnce
  import opened WeeklyExact

  // ---- Conditions that rule a hidden success out

  // A whole minute and its next two minutes: where the minute of the day is the same, the day is.
  ghost predicate MinutesTogether(local: Calendar) {
    forall b: Epoch, c: Epoch :: b % 60 == 0 && b < c < b + CONTINUITY_LIMIT && SameMinute(local, b, c) ==>
                                   local(b).day == local(c).day
  }

  // No minute of a day has come before.
  ghost predicate NoMinuteRecurs(local: Calendar) {
    forall a: Epoch, b: Epoch :: a < b && b % 60 == 0 && SameMinute(local, a, b) ==> local(a).day != local(b).day
  }

  lemma {:induction false} TogetherIsEnough(local: Calendar, back: bool, catchUp: bool)
    requires DaysForward(local) && (MinutesTogether(local) || (!back && NoMinuteRecurs(local)))
    ensures AlwaysOnce(local, back, catchUp)
  {
    AtMostOnceExactly(local, back, catchUp);
  }

  // ---- Time zones

  const DAY_SECONDS: nat := 86400
  const HOUR: int := 3600

  // The zone's clock shows the epoch moved by an offset.
  function Zoned(offset: int -> int): Calendar {
    epoch => Shown(epoch + offset(epoch))
  }

  function Shown(t: int): LocalTime {
    var day := t / DAY_SECONDS;
    Local(day % 7, t % DAY_SECONDS / 60, if day < 0 then 0 else if day < NEVER then day else NEVER - 1)
  }

  // A change of offset of up to 23 hours, in either direction, at any second, hides nothing.
  lemma {:induction false} ModestChanges(offset: int -> int, back: bool, catchUp: bool)
    requires DaysForward(Zoned(offset))
    requires forall b: Epoch, c: Epoch :: b < c < b + CONTINUITY_LIMIT ==> offset(c) - offset(b) <= 23 * HOUR
    ensures AlwaysOnce(Zoned(offset), back, catchUp)
  {
    forall b: Epoch, c: Epoch | b < c < b + CONTINUITY_LIMIT && SameMinute(Zoned(offset), b, c)
      ensures Zoned(offset)(b).day >= Zoned(offset)(c).day
    {
      ModestStep(offset, b, c);
    }
    hide Zoned, AlwaysOnce, SameMinute;
    TogetherIsEnough(Zoned(offset), back, catchUp);
  }

  lemma {:induction false} ModestStep(offset: int -> int, b: Epoch, c: Epoch)
    requires b < c < b + CONTINUITY_LIMIT && offset(c) - offset(b) <= 23 * HOUR && SameMinute(Zoned(offset), b, c)
    ensures Zoned(offset)(b).day >= Zoned(offset)(c).day
  {
    ZonedAt(offset, b);
    ZonedAt(offset, c);
    if Zoned(offset)(b).day < Zoned(offset)(c).day { LaterDayApart(b + offset(b), c + offset(c)); }
  }

  lemma {:induction false} LaterDayApart(t: int, u: int)
    requires t / DAY_SECONDS < u / DAY_SECONDS && t % DAY_SECONDS / 60 == u % DAY_SECONDS / 60
    ensures u - t > DAY_SECONDS - 60
  {
  }

  lemma {:induction false} ZonedAt(offset: int -> int, epoch: int)
    ensures Zoned(offset)(epoch) == Shown(epoch + offset(epoch))
  {
  }

  // ---- From one side of the date line to the other

  // Noon, twelve hours to the west.
  const NOON: Epoch := 19676 * DAY_SECONDS

  // What twelve hours to the west and to the east of it show.
  lemma {:induction false} AroundNoon()
    ensures Shown(NOON - 12 * HOUR).minute == Shown(NOON + 40 + 12 * HOUR).minute == 720
    ensures Shown(NOON - 1 - 12 * HOUR).day == Shown(NOON - 12 * HOUR).day == 19675
    ensures Shown(NOON + 40 + 12 * HOUR).day == 19676
  {
  }

  // An hour to the west, and half an hour later over the date line, thirty seconds into a minute.
  function OverTheLine(epoch: int): int {
    if epoch < NOON - 1800 then -11 * HOUR else if epoch < NOON + 30 then -12 * HOUR else 12 * HOUR
  }

  lemma {:induction false} OverTheLineForward(a: Epoch, b: Epoch)
    requires a <= b
    ensures Zoned(OverTheLine)(a).day <= Zoned(OverTheLine)(b).day
  {
    DaysInOrder(a + OverTheLine(a), b + OverTheLine(b));
    ZonedAt(OverTheLine, a);
    ZonedAt(OverTheLine, b);
  }

  lemma {:induction false} OverTheLineDays()
    ensures DaysForward(Zoned(OverTheLine))
  {
    forall a: Epoch, b: Epoch | a <= b
      ensures Zoned(OverTheLine)(a).day <= Zoned(OverTheLine)(b).day
    {
      OverTheLineForward(a, b);
    }
  }

  lemma {:induction false} OverTheLineHides()
    ensures Hides(Zoned(OverTheLine), false, NOON - HOUR, NOON, NOON + 40)
  {
    AroundNoon();
    ZonedAt(OverTheLine, NOON - HOUR);
    ZonedAt(OverTheLine, NOON);
    ZonedAt(OverTheLine, NOON + 40);
    hide Zoned, Shown;
  }

  // On that calendar a point succeeds twice on one day, though neither the clock nor its days go back.
  lemma {:induction false} DateLineRunsTwice()
    ensures DaysForward(Zoned(OverTheLine)) && !AlwaysOnce(Zoned(OverTheLine), false, true)
  {
    OverTheLineDays();
    OverTheLineHides();
    hide Zoned, OverTheLine, AlwaysOnce, Hides, DaysForward;
    AtMostOnceExactly(Zoned(OverTheLine), false, true);
  }

  // Shown times go back by no more than an hour, and by that only around noon.
  lemma {:induction false} DaysInOrder(t: int, u: int)
    requires t <= u || (t / DAY_SECONDS == u / DAY_SECONDS)
    ensures t / DAY_SECONDS <= u / DAY_SECONDS
  {
  }

  // ---- Over the date line alone

  function JustOver(epoch: int): int {
    if epoch < NOON + 30 then -12 * HOUR else 12 * HOUR
  }

  lemma {:induction false} JustOverForward(a: Epoch, b: Epoch)
    requires a <= b
    ensures Zoned(JustOver)(a).day <= Zoned(JustOver)(b).day
  {
    DaysInOrder(a + JustOver(a), b + JustOver(b));
    ZonedAt(JustOver, a);
    ZonedAt(JustOver, b);
  }

  lemma {:induction false} JustOverDays()
    ensures DaysForward(Zoned(JustOver))
  {
    forall a: Epoch, b: Epoch | a <= b
      ensures Zoned(JustOver)(a).day <= Zoned(JustOver)(b).day
    {
      JustOverForward(a, b);
    }
  }

  // No whole minute comes after another sample of its minute.
  lemma {:induction false} JustOverNeverRecurs(a: Epoch, b: Epoch)
    requires a < b && b % 60 == 0 && SameMinute(Zoned(JustOver), a, b) && Zoned(JustOver)(b).day < NEVER - 1
    ensures Zoned(JustOver)(a).day != Zoned(JustOver)(b).day
  {
    ZonedAt(JustOver, a);
    ZonedAt(JustOver, b);
    if Zoned(JustOver)(a).day == Zoned(JustOver)(b).day { WholeMinutes(a + JustOver(a), b + JustOver(b)); }
  }

  lemma {:induction false} WholeMinutes(t: int, u: int)
    requires t < u && u % 60 == 0 && t / DAY_SECONDS == u / DAY_SECONDS
    ensures t % DAY_SECONDS / 60 != u % DAY_SECONDS / 60
  {
  }

  lemma {:induction false} JustOverHides()
    ensures Hides(Zoned(JustOver), true, NOON, NOON, NOON + 40)
  {
    AroundNoon();
    ZonedAt(JustOver, NOON - 1);
    ZonedAt(JustOver, NOON);
    ZonedAt(JustOver, NOON + 40);
    hide Zoned, Shown;
  }

  // No minute comes twice, so nothing is hidden on a clock that never steps back; on one that does, the
  // minute before the change can be hidden.
  lemma {:induction false} SteppingBackMatters()
    ensures AlwaysOnce(Zoned(JustOver), false, true) && !AlwaysOnce(Zoned(JustOver), true, true)
  {
    JustOverDays();
    JustOverHides();
    forall a: Epoch, b: Epoch, c: Epoch
      ensures !Hides(Zoned(JustOver), false, a, b, c)
    {
      if Hides(Zoned(JustOver), false, a, b, c) { JustOverNeverRecurs(a, b); }
    }
    hide Zoned, JustOver, AlwaysOnce, Hides, DaysForward;
    AtMostOnceExactly(Zoned(JustOver), false, true);
    AtMostOnceExactly(Zoned(JustOver), true, true);
  }
}
