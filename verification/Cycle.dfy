/**
 Monthly billing cycles (internal/service/cycle.go) in a zone at a constant
 offset from UTC. An instant is a number of nanoseconds since 0000-01-01 UTC.
 */
module Cycle {
  import opened Calendar

  const MINUTE: int := 60_000_000_000
  const HOUR: int := 3_600_000_000_000
  const DAY: int := 86_400_000_000_000

  type Instant = int

  /** A reset schedule; offset is what the zone adds to UTC. */
  datatype Policy = Policy(day: int, hour: int, minute: int, offset: int) {
    /** What Normalize accepts. */
    predicate Normal() {
      1 <= day <= 31 && 0 <= hour <= 23 && 0 <= minute <= 59
    }
  }

  // ----- the code ---------------------------------------------------------

  /** The zone's calendar day of an instant, and the time of that day. */
  function LocalDay(t: Instant, offset: int): int { (t + offset) / DAY }
  function LocalTime(t: Instant, offset: int): int { (t + offset) % DAY }

  /** time.Date(month, day, hour, minute, 0, 0) in a zone; an out-of-range day carries over. */
  function Date(m: int, d: int, hour: int, minute: int, offset: int): Instant {
    DateDay(m, d) * DAY + hour * HOUR + minute * MINUTE - offset
  }

  /** The day, or the month's last day, read off as the day before the next month's first. */
  function ClampDayIn(m: int, day: int): int {
    var last := DayOfMonth(DateDay(m + 1, 0));
    if day > last then last else day
  }

  predicate BeforeTimeOfDay(t: Instant, offset: int, hour: int, minute: int) {
    var h := LocalTime(t, offset) / HOUR;
    var m := LocalTime(t, offset) % HOUR / MINUTE;
    if h != hour then h < hour else m < minute
  }

  function CycleStart(now: Instant, p: Policy): Instant {
    var today := LocalDay(now, p.offset);
    var month := MonthOf(today);
    var day := ClampDayIn(month, p.day);
    if DayOfMonth(today) < day || (DayOfMonth(today) == day && BeforeTimeOfDay(now, p.offset, p.hour, p.minute)) then
      var prev := MonthOf(DateDay(month - 1, 1));
      Date(prev, ClampDayIn(prev, p.day), p.hour, p.minute, p.offset)
    else
      Date(month, day, p.hour, p.minute, p.offset)
  }

  function AddMonthClamped(t: Instant, p: Policy): Instant {
    var first := MonthOf(DateDay(MonthOf(LocalDay(t, p.offset)) + 1, 1));
    Date(first, ClampDayIn(first, p.day), p.hour, p.minute, p.offset)
  }

  function NextReset(now: Instant, p: Policy): Instant {
    var next := AddMonthClamped(CycleStart(now, p), p);
    if !(next > now) then AddMonthClamped(next, p) else next
  }

  // ----- the reference: one reset instant a month -------------------------

  /** The reset of month m: the scheduled day, or the month's last day if it has fewer. */
  function Reset(m: int, p: Policy): Instant {
    Date(m, if p.day <= MonthLength(m) then p.day else MonthLength(m), p.hour, p.minute, p.offset)
  }

  lemma ClampDay(m: int, day: int)
    ensures ClampDayIn(m, day) == if day <= MonthLength(m) then day else MonthLength(m)
  {
    NextMonthStart(m);
    DateRoundTrip(m, MonthLength(m));
    assert DateDay(m + 1, 0) == DateDay(m, MonthLength(m));
  }

  lemma TimeOfDay(hour: int, minute: int)
    requires 0 <= hour <= 23 && 0 <= minute <= 59
    ensures 0 <= hour * HOUR + minute * MINUTE < DAY
  {}

  lemma LocalDate(m: int, d: int, p: Policy)
    requires p.Normal() && 1 <= d <= MonthLength(m)
    ensures var t := Date(m, d, p.hour, p.minute, p.offset);
            LocalDay(t, p.offset) == DateDay(m, d) && LocalTime(t, p.offset) == p.hour * HOUR + p.minute * MINUTE
  {
    TimeOfDay(p.hour, p.minute);
  }

  lemma BeforeTime(t: Instant, p: Policy)
    requires p.Normal()
    ensures BeforeTimeOfDay(t, p.offset, p.hour, p.minute) <==>
            LocalTime(t, p.offset) < p.hour * HOUR + p.minute * MINUTE
  {}

  /** Resets of successive months are 28 to 31 days apart. */
  lemma ResetGap(m: int, p: Policy)
    requires p.Normal()
    ensures 28 * DAY <= Reset(m + 1, p) - Reset(m, p) <= 31 * DAY
  {
    NextMonthStart(m);
    NextMonthStart(m + 1);
    var d := if p.day <= MonthLength(m) then p.day else MonthLength(m);
    var e := if p.day <= MonthLength(m + 1) then p.day else MonthLength(m + 1);
    NeighbourLengths(m);
    assert 28 <= DateDay(m + 1, e) - DateDay(m, d) <= 31;
  }

  /** No two neighbouring months are both short, so a clamped day is followed by enough room. */
  lemma NeighbourLengths(m: int)
    ensures MonthLength(m) == 31 || MonthLength(m + 1) == 31
    ensures MonthLength(m) >= 30 || MonthLength(m + 1) == 31
  {
    if m % 12 == 11 {
      assert (m + 1) % 12 == 0;
    } else {
      assert (m + 1) % 12 == m % 12 + 1;
    }
  }

  lemma {:induction false} ResetOrder(m: int, n: int, p: Policy)
    requires p.Normal() && m < n
    ensures Reset(m, p) < Reset(n, p)
    decreases n - m
  {
    hide Reset;
    ResetGap(n - 1, p);
    if m < n - 1 {
      ResetOrder(m, n - 1, p);
    }
  }

  /** The month whose reset opened the cycle of now. */
  function CycleMonth(now: Instant, p: Policy): int {
    var month := MonthOf(LocalDay(now, p.offset));
    if now < Reset(month, p) then month - 1 else month
  }

  lemma InMonth(now: Instant, p: Policy)
    requires p.Normal()
    ensures var m := MonthOf(LocalDay(now, p.offset)); Reset(m - 1, p) <= now < Reset(m + 1, p)
  {
    hide MonthStart, MonthLength, MonthOf;
    var today := LocalDay(now, p.offset);
    var m := MonthOf(today);
    NextMonthStart(m - 1);
    NextMonthStart(m);
    TimeOfDay(p.hour, p.minute);
    assert today * DAY <= now + p.offset < (today + 1) * DAY;
  }

  /** cycleStartInTZ finds the last reset at or before now. */
  lemma CycleStartIsReset(now: Instant, p: Policy)
    requires p.Normal()
    ensures var m := CycleMonth(now, p);
            CycleStart(now, p) == Reset(m, p) && Reset(m, p) <= now < Reset(m + 1, p)
  {
    hide MonthStart, MonthLength, MonthOf;
    var today := LocalDay(now, p.offset);
    var month := MonthOf(today);
    InMonth(now, p);
    ClampDay(month, p.day);
    DateRoundTrip(month - 1, 1);
    ClampDay(month - 1, p.day);
    BeforeTime(now, p);
    TimeOfDay(p.hour, p.minute);
    var day := ClampDayIn(month, p.day);
    assert today == DateDay(month, DayOfMonth(today));
    assert now + p.offset == today * DAY + LocalTime(now, p.offset);
    assert Reset(month, p) == Date(month, day, p.hour, p.minute, p.offset);
    assert now < Reset(month, p) <==>
      DayOfMonth(today) < day || (DayOfMonth(today) == day && LocalTime(now, p.offset) < p.hour * HOUR + p.minute * MINUTE);
  }

  /** On the zone's clock a cycle starts on the scheduled day, or the month's last, at the scheduled hour and minute. */
  lemma CycleStartClock(now: Instant, p: Policy)
    requires p.Normal()
    ensures var local := CycleStart(now, p) + p.offset;
            var today := local / 86_400_000_000_000;
            && local % 86_400_000_000_000 == (p.hour * 60 + p.minute) * 60_000_000_000
            && DayOfMonth(today) == if p.day <= MonthLength(MonthOf(today)) then p.day else MonthLength(MonthOf(today))
  {
    hide CycleStart, CycleMonth, MonthOf, DayOfMonth, MonthLength, DateDay;
    CycleStartIsReset(now, p);
    ResetClock(CycleMonth(now, p), p);
  }

  lemma ResetClock(m: int, p: Policy)
    requires p.Normal()
    ensures var local := Reset(m, p) + p.offset;
            && local % DAY == (p.hour * 60 + p.minute) * 60_000_000_000
            && MonthOf(local / DAY) == m && DayOfMonth(local / DAY) == if p.day <= MonthLength(m) then p.day else MonthLength(m)
  {
    hide MonthOf, DayOfMonth, MonthLength, DateDay, MonthStart, Date;
    var d := if p.day <= MonthLength(m) then p.day else MonthLength(m);
    LocalDate(m, d, p);
    DateRoundTrip(m, d);
  }


  lemma AddMonthIsReset(m: int, p: Policy)
    requires p.Normal()
    ensures AddMonthClamped(Reset(m, p), p) == Reset(m + 1, p)
  {
    var d := if p.day <= MonthLength(m) then p.day else MonthLength(m);
    LocalDate(m, d, p);
    DateRoundTrip(m, d);
    DateRoundTrip(m + 1, 1);
    ClampDay(m + 1, p.day);
  }

  /** nextResetInTZ is the reset after that one, and its second step is never taken. */
  lemma NextResetIsReset(now: Instant, p: Policy)
    requires p.Normal()
    ensures NextReset(now, p) == Reset(CycleMonth(now, p) + 1, p)
    ensures AddMonthClamped(CycleStart(now, p), p) > now
  {
    CycleStartIsReset(now, p);
    AddMonthIsReset(CycleMonth(now, p), p);
  }

  lemma CycleMonthUnique(t: Instant, m: int, p: Policy)
    requires p.Normal() && Reset(m, p) <= t < Reset(m + 1, p)
    ensures CycleMonth(t, p) == m
  {
    hide *;
    var k := CycleMonth(t, p);
    CycleStartIsReset(t, p);
    if k < m {
      if k + 1 < m { ResetOrder(k + 1, m, p); }
    } else if m < k {
      if m + 1 < k { ResetOrder(m + 1, k, p); }
    }
  }

  // ----- main results -----------------------------------------------------

  /** The cycles tile the time line: two instants share a cycle exactly when neither lies outside the other's. */
  lemma CyclesTile(now: Instant, t: Instant, p: Policy)
    requires p.Normal()
    ensures CycleStart(now, p) <= now < NextReset(now, p)
    ensures CycleStart(now, p) <= t < NextReset(now, p) <==> CycleStart(t, p) == CycleStart(now, p)
    ensures CycleStart(t, p) == CycleStart(now, p) <==> NextReset(t, p) == NextReset(now, p)
  {
    hide *;
    var m, k := CycleMonth(now, p), CycleMonth(t, p);
    CycleStartIsReset(now, p);
    NextResetIsReset(now, p);
    CycleStartIsReset(t, p);
    NextResetIsReset(t, p);
    if Reset(m, p) <= t < Reset(m + 1, p) {
      CycleMonthUnique(t, m, p);
    }
    if k < m {
      ResetOrder(k, m, p);
      ResetOrder(k + 1, m + 1, p);
    } else if m < k {
      ResetOrder(m, k, p);
      ResetOrder(m + 1, k + 1, p);
    }
  }

  /** A cycle starts exactly where the one before it ends, after 28 to 31 days. */
  lemma CyclesAbut(now: Instant, p: Policy)
    requires p.Normal()
    ensures CycleStart(NextReset(now, p), p) == NextReset(now, p)
    ensures 28 * DAY <= NextReset(now, p) - CycleStart(now, p) <= 31 * DAY
  {
    hide *;
    var m := CycleMonth(now, p);
    CycleStartIsReset(now, p);
    NextResetIsReset(now, p);
    ResetGap(m, p);
    ResetGap(m + 1, p);
    CycleMonthUnique(Reset(m + 1, p), m + 1, p);
    CycleStartIsReset(Reset(m + 1, p), p);
  }

  // ----- the end of the cycle as the traffic summary computes it ----------

  /** time.AddDate(0, 1, 0): the same day of the next month, carrying over if it has none. */
  function PlusOneMonth(t: Instant, offset: int): Instant {
    var day := LocalDay(t, offset);
    DateDay(MonthOf(day) + 1, DayOfMonth(day)) * DAY + LocalTime(t, offset) - offset
  }

  /** The legacy entry point: midnight in the server's zone, days below 1 read as 1. */
  function LegacyPolicy(resetDay: int, offset: int): Policy {
    Policy(if resetDay < 1 then 1 else resetDay, 0, 0, offset)
  }

  function SummaryCycleEnd(now: Instant, resetDay: int, offset: int): Instant {
    var p := LegacyPolicy(resetDay, offset);
    CycleStart(PlusOneMonth(CycleStart(now, p), offset), p)
  }

  /** The day a cycle opens on is the scheduled one, not a shorter month's last day. */
  predicate OpensOnSchedule(now: Instant, p: Policy) {
    DayOfMonth(LocalDay(CycleStart(now, p), p.offset)) == p.day
  }

  lemma ResetDay(m: int, p: Policy)
    requires p.Normal()
    ensures var day := LocalDay(Reset(m, p), p.offset);
            MonthOf(day) == m && DayOfMonth(day) == if p.day <= MonthLength(m) then p.day else MonthLength(m)
  {
    var d := if p.day <= MonthLength(m) then p.day else MonthLength(m);
    LocalDate(m, d, p);
    DateRoundTrip(m, d);
  }

  lemma MidnightPlusOneMonth(m: int, p: Policy)
    requires p.Normal() && p.hour == 0 && p.minute == 0
    ensures var d := if p.day <= MonthLength(m) then p.day else MonthLength(m);
            PlusOneMonth(Reset(m, p), p.offset) == DateDay(m + 1, d) * DAY - p.offset
  {
    var d := if p.day <= MonthLength(m) then p.day else MonthLength(m);
    LocalDate(m, d, p);
    ResetDay(m, p);
  }

  /**
   The summary's own expression for the end of the cycle is the next reset
   exactly when the cycle did not open on a clamped day; otherwise it falls
   back to the start of the cycle itself.
   */
  lemma SummaryCycleEndExact(now: Instant, resetDay: int, offset: int)
    requires resetDay <= 31
    ensures var p := LegacyPolicy(resetDay, offset);
            && (SummaryCycleEnd(now, resetDay, offset) == NextReset(now, p) <==> OpensOnSchedule(now, p))
            && (!OpensOnSchedule(now, p) ==> SummaryCycleEnd(now, resetDay, offset) == CycleStart(now, p))
  {
    hide CycleStart, NextReset, MonthStart, MonthOf, PlusOneMonth;
    var p := LegacyPolicy(resetDay, offset);
    var m := CycleMonth(now, p);
    var d := if p.day <= MonthLength(m) then p.day else MonthLength(m);
    CycleStartIsReset(now, p);
    NextResetIsReset(now, p);
    ResetDay(m, p);
    MidnightPlusOneMonth(m, p);
    var t := PlusOneMonth(Reset(m, p), offset);
    NextMonthStart(m);
    NextMonthStart(m + 1);
    NeighbourLengths(m);
    ResetGap(m, p);
    ResetGap(m + 1, p);
    if p.day <= MonthLength(m) {
      CycleMonthUnique(t, m + 1, p);
    } else {
      CycleMonthUnique(t, m, p);
    }
    CycleStartIsReset(t, p);
  }

  /** Reset day 31 seen in March 2026: the cycle opened on 28 February and the summary ends it there too. */
  lemma SummaryCycleEndCounterexample()
    ensures var march10 := DateDay(12 * 2026 + 2, 10) * DAY;
            SummaryCycleEnd(march10, 31, 0) == CycleStart(march10, LegacyPolicy(31, 0)) != NextReset(march10, LegacyPolicy(31, 0))
  {
    hide CycleStart, NextReset, SummaryCycleEnd, MonthOf, DayOfMonth;
    var p := LegacyPolicy(31, 0);
    var m := 12 * 2026 + 1;
    var now := DateDay(12 * 2026 + 2, 10) * DAY;
    assert MonthLength(m) == 28 && MonthLength(m + 1) == 31;
    CycleMonthUnique(now, m, p);
    CycleStartIsReset(now, p);
    ResetDay(m, p);
    SummaryCycleEndExact(now, 31, 0);
    CyclesAbut(now, p);
  }
}
