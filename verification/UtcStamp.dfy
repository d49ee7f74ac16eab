/**
 The canonical UTC time stamp (internal/model/nullable.go) in which every SQL
 time comparison is made. Instants are nanoseconds since 0000-01-01 UTC.
 */
module UtcStamp {
  import opened Calendar
  import opened Decimal

  const SECOND: int := 1_000_000_000
  const DAY: int := 86_400 * SECOND
  const YEAR_10000: int := 3_652_425 * DAY

  /** A zero-padded number and the fixed text that follows it. */
  datatype Field = Field(value: nat, width: nat, sep: string)

  function Render(fs: seq<Field>): string {
    if fs == [] then "" else Pad(fs[0].value, fs[0].width) + (fs[0].sep + Render(fs[1..]))
  }

  function Year(t: int): int { MonthOf(t / DAY) / 12 }

  /** The 3652425 days of the years 0000 to 9999. */
  predicate FourDigitYear(t: int) { 0 <= t < YEAR_10000 }

  lemma FourDigitYearIs(t: int)
    ensures FourDigitYear(t) <==> 0 <= Year(t) <= 9999
  {
    hide MonthOf, MonthStart;
    FirstOfYear(0);
    FirstOfYear(10_000);
    MonthBelow(t / DAY, 12 * 0);
    MonthBelow(t / DAY, 12 * 10_000);
  }

  lemma FirstOfYear(year: int)
    ensures MonthStart(12 * year) == DaysBeforeYear(year)
  {
    var m := 12 * year;
    assert m / 12 == year && m % 12 == 0;
  }

  /** A day's month is before month k exactly if the day is before its first. */
  lemma MonthBelow(day: int, k: int)
    ensures MonthOf(day) < k <==> day < MonthStart(k)
  {
    hide MonthOf, MonthStart, MonthLength;
    var m := MonthOf(day);
    if m < k { MonthEndsBefore(m, k); } else if k < m { MonthEndsBefore(k, m); }
  }

  /** The layout 2006-01-02T15:04:05.000000000 after the sign of the year, if it has one. */
  function Fields(t: int): seq<Field> {
    [ Field(if Year(t) < 0 then -Year(t) else Year(t), 4, "-"),
      Field(MonthOf(t / DAY) % 12 + 1, 2, "-"),
      Field(DayOfMonth(t / DAY), 2, "T") ] + Clock(t % DAY)
  }

  function Clock(time: int): (fs: seq<Field>)
    requires 0 <= time < DAY
    ensures |fs| == 4
  {
    var sec := time / SECOND;
    [ Field(sec / 3600, 2, ":"),
      Field(sec / 60 % 60, 2, ":"),
      Field(sec % 60, 2, "."),
      Field(time % SECOND, 9, "Z") ]
  }

  function UTCStamp(t: int): string {
    (if Year(t) < 0 then "-" else "") + Render(Fields(t))
  }

  // ----- fixed-width text compares as its numbers do ----------------------

  predicate SameLayout(fs: seq<Field>, gs: seq<Field>) {
    |fs| == |gs| && forall i :: 0 <= i < |fs| ==> fs[i].width == gs[i].width && fs[i].sep == gs[i].sep
  }

  predicate Fits(fs: seq<Field>) {
    forall i :: 0 <= i < |fs| ==> fs[i].value < Pow10(fs[i].width)
  }

  predicate LexLess(fs: seq<Field>, gs: seq<Field>)
    requires |fs| == |gs|
  {
    fs != [] && (fs[0].value < gs[0].value || (fs[0].value == gs[0].value && LexLess(fs[1..], gs[1..])))
  }

  lemma {:induction false} RenderOrder(fs: seq<Field>, gs: seq<Field>)
    requires SameLayout(fs, gs) && Fits(fs) && Fits(gs)
    ensures |Render(fs)| == |Render(gs)|
    ensures StrLess(Render(fs), Render(gs)) <==> LexLess(fs, gs)
  {
    if fs != [] {
      var f, g := fs[0], gs[0];
      RenderOrder(fs[1..], gs[1..]);
      PadWidth(f.value, f.width);
      PadWidth(g.value, g.width);
      PadOrder(f.value, g.value, f.width);
      LessConcat(Pad(f.value, f.width), Pad(g.value, g.width), f.sep + Render(fs[1..]), g.sep + Render(gs[1..]));
      LessConcat(f.sep, g.sep, Render(fs[1..]), Render(gs[1..]));
      NotLessSelf(f.sep);
    }
  }

  lemma {:induction false} NotLessSelf(s: string)
    ensures !StrLess(s, s)
  {
    if s != "" { NotLessSelf(s[1..]); }
  }

  lemma {:induction false} RenderWidth(fs: seq<Field>)
    requires Fits(fs)
    ensures |Render(fs)| == Width(fs)
  {
    if fs != [] {
      PadWidth(fs[0].value, fs[0].width);
      RenderWidth(fs[1..]);
    }
  }

  function Width(fs: seq<Field>): nat {
    if fs == [] then 0 else fs[0].width + |fs[0].sep| + Width(fs[1..])
  }

  // ----- instants compare as their fields do ------------------------------

  lemma FieldsFit(t: int)
    requires FourDigitYear(t)
    ensures Fits(Fields(t))
  {
    FourDigitYearIs(t);
    hide MonthOf, DayOfMonth;
    assert Pow10(2) == 100 && Pow10(4) == 10_000;
    assert Pow10(6) == 1_000_000;
    assert Pow10(9) == 1_000_000_000;
  }

  lemma TimeOfDayOrder(a: int, b: int)
    requires 0 <= a < DAY && 0 <= b < DAY
    ensures a < b <==>
      || a / SECOND / 3600 < b / SECOND / 3600
      || (a / SECOND / 3600 == b / SECOND / 3600 &&
          (|| a / SECOND / 60 % 60 < b / SECOND / 60 % 60
           || (a / SECOND / 60 % 60 == b / SECOND / 60 % 60 &&
               (|| a / SECOND % 60 < b / SECOND % 60
                || (a / SECOND % 60 == b / SECOND % 60 && a % SECOND < b % SECOND)))))
  {
    var s, u := a / SECOND, b / SECOND;
    assert s == 3600 * (s / 3600) + 60 * (s / 60 % 60) + s % 60;
    assert u == 3600 * (u / 3600) + 60 * (u / 60 % 60) + u % 60;
  }

  /** The lexicographic order on seven fields, spelled out. */
  lemma LexSeven(f: seq<Field>, g: seq<Field>)
    requires |f| == |g| == 7
    ensures LexLess(f, g) <==>
      || f[0].value < g[0].value
      || (f[0].value == g[0].value &&
          (|| f[1].value < g[1].value
           || (f[1].value == g[1].value &&
               (|| f[2].value < g[2].value
                || (f[2].value == g[2].value && LexFour(f[3..], g[3..]))))))
  {
    assert f[1..][1..] == f[2..] && g[1..][1..] == g[2..];
    assert f[2..][1..] == f[3..] && g[2..][1..] == g[3..];
    LexFourIsLexLess(f[3..], g[3..]);
    assert LexLess(f[2..], g[2..]) <==> f[2].value < g[2].value || (f[2].value == g[2].value && LexLess(f[3..], g[3..]));
    assert LexLess(f[1..], g[1..]) <==> f[1].value < g[1].value || (f[1].value == g[1].value && LexLess(f[2..], g[2..]));
  }

  predicate LexFour(f: seq<Field>, g: seq<Field>)
    requires |f| == |g| == 4
  {
    || f[0].value < g[0].value
    || (f[0].value == g[0].value &&
        (|| f[1].value < g[1].value
         || (f[1].value == g[1].value &&
             (|| f[2].value < g[2].value
              || (f[2].value == g[2].value && f[3].value < g[3].value)))))
  }

  lemma LexFourIsLexLess(f: seq<Field>, g: seq<Field>)
    requires |f| == |g| == 4
    ensures LexLess(f, g) <==> LexFour(f, g)
  {
    assert f[1..][1..] == f[2..] && g[1..][1..] == g[2..];
    assert f[2..][1..] == f[3..] && g[2..][1..] == g[3..];
    assert LexLess(f[3..], g[3..]) <==> f[3].value < g[3].value;
    assert LexLess(f[2..], g[2..]) <==> f[2].value < g[2].value || (f[2].value == g[2].value && LexLess(f[3..], g[3..]));
    assert LexLess(f[1..], g[1..]) <==> f[1].value < g[1].value || (f[1].value == g[1].value && LexLess(f[2..], g[2..]));
  }

  lemma MonthOrder(m: int, n: int)
    ensures m < n <==> m / 12 < n / 12 || (m / 12 == n / 12 && m % 12 < n % 12)
  {}

  lemma DateOrder(a: int, b: int)
    ensures a < b <==>
      || MonthOf(a) / 12 < MonthOf(b) / 12
      || (MonthOf(a) / 12 == MonthOf(b) / 12 &&
          (|| MonthOf(a) % 12 < MonthOf(b) % 12
           || (MonthOf(a) % 12 == MonthOf(b) % 12 && DayOfMonth(a) < DayOfMonth(b))))
  {
    hide MonthOf, DayOfMonth, MonthStart, MonthLength;
    DayOrder(a, b);
    MonthOrder(MonthOf(a), MonthOf(b));
  }

  lemma SplitDay(t: int, u: int)
    ensures t < u <==> t / DAY < u / DAY || (t / DAY == u / DAY && t % DAY < u % DAY)
  {}

  lemma FieldOrder(t: int, u: int)
    requires FourDigitYear(t) && FourDigitYear(u)
    ensures LexLess(Fields(t), Fields(u)) <==> t < u
  {
    FourDigitYearIs(t);
    FourDigitYearIs(u);
    hide MonthOf, DayOfMonth, MonthStart, MonthLength, LexLess, LexFour, Clock, FourDigitYear;
    var a, b := t / DAY, u / DAY;
    var f, g := Fields(t), Fields(u);
    SplitDay(t, u);
    DateOrder(a, b);
    DateOrder(b, a);
    LexSeven(f, g);
    assert f[3..] == Clock(t % DAY) && g[3..] == Clock(u % DAY);
    ClockOrder(t % DAY, u % DAY);
  }

  lemma ClockOrder(a: int, b: int)
    requires 0 <= a < DAY && 0 <= b < DAY
    ensures LexFour(Clock(a), Clock(b)) <==> a < b
  {
    TimeOfDayOrder(a, b);
  }

  // ----- main results -----------------------------------------------------

  /** The layout is fixed-width on the years 0000 to 9999. */
  lemma StampWidth(t: int)
    requires FourDigitYear(t)
    ensures UTCStamp(t) == Render(Fields(t)) && |UTCStamp(t)| == 30
  {
    FourDigitYearIs(t);
    hide MonthOf, FourDigitYear, Fields, Render;
    FieldsFit(t);
    RenderWidth(Fields(t));
    FieldsWidth(t);
  }

  lemma FieldsWidth(t: int)
    ensures Width(Fields(t)) == 30
  {
    hide MonthOf, DayOfMonth;
    var f := Fields(t);
    assert f[1..][1..] == f[2..];
    assert f[2..][1..] == f[3..];
    assert f[3..] == Clock(t % DAY);
    ClockWidth(t % DAY);
    assert Width(f[2..]) == 3 + Width(f[3..]);
    assert Width(f[1..]) == 3 + Width(f[2..]);
  }

  lemma ClockWidth(time: int)
    requires 0 <= time < DAY
    ensures Width(Clock(time)) == 19
  {
    var f := Clock(time);
    assert f[1..][1..] == f[2..];
    assert f[2..][1..] == f[3..];
    assert Width(f[3..]) == 10;
    assert Width(f[2..]) == 3 + Width(f[3..]);
    assert Width(f[1..]) == 3 + Width(f[2..]);
  }

  /** For years 0000 to 9999 the stamp is an order isomorphism onto strings of equal length. */
  lemma StampOrder(t: int, u: int)
    requires FourDigitYear(t) && FourDigitYear(u)
    ensures |UTCStamp(t)| == |UTCStamp(u)|
    ensures StrLess(UTCStamp(t), UTCStamp(u)) <==> t < u
    ensures UTCStamp(t) == UTCStamp(u) <==> t == u
  {
    hide UTCStamp, Render, Fields, LexLess, StrLess;
    StampWidth(t);
    StampWidth(u);
    FieldsFit(t);
    FieldsFit(u);
    LayoutsAgree(t, u);
    RenderOrder(Fields(t), Fields(u));
    RenderOrder(Fields(u), Fields(t));
    FieldOrder(t, u);
    FieldOrder(u, t);
    NotLessSelf(UTCStamp(t));
  }

  lemma LayoutsAgree(t: int, u: int)
    ensures SameLayout(Fields(t), Fields(u)) && SameLayout(Fields(u), Fields(t))
  {
    hide MonthOf, DayOfMonth;
  }

  function DateText(year: nat, month: nat, day: nat): string { Pad(year, 4) + "-" + Pad(month, 2) + "-" + Pad(day, 2) }

  function TimeText(hour: nat, minute: nat, second: nat, nanos: nat): string {
    Pad(hour, 2) + ":" + Pad(minute, 2) + ":" + Pad(second, 2) + "." + Pad(nanos, 9) + "Z"
  }

  /** The stamp of a date and time of day, written out: 2006-01-02T15:04:05.000000000Z. */
  lemma StampText(year: int, month: int, day: int, hour: int, minute: int, second: int, nanos: int)
    requires 0 <= year <= 9999 && 1 <= month <= 12 && 1 <= day <= MonthLength(12 * year + month - 1)
    requires 0 <= hour < 24 && 0 <= minute < 60 && 0 <= second < 60 && 0 <= nanos < 1_000_000_000
    ensures var days := DateDay(12 * year + month - 1, day);
            var t := ((days * 24 + hour) * 60 + minute) * 60 + second;
            UTCStamp(t * 1_000_000_000 + nanos) == DateText(year, month, day) + "T" + TimeText(hour, minute, second, nanos)
  {
    hide MonthOf, DayOfMonth, Pad, MonthLength, MonthStart, Clock, Render, UTCStamp, DateDay, DateText, TimeText;
    var days := DateDay(12 * year + month - 1, day);
    var time := ((hour * 60 + minute) * 60 + second) * SECOND + nanos;
    SplitTime(hour, minute, second, nanos);
    DayText(year, month, day, time);
    ClockText(hour, minute, second, nanos);
    SameInstant(days, hour, minute, second, nanos);
  }

  lemma SameInstant(days: int, hour: int, minute: int, second: int, nanos: int)
    ensures days * DAY + (((hour * 60 + minute) * 60 + second) * SECOND + nanos) ==
            (((days * 24 + hour) * 60 + minute) * 60 + second) * 1_000_000_000 + nanos
  {}

  lemma DayText(year: int, month: int, day: int, time: int)
    requires 0 <= year <= 9999 && 1 <= month <= 12 && 1 <= day <= MonthLength(12 * year + month - 1) && 0 <= time < DAY
    ensures UTCStamp(DateDay(12 * year + month - 1, day) * DAY + time) ==
            DateText(year, month, day) + "T" + Render(Clock(time))
  {
    hide MonthOf, DayOfMonth, Pad, MonthLength, MonthStart, Clock, Render;
    var m := 12 * year + month - 1;
    DateRoundTrip(m, day);
    MonthParts(year, month);
    DayParts(DateDay(m, day), time);
    RenderSeven(year, month, day, time);
  }

  lemma MonthParts(year: int, month: int)
    requires 1 <= month <= 12
    ensures (12 * year + month - 1) / 12 == year && (12 * year + month - 1) % 12 == month - 1
  {}

  lemma DayParts(day: int, time: int)
    requires 0 <= time < DAY
    ensures (day * DAY + time) / DAY == day && (day * DAY + time) % DAY == time
  {}

  lemma SplitTime(hour: int, minute: int, second: int, nanos: int)
    requires 0 <= hour < 24 && 0 <= minute < 60 && 0 <= second < 60 && 0 <= nanos < SECOND
    ensures var time := ((hour * 60 + minute) * 60 + second) * SECOND + nanos;
            && 0 <= time < DAY && time % SECOND == nanos
            && time / SECOND / 3600 == hour && time / SECOND / 60 % 60 == minute && time / SECOND % 60 == second
  {
    var s := (hour * 60 + minute) * 60 + second;
    assert (s * SECOND + nanos) / SECOND == s;
    assert s / 60 == hour * 60 + minute;
  }

  lemma RenderSeven(year: nat, month: nat, day: nat, time: int)
    requires 0 <= time < DAY
    ensures Render([Field(year, 4, "-"), Field(month, 2, "-"), Field(day, 2, "T")] + Clock(time)) ==
            DateText(year, month, day) + "T" + Render(Clock(time))
  {
    hide Pad, Clock;
    var c := Clock(time);
    var fs := [Field(year, 4, "-"), Field(month, 2, "-"), Field(day, 2, "T")] + c;
    assert fs[1..] == [Field(month, 2, "-"), Field(day, 2, "T")] + c;
    assert fs[1..][1..] == [Field(day, 2, "T")] + c;
    assert fs[1..][1..][1..] == c;
    assert Render(fs[1..][1..]) == Pad(day, 2) + ("T" + Render(c));
    assert Render(fs[1..]) == Pad(month, 2) + ("-" + Render(fs[1..][1..]));
  }

  lemma ClockText(hour: int, minute: int, second: int, nanos: int)
    requires 0 <= hour < 24 && 0 <= minute < 60 && 0 <= second < 60 && 0 <= nanos < SECOND
    ensures var time := ((hour * 60 + minute) * 60 + second) * SECOND + nanos;
            && 0 <= time < DAY
            && Render(Clock(time)) == TimeText(hour, minute, second, nanos)
  {
    hide Pad, Render;
    SplitTime(hour, minute, second, nanos);
    var f := Clock(((hour * 60 + minute) * 60 + second) * SECOND + nanos);
    assert f == [Field(hour, 2, ":"), Field(minute, 2, ":"), Field(second, 2, "."), Field(nanos, 9, "Z")];
    RenderFour(hour, minute, second, nanos);
  }

  lemma RenderFour(hour: nat, minute: nat, second: nat, nanos: nat)
    ensures Render([Field(hour, 2, ":"), Field(minute, 2, ":"), Field(second, 2, "."), Field(nanos, 9, "Z")]) ==
            TimeText(hour, minute, second, nanos)
  {
    hide Pad;
    var f := [Field(hour, 2, ":"), Field(minute, 2, ":"), Field(second, 2, "."), Field(nanos, 9, "Z")];
    RenderFirst(f);
    RenderFirst(f[1..]);
    RenderFirst(f[2..]);
    RenderFirst(f[3..]);
    assert f[1..][1..] == f[2..] && f[2..][1..] == f[3..] && f[3..][1..] == [];
    hide Render;
    var h := Pad(hour, 2) + ":";
    var m := h + Pad(minute, 2) + ":";
    var s := m + Pad(second, 2) + ".";
    Append(h, Pad(minute, 2), ":", Render(f[2..]));
    Append(m, Pad(second, 2), ".", Render(f[3..]));
    Append(s, Pad(nanos, 9), "Z", Render([]));
    NothingRendered();
    assert s + Pad(nanos, 9) + "Z" + "" == s + Pad(nanos, 9) + "Z";
  }

  lemma NothingRendered()
    ensures Render([]) == ""
  {}

  lemma Append(x: string, a: string, b: string, rest: string)
    ensures x + (a + b + rest) == x + a + b + rest
  {}

  lemma RenderFirst(fs: seq<Field>)
    requires fs != []
    ensures Render(fs) == Pad(fs[0].value, fs[0].width) + fs[0].sep + Render(fs[1..])
  {
    hide Pad;
    Join(Pad(fs[0].value, fs[0].width), fs[0].sep, Render(fs[1..]));
  }

  lemma Join(a: string, b: string, c: string)
    ensures a + (b + c) == a + b + c
  {}

  /** For example, the epoch. */
  lemma EpochText()
    ensures UTCStamp(719_528 * DAY) == "1970-01-01T00:00:00.000000000Z"
  {
    hide UTCStamp, Pad, MonthLength, MonthStart;
    EpochDay();
    StampText(1970, 1, 1, 0, 0, 0, 0);
    EpochDigits();
  }

  lemma EpochDay()
    ensures DateDay(12 * 1970, 1) == 719_528
  {
    FirstOfYear(1970);
    LeapDay(1970);
  }

  lemma EpochDigits()
    ensures Pad(1970, 4) == "1970" && Pad(1, 2) == "01" && Pad(0, 2) == "00" && Pad(0, 9) == "000000000"
  {
    PadFour(1970);
    PadZeros(9);
  }

  lemma PadZeros(w: nat)
    ensures Pad(0, w) == seq(w, i => '0')
  {}

  /** Beyond year 9999 the layout widens and the order is lost: year 1xxxx sorts before years 2000 to 9999. */
  lemma FiveDigitYearsSortEarly(t: int, u: int)
    requires 10_000 <= Year(t) < 20_000 && 2000 <= Year(u) <= 9999
    ensures StrLess(UTCStamp(t), UTCStamp(u)) && u < t
  {
    hide MonthOf, DayOfMonth;
    var y, z := Year(t), Year(u);
    PadFour(y);
    PadFour(z);
    FiveDigits(y);
    FourDigits(z);
    assert UTCStamp(t)[0] == Pad(y, 4)[0] && UTCStamp(u)[0] == Pad(z, 4)[0];
    DayOrder(u / DAY, t / DAY);
    MonthOrder(MonthOf(u / DAY), MonthOf(t / DAY));
  }

  lemma PadFour(n: nat)
    ensures var a := n / 10; var b := a / 10; var c := b / 10;
            Pad(n, 4) == Pad(c / 10, 0) + [Digit(c % 10), Digit(b % 10), Digit(a % 10), Digit(n % 10)]
  {
    var a := n / 10;
    var b := a / 10;
    var c := b / 10;
    assert Pad(c, 1) == Pad(c / 10, 0) + [Digit(c % 10)];
    assert Pad(b, 2) == Pad(c, 1) + [Digit(b % 10)];
    assert Pad(a, 3) == Pad(b, 2) + [Digit(a % 10)];
    assert Pad(n, 4) == Pad(a, 3) + [Digit(n % 10)];
  }

  lemma FiveDigits(n: nat)
    requires 10_000 <= n < 20_000
    ensures Pad(n / 10 / 10 / 10 / 10, 0) == "1"
  {
    var a := n / 10;
    assert 1000 <= a < 2000;
    assert n / 10 / 10 / 10 / 10 == 1;
  }

  lemma FourDigits(n: nat)
    requires 2000 <= n < 10_000
    ensures n / 10 / 10 / 10 / 10 == 0 && 2 <= n / 10 / 10 / 10 < 10
  {
    var a := n / 10;
    assert 200 <= a < 1000;
  }

  /** The first instant of year 10000 sorts before one of the year 2001. */
  lemma OrderLost()
    ensures var u := 731_000 * DAY;
            0 <= u < YEAR_10000 && StrLess(UTCStamp(YEAR_10000), UTCStamp(u))
  {
    hide MonthOf, MonthStart, UTCStamp;
    var t, u := YEAR_10000, 731_000 * DAY;
    FirstOfYear(2000);
    FirstOfYear(10_000);
    FirstOfYear(10_001);
    assert t / DAY == 3_652_425 && u / DAY == 731_000;
    MonthBelow(t / DAY, 12 * 10_000);
    MonthBelow(t / DAY, 12 * 10_001);
    MonthBelow(u / DAY, 12 * 2000);
    MonthBelow(u / DAY, 12 * 10_000);
    FiveDigitYearsSortEarly(t, u);
  }

  /** From year 0 on, text order is time order up to the end of year 9999 and no further. */
  lemma StampBoundIsTight(n: int)
    ensures n <= YEAR_10000 <==>
            forall t: nat, u: nat :: t < n && u < n ==> (StrLess(UTCStamp(t), UTCStamp(u)) <==> t < u)
  {
    hide UTCStamp, StrLess;
    if n <= YEAR_10000 {
      forall t: nat, u: nat | t < n && u < n ensures StrLess(UTCStamp(t), UTCStamp(u)) <==> t < u {
        StampOrder(t, u);
      }
    } else {
      OrderLost();
      var t: nat, u: nat := YEAR_10000, 731_000 * DAY;
      assert t < n && u < n && StrLess(UTCStamp(t), UTCStamp(u)) && u < t;
    }
  }

  // ----- nullable time columns --------------------------------------------

  datatype Column = NULL | Text(text: string)

  /** model.NullTime: a time, and whether it was set at all. */
  datatype NullTime = NullTime(time: int, valid: bool) {
    /** Unset, or Go's zero time: year 1, January 1. */
    predicate IsZero() { !valid || time == MonthStart(12) * DAY }

    function Value(): Column { if IsZero() then NULL else Text(UTCStamp(time)) }
  }

  /** The SQL test next_due IS NULL OR next_due <= ? on the stored forms. */
  predicate DueInSql(due: NullTime, now: int) {
    match due.Value()
    case NULL => true
    case Text(s) => s == UTCStamp(now) || StrLess(s, UTCStamp(now))
  }

  /** The string comparison selects exactly the rows that are due. */
  lemma DueExact(due: NullTime, now: int)
    requires FourDigitYear(now) && (due.valid ==> FourDigitYear(due.time))
    ensures DueInSql(due, now) <==> due.IsZero() || due.time <= now
  {
    hide UTCStamp, StrLess;
    if !due.IsZero() {
      StampOrder(due.time, now);
    }
  }
}
