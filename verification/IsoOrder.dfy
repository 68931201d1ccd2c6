/** When the text order of ISO instants is their order in time. */
module IsoOrder {
  import opened Calendar
  import opened IsoText

  /** Strict lexicographic order, as string comparison gives it. */
  predicate Before(a: string, b: string) {
    if b == "" then false
    else if a == "" then true
    else a[0] < b[0] || (a[0] == b[0] && Before(a[1..], b[1..]))
  }

  lemma {:induction false} BeforePrefix(a: string, b: string, x: string, y: string)
    requires |a| == |b| && Before(a, b)
    ensures Before(a + x, b + y)
  {
    assert (a + x)[1..] == a[1..] + x && (b + y)[1..] == b[1..] + y;
    if a[0] == b[0] { BeforePrefix(a[1..], b[1..], x, y); }
  }

  lemma {:induction false} BeforeSame(a: string, x: string, y: string)
    requires Before(x, y)
    ensures Before(a + x, a + y)
  {
    if a == "" {
      assert a + x == x && a + y == y;
    } else {
      assert (a + x)[1..] == a[1..] + x && (a + y)[1..] == a[1..] + y;
      BeforeSame(a[1..], x, y);
    }
  }

  lemma {:induction false} BeforeIsStrict(a: string, b: string)
    ensures Before(a, b) ==> a != b && !Before(b, a)
  {
    if a != "" && b != "" && a[0] == b[0] { BeforeIsStrict(a[1..], b[1..]); }
  }

  // ---- padded numbers order as numbers -----------------------------------------------------------------

  /** Digits of equal length order as the numbers do. */
  lemma {:induction false} DigitTextOrder(a: string, b: string)
    requires |a| == |b| && Number(a) < Number(b)
    requires forall i :: 0 <= i < |a| ==> IsDigit(a[i]) && IsDigit(b[i])
    ensures Before(a, b)
  {
    var i, j := a[..|a| - 1], b[..|b| - 1];
    assert a == i + [a[|a| - 1]] && b == j + [b[|b| - 1]];
    assert forall k :: 0 <= k < |i| ==> i[k] == a[k] && j[k] == b[k];
    if Number(i) < Number(j) {
      DigitTextOrder(i, j);
      BeforePrefix(i, j, [a[|a| - 1]], [b[|b| - 1]]);
    } else {
      assert Number(i) == Number(j);
      SameNumber(i, j);
      BeforeSame(i, [a[|a| - 1]], [b[|b| - 1]]);
    }
  }

  lemma {:induction false} SameNumber(a: string, b: string)
    requires |a| == |b| && Number(a) == Number(b)
    requires forall i :: 0 <= i < |a| ==> IsDigit(a[i]) && IsDigit(b[i])
    ensures a == b
  {
    if a != "" {
      SameNumber(a[..|a| - 1], b[..|b| - 1]);
      assert a == a[..|a| - 1] + [a[|a| - 1]] && b == b[..|b| - 1] + [b[|b| - 1]];
    }
  }

  lemma {:induction false} DigitsAreDigits(n: nat)
    ensures forall i :: 0 <= i < |Digits(n)| ==> IsDigit(Digits(n)[i])
  {
    if n >= 10 { DigitsAreDigits(n / 10); }
  }

  lemma PadDigits(n: nat, width: nat)
    ensures forall i :: 0 <= i < |Pad(n, width)| ==> IsDigit(Pad(n, width)[i])
  {
    DigitsAreDigits(n);
    if |Digits(n)| < width { AllZeros(width - |Digits(n)|); }
  }

  lemma PadOrder(m: nat, n: nat, width: nat)
    requires width >= 1 && m < n < Pow10(width)
    ensures |Pad(m, width)| == |Pad(n, width)| == width && Before(Pad(m, width), Pad(n, width))
  {
    PadIs(m, width);
    PadIs(n, width);
    PadDigits(m, width);
    PadDigits(n, width);
    DigitTextOrder(Pad(m, width), Pad(n, width));
  }

  // ---- texts of seven fields ----------------------------------------------------------------------------

  /** The time of day, and a date in front of the rest, as nested concatenations. */
  function Clock(f: Fields): string {
    Pad(f.hour, 2) + (":" + (Pad(f.minute, 2) + (":" + (Pad(f.second, 2) + ("." + (Pad(f.milli, 3) + "Z"))))))
  }

  function DateText(d: Date, rest: string): string
    requires d.year >= 0 && d.month >= 0 && d.day >= 0
  {
    Pad(d.year, 4) + ("-" + (Pad(d.month, 2) + ("-" + (Pad(d.day, 2) + ("T" + rest)))))
  }

  lemma TextNested(f: Fields)
    requires InRange(f)
    ensures Text(f) == DateText(f.date, Clock(f))
  {
    Nested(Pad(f.date.year, 4), Pad(f.date.month, 2), Pad(f.date.day, 2), Pad(f.hour, 2), Pad(f.minute, 2), Pad(f.second, 2), Pad(f.milli, 3));
  }

  lemma Nested(y: string, mo: string, d: string, h: string, mi: string, s: string, ms: string)
    ensures y + Tail(mo, d, h, mi, s, ms) ==
      y + ("-" + (mo + ("-" + (d + ("T" + (h + (":" + (mi + (":" + (s + ("." + (ms + "Z"))))))))))))
  {
    assert Tail(mo, d, h, mi, s, ms) == "-" + (mo + ("-" + (d + ("T" + (h + (":" + (mi + (":" + (s + ("." + (ms + "Z"))))))))))) ;
  }

  /** A field and what follows it: less if the field is less, or if it is the same and the rest is less. */
  lemma Then(m: nat, n: nat, width: nat, separator: string, x: string, y: string)
    requires width >= 1 && m < Pow10(width) && n < Pow10(width)
    requires m < n || (m == n && Before(x, y))
    ensures Before(Pad(m, width) + (separator + x), Pad(n, width) + (separator + y))
  {
    if m < n {
      PadOrder(m, n, width);
      BeforePrefix(Pad(m, width), Pad(n, width), separator + x, separator + y);
    } else {
      BeforeSame(separator, x, y);
      BeforeSame(Pad(m, width), separator + x, separator + y);
    }
  }

  predicate ClockLess(a: Fields, b: Fields) {
    a.hour < b.hour || (a.hour == b.hour && (a.minute < b.minute || (a.minute == b.minute &&
      (a.second < b.second || (a.second == b.second && a.milli < b.milli)))))
  }

  lemma ClockOrder(a: Fields, b: Fields)
    requires InRange(a) && InRange(b) && ClockLess(a, b)
    ensures Before(Clock(a), Clock(b))
  {
    assert Pow10(2) == 100 && Pow10(3) == 1000;
    if a.hour == b.hour {
      if a.minute == b.minute {
        if a.second == b.second {
          PadOrder(a.milli, b.milli, 3);
          BeforePrefix(Pad(a.milli, 3), Pad(b.milli, 3), "Z", "Z");
        }
        Then(a.second, b.second, 2, ".", Pad(a.milli, 3) + "Z", Pad(b.milli, 3) + "Z");
      }
      Then(a.minute, b.minute, 2, ":",
           Pad(a.second, 2) + ("." + (Pad(a.milli, 3) + "Z")), Pad(b.second, 2) + ("." + (Pad(b.milli, 3) + "Z")));
    }
    Then(a.hour, b.hour, 2, ":",
         Pad(a.minute, 2) + (":" + (Pad(a.second, 2) + ("." + (Pad(a.milli, 3) + "Z")))),
         Pad(b.minute, 2) + (":" + (Pad(b.second, 2) + ("." + (Pad(b.milli, 3) + "Z")))));
  }

  lemma DateOrder(a: Date, b: Date, x: string, y: string)
    requires 0 <= a.year < 10_000 && 1 <= a.month <= 12 && 1 <= a.day <= 31
    requires 0 <= b.year < 10_000 && 1 <= b.month <= 12 && 1 <= b.day <= 31
    requires DateLess(a, b) || (a == b && Before(x, y))
    ensures Before(DateText(a, x), DateText(b, y))
  {
    assert Pow10(2) == 100 && Pow10(4) == 10_000;
    if a.year == b.year {
      if a.month == b.month {
        Then(a.day, b.day, 2, "T", x, y);
      }
      Then(a.month, b.month, 2, "-", Pad(a.day, 2) + ("T" + x), Pad(b.day, 2) + ("T" + y));
    }
    Then(a.year, b.year, 4, "-",
         Pad(a.month, 2) + ("-" + (Pad(a.day, 2) + ("T" + x))), Pad(b.month, 2) + ("-" + (Pad(b.day, 2) + ("T" + y))));
  }

  // ---- instants -------------------------------------------------------------------------------------------

  lemma FieldsIncrease(a: nat, b: nat)
    requires a < b
    ensures var f, g := FieldsOf(a), FieldsOf(b); DateLess(f.date, g.date) || (f.date == g.date && ClockLess(f, g))
  {
    var p, q := a / 1000 / DAY_SECONDS, b / 1000 / DAY_SECONDS;
    CivilIsTheCalendar(p);
    CivilIsTheCalendar(q);
    if p < q {
      DaysIncrease(p, q);
    } else {
      FieldBounds(a);
      FieldBounds(b);
      assert p == q;
    }
  }

  /** The first instant of the year 10000. */
  const YEAR_10000 := 253_402_300_800_000

  lemma LastDayOf9999()
    ensures DayAt(2_932_896) == Date(9999, 12, 31) && DayAt(2_932_897) == Date(10_000, 1, 1)
  {
    DayOfParts(2_932_896, 24, 399, 305);
    DayOfParts(2_932_897, 24, 399, 306);
  }

  lemma DayOfParts(days: int, era: int, y: nat, doy: nat)
    requires InYear(y, doy) && days + 719_468 == era * 146_097 + YearStart(y) + doy
    ensures DayAt(days) == DateOf(era, y, doy)
  {
    CivilIsTheCalendar(days);
    CivilOfParts(days, era, y, doy);
  }

  lemma FourDigitDay(day: nat)
    requires day < 2_932_897
    ensures 1970 <= DayAt(day).year < 10_000
  {
    LastDayOf9999();
    DayNumberCounts(day);
    if day < 2_932_896 { DaysIncrease(day, 2_932_896); }
  }

  lemma DateOfInstant(millis: nat)
    ensures FieldsOf(millis).date == DayAt(millis / 1000 / DAY_SECONDS)
  {
    CivilIsTheCalendar(millis / 1000 / DAY_SECONDS);
  }

  lemma FourDigitYears(millis: nat)
    requires millis < YEAR_10000
    ensures 1970 <= FieldsOf(millis).date.year < 10_000
  {
    DateOfInstant(millis);
    FourDigitDay(millis / 1000 / DAY_SECONDS);
  }

  lemma IsoOrder(a: nat, b: nat)
    requires a < b < YEAR_10000
    ensures Before(Iso(a), Iso(b))
  {
    var f, g := FieldsOf(a), FieldsOf(b);
    FieldsIncrease(a, b);
    FourDigitYears(a);
    FourDigitYears(b);
    FieldBounds(a);
    FieldBounds(b);
    TextNested(f);
    TextNested(g);
    if f.date == g.date { ClockOrder(f, g); }
    DateOrder(f.date, g.date, Clock(f), Clock(g));
  }

  /** "9999-..." does not come before "10000-...". */
  lemma OrderBreaksAtYear10000()
    ensures !Before(Iso(YEAR_10000 - 1), Iso(YEAR_10000))
  {
    LastDayOf9999();
    CivilIsTheCalendar(2_932_896);
    CivilIsTheCalendar(2_932_897);
    assert (YEAR_10000 - 1) / 1000 / DAY_SECONDS == 2_932_896 && YEAR_10000 / 1000 / DAY_SECONDS == 2_932_897;
    FieldBounds(YEAR_10000 - 1);
    FieldBounds(YEAR_10000);
    TextNested(FieldsOf(YEAR_10000 - 1));
    TextNested(FieldsOf(YEAR_10000));
    FirstDigits();
    assert Iso(YEAR_10000 - 1)[0] == '9' && Iso(YEAR_10000)[0] == '1';
  }

  lemma FirstDigits()
    ensures Pad(9999, 4)[0] == '9' && Pad(10_000, 4)[0] == '1'
  {
    assert Digits(9) == "9" && Digits(1) == "1";
    assert Digits(99) == Digits(9) + "9" && Digits(10) == Digits(1) + "0";
    assert Digits(999) == Digits(99) + "9" && Digits(100) == Digits(10) + "0";
    assert Digits(9999) == Digits(999) + "9" && Digits(1000) == Digits(100) + "0";
    assert Digits(10_000) == Digits(1000) + "0";
  }

  lemma OrderIsExact(a: nat, b: nat)
    requires a < YEAR_10000 && b < YEAR_10000
    ensures a < b <==> Before(Iso(a), Iso(b))
  {
    if a < b {
      IsoOrder(a, b);
    } else {
      if b < a { IsoOrder(b, a); }
      BeforeIsStrict(Iso(b), Iso(a));
      BeforeIsStrict(Iso(a), Iso(b));
    }
  }

  /** Sorting the texts sorts the instants, on all instants below a bound, exactly up to the year 10000. */
  lemma TextOrderIsTimeOrderIff(bound: nat)
    ensures (forall a, b :: 0 <= a < bound && 0 <= b < bound ==> (a < b <==> Before(Iso(a), Iso(b)))) <==>
      bound <= YEAR_10000
  {
    if bound <= YEAR_10000 {
      forall a, b | 0 <= a < bound && 0 <= b < bound ensures a < b <==> Before(Iso(a), Iso(b)) {
        OrderIsExact(a, b);
      }
    } else {
      OrderBreaksAtYear10000();
      assert !(YEAR_10000 - 1 < YEAR_10000 <==> Before(Iso(YEAR_10000 - 1), Iso(YEAR_10000)));
    }
  }
}
