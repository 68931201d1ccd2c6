/**
 * The dependency-free calendar of the Rust SDK (packages/rust/src/client.rs, `civil_from_days`)
 * against the Gregorian calendar walked day by day.
 */
module Calendar {

  datatype Date = Date(year: int, month: int, day: int)

  // ---- the reference: the Gregorian calendar, one day at a time -------------------------------------

  /** The leap year rule of Appendix C of RFC 3339. */
  predicate IsLeap(year: int) {
    year % 4 == 0 && (year % 100 != 0 || year % 400 == 0)
  }

  function DaysIn(year: int, month: int): int {
    if month == 2 then (if IsLeap(year) then 29 else 28)
    else if month == 4 || month == 6 || month == 9 || month == 11 then 30
    else 31
  }

  predicate Valid(d: Date) {
    1 <= d.month <= 12 && 1 <= d.day <= DaysIn(d.year, d.month)
  }

  function NextDay(d: Date): Date {
    if d.day < DaysIn(d.year, d.month) then d.(day := d.day + 1)
    else if d.month < 12 then Date(d.year, d.month + 1, 1)
    else Date(d.year + 1, 1, 1)
  }

  function PreviousDay(d: Date): Date {
    if d.day > 1 then d.(day := d.day - 1)
    else if d.month > 1 then Date(d.year, d.month - 1, DaysIn(d.year, d.month - 1))
    else Date(d.year - 1, 12, 31)
  }

  const EPOCH := Date(1970, 1, 1)

  /** The date `z` days after 1970-01-01, or before it when negative. */
  function DayAt(z: int): Date
    decreases if z < 0 then -z else z
  {
    if z == 0 then EPOCH
    else if z > 0 then NextDay(DayAt(z - 1))
    else PreviousDay(DayAt(z + 1))
  }

  // ---- the code ---------------------------------------------------------------------------------------

  /** Rust's `/` on signed integers: towards zero. */
  function Truncated(a: int, b: int): int
    requires b > 0
  {
    if a >= 0 then a / b else -((-a) / b)
  }

  /** Unsigned parts are naturals: that they type-check is that nothing underflows. */
  function CivilFromDays(days: int): (r: (int, nat, nat)) {
    var z := days + 719_468;
    var era := Truncated(if z >= 0 then z else z - 146_096, 146_097);
    EraBounds(z);
    CivilOfEra(era, z - era * 146_097)
  }

  function CivilOfEra(era: int, doe: nat): (r: (int, nat, nat))
    requires doe < 146_097
  {
    YearBounds(doe);
    var yoe: nat := YearOfEra(doe);
    var y := yoe + era * 400;
    var doy: nat := doe - (365 * yoe + yoe / 4 - yoe / 100);
    var mp: nat := (5 * doy + 2) / 153;
    var d: nat := doy - (153 * mp + 2) / 5 + 1;
    var m: nat := if mp < 10 then mp + 3 else mp - 9;
    (if m <= 2 then y + 1 else y, m, d)
  }

  function YearOfEra(doe: nat): nat
    requires doe < 146_097
  {
    (doe - doe / 1460 + doe / 36_524 - doe / 146_096) / 365
  }

  // ---- eras, years and days as a mixed-radix number -------------------------------------------------

  lemma EraBounds(z: int)
    ensures var era := Truncated(if z >= 0 then z else z - 146_096, 146_097);
      era == z / 146_097 && 0 <= z - era * 146_097 < 146_097
  {
  }

  /** The first day of a March-based year of an era. */
  function YearStart(y: nat): nat { 365 * y + y / 4 - y / 100 }

  /** Year `y` of an era ends with a February that has 29 days. */
  predicate LongYear(y: nat) {
    (y + 1) % 4 == 0 && ((y + 1) % 100 != 0 || (y + 1) % 400 == 0)
  }

  predicate InYear(y: nat, doy: nat) {
    y < 400 && doy <= 365 && (doy == 365 ==> LongYear(y))
  }

  /** The arithmetic of `yoe`, by century, four-year cycle and year. */
  lemma YearOfParts(c: nat, q: nat, r: nat, doy: nat)
    requires c <= 3 && q <= 24 && r <= 3 && doy <= 365 && (doy == 365 ==> r == 3 && (q < 24 || c == 3))
    ensures var doe := 36_524 * c + 1461 * q + 365 * r + doy;
      doe < 146_097 && YearOfEra(doe) == 100 * c + 4 * q + r
  {
    var doe := 36_524 * c + 1461 * q + 365 * r + doy;
    var t := 24 * c + q + 365 * r + doy;
    assert doe == 1460 * (25 * c + q) + t;
    var e := if t >= 1460 then 1 else 0;
    assert doe / 1460 == 25 * c + q + e;
    if doe == 146_096 {
      assert doe / 36_524 == 4;
    } else {
      assert doe < 36_524 * (c + 1);
      assert doe / 36_524 == c;
    }
    var y := 100 * c + 4 * q + r;
    assert doe - doe / 1460 + doe / 36_524 - doe / 146_096 == 365 * y + (doy - e);
  }

  lemma YearParts(y: nat)
    requires y < 400
    ensures var c, q, r := y / 100, y % 100 / 4, y % 4;
      y == 100 * c + 4 * q + r && c <= 3 && q <= 24 && YearStart(y) == 36_524 * c + 1461 * q + 365 * r
    ensures LongYear(y) <==> y % 4 == 3 && (y % 100 / 4 < 24 || y / 100 == 3)
  {
  }

  lemma YearFound(doe: nat, y: nat, doy: nat)
    requires InYear(y, doy) && doe == YearStart(y) + doy
    ensures doe < 146_097 && YearOfEra(doe) == y
  {
    YearParts(y);
    YearOfParts(y / 100, y % 100 / 4, y % 4, doy);
  }

  /** The next day of an era, as year and day of year. */
  function NextInEra(y: nat, doy: nat): (nat, nat) {
    if doy < 364 || (doy == 364 && LongYear(y)) then (y, doy + 1) else (y + 1, 0)
  }

  lemma NextInEraIs(y: nat, doy: nat)
    requires InYear(y, doy)
    ensures var (y', doy') := NextInEra(y, doy);
      && (y' < 400 ==> InYear(y', doy') && YearStart(y') + doy' == YearStart(y) + doy + 1)
      && (y' == 400 ==> doy' == 0 && YearStart(y) + doy + 1 == 146_097)
      && y' <= 400
  {
    if y < 399 { YearLength(y); }
    assert YearStart(399) == 145_731 && LongYear(399);
  }

  lemma YearLength(y: nat)
    requires y < 399
    ensures YearStart(y + 1) == YearStart(y) + if LongYear(y) then 366 else 365
  {
    assert (y + 1) / 4 == y / 4 + if (y + 1) % 4 == 0 then 1 else 0;
    assert (y + 1) / 100 == y / 100 + if (y + 1) % 100 == 0 then 1 else 0;
    if (y + 1) % 100 == 0 { assert (y + 1) % 4 == 0; }
    assert (y + 1) % 400 == y + 1;
  }

  /** Every day of an era lies in a year. */
  lemma {:induction false} DayHasAYear(doe: nat) returns (y: nat, doy: nat)
    requires doe < 146_097
    ensures InYear(y, doy) && YearStart(y) + doy == doe
  {
    if doe == 0 {
      y, doy := 0, 0;
    } else {
      y, doy := DayHasAYear(doe - 1);
      NextInEraIs(y, doy);
      var next := NextInEra(y, doy);
      y, doy := next.0, next.1;
    }
  }

  lemma YearBounds(doe: nat)
    requires doe < 146_097
    ensures var y := YearOfEra(doe); YearStart(y) <= doe && InYear(y, doe - YearStart(y))
  {
    var y, doy := DayHasAYear(doe);
    YearFound(doe, y, doy);
    YearIs(doe, y, doy, YearOfEra(doe));
  }

  lemma YearIs(doe: nat, y: nat, doy: nat, found: nat)
    requires InYear(y, doy) && YearStart(y) + doy == doe && found == y
    ensures YearStart(found) <= doe && InYear(found, doe - YearStart(found))
  {
  }

  // ---- from a day of a year to a date ------------------------------------------------------------------

  function DateOf(era: int, y: nat, doy: nat): Date {
    var mp := (5 * doy + 2) / 153;
    var m := if mp < 10 then mp + 3 else mp - 9;
    Date(if m <= 2 then y + era * 400 + 1 else y + era * 400, m, doy - (153 * mp + 2) / 5 + 1)
  }

  function AsDate(r: (int, nat, nat)): Date { Date(r.0, r.1, r.2) }

  lemma CivilOfYear(era: int, doe: nat, y: nat, doy: nat)
    requires doe < 146_097 && YearOfEra(doe) == y && InYear(y, doy) && YearStart(y) + doy == doe
    ensures AsDate(CivilOfEra(era, doe)) == DateOf(era, y, doy)
  {
  }

  lemma CivilOfParts(days: int, era: int, y: nat, doy: nat)
    requires InYear(y, doy) && days + 719_468 == era * 146_097 + YearStart(y) + doy
    ensures AsDate(CivilFromDays(days)) == DateOf(era, y, doy)
  {
    var doe := YearStart(y) + doy;
    YearFound(doe, y, doy);
    CivilOfYear(era, doe, y, doy);
    EraOf(days, era, doe);
  }

  lemma EraOf(days: int, era: int, doe: nat)
    requires doe < 146_097 && days + 719_468 == era * 146_097 + doe
    ensures CivilFromDays(days) == CivilOfEra(era, doe)
  {
    EraIs(days + 719_468, era, doe);
  }

  lemma EraIs(z: int, era: int, doe: nat)
    requires doe < 146_097 && z == era * 146_097 + doe
    ensures Truncated(if z >= 0 then z else z - 146_096, 146_097) == era
  {
    if z >= 0 {
      Quotient(z, era, doe);
    } else {
      Quotient(146_096 - z, -era, 146_096 - doe);
    }
  }

  lemma Quotient(n: int, q: int, r: int)
    requires n == q * 146_097 + r && 0 <= r < 146_097
    ensures n / 146_097 == q
  {
  }

  lemma LeapOfEra(era: int, y: nat)
    requires y < 400
    ensures IsLeap(y + era * 400 + 1) <==> LongYear(y)
  {
    var k := y + 1;
    assert (k + era * 400) % 400 == k % 400;
    SameRemainder(k, 4 * era, 100);
    SameRemainder(k, 100 * era, 4);
  }

  lemma SameRemainder(k: int, times: int, d: int)
    requires d == 4 || d == 100
    ensures (k + times * d) % d == k % d
  {
    if d == 4 { assert (k + times * 4) % 4 == k % 4; } else { assert (k + times * 100) % 100 == k % 100; }
  }

  /** A month of the March-based year holds the days from its start to the next one's. */
  lemma MonthOf(doy: nat)
    requires doy <= 365
    ensures var mp := (5 * doy + 2) / 153;
      mp <= 11 && (153 * mp + 2) / 5 <= doy && (mp < 11 ==> doy < (153 * (mp + 1) + 2) / 5)
  {
  }

  lemma DateIsValid(era: int, y: nat, doy: nat)
    requires InYear(y, doy)
    ensures Valid(DateOf(era, y, doy))
  {
    MonthOf(doy);
    LeapOfEra(era, y);
  }

  lemma SameYearStep(era: int, y: nat, doy: nat)
    requires InYear(y, doy) && InYear(y, doy + 1)
    ensures NextDay(DateOf(era, y, doy)) == DateOf(era, y, doy + 1)
  {
    MonthOf(doy);
    MonthOf(doy + 1);
    LeapOfEra(era, y);
  }

  lemma NewYearStep(era: int, y: nat, doy: nat)
    requires InYear(y, doy) && NextInEra(y, doy).1 == 0
    ensures NextDay(DateOf(era, y, doy)) == Date(y + era * 400 + 1, 3, 1)
  {
    MonthOf(doy);
    LeapOfEra(era, y);
  }

  lemma StepWithinYear(days: int, era: int, y: nat, doy: nat)
    requires InYear(y, doy) && InYear(y, doy + 1) && days + 719_468 == era * 146_097 + YearStart(y) + doy
    ensures AsDate(CivilFromDays(days + 1)) == NextDay(DateOf(era, y, doy))
  {
    CivilOfParts(days + 1, era, y, doy + 1);
    SameYearStep(era, y, doy);
  }

  /** The first day of a year of an era is the first of March. */
  lemma FirstOfMarch(days: int, era: int, y: nat)
    requires y < 400 && days + 719_468 == era * 146_097 + YearStart(y)
    ensures AsDate(CivilFromDays(days)) == Date(y + era * 400, 3, 1)
  {
    CivilOfParts(days, era, y, 0);
  }

  lemma StepToNewYear(days: int, era: int, y: nat, doy: nat)
    requires InYear(y, doy) && NextInEra(y, doy).1 == 0 && days + 719_468 == era * 146_097 + YearStart(y) + doy
    ensures AsDate(CivilFromDays(days + 1)) == NextDay(DateOf(era, y, doy))
  {
    var start := YearStart(y) + doy + 1;
    assert (y < 399 ==> start == YearStart(y + 1)) && (y == 399 ==> start == 146_097) by { NextInEraIs(y, doy); }
    assert NextDay(DateOf(era, y, doy)) == Date(y + era * 400 + 1, 3, 1) by { NewYearStep(era, y, doy); }
    assert AsDate(CivilFromDays(days + 1)) == Date(y + era * 400 + 1, 3, 1) by {
      if y == 399 {
        FirstOfMarch(days + 1, era + 1, 0);
      } else {
        FirstOfMarch(days + 1, era, y + 1);
      }
    }
  }

  lemma CivilStep(days: int)
    ensures Valid(AsDate(CivilFromDays(days)))
    ensures AsDate(CivilFromDays(days + 1)) == NextDay(AsDate(CivilFromDays(days)))
  {
    var z := days + 719_468;
    var y, doy := DayHasAYear(z % 146_097);
    var era := z / 146_097;
    CivilOfParts(days, era, y, doy);
    DateIsValid(era, y, doy);
    if NextInEra(y, doy).1 == 0 {
      StepToNewYear(days, era, y, doy);
    } else {
      StepWithinYear(days, era, y, doy);
    }
  }

  lemma NextThenPrevious(d: Date)
    requires Valid(d)
    ensures PreviousDay(NextDay(d)) == d && Valid(NextDay(d))
  {
  }

  lemma EpochIsCivil()
    ensures AsDate(CivilFromDays(0)) == EPOCH
  {
    CivilOfParts(0, 4, 369, 306);
  }

  lemma StepBack(z: int)
    requires AsDate(CivilFromDays(z + 1)) == DayAt(z + 1)
    ensures AsDate(CivilFromDays(z)) == PreviousDay(DayAt(z + 1))
  {
    CivilStep(z);
    NextThenPrevious(AsDate(CivilFromDays(z)));
  }

  lemma StepOn(z: int)
    requires AsDate(CivilFromDays(z - 1)) == DayAt(z - 1)
    ensures AsDate(CivilFromDays(z)) == NextDay(DayAt(z - 1))
  {
    CivilStep(z - 1);
  }

  /** For every day, before and after the epoch, the algorithm gives the date the calendar reaches by walking. */
  lemma {:induction false} CivilIsTheCalendar(z: int)
    ensures AsDate(CivilFromDays(z)) == DayAt(z)
    decreases if z < 0 then -z else z
  {
    if z == 0 {
      EpochIsCivil();
    } else if z > 0 {
      CivilIsTheCalendar(z - 1);
      StepOn(z);
    } else {
      CivilIsTheCalendar(z + 1);
      StepBack(z);
    }
  }
}
