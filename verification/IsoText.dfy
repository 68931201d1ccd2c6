/**
 * The Rust SDK's ISO-8601 text of an instant (packages/rust/src/client.rs, `iso`): it reads back to
 * the same millisecond, and up to the year 9999 its order as text is the order of the instants.
 */
module IsoText {
  import opened Common
  import opened Calendar

  // ---- printing ---------------------------------------------------------------------------------------

  function Digit(n: nat): char
    requires n < 10
  {
    '0' + n as char
  }

  function Digits(n: nat): (s: string)
    ensures s != ""
  {
    if n < 10 then [Digit(n)] else Digits(n / 10) + [Digit(n % 10)]
  }

  function Zeros(n: nat): (s: string)
    ensures |s| == n
  {
    if n == 0 then "" else "0" + Zeros(n - 1)
  }

  /** `{:0width}`: at least `width` digits. */
  function Pad(n: nat, width: nat): string {
    var digits := Digits(n);
    if |digits| >= width then digits else Zeros(width - |digits|) + digits
  }

  const DAY_SECONDS := 86_400

  /** The seven numbers of the text. */
  datatype Fields = Fields(date: Date, hour: nat, minute: nat, second: nat, milli: nat)

  function FieldsOf(millis: nat): Fields {
    var seconds := millis / 1000;
    var rem := seconds % DAY_SECONDS;
    Fields(AsDate(CivilFromDays(seconds / DAY_SECONDS)), rem / 3600, rem % 3600 / 60, rem % 60, millis % 1000)
  }

  /** Everything after the year. */
  function Tail(month: string, day: string, hour: string, minute: string, second: string, milli: string): string {
    "-" + month + "-" + day + "T" + hour + ":" + minute + ":" + second + "." + milli + "Z"
  }

  function Text(f: Fields): string
    requires f.date.year >= 0 && f.date.month >= 0 && f.date.day >= 0
  {
    Pad(f.date.year, 4) +
    Tail(Pad(f.date.month, 2), Pad(f.date.day, 2), Pad(f.hour, 2), Pad(f.minute, 2), Pad(f.second, 2), Pad(f.milli, 3))
  }

  function Iso(millis: nat): string {
    YearOfInstant(millis);
    Text(FieldsOf(millis))
  }

  // ---- dates increase day by day -------------------------------------------------------------------------

  predicate DateLess(a: Date, b: Date) {
    a.year < b.year || (a.year == b.year && (a.month < b.month || (a.month == b.month && a.day < b.day)))
  }

  lemma {:induction false} DaysIncrease(a: nat, b: nat)
    requires a < b
    ensures Valid(DayAt(a)) && Valid(DayAt(b)) && DateLess(DayAt(a), DayAt(b))
  {
    DayValid(a);
    DayValid(b - 1);
    DayValid(b);
    if a < b - 1 { DaysIncrease(a, b - 1); }
  }

  lemma DayValid(z: int)
    ensures Valid(DayAt(z))
  {
    CivilIsTheCalendar(z);
    CivilStep(z);
  }

  lemma YearOfInstant(millis: nat)
    ensures var d := FieldsOf(millis).date; Valid(d) && d.year >= 1970
  {
    var days := millis / 1000 / DAY_SECONDS;
    CivilIsTheCalendar(days);
    DayValid(days);
    if days > 0 { DaysIncrease(0, days); }
  }

  // ---- reading ------------------------------------------------------------------------------------------

  function DaysInYear(year: int): nat { if IsLeap(year) then 366 else 365 }

  /** Days from 1970-01-01 to the first of January of a year. */
  function DaysToYear(year: nat): nat {
    if year <= 1970 then 0 else DaysToYear(year - 1) + DaysInYear(year - 1)
  }

  function DaysToMonth(year: int, month: nat): nat {
    if month <= 1 then 0 else DaysToMonth(year, month - 1) + DaysIn(year, month - 1)
  }

  /** How many days lie between 1970-01-01 and a date, counted by years, months and days. */
  function DayNumber(d: Date): int
    requires d.year >= 0 && d.month >= 0
  {
    DaysToYear(d.year) + DaysToMonth(d.year, d.month) + d.day - 1
  }

  lemma MonthsOfAYear(year: int)
    ensures DaysToMonth(year, 12) + 31 == DaysInYear(year)
  {
    var february := DaysIn(year, 2);
    assert DaysToMonth(year, 1) == 0;
    assert DaysToMonth(year, 2) == 31;
    assert DaysToMonth(year, 3) == 31 + february;
    assert DaysToMonth(year, 4) == 62 + february;
    assert DaysToMonth(year, 5) == 92 + february;
    assert DaysToMonth(year, 6) == 123 + february;
    assert DaysToMonth(year, 7) == 153 + february;
    assert DaysToMonth(year, 8) == 184 + february;
    assert DaysToMonth(year, 9) == 215 + february;
    assert DaysToMonth(year, 10) == 245 + february;
    assert DaysToMonth(year, 11) == 276 + february;
    assert DaysToMonth(year, 12) == 306 + february;
  }

  lemma {:induction false} DayNumberCounts(z: nat)
    ensures DayAt(z).year >= 1970 && Valid(DayAt(z)) && DayNumber(DayAt(z)) == z
  {
    DayValid(z);
    if z > 0 {
      DayNumberCounts(z - 1);
      MonthsOfAYear(DayAt(z - 1).year);
    }
  }

  predicate IsDigit(c: char) { '0' <= c <= '9' }

  /** The number a text of digits denotes. */
  function Number(s: string): nat {
    if s == "" then 0
    else Number(s[..|s| - 1]) * 10 + if IsDigit(s[|s| - 1]) then s[|s| - 1] as int - '0' as int else 0
  }

  /** The text cut into its digits. */
  datatype Parts = Parts(year: string, month: string, day: string, hour: string, minute: string, second: string,
      milli: string)

  /** Everything after the year has a fixed width. */
  function CutTail(year: string, t: string): Option<Parts>
    requires |t| == 20
  {
    if !(t[0] == '-' && t[3] == '-' && t[6] == 'T' && t[9] == ':' && t[12] == ':' && t[15] == '.' && t[19] == 'Z') then None
    else Some(Parts(year, t[1..3], t[4..6], t[7..9], t[10..12], t[13..15], t[16..19]))
  }

  /** Reads the text from its end. */
  function Read(s: string): Option<nat> {
    if |s| < 24 then None
    else
      match CutTail(s[..|s| - 20], s[|s| - 20..])
      case None => None
      case Some(p) => Meaning(p)
  }

  function Meaning(p: Parts): Option<nat> {
    ToMillis(Number(p.year), Number(p.month), Number(p.day), Number(p.hour), Number(p.minute), Number(p.second), Number(p.milli))
  }

  function ToMillis(year: nat, month: nat, day: nat, hour: nat, minute: nat, second: nat, milli: nat): Option<nat> {
    var days := DayNumber(Date(year, month, day));
    if days < 0 then None else Some(((days * 24 + hour) * 60 + minute) * 60_000 + second * 1000 + milli)
  }

  lemma {:induction false} DigitsRead(n: nat)
    ensures Number(Digits(n)) == n
  {
    if n >= 10 {
      DigitsRead(n / 10);
      assert Digits(n)[..|Digits(n)| - 1] == Digits(n / 10);
    }
  }

  lemma {:induction false} ZerosRead(n: nat, s: string)
    ensures Number(Zeros(n) + s) == Number(s)
  {
    if s == "" {
      assert Zeros(n) + s == Zeros(n);
      AllZeros(n);
    } else {
      ZerosRead(n, s[..|s| - 1]);
      assert (Zeros(n) + s)[..|Zeros(n) + s| - 1] == Zeros(n) + s[..|s| - 1];
    }
  }

  lemma {:induction false} AllZeros(n: nat)
    ensures Number(Zeros(n)) == 0 && forall i :: 0 <= i < n ==> Zeros(n)[i] == '0'
  {
    if n > 0 {
      AllZeros(n - 1);
      assert forall i :: 0 <= i < n ==> Zeros(n)[i] == '0';
      ZeroNumber(Zeros(n));
    }
  }

  lemma {:induction false} ZeroNumber(s: string)
    requires forall i :: 0 <= i < |s| ==> s[i] == '0'
    ensures Number(s) == 0
  {
    if s != "" { ZeroNumber(s[..|s| - 1]); }
  }

  function Pow10(k: nat): (p: nat)
    ensures p >= 1
  {
    if k == 0 then 1 else 10 * Pow10(k - 1)
  }

  lemma {:induction false} DigitsLength(n: nat, k: nat)
    requires k >= 1
    ensures |Digits(n)| <= k <==> n < Pow10(k)
  {
    if n >= 10 && k > 1 { DigitsLength(n / 10, k - 1); }
    if n >= 10 && k == 1 { assert |Digits(n)| >= 2; }
    if n < 10 { TenthPower(k); }
  }

  lemma {:induction false} TenthPower(k: nat)
    requires k >= 1
    ensures Pow10(k) >= 10
  {
    if k > 1 { TenthPower(k - 1); }
  }

  lemma PadIs(n: nat, width: nat)
    requires width >= 1
    ensures Number(Pad(n, width)) == n && |Pad(n, width)| >= width
    ensures n < Pow10(width) ==> |Pad(n, width)| == width
  {
    var digits := Digits(n);
    assert Number(digits) == n by { DigitsRead(n); }
    assert |digits| <= width <==> n < Pow10(width) by { DigitsLength(n, width); }
    if |digits| < width {
      assert Number(Zeros(width - |digits|) + digits) == n by { ZerosRead(width - |digits|, digits); }
    }
  }

  lemma FieldBounds(millis: nat)
    ensures var f := FieldsOf(millis);
      && f.hour < 24 && f.minute < 60 && f.second < 60 && f.milli < 1000
      && 1 <= f.date.month <= 12 && 1 <= f.date.day <= 31 && f.date.year >= 1970
      && millis == ((millis / 1000 / DAY_SECONDS * 24 + f.hour) * 60 + f.minute) * 60_000 + f.second * 1000 + f.milli
  {
    YearOfInstant(millis);
    ClockOfDay(millis / 1000 % DAY_SECONDS);
    ClockAdds(millis, millis / 1000, millis / 1000 / DAY_SECONDS, millis / 1000 % DAY_SECONDS);
  }

  lemma ClockOfDay(rem: nat)
    requires rem < DAY_SECONDS
    ensures rem == (rem / 3600 * 60 + rem % 3600 / 60) * 60 + rem % 60
    ensures rem / 3600 < 24 && rem % 3600 / 60 < 60 && rem % 60 < 60
  {
    var hour, left := rem / 3600, rem % 3600;
    assert rem == hour * 3600 + left && left == left / 60 * 60 + left % 60;
    assert rem % 60 == left % 60;
  }

  lemma ClockAdds(millis: nat, seconds: nat, days: nat, rem: nat)
    requires seconds == millis / 1000 && days == seconds / DAY_SECONDS && rem == seconds % DAY_SECONDS
    requires rem == (rem / 3600 * 60 + rem % 3600 / 60) * 60 + rem % 60
    ensures millis == ((days * 24 + rem / 3600) * 60 + rem % 3600 / 60) * 60_000 + rem % 60 * 1000 + millis % 1000
  {
    assert millis == seconds * 1000 + millis % 1000 && seconds == days * DAY_SECONDS + rem;
  }

  /** A text in three pieces: its start, and where the middle one is. */
  lemma Piece(before: string, piece: string, after: string)
    ensures var t := before + piece + after;
      && |t| == |before| + |piece| + |after| && before <= t
      && t[|before|..|before| + |piece|] == piece
      && (after != "" ==> t[|before| + |piece|] == after[0])
  {
  }

  /** What is in the start of a text is in the text. */
  lemma Inside(start: string, t: string, i: nat, j: nat)
    requires start <= t && i <= j <= |start|
    ensures t[i..j] == start[i..j] && (i < |start| ==> t[i] == start[i])
  {
  }

  lemma FrontParts(month: string, day: string, hour: string) returns (front: string)
    requires |month| == |day| == |hour| == 2
    ensures front == "-" + month + "-" + day + "T" + hour + ":" && |front| == 10
    ensures front[0] == '-' && front[3] == '-' && front[6] == 'T' && front[9] == ':'
    ensures front[1..3] == month && front[4..6] == day && front[7..9] == hour
  {
    var one := "-" + month + "-";
    var two := one + day + "T";
    front := two + hour + ":";
    Piece("-", month, "-");
    Piece(one, day, "T");
    Piece(two, hour, ":");
    Inside(one, two, 1, 3);
    Inside(two, front, 1, 3);
    Inside(two, front, 4, 6);
  }

  lemma TailParts(month: string, day: string, hour: string, minute: string, second: string, milli: string)
    requires |month| == |day| == |hour| == |minute| == |second| == 2 && |milli| == 3
    ensures var t := Tail(month, day, hour, minute, second, milli);
      && |t| == 20 && t[0] == '-' && t[3] == '-' && t[6] == 'T' && t[9] == ':' && t[12] == ':' && t[15] == '.' &&
          t[19] == 'Z'
      && t[1..3] == month && t[4..6] == day && t[7..9] == hour && t[10..12] == minute && t[13..15] == second &&
          t[16..19] == milli
  {
    var front := FrontParts(month, day, hour);
    var five := front + minute + ":";
    var six := five + second + ".";
    var t := six + milli + "Z";
    Piece(front, minute, ":");
    Piece(five, second, ".");
    Piece(six, milli, "Z");
    assert front <= t && five <= t;
    Inside(front, t, 1, 3);
    Inside(front, t, 4, 6);
    Inside(front, t, 7, 9);
    Inside(five, t, 10, 12);
    Inside(six, t, 13, 15);
    assert t == Tail(month, day, hour, minute, second, milli);
  }

  lemma ReadSplit(year: string, tail: string)
    requires |year| >= 4 && |tail| == 20
    ensures (year + tail)[..|year + tail| - 20] == year && (year + tail)[|year + tail| - 20..] == tail
  {
  }

  predicate InRange(f: Fields) {
    && f.date.year >= 0 && 1 <= f.date.month <= 12 && 1 <= f.date.day <= 31
    && f.hour < 24 && f.minute < 60 && f.second < 60 && f.milli < 1000
  }

  function InstantOf(f: Fields): int
    requires InRange(f)
  {
    ((DayNumber(f.date) * 24 + f.hour) * 60 + f.minute) * 60_000 + f.second * 1000 + f.milli
  }

  lemma Widths(f: Fields)
    requires InRange(f)
    ensures |Pad(f.date.month, 2)| == |Pad(f.date.day, 2)| == |Pad(f.hour, 2)| == |Pad(f.minute, 2)| ==
      |Pad(f.second, 2)| == 2
    ensures |Pad(f.milli, 3)| == 3 && |Pad(f.date.year, 4)| >= 4
    ensures Number(Pad(f.date.year, 4)) == f.date.year && Number(Pad(f.date.month, 2)) == f.date.month
    ensures Number(Pad(f.date.day, 2)) == f.date.day && Number(Pad(f.hour, 2)) == f.hour
    ensures Number(Pad(f.minute, 2)) == f.minute && Number(Pad(f.second, 2)) == f.second &&
      Number(Pad(f.milli, 3)) == f.milli
  {
    assert Pow10(2) == 100 && Pow10(3) == 1000;
    PadIs(f.date.year, 4);
    PadIs(f.date.month, 2);
    PadIs(f.date.day, 2);
    PadIs(f.hour, 2);
    PadIs(f.minute, 2);
    PadIs(f.second, 2);
    PadIs(f.milli, 3);
  }

  lemma ReadWhole(s: string, t: string, p: Parts)
    requires |p.year| >= 4 && |t| == 20 && s == p.year + t && CutTail(p.year, t) == Some(p)
    ensures Read(s) == Meaning(p)
  {
    ReadSplit(p.year, t);
  }

  predicate Denotes(p: Parts, f: Fields) {
    && Number(p.year) == f.date.year && Number(p.month) == f.date.month && Number(p.day) == f.date.day
    && Number(p.hour) == f.hour && Number(p.minute) == f.minute && Number(p.second) == f.second 
    && Number(p.milli) == f.milli
  }

  lemma MeaningIs(p: Parts, f: Fields)
    requires InRange(f) && DayNumber(f.date) >= 0 && Denotes(p, f)
    ensures Meaning(p) == Some(InstantOf(f))
  {
  }

  /** The text in its pieces, each with its width and its number. */
  lemma Pieces(f: Fields) returns (t: string, p: Parts)
    requires InRange(f)
    ensures Text(f) == p.year + t && |p.year| >= 4 && |t| == 20 && CutTail(p.year, t) == Some(p)
    ensures Denotes(p, f)
  {
    Widths(f);
    p := Parts(Pad(f.date.year, 4), Pad(f.date.month, 2), Pad(f.date.day, 2),
               Pad(f.hour, 2), Pad(f.minute, 2), Pad(f.second, 2), Pad(f.milli, 3));
    t := Tail(p.month, p.day, p.hour, p.minute, p.second, p.milli);
    TailParts(p.month, p.day, p.hour, p.minute, p.second, p.milli);
  }

  lemma TextReads(f: Fields)
    requires InRange(f) && DayNumber(f.date) >= 0
    ensures Read(Text(f)) == Some(InstantOf(f))
  {
    var t, p := Pieces(f);
    assert Read(Text(f)) == Meaning(p) by { ReadWhole(Text(f), t, p); }
    assert Meaning(p) == Some(InstantOf(f)) by { MeaningIs(p, f); }
  }

  /** The text reads back to the instant, for every millisecond since the epoch. */
  lemma IsoReadsBack(millis: nat)
    ensures Read(Iso(millis)) == Some(millis)
  {
    FieldBounds(millis);
    DateReadsBack(millis);
    var f := FieldsOf(millis);
    assert InRange(f) && InstantOf(f) == millis;
    assert Iso(millis) == Text(f);
    TextReads(f);
  }

  lemma DateReadsBack(millis: nat)
    ensures FieldsOf(millis).date.year >= 0 && FieldsOf(millis).date.month >= 0
    ensures DayNumber(FieldsOf(millis).date) == millis / 1000 / DAY_SECONDS
  {
    CivilIsTheCalendar(millis / 1000 / DAY_SECONDS);
    DayNumberCounts(millis / 1000 / DAY_SECONDS);
  }
}
