/**
 * Instants as ISO text (packages/kernel/src/instant.ts): `toISOString` of ECMA-262 for its whole
 * range of dates, a reader of that form, and with them the round trip of an analysis.
 */
module KernelInstant {
  import opened Common
  import opened Calendar
  import opened IsoOrder
  import opened IsoText
  import opened Analyses
  import Wire = AnalysisWire

  const DAY_MILLIS := 86_400_000
  const MAX_EPOCH_MILLIS := 8_640_000_000_000_000

  predicate InstantInRange(t: int) { -MAX_EPOCH_MILLIS <= t <= MAX_EPOCH_MILLIS }

  // ---- writing ------------------------------------------------------------------------------------------

  /** Four digits, or a sign and six. */
  function YearText(year: int): string {
    if 0 <= year <= 9999 then Pad(year, 4)
    else if year < 0 then "-" + Pad(-year, 6)
    else "+" + Pad(year, 6)
  }

  /** The clock of an instant, with the date aside. */
  function ClockOf(t: int): (f: Fields)
    ensures f.hour < 24 && f.minute < 60 && f.second < 60 && f.milli < 1000
  {
    var millis := t % DAY_MILLIS;
    Fields(DayAt(t / DAY_MILLIS), millis / 3_600_000, millis / 60_000 % 60, millis / 1000 % 60, millis % 1000)
  }

  function TailOf(f: Fields): string
    requires f.date.month >= 0 && f.date.day >= 0
  {
    Tail(Pad(f.date.month, 2), Pad(f.date.day, 2), Pad(f.hour, 2), Pad(f.minute, 2), Pad(f.second, 2), Pad(f.milli, 3))
  }

  function IsoString(t: int): string {
    DayValid(t / DAY_MILLIS);
    YearText(DayAt(t / DAY_MILLIS).year) + TailOf(ClockOf(t))
  }

  // ---- reading ------------------------------------------------------------------------------------------

  function SignedYear(text: string): int {
    if text != "" && text[0] == '-' then 0 - Number(text[1..])
    else if text != "" && text[0] == '+' then Number(text[1..])
    else Number(text)
  }

  const CYCLES := 700
  const CYCLE_YEARS := 400
  const CYCLE_DAYS := 146_097

  /** Days from 1970-01-01 to a date, counted in a later cycle of 400 years. */
  function DaysTo(d: Date): int
    requires d.year >= -CYCLES * CYCLE_YEARS && d.month >= 0
  {
    DayNumber(Date(d.year + CYCLES * CYCLE_YEARS, d.month, d.day)) - CYCLES * CYCLE_DAYS
  }

  function InstantAt(year: int, p: Parts): Option<int> {
    if year < -CYCLES * CYCLE_YEARS then None
    else
      var days := DaysTo(Date(year, Number(p.month), Number(p.day)));
      Some(((days * 24 + Number(p.hour)) * 60 + Number(p.minute)) * 60_000 + Number(p.second) * 1000 + Number(p.milli))
  }

  function ReadIso(s: string): Option<int> {
    if |s| < 24 then None
    else
      match CutTail(s[..|s| - 20], s[|s| - 20..])
      case None => None
      case Some(p) => InstantAt(SignedYear(p.year), p)
  }

  // ---- the round trip ------------------------------------------------------------------------------------

  lemma ErasRepeat(era: int, doe: nat)
    requires doe < CYCLE_DAYS
    ensures var d := AsDate(CivilOfEra(era, doe));
      AsDate(CivilOfEra(era + CYCLES, doe)) == Date(d.year + CYCLES * CYCLE_YEARS, d.month, d.day)
  {
  }

  /** 400 years on, the calendar repeats itself. */
  lemma CyclesRepeat(z: int)
    ensures var d, later := DayAt(z), DayAt(z + CYCLES * CYCLE_DAYS);
      later == Date(d.year + CYCLES * CYCLE_YEARS, d.month, d.day)
  {
    CivilIsTheCalendar(z);
    CivilIsTheCalendar(z + CYCLES * CYCLE_DAYS);
    var era, doe := EraOfDay(z);
    EraOf(z, era, doe);
    EraOf(z + CYCLES * CYCLE_DAYS, era + CYCLES, doe);
    ErasRepeat(era, doe);
  }

  lemma EraOfDay(z: int) returns (era: int, doe: nat)
    ensures doe < CYCLE_DAYS && z + 719_468 == era * CYCLE_DAYS + doe
    ensures z + CYCLES * CYCLE_DAYS + 719_468 == (era + CYCLES) * CYCLE_DAYS + doe
  {
    era, doe := (z + 719_468) / CYCLE_DAYS, (z + 719_468) % CYCLE_DAYS;
  }

  lemma DaysToCounts(z: int)
    requires z + CYCLES * CYCLE_DAYS >= 0
    ensures Valid(DayAt(z)) && DayAt(z).year >= -CYCLES * CYCLE_YEARS && DaysTo(DayAt(z)) == z
  {
    DayValid(z);
    CyclesRepeat(z);
    DayNumberCounts(z + CYCLES * CYCLE_DAYS);
  }

  lemma PadStartsWithADigit(n: nat, width: nat)
    ensures Pad(n, width) != "" && IsDigit(Pad(n, width)[0])
  {
    PadDigits(n, width);
    assert |Pad(n, width)| > 0;
  }

  lemma YearReads(year: int)
    ensures SignedYear(YearText(year)) == year && |YearText(year)| >= 4
  {
    PadIs(if year < 0 then -year else year, 4);
    PadIs(if year < 0 then -year else year, 6);
    PadStartsWithADigit(if year < 0 then -year else year, 4);
  }

  /** Four digits for the years 0 to 9999, otherwise a sign and six. */
  lemma YearTextIs(year: int)
    requires -271_821 <= year <= 275_760
    ensures var text := YearText(year);
      if 0 <= year < 10_000 then |text| == 4 && IsDigit(text[0])
      else |text| == 7 && text[0] == if year < 0 then '-' else '+'
  {
    assert Pow10(0) == 1 && Pow10(1) == 10 && Pow10(2) == 100 && Pow10(3) == 1000;
    assert Pow10(4) == 10_000 && Pow10(5) == 100_000 && Pow10(6) == 1_000_000;
    if 0 <= year < 10_000 {
      PadIs(year, 4);
      PadStartsWithADigit(year, 4);
    } else {
      PadIs(if year < 0 then -year else year, 6);
    }
  }

  lemma ClockAddsUp(t: int)
    ensures var f, days := ClockOf(t), t / DAY_MILLIS;
      t == ((days * 24 + f.hour) * 60 + f.minute) * 60_000 + f.second * 1000 + f.milli
  {
    var millis := t % DAY_MILLIS;
    assert millis == millis / 1000 * 1000 + millis % 1000;
    assert millis / 1000 == millis / 1000 / 60 * 60 + millis / 1000 % 60;
    assert millis / 60_000 == millis / 1000 / 60;
    assert millis / 60_000 == millis / 60_000 / 60 * 60 + millis / 60_000 % 60;
    assert millis / 3_600_000 == millis / 60_000 / 60;
  }

  lemma TailReads(year: string, f: Fields) returns (p: Parts)
    requires InRange(f) && |year| >= 4
    ensures p.year == year && |TailOf(f)| == 20 && CutTail(year, TailOf(f)) == Some(p)
    ensures Number(p.month) == f.date.month && Number(p.day) == f.date.day
    ensures Number(p.hour) == f.hour && Number(p.minute) == f.minute && Number(p.second) == f.second &&
      Number(p.milli) == f.milli
  {
    Widths(f);
    p := Parts(year, Pad(f.date.month, 2), Pad(f.date.day, 2), Pad(f.hour, 2), Pad(f.minute, 2), Pad(f.second, 2), Pad(f.milli, 3));
    TailParts(p.month, p.day, p.hour, p.minute, p.second, p.milli);
  }

  /** Every instant of the range reads back, years before 0 and after 9999 included. */
  lemma IsoStringReadsBack(t: int)
    requires InstantInRange(t)
    ensures ReadIso(IsoString(t)) == Some(t)
  {
    var days, f := t / DAY_MILLIS, ClockOf(t);
    DayValid(days);
    DaysToCounts(days);
    YearReads(f.date.year);
    var year := YearText(f.date.year);
    assert TailOf(f.(date := f.date.(year := 0))) == TailOf(f);
    var p := TailReads(year, f.(date := f.date.(year := 0)));
    ReadSplit(year, TailOf(f));
    ClockAddsUp(t);
    assert InstantAt(f.date.year, p) == Some(t) by { InstantIs(p, f, days, t); }
  }

  lemma InstantIs(p: Parts, f: Fields, days: int, t: int)
    requires f.date.year >= -CYCLES * CYCLE_YEARS && f.date.month >= 0 && f.date.day >= 0 && DaysTo(f.date) == days
    requires Number(p.month) == f.date.month && Number(p.day) == f.date.day
    requires Number(p.hour) == f.hour && Number(p.minute) == f.minute && Number(p.second) == f.second &&
      Number(p.milli) == f.milli
    requires t == ((days * 24 + f.hour) * 60 + f.minute) * 60_000 + f.second * 1000 + f.milli
    ensures InstantAt(f.date.year, p) == Some(t)
  {
    assert Date(f.date.year, f.date.month, f.date.day) == f.date;
  }

  // ---- instants as the analyses hold them ---------------------------------------------------------------

  /** What `Date` makes of a number: the fraction is cut off. */
  function Cut(n: real): int { if n >= 0.0 then n.Floor else -(-n).Floor }

  /** Whole milliseconds, a hundred million days before 1970 to as many after. */
  ghost predicate Representable(n: real) { n == n.Floor as real && -8_640_000_000_000_000.0 <= n <= 8_640_000_000_000_000.0 }

  /** `Instant.toISO`. Out of range it throws, which is the empty text here: no reader takes that. */
  function ToIso(n: real): string {
    if -(MAX_EPOCH_MILLIS as real) <= n <= MAX_EPOCH_MILLIS as real then IsoString(Cut(n)) else ""
  }

  /** `Instant.fromISO`, on the form `toISO` writes. */
  function FromIso(s: string): Option<real> {
    match ReadIso(s)
    case None => None
    case Some(t) => if InstantInRange(t) then Some(t as real) else None
  }

  const RUNTIME := Wire.IsoText(ToIso, FromIso)

  lemma InstantSurvivesIff(n: real)
    ensures FromIso(ToIso(n)) == Some(n) <==> Representable(n)
  {
    var t := Cut(n);
    assert n == n.Floor as real ==> t as real == n by {
      if n < 0.0 && n == n.Floor as real { assert (-n).Floor == -(n.Floor); }
    }
    if InstantInRange(t) { IsoStringReadsBack(t); }
  }

  /** An instant in range comes back without its fraction of a millisecond, which is cut off towards 1970. */
  lemma InstantComesBack(n: real)
    ensures FromIso(ToIso(n)).Some? <==> -8_640_000_000_000_000.0 <= n <= 8_640_000_000_000_000.0
    ensures FromIso(ToIso(n)).Some? ==>
      var m := FromIso(ToIso(n)).value;
      m == m.Floor as real && if n >= 0.0 then m <= n < m + 1.0 else m - 1.0 < n <= m <= 0.0
  {
    var t := Cut(n);
    assert if n >= 0.0 then t as real <= n < t as real + 1.0 else t as real - 1.0 < n <= t as real <= 0.0;
    if InstantInRange(t) { IsoStringReadsBack(t); }
  }

  /**
   * The API reads back what it writes exactly for the analyses with a relative window and those whose
   * two instants are whole milliseconds in range.
   */
  lemma AnalysisSurvivesIff(a: DomainAnalysis)
    ensures Wire.ToAnalysis(RUNTIME, Wire.FromAnalysis(RUNTIME, a)) == Ok(a) <==>
              (a.window.Absolute? ==> Representable(a.window.from) && Representable(a.window.to))
  {
    Wire.AnalysisReturnsIff(RUNTIME, a);
    if a.window.Absolute? {
      InstantSurvivesIff(a.window.from);
      InstantSurvivesIff(a.window.to);
    }
  }

  // ---- the same text in two languages -------------------------------------------------------------------

  lemma SameDay(millis: nat)
    ensures millis / 1000 / DAY_SECONDS == millis / DAY_MILLIS
    ensures millis % DAY_MILLIS == millis / 1000 % DAY_SECONDS * 1000 + millis % 1000
  {
    var seconds, ms := millis / 1000, millis % 1000;
    var days, rem := seconds / DAY_SECONDS, seconds % DAY_SECONDS;
    assert millis == days * DAY_MILLIS + (rem * 1000 + ms);
    DivModIs(millis, days, rem * 1000 + ms);
  }

  lemma DivModIs(n: int, q: int, r: int)
    requires n == q * DAY_MILLIS + r && 0 <= r < DAY_MILLIS
    ensures n / DAY_MILLIS == q && n % DAY_MILLIS == r
  {
  }

  lemma SameTime(rem: nat, ms: nat)
    requires rem < DAY_SECONDS && ms < 1000
    ensures var m := rem * 1000 + ms;
      && m / 3_600_000 == rem / 3600 && m / 60_000 % 60 == rem % 3600 / 60
      && m / 1000 % 60 == rem % 60 && m % 1000 == ms
  {
    var m := rem * 1000 + ms;
    assert m / 1000 == rem;
    assert m / 60_000 == rem / 60;
    var hours, left := rem / 3600, rem % 3600;
    assert rem / 60 == hours * 60 + left / 60;
  }

  lemma SameFields(millis: nat)
    ensures IsoText.FieldsOf(millis) == ClockOf(millis)
  {
    SameDay(millis);
    SameTime(millis / 1000 % DAY_SECONDS, millis % 1000);
    CivilIsTheCalendar(millis / DAY_MILLIS);
  }

  lemma YearAfter(millis: nat)
    requires millis >= YEAR_10000
    ensures IsoText.FieldsOf(millis).date.year >= 10_000
  {
    var days := millis / 1000 / DAY_SECONDS;
    assert days >= 2_932_897;
    LastDayOf9999();
    CivilIsTheCalendar(days);
    if days > 2_932_897 { DaysIncrease(2_932_897, days); }
  }

  /** The Rust SDK and the runtime write the same text exactly for the instants before the year 10000. */
  lemma SdkTextIsRuntimeTextIff(millis: nat)
    ensures Iso(millis) == IsoString(millis) <==> millis < YEAR_10000
  {
    SameFields(millis);
    YearOfInstant(millis);
    var f := ClockOf(millis);
    assert Iso(millis) == Pad(f.date.year, 4) + TailOf(f) && IsoString(millis) == YearText(f.date.year) + TailOf(f);
    if millis < YEAR_10000 {
      FourDigitYears(millis);
    } else {
      YearAfter(millis);
      PadStartsWithADigit(f.date.year, 4);
      assert IsoString(millis)[0] == '+' && Iso(millis)[0] == Pad(f.date.year, 4)[0];
    }
  }
}
