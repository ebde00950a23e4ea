/** Printing, parsing and comparing RFC 3339 timestamps.

    The printer is `utc_timestamp` in `main.rs`, the parser is
    `unix_seconds_from_rfc3339` in `codex.rs`, and `invite.rs` compares
    timestamps as strings without parsing them. */
module Timestamps {
  import opened Basics
  import opened Calendar

  // ---- Decimal numbers ----

  predicate IsDigit(c: char) { '0' <= c <= '9' }

  predicate AllDigits(s: string) { forall i :: 0 <= i < |s| ==> IsDigit(s[i]) }

  function DigitValue(c: char): (v: int)
    requires IsDigit(c)
    ensures 0 <= v < 10
  {
    c as int - '0' as int
  }

  function Value(digits: string): nat
    requires AllDigits(digits)
  {
    if digits == "" then 0
    else 10 * Value(digits[..|digits| - 1]) + DigitValue(digits[|digits| - 1])
  }

  function Decimal(n: nat): string {
    if n < 10 then [(n + '0' as int) as char]
    else Decimal(n / 10) + [(n % 10 + '0' as int) as char]
  }

  function Zeros(n: nat): string { seq(n, _ => '0') }

  /** The format `{n:0width}`. */
  function Padded(n: nat, width: nat): string {
    var digits := Decimal(n);
    if |digits| >= width then digits else Zeros(width - |digits|) + digits
  }

  function PowerOfTen(n: nat): nat { if n == 0 then 1 else 10 * PowerOfTen(n - 1) }

  lemma {:induction false} DecimalIsExact(n: nat)
    ensures AllDigits(Decimal(n)) && Value(Decimal(n)) == n
  {
    if n >= 10 {
      DecimalIsExact(n / 10);
      assert Decimal(n)[..|Decimal(n)| - 1] == Decimal(n / 10);
    } else {
      assert Decimal(n)[..0] == "";
    }
  }

  lemma {:induction false} DecimalLength(n: nat, width: nat)
    requires width > 0
    ensures |Decimal(n)| <= width <==> n < PowerOfTen(width)
  {
    if width == 1 {
      assert PowerOfTen(1) == 10 * PowerOfTen(0);
      if n >= 10 { assert |Decimal(n / 10)| >= 1; }
    } else if n >= 10 {
      DecimalLength(n / 10, width - 1);
    } else {
      assert PowerOfTen(width - 1) >= 1 by { PowerIsPositive(width - 1); }
    }
  }

  lemma {:induction false} PowersGrow(n: nat, m: nat)
    requires n <= m
    ensures PowerOfTen(n) <= PowerOfTen(m)
    decreases m - n
  {
    if n < m {
      PowersGrow(n, m - 1);
      PowerIsPositive(m - 1);
    }
  }

  lemma PowerIsPositive(n: nat)
    ensures PowerOfTen(n) >= 1
  {
  }

  lemma {:induction false} LeadingZeros(k: nat, s: string)
    requires AllDigits(s)
    ensures AllDigits(Zeros(k) + s) && Value(Zeros(k) + s) == Value(s)
    decreases |s|, k
  {
    if s == "" {
      if k > 0 {
        LeadingZeros(k - 1, s);
        assert (Zeros(k) + s)[..k - 1] == Zeros(k - 1) + s;
      } else {
        assert Zeros(0) + s == s;
      }
    } else {
      LeadingZeros(k, s[..|s| - 1]);
      assert (Zeros(k) + s)[..k + |s| - 1] == Zeros(k) + s[..|s| - 1];
    }
  }

  lemma PaddedIsExact(n: nat, width: nat)
    requires width > 0
    ensures AllDigits(Padded(n, width)) && Value(Padded(n, width)) == n
    ensures |Padded(n, width)| == width <==> n < PowerOfTen(width)
    ensures |Padded(n, width)| >= width
  {
    DecimalIsExact(n);
    DecimalLength(n, width);
    if |Decimal(n)| < width {
      LeadingZeros(width - |Decimal(n)|, Decimal(n));
    }
  }

  // ---- Order of digits ----

  lemma {:induction false} DigitsOrder(a: string, b: string)
    requires AllDigits(a) && AllDigits(b) && |a| == |b|
    ensures Less(a, b) <==> Value(a) < Value(b)
    ensures a == b <==> Value(a) == Value(b)
    decreases |a|
  {
    if a != "" {
      var cut := |a| - 1;
      DigitsOrder(a[..cut], b[..cut]);
      LessAtCut(a, b, cut);
      assert a == a[..cut] + a[cut..] && b == b[..cut] + b[cut..];
    }
  }

  // ---- The printer ----

  datatype Fields = Fields(date: Date, hour: nat, minute: nat, second: nat)

  predicate Printable(f: Fields) {
    f.date.year >= 0 && f.date.month >= 0 && f.date.day >= 0
  }

  function FieldsAt(seconds: nat): (f: Fields)
    ensures Printable(f)
  {
    PrintedDate(seconds);
    var secondOfDay := seconds % 86_400;
    Fields(CivilDate(seconds / 86_400), secondOfDay / 3_600, secondOfDay % 3_600 / 60, secondOfDay % 60)
  }

  function Render(f: Fields): string
    requires Printable(f)
  {
    Padded(f.date.year, 4) + "-" + Padded(f.date.month, 2) + "-" + Padded(f.date.day, 2) + "T"
    + Padded(f.hour, 2) + ":" + Padded(f.minute, 2) + ":" + Padded(f.second, 2) + ".000Z"
  }

  /** `utc_timestamp`, the clock's reading being its argument. */
  function UtcTimestamp(seconds: nat): string {
    Render(FieldsAt(seconds))
  }

  lemma PrintedDate(seconds: nat)
    ensures var date := CivilDate(seconds / 86_400);
            ValidDate(date) && DaysSinceEpoch(date) == seconds / 86_400 && date.year >= 1970
  {
    var days := seconds / 86_400;
    ClosedFormsAreInverse(days, Date(1970, 1, 1));
    CivilDateRefinesWalk(days);
    if days > 0 {
      WalkIsIncreasing(0, days);
    }
  }

  // ---- The parser ----

  /** `str::parse::<i64>`: a sign is allowed, the digits are not optional. */
  function ParseSigned(s: string): Option<int> {
    if s != "" && s[0] == '-' then
      if |s| > 1 && AllDigits(s[1..]) then Some(-(Value(s[1..]) as int)) else None
    else
      match ParseUnsigned(s)
      case Some(n) => Some(n)
      case None => None
  }

  /** `str::parse::<u32>`: a leading `+` is allowed. */
  function ParseUnsigned(s: string): Option<nat> {
    var digits := if s != "" && s[0] == '+' then s[1..] else s;
    if digits != "" && AllDigits(digits) then Some(Value(digits)) else None
  }

  /** The separators and fields of the text, before any range is checked. */
  function ParseFields(value: string): Option<Fields> {
    if |value| < 20 || value[|value| - 1] != 'Z' then None
    else if value[4] != '-' || value[7] != '-' || value[10] != 'T' || value[13] != ':' || value[16] != ':' then None
    else
      match (ParseSigned(value[0..4]), ParseUnsigned(value[5..7]), ParseUnsigned(value[8..10]),
             ParseUnsigned(value[11..13]), ParseUnsigned(value[14..16]), ParseUnsigned(value[17..19]))
      case (Some(year), Some(month), Some(day), Some(hour), Some(minute), Some(second)) =>
        Some(Fields(Date(year, month, day), hour, minute, second))
      case _ => None
  }

  predicate ValidSuffix(suffix: string) {
    suffix == "" || (suffix[0] == '.' && |suffix| > 1 && AllDigits(suffix[1..]))
  }

  function SecondsOf(f: Fields): int {
    DaysSinceEpoch(f.date) * 86_400 + (f.hour * 3_600 + f.minute * 60 + f.second)
  }

  predicate InInt64(n: int) { -0x8000_0000_0000_0000 <= n < 0x8000_0000_0000_0000 }

  /** `unix_seconds_from_rfc3339`. */
  function UnixSecondsFromRfc3339(value: string): Option<int> {
    match ParseFields(value)
    case None => None
    case Some(f) =>
      if !ValidSuffix(value[19..|value| - 1]) || !(1 <= f.date.month <= 12)
         || f.hour > 23 || f.minute > 59 || f.second > 59 then None
      else if f.date.day == 0 || f.date.day > DaysInMonth(f.date.year, f.date.month) then None
      else if !InInt64(DaysSinceEpoch(f.date) * 86_400) || !InInt64(SecondsOf(f)) then None
      else Some(SecondsOf(f))
  }

  // ---- The comparison of strings ----

  /** `valid_utc_timestamp`: the shape `dddd-dd-ddTdd:dd:dd.dddZ`, whatever it names. */
  predicate ValidUtcTimestamp(value: string) {
    && |value| == 24
    && value[4] == '-' && value[7] == '-' && value[10] == 'T' && value[13] == ':' && value[16] == ':'
    && value[19] == '.' && value[23] == 'Z'
    && forall i :: 0 <= i < 24 && i !in {4, 7, 10, 13, 16, 19, 23} ==> IsDigit(value[i])
  }

  /** `ensure_not_expired` succeeds. */
  predicate NotExpired(expiresAt: string, now: string) {
    ValidUtcTimestamp(expiresAt) && ValidUtcTimestamp(now) && !AtMost(expiresAt, now)
  }

  // ---- Main result: the round trip ----

  /** The first second of the year 10000. */
  const YEAR_10000 := 253_402_300_800

  lemma PrintedYearFits(seconds: nat)
    ensures CivilDate(seconds / 86_400).year < 10_000 <==> seconds < YEAR_10000
  {
    hide DaysSinceEpoch, CivilDate;
    PrintedDate(seconds);
    DaysOrderDates(CivilDate(seconds / 86_400), Date(10_000, 1, 1));
    FirstDayOf10000();
  }

  lemma FirstDayOf10000()
    ensures DaysSinceEpoch(Date(10_000, 1, 1)) == 2_932_897 && YEAR_10000 == 2_932_897 * 86_400
  {
  }

  lemma PaddedParses(n: nat, width: nat)
    requires width > 0 && n < PowerOfTen(width)
    ensures var s := Padded(n, width);
            |s| == width && AllDigits(s) && ParseUnsigned(s) == Some(n) && ParseSigned(s) == Some(n)
  {
    PaddedIsExact(n, width);
  }

  lemma Powers()
    ensures PowerOfTen(2) == 100 && PowerOfTen(4) == 10_000
  {
    assert PowerOfTen(4) == 10 * PowerOfTen(3) == 100 * PowerOfTen(2) == 1000 * PowerOfTen(1);
  }

  lemma Joined(s: string, y: string, mo: string, d: string, h: string, mi: string, sec: string)
    requires |y| == 4 && |mo| == 2 && |d| == 2 && |h| == 2 && |mi| == 2 && |sec| == 2
    requires AllDigits(y) && AllDigits(mo) && AllDigits(d) && AllDigits(h) && AllDigits(mi) && AllDigits(sec)
    requires s == y + "-" + mo + "-" + d + "T" + h + ":" + mi + ":" + sec + ".000Z"
    ensures ValidUtcTimestamp(s)
    ensures s[0..4] == y && s[4] == '-' && s[5..7] == mo && s[7] == '-' && s[8..10] == d && s[10] == 'T'
    ensures s[11..13] == h && s[13] == ':' && s[14..16] == mi && s[16] == ':' && s[17..19] == sec
    ensures s[19..23] == ".000" && s[23] == 'Z'
  {
    hide ValidUtcTimestamp, IsDigit;
    var dateText := y + "-" + mo + "-" + d;
    var timeText := h + ":" + mi + ":" + sec;
    assert s == dateText + "T" + timeText + ".000Z";
    assert s[..10] == dateText && s[11..19] == timeText;
    assert dateText[0..4] == y && dateText[5..7] == mo && dateText[8..10] == d;
    assert timeText[0..2] == h && timeText[3..5] == mi && timeText[6..8] == sec;
    assert AllDigits(s[20..23]) by { ZerosAreDigits(); assert s[20..23] == "000"; }
    ShapeOfTimestamp(s);
  }

  lemma ZerosAreDigits()
    ensures AllDigits("000")
  {
  }

  lemma ShapeOfTimestamp(s: string)
    requires |s| == 24
    requires s[4] == '-' && s[7] == '-' && s[10] == 'T' && s[13] == ':' && s[16] == ':' && s[19] == '.' && s[23] == 'Z'
    requires AllDigits(s[0..4]) && AllDigits(s[5..7]) && AllDigits(s[8..10])
    requires AllDigits(s[11..13]) && AllDigits(s[14..16]) && AllDigits(s[17..19]) && AllDigits(s[20..23])
    ensures ValidUtcTimestamp(s)
  {
    forall i | 0 <= i < 24 && i !in {4, 7, 10, 13, 16, 19, 23}
      ensures IsDigit(s[i])
    {
      var field := if i < 4 then s[0..4] else if i < 7 then s[5..7] else if i < 10 then s[8..10]
                   else if i < 13 then s[11..13] else if i < 16 then s[14..16]
                   else if i < 19 then s[17..19] else s[20..23];
      assert s[i] in field;
    }
  }

  lemma RenderedFieldsParse(f: Fields)
    requires Printable(f) && f.date.year < 10_000 && f.date.month < 100 && f.date.day < 100
    requires f.hour < 100 && f.minute < 100 && f.second < 100
    ensures var s := Render(f);
            ParseFields(s) == Some(f) && ValidUtcTimestamp(s) && s[19..|s| - 1] == ".000"
  {
    Powers();
    PaddedParses(f.date.year, 4);
    PaddedParses(f.date.month, 2);
    PaddedParses(f.date.day, 2);
    PaddedParses(f.hour, 2);
    PaddedParses(f.minute, 2);
    PaddedParses(f.second, 2);
    Joined(Render(f), Padded(f.date.year, 4), Padded(f.date.month, 2), Padded(f.date.day, 2),
           Padded(f.hour, 2), Padded(f.minute, 2), Padded(f.second, 2));
  }

  lemma SecondsOfPrintedFields(seconds: nat)
    ensures SecondsOf(FieldsAt(seconds)) == seconds
  {
    PrintedDate(seconds);
    ClockTime(seconds, DaysSinceEpoch(FieldsAt(seconds).date));
  }

  lemma ClockTime(seconds: nat, days: int)
    requires days == seconds / 86_400
    ensures var secondOfDay := seconds % 86_400;
            days * 86_400
            + (secondOfDay / 3_600 * 3_600 + secondOfDay % 3_600 / 60 * 60 + secondOfDay % 60) == seconds
  {
  }

  lemma FiveDigitYear(f: Fields)
    requires Printable(f) && f.date.year >= 10_000
    ensures |Render(f)| > 4 && Render(f)[4] != '-'
  {
    Powers();
    PaddedIsExact(f.date.year, 4);
    assert Render(f)[4] == Padded(f.date.year, 4)[4];
  }

  lemma EarlySecondRoundTrips(seconds: nat)
    requires seconds < YEAR_10000
    ensures UnixSecondsFromRfc3339(UtcTimestamp(seconds)) == Some(seconds)
    ensures ValidUtcTimestamp(UtcTimestamp(seconds))
  {
    hide DaysSinceEpoch, CivilDate, Render, SecondsOf, ParseFields;
    PrintedDate(seconds);
    PrintedYearFits(seconds);
    RenderedFieldsParse(FieldsAt(seconds));
    SecondsOfPrintedFields(seconds);
  }

  /** Printing and parsing returns the same second for every second before the
      year 10000, and for no later one: a fifth digit of the year moves the dash. */
  lemma PrintedTimestampParses(seconds: nat)
    ensures UnixSecondsFromRfc3339(UtcTimestamp(seconds)) == Some(seconds) <==> seconds < YEAR_10000
    ensures ValidUtcTimestamp(UtcTimestamp(seconds)) <==> seconds < YEAR_10000
  {
    hide DaysSinceEpoch, CivilDate, Render;
    if seconds < YEAR_10000 {
      EarlySecondRoundTrips(seconds);
    } else {
      PrintedYearFits(seconds);
      FiveDigitYear(FieldsAt(seconds));
    }
  }

  // ---- Main result: string order is chronological order ----

  /** The instant, in milliseconds, that a text names (None: it names no instant). */
  function Instant(s: string): Option<int>
    requires ValidUtcTimestamp(s)
  {
    match UnixSecondsFromRfc3339(s)
    case Some(seconds) => Some(seconds * 1_000 + Value(s[20..23]))
    case None => None
  }

  function DigitFields(s: string): Fields
    requires ValidUtcTimestamp(s)
  {
    Fields(Date(Value(s[0..4]), Value(s[5..7]), Value(s[8..10])),
           Value(s[11..13]), Value(s[14..16]), Value(s[17..19]))
  }

  lemma ParsedDigitFields(s: string)
    requires ValidUtcTimestamp(s)
    ensures ParseFields(s) == Some(DigitFields(s))
  {
  }

  lemma FieldOrder(s: string, t: string, i: nat, width: nat)
    requires |s| == |t| && i + width < |s| && s[i + width] == t[i + width]
    requires AllDigits(s[i..i + width]) && AllDigits(t[i..i + width])
    ensures var a, b := Value(s[i..i + width]), Value(t[i..i + width]);
            Less(s[i..], t[i..]) <==> a < b || (a == b && Less(s[i + width + 1..], t[i + width + 1..]))
  {
    LessAtCut(s[i..], t[i..], width);
    assert s[i..][..width] == s[i..i + width] && t[i..][..width] == t[i..i + width];
    assert s[i..][width..] == s[i + width..] && t[i..][width..] == t[i + width..];
    DigitsOrder(s[i..i + width], t[i..i + width]);
    assert s[i + width..][1..] == s[i + width + 1..] && t[i + width..][1..] == t[i + width + 1..];
  }

  predicate TimeBefore(f: Fields, g: Fields, fMillis: int, gMillis: int) {
    || f.hour < g.hour
    || (f.hour == g.hour
        && (f.minute < g.minute
            || (f.minute == g.minute
                && (f.second < g.second || (f.second == g.second && fMillis < gMillis)))))
  }

  predicate FieldsBefore(f: Fields, g: Fields, fMillis: int, gMillis: int) {
    Before(f.date, g.date) || (f.date == g.date && TimeBefore(f, g, fMillis, gMillis))
  }

  lemma NothingIsLess(s: string)
    ensures !Less(s, "")
  {
  }

  lemma TimeOrder(s: string, t: string)
    requires ValidUtcTimestamp(s) && ValidUtcTimestamp(t)
    ensures Less(s[11..], t[11..]) <==>
              TimeBefore(DigitFields(s), DigitFields(t), Value(s[20..23]), Value(t[20..23]))
  {
    hide Value, Less;
    FieldOrder(s, t, 11, 2);
    FieldOrder(s, t, 14, 2);
    FieldOrder(s, t, 17, 2);
    FieldOrder(s, t, 20, 3);
    assert t[24..] == "";
    NothingIsLess(s[24..]);
  }

  lemma TextOrder(s: string, t: string)
    requires ValidUtcTimestamp(s) && ValidUtcTimestamp(t)
    ensures Less(s, t) <==> FieldsBefore(DigitFields(s), DigitFields(t), Value(s[20..23]), Value(t[20..23]))
  {
    assert s[0..] == s && t[0..] == t;
    FieldOrder(s, t, 0, 4);
    FieldOrder(s, t, 5, 2);
    FieldOrder(s, t, 8, 2);
    TimeOrder(s, t);
  }

  lemma ChronologicalOrder(f: Fields, g: Fields, fMillis: int, gMillis: int)
    requires ValidDate(f.date) && ValidDate(g.date)
    requires f.hour <= 23 && f.minute <= 59 && f.second <= 59 && g.hour <= 23 && g.minute <= 59 && g.second <= 59
    requires 0 <= fMillis < 1_000 && 0 <= gMillis < 1_000
    ensures FieldsBefore(f, g, fMillis, gMillis) <==>
              SecondsOf(f) * 1_000 + fMillis < SecondsOf(g) * 1_000 + gMillis
  {
    DaysOrderDates(f.date, g.date);
    DaysOrderDates(g.date, f.date);
    ClockOrder(f, g, fMillis, gMillis, DaysSinceEpoch(f.date), DaysSinceEpoch(g.date));
  }

  lemma ClockOrder(f: Fields, g: Fields, fMillis: int, gMillis: int, fDays: int, gDays: int)
    requires f.hour <= 23 && f.minute <= 59 && f.second <= 59 && g.hour <= 23 && g.minute <= 59 && g.second <= 59
    requires 0 <= fMillis < 1_000 && 0 <= gMillis < 1_000
    ensures (fDays < gDays || (fDays == gDays && TimeBefore(f, g, fMillis, gMillis))) <==>
              (fDays * 86_400 + (f.hour * 3_600 + f.minute * 60 + f.second)) * 1_000 + fMillis
              < (gDays * 86_400 + (g.hour * 3_600 + g.minute * 60 + g.second)) * 1_000 + gMillis
  {
  }

  lemma {:induction false} ValueBound(s: string)
    requires AllDigits(s)
    ensures Value(s) < PowerOfTen(|s|)
  {
    if s != "" {
      ValueBound(s[..|s| - 1]);
    }
  }

  lemma InstantFields(s: string)
    requires ValidUtcTimestamp(s) && Instant(s).Some?
    ensures var f := DigitFields(s);
            && ValidDate(f.date) && f.hour <= 23 && f.minute <= 59 && f.second <= 59
            && Value(s[20..23]) < 1_000
            && Instant(s).value == SecondsOf(f) * 1_000 + Value(s[20..23])
  {
    ParsedDigitFields(s);
    ValueBound(s[20..23]);
    assert PowerOfTen(3) == 10 * PowerOfTen(2) == 100 * PowerOfTen(1) == 1_000;
  }

  /** On texts that name instants, `ensure_not_expired` succeeds exactly when the
      expiry is later, to the millisecond: comparing the strings compares the times. */
  lemma NotExpiredIsChronological(expiresAt: string, now: string)
    requires ValidUtcTimestamp(expiresAt) && Instant(expiresAt).Some?
    requires ValidUtcTimestamp(now) && Instant(now).Some?
    ensures NotExpired(expiresAt, now) <==> Instant(expiresAt).value > Instant(now).value
  {
    hide DaysSinceEpoch, SecondsOf, ParseFields;
    var later, earlier := Instant(expiresAt).value, Instant(now).value;
    assert Less(now, expiresAt) <==> earlier < later by {
      InstantFields(expiresAt);
      InstantFields(now);
      TextOrder(now, expiresAt);
      ChronologicalOrder(DigitFields(now), DigitFields(expiresAt), Value(now[20..23]), Value(expiresAt[20..23]));
    }
    LessIsTotal(now, expiresAt);
    if Less(now, expiresAt) {
      LessIsAsymmetric(now, expiresAt);
    }
  }

  /** The shape test alone accepts texts that name no instant: the parser accepts a
      text of that shape exactly when its date exists and its time is a time of day. */
  lemma ShapeNamesInstantIff(s: string)
    requires ValidUtcTimestamp(s)
    ensures var f := DigitFields(s);
            Instant(s).Some? <==> ValidDate(f.date) && f.hour <= 23 && f.minute <= 59 && f.second <= 59
  {
    var f := DigitFields(s);
    if Instant(s).Some? {
      InstantFields(s);
    }
    if ValidDate(f.date) && f.hour <= 23 && f.minute <= 59 && f.second <= 59 {
      ValueBound(s[0..4]);
      Powers();
      DaysAreSmall(f.date);
      ParsedDigitFields(s);
    }
  }

  lemma DaysAreSmall(d: Date)
    requires ValidDate(d) && -10_000 < d.year < 10_000
    ensures -10_000_000 < DaysSinceEpoch(d) < 10_000_000
  {
    DaysFromMarch(d);
  }

  // ---- Main result: the parser reads more than the printer writes ----

  lemma PaddedOfValue(digits: string)
    requires AllDigits(digits) && digits != ""
    ensures Padded(Value(digits), |digits|) == digits
  {
    ValueBound(digits);
    PaddedIsExact(Value(digits), |digits|);
    DigitsOrder(Padded(Value(digits), |digits|), digits);
  }

  lemma RenderedDigitFields(s: string)
    requires ValidUtcTimestamp(s) && s[19..23] == ".000"
    ensures Render(DigitFields(s)) == s
  {
    hide Value, Padded;
    PaddedOfValue(s[0..4]);
    PaddedOfValue(s[5..7]);
    PaddedOfValue(s[8..10]);
    PaddedOfValue(s[11..13]);
    PaddedOfValue(s[14..16]);
    PaddedOfValue(s[17..19]);
    Reassembled(s);
  }

  lemma Reassembled(s: string)
    requires |s| == 24 && s[4] == '-' && s[7] == '-' && s[10] == 'T' && s[13] == ':' && s[16] == ':' && s[23] == 'Z'
    requires s[19..23] == ".000"
    ensures s == s[0..4] + "-" + s[5..7] + "-" + s[8..10] + "T" + s[11..13] + ":" + s[14..16] + ":" + s[17..19]
              + ".000Z"
  {
    assert s[0..10] == s[0..4] + "-" + s[5..7] + "-" + s[8..10];
    assert s[11..19] == s[11..13] + ":" + s[14..16] + ":" + s[17..19];
    assert s[19..24] == ".000" + [s[23]];
    assert s == s[0..10] + "T" + s[11..19] + s[19..24];
  }

  lemma FieldsOfSeconds(f: Fields, seconds: nat)
    requires ValidDate(f.date) && f.hour <= 23 && f.minute <= 59 && f.second <= 59 && SecondsOf(f) == seconds
    ensures FieldsAt(seconds) == f
  {
    hide DaysSinceEpoch, CivilDate;
    ClockReturns(DaysSinceEpoch(f.date), f.hour, f.minute, f.second);
    CivilDateUndoesDays(f.date);
  }

  lemma ClockReturns(days: int, hour: nat, minute: nat, second: nat)
    requires hour <= 23 && minute <= 59 && second <= 59
    ensures var n := days * 86_400 + (hour * 3_600 + minute * 60 + second);
            && n / 86_400 == days && n % 86_400 / 3_600 == hour
            && n % 86_400 % 3_600 / 60 == minute && n % 86_400 % 60 == second
  {
    var n := days * 86_400 + (hour * 3_600 + minute * 60 + second);
    var time := hour * 3_600 + minute * 60 + second;
    assert n / 86_400 == days && n % 86_400 == time;
    assert time / 3_600 == hour && time % 3_600 == minute * 60 + second;
  }

  /** The parser reads a text as a second from 1970 on.  The printer writes that second as
      this very text exactly when the text has the 24-character shape, digits and nothing
      else in its fields, and `.000` for its milliseconds. */
  lemma ParsedTextIsPrintedIff(s: string, seconds: nat)
    requires UnixSecondsFromRfc3339(s) == Some(seconds)
    ensures UtcTimestamp(seconds) == s <==> ValidUtcTimestamp(s) && s[19..23] == ".000"
  {
    hide DaysSinceEpoch, CivilDate, Render, SecondsOf, ParseFields, Value;
    if UtcTimestamp(seconds) == s {
      PrintedTimestampParses(seconds);
      PrintedSuffix(seconds);
    } else if ValidUtcTimestamp(s) && s[19..23] == ".000" {
      InstantFields(s);
      ParsedDigitFields(s);
      FieldsOfSeconds(DigitFields(s), seconds);
      RenderedDigitFields(s);
    }
  }

  lemma PrintedSuffix(seconds: nat)
    requires seconds < YEAR_10000
    ensures var s := UtcTimestamp(seconds); |s| == 24 && s[19..23] == ".000"
  {
    hide DaysSinceEpoch, CivilDate, Render, ParseFields;
    PrintedDate(seconds);
    PrintedYearFits(seconds);
    RenderedFieldsParse(FieldsAt(seconds));
  }

  const SIGNED := "1970-01-01T00:00:+0Z"

  /** A text that is read and never printed: it has a sign in a field. */
  lemma SignedFieldParses()
    ensures UnixSecondsFromRfc3339(SIGNED) == Some(0) && forall n: nat :: UtcTimestamp(n) != SIGNED
  {
    hide UtcTimestamp, UnixSecondsFromRfc3339;
    SignedFieldValue(SIGNED);
    forall n: nat ensures UtcTimestamp(n) != SIGNED { PrintedLengthOrYear(n); }
  }

  lemma PrintedLengthOrYear(n: nat)
    ensures var s := UtcTimestamp(n); |s| == 24 || (|s| > 4 && s[4] != '-')
  {
    hide DaysSinceEpoch, CivilDate, Render;
    if n < YEAR_10000 {
      PrintedTimestampParses(n);
    } else {
      PrintedYearFits(n);
      FiveDigitYear(FieldsAt(n));
    }
  }

  lemma TwoDigits(t: string)
    requires |t| == 2 && AllDigits(t)
    ensures Value(t) == 10 * DigitValue(t[0]) + DigitValue(t[1])
  {
    OneDigit(t[..1]);
  }

  lemma FourDigits(t: string)
    requires |t| == 4 && AllDigits(t)
    ensures Value(t) == 100 * Value(t[..2]) + Value(t[2..])
  {
    assert t[..3][..2] == t[..2];
    TwoDigits(t[2..]);
  }

  lemma SignedNumbers()
    ensures Value("1970") == 1_970 && Value("01") == 1 && Value("00") == 0 && Value("0") == 0
  {
    hide Value;
    FourDigits("1970");
    assert "1970"[..2] == "19" && "1970"[2..] == "70";
    TwoDigits("19");
    TwoDigits("70");
    TwoDigits("01");
    TwoDigits("00");
    OneDigit("0");
  }

  lemma SignedFields(s: string)
    requires s == SIGNED
    ensures ParseFields(s) == Some(Fields(Date(1970, 1, 1), 0, 0, 0))
  {
    hide Value, DigitValue;
    SignedNumbers();
    assert s[0..4] == "1970" && s[5..7] == "01" && s[8..10] == "01";
    assert s[11..13] == "00" && s[14..16] == "00" && s[17..19] == "+0" && "+0"[1..] == "0";
  }

  lemma OneDigit(t: string)
    requires |t| == 1 && AllDigits(t)
    ensures Value(t) == DigitValue(t[0])
  {
    assert t[..0] == "";
  }

  lemma SignedFieldValue(s: string)
    requires s == SIGNED
    ensures UnixSecondsFromRfc3339(s) == Some(0)
  {
    hide ParseFields;
    SignedFields(s);
    assert s[19..|s| - 1] == "";
    EpochIsDayZero();
  }

  // ---- Main result: what the parser reads ----

  ghost predicate Numeral(t: string, n: int) {
    exists digits: string ::
      AllDigits(digits) && digits != "" && n == Value(digits) && (t == digits || t == "+" + digits)
  }

  ghost predicate NegativeNumeral(t: string, n: int) {
    exists digits: string :: AllDigits(digits) && digits != "" && n == -(Value(digits) as int) && t == "-" + digits
  }

  lemma NumeralIff(t: string, n: int)
    ensures (ParseUnsigned(t).Some? && ParseUnsigned(t).value == n) <==> Numeral(t, n)
    ensures ParseSigned(t) == Some(n) <==> Numeral(t, n) || NegativeNumeral(t, n)
  {
    var digits := if t != "" && t[0] in "+-" then t[1..] else t;
    assert t != digits ==> t == [t[0]] + digits;
    forall ds: string | AllDigits(ds) && ds != "" && (t == ds || t == "+" + ds || t == "-" + ds) ensures digits == ds {
      assert t == ds || t[1..] == ds;
      assert IsDigit(ds[0]);
    }
  }

  /** The parts of a text between its separators, and the fraction behind the seconds. */
  datatype Parts = Parts(year: string, month: string, day: string, hour: string, minute: string, second: string,
                         fraction: string)

  function Written(t: Parts): string {
    t.year + "-" + t.month + "-" + t.day + "T" + t.hour + ":" + t.minute + ":" + t.second + t.fraction + "Z"
  }

  ghost predicate Sized(t: Parts) {
    && |t.year| == 4 && |t.month| == 2 && |t.day| == 2 && |t.hour| == 2 && |t.minute| == 2 && |t.second| == 2
    && (t.fraction == "" || exists digits :: t.fraction == "." + digits && digits != "" && AllDigits(digits))
  }

  ghost predicate Denotes(t: Parts, f: Fields) {
    && (Numeral(t.year, f.date.year) || NegativeNumeral(t.year, f.date.year))
    && Numeral(t.month, f.date.month) && Numeral(t.day, f.date.day)
    && Numeral(t.hour, f.hour) && Numeral(t.minute, f.minute) && Numeral(t.second, f.second)
  }

  predicate OnTheClock(f: Fields) {
    ValidDate(f.date) && f.hour <= 23 && f.minute <= 59 && f.second <= 59
  }

  ghost predicate Names(s: string, t: Parts, f: Fields) {
    s == Written(t) && Sized(t) && Denotes(t, f) && OnTheClock(f)
  }

  function PartsOf(s: string): Parts
    requires |s| >= 20
  {
    Parts(s[0..4], s[5..7], s[8..10], s[11..13], s[14..16], s[17..19], s[19..|s| - 1])
  }

  lemma WrittenParts(t: Parts)
    requires Sized(t)
    ensures var s := Written(t);
            && |s| >= 20 && PartsOf(s) == t && s[|s| - 1] == 'Z'
            && s[4] == '-' && s[7] == '-' && s[10] == 'T' && s[13] == ':' && s[16] == ':'
  {
    var date, time := t.year + "-" + t.month + "-" + t.day, t.hour + ":" + t.minute + ":" + t.second;
    var s := Written(t);
    ThreeParts(t.year, t.month, t.day, '-');
    ThreeParts(t.hour, t.minute, t.second, ':');
    assert s == date + "T" + time + t.fraction + "Z";
    assert s[..10] == date && s[11..19] == time && s[19..|s| - 1] == t.fraction;
  }

  lemma ThreeParts(a: string, b: string, c: string, separator: char)
    requires |b| == 2 && |c| == 2
    ensures var s := a + [separator] + b + [separator] + c;
            && |s| == |a| + 6 && s[|a|] == separator && s[|a| + 3] == separator
            && s[0..|a|] == a && s[|a| + 1..|a| + 3] == b && s[|a| + 4..|a| + 6] == c
  {
  }

  lemma SeparatedParts(s: string)
    requires |s| >= 20 && s[|s| - 1] == 'Z'
    requires s[4] == '-' && s[7] == '-' && s[10] == 'T' && s[13] == ':' && s[16] == ':'
    ensures Written(PartsOf(s)) == s
  {
    assert s[0..10] == s[0..4] + "-" + s[5..7] + "-" + s[8..10];
    assert s[11..19] == s[11..13] + ":" + s[14..16] + ":" + s[17..19];
    assert s == s[0..10] + "T" + s[11..19] + s[19..|s| - 1] + "Z";
  }

  lemma FractionIff(suffix: string)
    ensures ValidSuffix(suffix) <==>
              suffix == "" || exists digits :: suffix == "." + digits && digits != "" && AllDigits(digits)
  {
    if suffix != "" {
      assert suffix == [suffix[0]] + suffix[1..];
    }
  }

  lemma FieldsIff(s: string, f: Fields)
    ensures ParseFields(s).Some? ==> |s| >= 20 && ParseFields(s).value.date.day >= 0
    ensures ParseFields(s) == Some(f) && ValidSuffix(s[19..|s| - 1]) <==>
              |s| >= 20 && s == Written(PartsOf(s)) && Sized(PartsOf(s)) && Denotes(PartsOf(s), f)
  {
    hide ParseSigned, ParseUnsigned, Numeral, NegativeNumeral, ValidSuffix, Written;
    if |s| >= 20 {
      var t := PartsOf(s);
      NumeralIff(t.year, f.date.year);
      NumeralIff(t.month, f.date.month);
      NumeralIff(t.day, f.date.day);
      NumeralIff(t.hour, f.hour);
      NumeralIff(t.minute, f.minute);
      NumeralIff(t.second, f.second);
      FractionIff(t.fraction);
      if Sized(t) { WrittenParts(t); }
      if ParseFields(s).Some? { SeparatedParts(s); }
    }
  }

  /** The parser reads exactly the texts of this form, as the second that they name: a year
      of four characters, perhaps with a sign, five fields of two, perhaps with a plus, an
      optional fraction, a date that exists and a time of day. */
  lemma ParsedIff(s: string, seconds: int)
    ensures UnixSecondsFromRfc3339(s) == Some(seconds) <==>
              exists t: Parts, f: Fields :: Names(s, t, f) && seconds == SecondsOf(f)
  {
    hide ParseFields, ValidSuffix, DaysSinceEpoch, Written, Sized, Denotes, PartsOf;
    if ParseFields(s).Some? {
      var f := ParseFields(s).value;
      FieldsIff(s, f);
      if ValidSuffix(s[19..|s| - 1]) && OnTheClock(f) {
        YearFits(PartsOf(s), f);
        assert Names(s, PartsOf(s), f);
      }
    }
    forall t: Parts, f: Fields | Names(s, t, f) ensures UnixSecondsFromRfc3339(s) == Some(SecondsOf(f)) {
      WrittenParts(t);
      FieldsIff(s, f);
      YearFits(t, f);
    }
  }

  lemma YearFits(t: Parts, f: Fields)
    requires Sized(t) && Denotes(t, f) && OnTheClock(f)
    ensures InInt64(DaysSinceEpoch(f.date) * 86_400) && InInt64(SecondsOf(f)) && InInt64(SecondsOf(f) + 900)
  {
    hide DaysSinceEpoch;
    var digits :| AllDigits(digits) && |digits| <= 4 && f.date.year in {Value(digits), -(Value(digits) as int)};
    ValueBound(digits);
    Powers();
    PowersGrow(|digits|, 4);
    DaysAreSmall(f.date);
  }

  /** The shape that invites ask for: nothing but digits in the fields, and milliseconds. */
  ghost predicate Shaped(s: string) {
    exists t: Parts ::
      && s == Written(t) && Sized(t) && |t.fraction| == 4
      && AllDigits(t.year) && AllDigits(t.month) && AllDigits(t.day)
      && AllDigits(t.hour) && AllDigits(t.minute) && AllDigits(t.second)
  }

  lemma ShapedIff(s: string)
    ensures ValidUtcTimestamp(s) <==> Shaped(s)
  {
    hide Written;
    if ValidUtcTimestamp(s) {
      SeparatedParts(s);
      FractionIff(s[19..|s| - 1]);
      assert Sized(PartsOf(s));
    }
    if t: Parts :|
      && s == Written(t) && Sized(t) && |t.fraction| == 4
      && AllDigits(t.year) && AllDigits(t.month) && AllDigits(t.day)
      && AllDigits(t.hour) && AllDigits(t.minute) && AllDigits(t.second)
    {
      WrittenParts(t);
      FractionIff(t.fraction);
      assert s[20..23] == t.fraction[1..] && s[19] == t.fraction[0];
      ShapeOfTimestamp(s);
    }
  }

  /** `ensure_not_expired`: both texts have the shape, and the expiry sorts behind the clock. */
  lemma NotExpiredIff(expiresAt: string, now: string)
    ensures NotExpired(expiresAt, now) <==> Shaped(expiresAt) && Shaped(now) && Less(now, expiresAt)
  {
    hide ValidUtcTimestamp, Shaped;
    ShapedIff(expiresAt);
    ShapedIff(now);
    LessIsTotal(now, expiresAt);
    if Less(now, expiresAt) {
      LessIsAsymmetric(now, expiresAt);
    }
  }

  lemma YearFitsNamed(s: string, t: Parts, f: Fields)
    requires Names(s, t, f)
    ensures InInt64(SecondsOf(f) + 900)
  {
    YearFits(t, f);
  }

  // ---- Expiry of a proposal ----

  const PROPOSAL_TTL_SECONDS := 15 * 60

  datatype ExpiryError = Invalid | Expired

  function ExpiryAfter(created: int, now: int): Result<int, ExpiryError> {
    if created > now || !InInt64(created + PROPOSAL_TTL_SECONDS) then Err(Invalid)
    else if created + PROPOSAL_TTL_SECONDS <= now then Err(Expired)
    else Ok(created + PROPOSAL_TTL_SECONDS)
  }

  /** `proposal_expiry_from_rfc3339`. */
  function ProposalExpiry(createdAt: string, now: int): Result<int, ExpiryError> {
    match UnixSecondsFromRfc3339(createdAt)
    case None => Err(Invalid)
    case Some(created) => ExpiryAfter(created, now)
  }

  /** Whether a proposal is live, and why it is not, for every text and clock. */
  lemma ProposalExpiryTells(createdAt: string, now: int)
    ensures match ProposalExpiry(createdAt, now)
            case Ok(expiry) =>
              exists t, f :: Names(createdAt, t, f) && SecondsOf(f) <= now < SecondsOf(f) + 900 == expiry
            case Err(Expired) => exists t, f :: Names(createdAt, t, f) && SecondsOf(f) + 900 <= now
            case Err(Invalid) => forall t, f :: Names(createdAt, t, f) ==> now < SecondsOf(f)
  {
    hide Names, SecondsOf, UnixSecondsFromRfc3339;
    forall t: Parts, f: Fields | Names(createdAt, t, f)
      ensures UnixSecondsFromRfc3339(createdAt) == Some(SecondsOf(f)) && InInt64(SecondsOf(f) + 900)
    {
      ParsedIff(createdAt, SecondsOf(f));
      YearFitsNamed(createdAt, t, f);
    }
    if created :| UnixSecondsFromRfc3339(createdAt) == Some(created) {
      ParsedIff(createdAt, created);
    }
  }

  /** A proposal stamped by the printer is live for exactly the 900 seconds that
      begin with its own second. */
  lemma StampedProposalLifetime(created: nat, now: int)
    requires created < YEAR_10000
    ensures var expiry := ProposalExpiry(UtcTimestamp(created), now);
            if created <= now < created + 900 then expiry == Ok(created + 900) else expiry.Err?
  {
    var text := UtcTimestamp(created);
    assert UnixSecondsFromRfc3339(text) == Some(created) by { PrintedTimestampParses(created); }
    assert ProposalExpiry(text, now) == ExpiryAfter(created, now);
  }
}
