/**
 * Calendar dates as the index service handles them: `datetime.date` values,
 * their ISO text (`date.isoformat()`, the form every table stores), the
 * argument normalisation of `_normalize_date` and the parsing of
 * `safe_parse_date`.
 */
module Dates {
  import opened Wrappers
  import opened TextOrder

  datatype CalDate = CalDate(year: int, month: int, day: int)

  predicate IsLeapYear(y: int)
  {
    y % 4 == 0 && (y % 100 != 0 || y % 400 == 0)
  }

  function DaysInMonth(y: int, m: int): int
    requires 1 <= m <= 12
  {
    if m == 2 then (if IsLeapYear(y) then 29 else 28)
    else if m == 4 || m == 6 || m == 9 || m == 11 then 30
    else 31
  }

  /** The dates `datetime.date` can represent: years 1 to 9999 of the proleptic Gregorian calendar. */
  predicate ValidDate(d: CalDate)
  {
    1 <= d.year <= 9999 && 1 <= d.month <= 12 && 1 <= d.day <= DaysInMonth(d.year, d.month)
  }

  type Date = d: CalDate | ValidDate(d) witness CalDate(1, 1, 1)

  /** Chronological order. */
  predicate Before(a: Date, b: Date)
  {
    a.year < b.year || (a.year == b.year && (a.month < b.month || (a.month == b.month && a.day < b.day)))
  }

  function Pow10(n: nat): nat
  {
    if n == 0 then 1 else 10 * Pow10(n - 1)
  }

  function Digit(v: int): char
    requires 0 <= v < 10
  {
    (48 + v) as char
  }

  /** `n` in decimal, zero-padded to `width` digits (`%0<width>d`). */
  function Padded(n: nat, width: nat): (s: string)
    requires n < Pow10(width)
    ensures |s| == width
    decreases width
  {
    if width == 0 then "" else Padded(n / 10, width - 1) + [Digit(n % 10)]
  }

  /** The number a string of decimal digits spells. */
  function DigitsValue(s: string): int
  {
    if s == [] then 0 else DigitsValue(s[..|s| - 1]) * 10 + (s[|s| - 1] as int - 48)
  }

  lemma {:induction false} PaddedValue(n: nat, width: nat)
    requires n < Pow10(width)
    ensures DigitsValue(Padded(n, width)) == n
    decreases width
  {
    if width > 0 {
      var s := Padded(n, width);
      assert s[..|s| - 1] == Padded(n / 10, width - 1);
      PaddedValue(n / 10, width - 1);
    }
  }

  lemma {:induction false} PaddedOrder(a: nat, b: nat, width: nat)
    requires a < Pow10(width) && b < Pow10(width)
    ensures LexLt(Padded(a, width), Padded(b, width)) <==> a < b
    decreases width
  {
    if width > 0 {
      var pa, pb := Padded(a / 10, width - 1), Padded(b / 10, width - 1);
      LexLtConcat(pa, pb, [Digit(a % 10)], [Digit(b % 10)]);
      PaddedOrder(a / 10, b / 10, width - 1);
      PaddedValue(a / 10, width - 1);
      PaddedValue(b / 10, width - 1);
      assert pa == pb <==> a / 10 == b / 10;
      assert LexLt([Digit(a % 10)], [Digit(b % 10)]) <==> a % 10 < b % 10;
    }
  }

  /** `date.isoformat()`: `YYYY-MM-DD`. */
  function Iso(d: Date): (s: string)
    ensures |s| == 10 && s[4] == '-' && s[7] == '-'
  {
    Padded(d.year, 4) + ['-'] + Padded(d.month, 2) + ['-'] + Padded(d.day, 2)
  }

  lemma IsoFields(d: Date)
    ensures Iso(d)[..4] == Padded(d.year, 4)
    ensures Iso(d)[5..7] == Padded(d.month, 2)
    ensures Iso(d)[8..] == Padded(d.day, 2)
  {
  }

  /** Distinct dates have distinct ISO texts. */
  lemma IsoInjective(a: Date, b: Date)
    requires Iso(a) == Iso(b)
    ensures a == b
  {
    IsoFields(a);
    IsoFields(b);
    PaddedValue(a.year, 4);
    PaddedValue(b.year, 4);
    PaddedValue(a.month, 2);
    PaddedValue(b.month, 2);
    PaddedValue(a.day, 2);
    PaddedValue(b.day, 2);
  }

  /** Ordering ISO texts as text orders the dates chronologically. */
  lemma IsoOrderIsChronological(a: Date, b: Date)
    ensures LexLt(Iso(a), Iso(b)) <==> Before(a, b)
  {
    var ya, ma, da := Padded(a.year, 4), Padded(a.month, 2), Padded(a.day, 2);
    var yb, mb, db := Padded(b.year, 4), Padded(b.month, 2), Padded(b.day, 2);
    var dash: string := ['-'];
    assert Iso(a) == ya + (dash + (ma + (dash + da)));
    assert Iso(b) == yb + (dash + (mb + (dash + db)));
    LexLtConcat(ya, yb, dash + (ma + (dash + da)), dash + (mb + (dash + db)));
    LexLtConcat(dash, dash, ma + (dash + da), mb + (dash + db));
    LexLtConcat(ma, mb, dash + da, dash + db);
    LexLtConcat(dash, dash, da, db);
    LexLtIrreflexive(dash);
    PaddedOrder(a.year, b.year, 4);
    PaddedOrder(a.month, b.month, 2);
    PaddedOrder(a.day, b.day, 2);
    PaddedValue(a.year, 4);
    PaddedValue(b.year, 4);
    PaddedValue(a.month, 2);
    PaddedValue(b.month, 2);
  }

  /** The argument types the service accepts for a date: `None`, a `date` (not a `datetime`), a `str`, or any other object. */
  datatype DateArg = NoDate | DateValue(date: Date) | Text(text: string) | OtherType

  /** The `ValueError`s the helpers raise. */
  datatype DateError =
    | UnsupportedDateType    // _normalize_date: "Unsupported date type"
    | UnsupportedDateFormat  // safe_parse_date: "Unsupported date format"
    | InvalidIsoFormat       // date.fromisoformat: text not of the form YYYY-MM-DD, or not a calendar date

  /** `_normalize_date`: `None` stays `None`, a date becomes its ISO text, a string passes unchecked. */
  function NormalizeDate(arg: DateArg): (r: Result<Option<string>, DateError>)
    ensures r == Err(UnsupportedDateType) <==> arg.OtherType?
    ensures r == Ok(None) <==> arg.NoDate?
    ensures arg.Text? ==> r == Ok(Some(arg.text))
    ensures arg.DateValue? ==> r == Ok(Some(Iso(arg.date))) && |r.value.value| == 10
  {
    match arg
    case NoDate => Ok(None)
    case DateValue(d) => Ok(Some(Iso(d)))
    case Text(s) => Ok(Some(s))
    case OtherType => Err(UnsupportedDateType)
  }

  predicate AllDigits(s: string)
  {
    forall i :: 0 <= i < |s| ==> '0' <= s[i] <= '9'
  }

  /**
   * `date.fromisoformat` on the `YYYY-MM-DD` form: four, two and two
   * decimal digits separated by dashes, naming a date that exists.
   */
  function ParseIso(s: string): (r: Result<Date, DateError>)
    ensures r.Err? ==> r.error == InvalidIsoFormat
  {
    if |s| == 10 && s[4] == '-' && s[7] == '-' && AllDigits(s[..4]) && AllDigits(s[5..7]) && AllDigits(s[8..]) then
      var d := CalDate(DigitsValue(s[..4]), DigitsValue(s[5..7]), DigitsValue(s[8..]));
      if ValidDate(d) then Ok(d) else Err(InvalidIsoFormat)
    else Err(InvalidIsoFormat)
  }

  /** `safe_parse_date`: a date passes, a string is parsed, anything else is refused. */
  function SafeParseDate(arg: DateArg): (r: Result<Date, DateError>)
    ensures arg.DateValue? ==> r == Ok(arg.date)
    ensures arg.Text? ==> r == ParseIso(arg.text)
    ensures (arg.NoDate? || arg.OtherType?) ==> r == Err(UnsupportedDateFormat)
  {
    match arg
    case DateValue(d) => Ok(d)
    case Text(s) => ParseIso(s)
    case _ => Err(UnsupportedDateFormat)
  }

  /** A string of `w` decimal digits is the zero-padded text of the number it spells. */
  lemma {:induction false} DigitsPadded(t: string, w: nat)
    requires |t| == w && AllDigits(t)
    ensures 0 <= DigitsValue(t) < Pow10(w) && Padded(DigitsValue(t), w) == t
    decreases w
  {
    if w > 0 {
      var front := t[..w - 1];
      DigitsPadded(front, w - 1);
      var n, c := DigitsValue(t), t[w - 1] as int - 48;
      assert n == DigitsValue(front) * 10 + c;
      assert n / 10 == DigitsValue(front) && n % 10 == c;
      assert t == front + [Digit(c)];
    }
  }

  lemma PaddedDigits(n: nat, w: nat)
    requires n < Pow10(w)
    ensures AllDigits(Padded(n, w))
    decreases w
  {
    if w > 0 {
      PaddedDigits(n / 10, w - 1);
    }
  }

  /** Parsing the ISO text of a date gives that date back. */
  lemma ParseIsoRoundTrip(d: Date)
    ensures SafeParseDate(Text(Iso(d))) == Ok(d)
  {
    var s := Iso(d);
    IsoFields(d);
    PaddedDigits(d.year, 4);
    PaddedDigits(d.month, 2);
    PaddedDigits(d.day, 2);
    PaddedValue(d.year, 4);
    PaddedValue(d.month, 2);
    PaddedValue(d.day, 2);
  }

  /** A text that parses is the ISO text of the date it parses to: `fromisoformat` accepts only canonical texts. */
  lemma IsoParseRoundTrip(s: string)
    requires SafeParseDate(Text(s)).Ok?
    ensures Iso(SafeParseDate(Text(s)).value) == s
  {
    var d := SafeParseDate(Text(s)).value;
    DigitsPadded(s[..4], 4);
    DigitsPadded(s[5..7], 2);
    DigitsPadded(s[8..], 2);
    assert s == s[..4] + ['-'] + s[5..7] + ['-'] + s[8..];
  }

  /** Where both helpers succeed on a date or a string, normalising gives the ISO text of the parsed date. */
  lemma NormalizeAgreesWithParse(arg: DateArg)
    requires SafeParseDate(arg).Ok?
    ensures NormalizeDate(arg) == Ok(Some(Iso(SafeParseDate(arg).value)))
  {
    if arg.Text? {
      IsoParseRoundTrip(arg.text);
    }
  }

  /**
   * SQL `date BETWEEN lo AND hi` on date text; a `NULL` bound (Python
   * `None`) makes the comparison `NULL`, which selects nothing.
   */
  predicate InDateRange(lo: Option<string>, hi: Option<string>, s: string)
  {
    lo.Some? && hi.Some? && LexLe(lo.value, s) && LexLe(s, hi.value)
  }

  /** `_normalize_date(end) or start`: a missing or empty end falls back to the start. */
  function EndOrStart(start: Option<string>, end: Option<string>): (r: Option<string>)
    ensures r == end || r == start
    ensures end.Some? && end.value != "" ==> r == end
    ensures end == None || end == Some("") ==> r == start
  {
    if end == None || end == Some("") then start else end
  }

  /** Between two dates given as dates, the text range query selects exactly the dates in the calendar range. */
  lemma DateRangeIsChronological(lo: Date, hi: Date, d: Date)
    ensures InDateRange(NormalizeDate(DateValue(lo)).value, NormalizeDate(DateValue(hi)).value, Iso(d))
        <==> !Before(d, lo) && !Before(hi, d)
  {
    IsoOrderIsChronological(d, lo);
    IsoOrderIsChronological(hi, d);
    LexLtTotal(Iso(lo), Iso(d));
    LexLtTotal(Iso(d), Iso(hi));
    if Iso(lo) == Iso(d) { IsoInjective(lo, d); }
    if Iso(d) == Iso(hi) { IsoInjective(d, hi); }
    if LexLt(Iso(lo), Iso(d)) { LexLtAsymmetric(Iso(lo), Iso(d)); }
    if LexLt(Iso(d), Iso(hi)) { LexLtAsymmetric(Iso(d), Iso(hi)); }
  }
}
