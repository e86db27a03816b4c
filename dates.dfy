/**
 * The two date formats of the automation, `strftime('%B-%d-%Y').lower()` for
 * URLs and `strftime('%B %d, %Y')` for display, applied to a date that is
 * already broken down into year, month and day.
 */
module Dates {
  import opened Wrappers
  import opened Text

  type Month = m: int | 1 <= m <= 12 witness 1
  type Day = d: int | 1 <= d <= 31 witness 1

  datatype Date = Date(year: nat, month: Month, day: Day)

  /** The month names in lower case, January first. */
  function LowerMonthNames(): seq<string> {
    ["january", "february", "march", "april", "may", "june",
     "july", "august", "september", "october", "november", "december"]
  }

  /** `%B` in the C locale: the full English month name, capitalised ("January"). */
  function MonthName(m: Month): string {
    Capitalised(LowerMonthNames()[m - 1])
  }

  /** `%d`: the day of the month as two digits, zero-padded. */
  function DayText(d: Day): (s: string)
    ensures |s| == 2 && IsDigit(s[0]) && IsDigit(s[1])
  {
    [DigitChar(d / 10), DigitChar(d % 10)]
  }

  /** `%Y`: the year in decimal. */
  function YearText(y: nat): string {
    Decimal(y)
  }

  /** `format_date_for_url`: e.g. "january-17-2026", already all lower case. */
  function FormatDateForUrl(d: Date): (s: string)
    ensures Lower(s) == s
  {
    var mixed := MonthName(d.month) + "-" + DayText(d.day) + "-" + YearText(d.year);
    LowerIdempotent(mixed);
    Lower(mixed)
  }

  /** `format_date_for_display`: e.g. "January 17, 2026"; the month name is the first word. */
  function FormatDateForDisplay(d: Date): (s: string)
    ensures IndexOf(s, ' ') == Some(|MonthName(d.month)|)
  {
    var name, rest := MonthName(d.month), DayText(d.day) + ", " + YearText(d.year);
    MonthNameHasNoSpace(d.month);
    IndexOfAfterWord(name, ' ', rest);
    assert name + " " + DayText(d.day) + ", " + YearText(d.year) == name + [' '] + rest;
    name + " " + DayText(d.day) + ", " + YearText(d.year)
  }

  // A reader for the URL form, to show that the URL form loses nothing.

  /** The month whose lower-cased name is `word`, if any. */
  function MonthNumber(word: string): (r: Option<Month>)
    ensures r.Some? ==> LowerMonthNames()[r.value - 1] == word
  {
    var names := LowerMonthNames();
    if word == names[0] then Some(1) else if word == names[1] then Some(2)
    else if word == names[2] then Some(3) else if word == names[3] then Some(4)
    else if word == names[4] then Some(5) else if word == names[5] then Some(6)
    else if word == names[6] then Some(7) else if word == names[7] then Some(8)
    else if word == names[8] then Some(9) else if word == names[9] then Some(10)
    else if word == names[10] then Some(11) else if word == names[11] then Some(12)
    else None
  }

  /** The position of the first `c` in `s`, if there is one. */
  function IndexOf(s: string, c: char): (r: Option<nat>)
    ensures r.Some? ==> r.value < |s| && s[r.value] == c && forall k :: 0 <= k < r.value ==> s[k] != c
    ensures r.None? ==> forall k :: 0 <= k < |s| ==> s[k] != c
  {
    if s == [] then None
    else if s[0] == c then Some(0)
    else match IndexOf(s[1..], c)
      case None => None
      case Some(i) => Some(i + 1)
  }

  predicate AllDigits(s: string) {
    forall k :: 0 <= k < |s| ==> IsDigit(s[k])
  }

  /** Reads "month-dd-yyyy" back into its components. */
  function ParseUrlDate(s: string): Option<Date> {
    match IndexOf(s, '-')
    case None => None
    case Some(i) =>
      match MonthNumber(s[..i])
      case None => None
      case Some(m) =>
        var rest := s[i + 1..];
        if |rest| < 4 || rest[2] != '-' || !AllDigits(rest[..2]) || !AllDigits(rest[3..]) then None
        else
          var day := DecimalValue(rest[..2]);
          if 1 <= day <= 31 then Some(Date(DecimalValue(rest[3..]), m, day)) else None
  }

  /** `c` does not occur in `s`. */
  predicate Avoids(s: string, c: char) {
    forall k :: 0 <= k < |s| ==> s[k] != c
  }

  /** Lower-casing the month name gives the listed lower-case name. */
  lemma LowerMonthName(m: Month)
    ensures Lower(MonthName(m)) == LowerMonthNames()[m - 1]
  {
    MonthNamesAreLetters(m);
    LowerOfCapitalised(LowerMonthNames()[m - 1]);
  }

  /** Every lower-case month name is a non-empty run of the letters a to z. */
  lemma MonthNamesAreLetters(m: Month)
    ensures |LowerMonthNames()[m - 1]| > 0 && LowerLetters(LowerMonthNames()[m - 1])
  {
  }

  /** No lower-case month name contains a hyphen. */
  lemma MonthNameHasNoHyphen(m: Month)
    ensures Avoids(LowerMonthNames()[m - 1], '-')
  {
    MonthNamesAreLetters(m);
  }

  /** The twelve lower-case names are distinct, so each reads back as its own month. */
  lemma MonthNumberOfName(m: Month)
    ensures MonthNumber(LowerMonthNames()[m - 1]) == Some(m)
  {
  }

  /** The zero-padded day reads back as the day. */
  lemma DayTextRoundTrip(d: Day)
    ensures DecimalValue(DayText(d)) == d
  {
    var s := DayText(d);
    var hi, lo := d / 10, d % 10;
    assert s[..1] == [DigitChar(hi)] && s[..1][..0] == [];
    assert DecimalValue(s[..1]) == hi;
    assert DecimalValue(s) == 10 * hi + lo;
  }

  /** Reads "Month dd, yyyy" back into its components; the month name is matched after lower-casing. */
  function ParseDisplayDate(s: string): Option<Date> {
    match IndexOf(s, ' ')
    case None => None
    case Some(i) =>
      match MonthNumber(Lower(s[..i]))
      case None => None
      case Some(m) =>
        var rest := s[i + 1..];
        if |rest| < 5 || rest[2] != ',' || rest[3] != ' ' || !AllDigits(rest[..2]) || !AllDigits(rest[4..]) then None
        else
          var day := DecimalValue(rest[..2]);
          if 1 <= day <= 31 then Some(Date(DecimalValue(rest[4..]), m, day)) else None
  }

  /** A capitalised month name is a single word: it has no space. */
  lemma MonthNameHasNoSpace(m: Month)
    ensures Avoids(MonthName(m), ' ')
  {
    var w := LowerMonthNames()[m - 1];
    MonthNamesAreLetters(m);
    var name := MonthName(m);
    forall k | 0 <= k < |name| ensures name[k] != ' ' {
      if k > 0 {
        assert name[k] == w[k];
      }
    }
  }

  /** The reader takes a month name, two digits and a year apart again. */
  lemma ParseDisplayDateParts(name: string, dt: string, yt: string, m: Month)
    requires Avoids(name, ' ') && MonthNumber(Lower(name)) == Some(m)
    requires |dt| == 2 && AllDigits(dt) && 1 <= DecimalValue(dt) <= 31
    requires |yt| >= 1 && AllDigits(yt)
    ensures ParseDisplayDate(name + " " + dt + ", " + yt) == Some(Date(DecimalValue(yt), m, DecimalValue(dt)))
  {
    var s := name + " " + dt + ", " + yt;
    IndexOfAfterWord(name, ' ', dt + ", " + yt);
    assert s == name + " " + (dt + ", " + yt);
    assert s[..|name|] == name;
    var rest := s[|name| + 1..];
    assert rest == dt + ", " + yt;
    assert rest[..2] == dt && rest[4..] == yt;
  }

  /** The display form of a date reads back as that date. */
  lemma DisplayDateRoundTrip(d: Date)
    ensures ParseDisplayDate(FormatDateForDisplay(d)) == Some(d)
  {
    MonthNameHasNoSpace(d.month);
    LowerMonthName(d.month);
    MonthNumberOfName(d.month);
    DayTextRoundTrip(d.day);
    DecimalRoundTrip(d.year);
    ParseDisplayDateParts(MonthName(d.month), DayText(d.day), YearText(d.year), d.month);
  }

  /** The display form and the URL form of the same components name the same date. */
  lemma DisplayAndUrlAgree(d: Date)
    ensures ParseDisplayDate(FormatDateForDisplay(d)) == ParseUrlDate(FormatDateForUrl(d)) == Some(d)
  {
    DisplayDateRoundTrip(d);
    UrlDateRoundTrip(d);
  }

  /** Digits and hyphens are untouched by lower-casing. */
  lemma LowerKeepsDigits(s: string)
    requires AllDigits(s)
    ensures Lower(s) == s
  {
  }

  /** The URL form is the lower-case month name, the padded day and the year, hyphen-separated. */
  lemma FormatDateForUrlParts(d: Date)
    ensures FormatDateForUrl(d) == LowerMonthNames()[d.month - 1] + "-" + DayText(d.day) + "-" + YearText(d.year)
  {
    var mn, dt, yt := MonthName(d.month), DayText(d.day), YearText(d.year);
    var s := mn + "-" + dt + "-" + yt;
    LowerMonthName(d.month);
    LowerKeepsDigits(dt);
    LowerKeepsDigits(yt);
    assert Lower(s) == Lower(mn) + "-" + Lower(dt) + "-" + Lower(yt);
  }

  /** The first `c` after a word without `c` is the one right after it. */
  lemma IndexOfAfterWord(word: string, c: char, rest: string)
    requires Avoids(word, c)
    ensures IndexOf(word + [c] + rest, c) == Some(|word|)
  {
    var s := word + [c] + rest;
    assert s[|word|] == c;
    assert forall k :: 0 <= k < |word| ==> s[k] == word[k];
  }

  /** The reader takes a month name, two digits and a year apart again. */
  lemma ParseUrlDateParts(name: string, dt: string, yt: string, m: Month)
    requires Avoids(name, '-') && MonthNumber(name) == Some(m)
    requires |dt| == 2 && AllDigits(dt) && 1 <= DecimalValue(dt) <= 31
    requires |yt| >= 1 && AllDigits(yt)
    ensures ParseUrlDate(name + "-" + dt + "-" + yt) == Some(Date(DecimalValue(yt), m, DecimalValue(dt)))
  {
    var s := name + "-" + dt + "-" + yt;
    IndexOfAfterWord(name, '-', dt + "-" + yt);
    assert s == name + "-" + (dt + "-" + yt);
    assert s[..|name|] == name;
    var rest := s[|name| + 1..];
    assert rest == dt + "-" + yt;
    assert rest[..2] == dt && rest[3..] == yt;
  }

  /** The URL form of a date reads back as that date: different dates never share a URL. */
  lemma UrlDateRoundTrip(d: Date)
    ensures ParseUrlDate(FormatDateForUrl(d)) == Some(d)
  {
    FormatDateForUrlParts(d);
    MonthNameHasNoHyphen(d.month);
    MonthNumberOfName(d.month);
    DayTextRoundTrip(d.day);
    DecimalRoundTrip(d.year);
    ParseUrlDateParts(LowerMonthNames()[d.month - 1], DayText(d.day), YearText(d.year), d.month);
  }
}
