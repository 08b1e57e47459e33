/**
 * Dates the holder supplies and the digit patterns derived from them.
 * Parsing a `DD-MM-YYYY` string is done by the caller's parser; a date that
 * failed to parse is `None` and yields no patterns.
 */
module Dates {
  import opened Wrappers
  import opened Text

  /** Whose date it is: the holder's birth date, the spouse's, or the wedding anniversary. */
  datatype Label = Self | Spouse | Anniversary

  /** A parsed calendar date. */
  datatype Date = Date(day: nat, month: nat, year: nat)

  /** Parser of the `%d-%m-%Y` text form; `None` stands for a `ValueError`. */
  type Parser = string -> Option<Date>

  function Day(d: Date): string { Pad2(d.day) }        // %d
  function Month(d: Date): string { Pad2(d.month) }    // %m
  function ShortYear(d: Date): string { Pad2(d.year) } // %y
  function FullYear(d: Date): string { Pad4(d.year) }  // %Y

  /** `extract_year_patterns`: `%Y` then `%y`. */
  function YearPatterns(date: Option<Date>): (ps: seq<string>)
    ensures date.None? ==> ps == []
    ensures date.Some? ==> |ps| == 2 && |ps[0]| == 4 && |ps[1]| == 2
    ensures forall k :: 0 <= k < |ps| ==> AllDigits(ps[k])
  {
    match date
    case None => []
    case Some(d) => [FullYear(d), ShortYear(d)]
  }

  /** `extract_date_patterns`: six two-field patterns, then four three-field ones. */
  function DatePatterns(date: Option<Date>): (ps: seq<string>)
    ensures date.None? ==> ps == []
    ensures date.Some? ==> |ps| == 10
    ensures forall k :: 0 <= k < |ps| ==> AllDigits(ps[k]) && |ps[k]| == (if k < 6 then 4 else 6)
  {
    match date
    case None => []
    case Some(d) =>
      var dd, mm, yy := Day(d), Month(d), ShortYear(d);
      [ dd + mm, mm + dd, yy + mm, mm + yy, yy + dd, dd + yy,
        dd + mm + yy, yy + mm + dd, mm + dd + yy, yy + dd + mm ]
  }

  /**
   * `extract_combined_date_patterns`: eighteen four-digit patterns joining one
   * field of each date; nothing unless both dates parsed.
   */
  function CombinedPatterns(first: Option<Date>, second: Option<Date>): (ps: seq<string>)
    ensures first.None? || second.None? ==> ps == []
    ensures first.Some? && second.Some? ==> |ps| == 18
    ensures forall k :: 0 <= k < |ps| ==> AllDigits(ps[k]) && |ps[k]| == 4
  {
    if first.None? || second.None? then []
    else
      var d1, m1, y1 := Day(first.value), Month(first.value), ShortYear(first.value);
      var d2, m2, y2 := Day(second.value), Month(second.value), ShortYear(second.value);
      [ d1 + d2, d2 + d1,
        m1 + m2, m2 + m1,
        d1 + m2, m2 + d1,
        m1 + d2, d2 + m1,
        y1 + y2, y2 + y1,
        d1 + y2, y2 + d1,
        m1 + y2, y2 + m1,
        d2 + y1, y1 + d2,
        m2 + y1, y1 + m2 ]
  }

  /** The year patterns denote the year: in full below 10000, and modulo 100. */
  lemma YearPatternsDenoteYear(d: Date)
    ensures Decimal(YearPatterns(Some(d))[0]) == d.year % 10000
    ensures Decimal(YearPatterns(Some(d))[1]) == d.year % 100
  {
    Pad4Decodes(d.year);
    Pad2Decodes(d.year);
  }

  /** Two two-digit fields side by side, read as a number. */
  lemma PairDenotes(x: nat, y: nat)
    requires x < 100 && y < 100
    ensures Decimal(Pad2(x) + Pad2(y)) == x * 100 + y
  {
    Pad2Small(x);
    Pad2Small(y);
    DecimalAppendPair(Pad2(x), Pad2(y));
  }

  /** A number below 100 is its own two-digit field. */
  lemma Pad2Small(x: nat)
    requires x < 100
    ensures Decimal(Pad2(x)) == x
  {
    Pad2Decodes(x);
  }

  /** Day then month, and month then day, read as numbers. */
  lemma DayMonthDenotes(d: Date)
    requires d.day < 100 && d.month < 100
    ensures Decimal(Day(d) + Month(d)) == d.day * 100 + d.month
    ensures Decimal(Month(d) + Day(d)) == d.month * 100 + d.day
  {
    PairDenotes(d.day, d.month);
    PairDenotes(d.month, d.day);
  }

  /** The first two date patterns are day-month and month-day, as numbers. */
  lemma DayMonthPatternsDenoteDate(d: Date)
    requires d.day < 100 && d.month < 100
    ensures Decimal(DatePatterns(Some(d))[0]) == d.day * 100 + d.month
    ensures Decimal(DatePatterns(Some(d))[1]) == d.month * 100 + d.day
  {
    var ps := DatePatterns(Some(d));
    assert ps[0] == Day(d) + Month(d) && ps[1] == Month(d) + Day(d);
    DayMonthDenotes(d);
  }
}
