/**
  * Calendar dates (`java.time.LocalDate`) and their `yyyy-MM-dd` text form: the complete
  * calendar-date extended format of ISO 8601:2004, section 5.2.1.1, as produced by
  * `DateTimeFormatter.ofPattern("yyyy-MM-dd")` and read back by `LocalDate.parse` with it.
  */
module Dates {
  import opened Wrappers
  import opened Text

  datatype YearMonthDay = YearMonthDay(year: int, month: int, day: int)

  /** Proleptic Gregorian leap years, as in `IsoChronology.isLeapYear`. */
  predicate IsLeapYear(y: int) {
    y % 4 == 0 && (y % 100 != 0 || y % 400 == 0)
  }

  function DaysInMonth(y: int, m: int): (n: int)
    requires 1 <= m <= 12
    ensures 28 <= n <= 31
  {
    if m == 2 then (if IsLeapYear(y) then 29 else 28)
    else if m == 4 || m == 6 || m == 9 || m == 11 then 30
    else 31
  }

  /** A valid calendar date whose year has four digits (the range this model covers). */
  predicate IsCalendarDate(d: YearMonthDay) {
    1 <= d.year <= 9999 && 1 <= d.month <= 12 && 1 <= d.day <= DaysInMonth(d.year, d.month)
  }

  type Date = d: YearMonthDay | IsCalendarDate(d) witness YearMonthDay(1970, 1, 1)

  /** A wall-clock instant (`LocalDateTime`), used only as report content. */
  datatype Timestamp = Timestamp(date: Date, hour: nat, minute: nat, second: nat)

  /** Chronological order of dates (`LocalDate.isBefore`). */
  predicate Before(a: Date, b: Date) {
    a.year < b.year || (a.year == b.year && (a.month < b.month || (a.month == b.month && a.day < b.day)))
  }

  function Pow10(w: nat): (p: nat)
    ensures p >= 1
  {
    if w == 0 then 1 else 10 * Pow10(w - 1)
  }

  /** The last `width` decimal digits of `n`, zero-padded on the left. */
  function Pad(n: nat, width: nat): (r: string)
    ensures |r| == width
    ensures forall i :: 0 <= i < |r| ==> IsDigit(r[i])
  {
    if width == 0 then [] else Pad(n / 10, width - 1) + [DigitChar(n % 10)]
  }

  predicate AllDigits(s: string) {
    forall i :: 0 <= i < |s| ==> IsDigit(s[i])
  }

  /** The number a string of decimal digits denotes. */
  function DigitsValue(s: string): (n: nat)
    requires AllDigits(s)
    ensures n < Pow10(|s|)
  {
    if s == [] then 0 else DigitsValue(s[..|s| - 1]) * 10 + DigitValue(s[|s| - 1])
  }

  /** Reading back a padded number gives the number, when it fits in the width. */
  lemma {:induction false} PadRoundTrip(n: nat, width: nat)
    requires n < Pow10(width)
    ensures DigitsValue(Pad(n, width)) == n
  {
    if width > 0 {
      var r := Pad(n, width);
      assert r[..|r| - 1] == Pad(n / 10, width - 1);
      PadRoundTrip(n / 10, width - 1);
    }
  }

  /** On numbers that fit the width, the text order of padded digits is the numeric order. */
  lemma {:induction false} PadOrder(a: nat, b: nat, width: nat)
    requires a < Pow10(width) && b < Pow10(width)
    ensures Less(Pad(a, width), Pad(b, width)) <==> a < b
  {
    if width > 0 {
      var p, q := Pad(a / 10, width - 1), Pad(b / 10, width - 1);
      var ca, cb := DigitChar(a % 10), DigitChar(b % 10);
      assert a / 10 < Pow10(width - 1) && b / 10 < Pow10(width - 1);
      assert Less(Pad(a, width), Pad(b, width)) <==> Less(p, q) || (p == q && Less([ca], [cb])) by {
        LessConcat(p, [ca], q, [cb]);
      }
      assert Less(p, q) <==> a / 10 < b / 10 by {
        PadOrder(a / 10, b / 10, width - 1);
      }
      assert p == q <==> a / 10 == b / 10 by {
        PadRoundTrip(a / 10, width - 1);
        PadRoundTrip(b / 10, width - 1);
      }
      assert Less([ca], [cb]) <==> a % 10 < b % 10 by {
        SingleCharOrder(ca, cb);
        DigitCharOrder(a % 10, b % 10);
      }
      DivModOrder(a, b);
    } else {
      LessIrreflexive([]);
    }
  }

  lemma SingleCharOrder(c: char, d: char)
    ensures Less([c], [d]) <==> c < d
  {
    assert [c][1..] == [] && [d][1..] == [];
    LessIrreflexive([]);
  }

  lemma DigitCharOrder(x: int, y: int)
    requires 0 <= x < 10 && 0 <= y < 10
    ensures DigitChar(x) < DigitChar(y) <==> x < y
  {
  }

  lemma DivModOrder(a: nat, b: nat)
    ensures a < b <==> a / 10 < b / 10 || (a / 10 == b / 10 && a % 10 < b % 10)
  {
    assert a == 10 * (a / 10) + a % 10 && b == 10 * (b / 10) + b % 10;
  }

  /** `date.format(DateTimeFormatter.ofPattern("yyyy-MM-dd"))`. */
  function Format(d: Date): (r: string)
    ensures IsDateShaped(r)
  {
    Pad(d.year, 4) + "-" + Pad(d.month, 2) + "-" + Pad(d.day, 2)
  }

  /**
    * `LocalDate.parse(s, DateTimeFormatter.ofPattern("yyyy-MM-dd"))`, None where Java throws.
    * The model reads exactly four, two and two digits: the '+'-signed years of five or more
    * digits that the pattern also admits lie outside the modelled years. The default SMART
    * resolver rejects a year-of-era of 0, a month outside 1..12 and a day outside 1..31, and
    * moves a day of 29..31 that the month does not have back to the month's last day.
    */
  function Parse(s: string): (r: Option<Date>)
    ensures r.Some? ==>
              && IsDateShaped(s)
              && r.value.year == DigitsValue(s[..4]) && r.value.month == DigitsValue(s[5..7])
              && 1 <= r.value.day <= DigitsValue(s[8..]) <= 31
              && (r.value.day < DigitsValue(s[8..]) ==> r.value.day == DaysInMonth(r.value.year, r.value.month))
    ensures (&& IsDateShaped(s)
             && 1 <= DigitsValue(s[..4]) && 1 <= DigitsValue(s[5..7]) <= 12
             && 1 <= DigitsValue(s[8..]) <= DaysInMonth(DigitsValue(s[..4]), DigitsValue(s[5..7]))) ==>
              r == Some(YearMonthDay(DigitsValue(s[..4]), DigitsValue(s[5..7]), DigitsValue(s[8..])))
  {
    if IsDateShaped(s) then
      var y, m, d := DigitsValue(s[..4]), DigitsValue(s[5..7]), DigitsValue(s[8..]);
      if 1 <= y && 1 <= m <= 12 && 1 <= d <= 31 then
        Some(YearMonthDay(y, m, if d <= DaysInMonth(y, m) then d else DaysInMonth(y, m)))
      else None
    else None
  }

  /** Four digits, '-', two digits, '-', two digits. */
  predicate IsDateShaped(s: string) {
    |s| == 10 && s[4] == '-' && s[7] == '-' && AllDigits(s[..4]) && AllDigits(s[5..7]) && AllDigits(s[8..])
  }

  /** A formatted date parses back to itself. */
  lemma FormatParse(d: Date)
    ensures Parse(Format(d)) == Some(d)
  {
    var s := Format(d);
    assert s[..4] == Pad(d.year, 4);
    assert s[5..7] == Pad(d.month, 2);
    assert s[8..] == Pad(d.day, 2);
    PadRoundTrip(d.year, 4);
    PadRoundTrip(d.month, 2);
    PadRoundTrip(d.day, 2);
  }

  /** Distinct dates have distinct keys, so grouping by key is grouping by date. */
  lemma FormatInjective(a: Date, b: Date)
    requires Format(a) == Format(b)
    ensures a == b
  {
    FormatParse(a);
    FormatParse(b);
  }

  /** A padded field followed by more text compares by the field's number first, then by the rest. */
  lemma FieldThenRest(a: nat, b: nat, width: nat, s: string, t: string)
    requires a < Pow10(width) && b < Pow10(width)
    ensures Less(Pad(a, width) + s, Pad(b, width) + t) <==> a < b || (a == b && Less(s, t))
  {
    LessConcat(Pad(a, width), s, Pad(b, width), t);
    PadOrder(a, b, width);
    PadRoundTrip(a, width);
    PadRoundTrip(b, width);
  }

  /** A shared separator in front does not change the order. */
  lemma SeparatorThenRest(s: string, t: string)
    ensures Less("-" + s, "-" + t) <==> Less(s, t)
  {
    LessConcat("-", s, "-", t);
    LessIrreflexive("-");
  }

  /** Sorting `yyyy-MM-dd` keys as text sorts the dates chronologically. */
  lemma FormatOrder(a: Date, b: Date)
    ensures Less(Format(a), Format(b)) <==> Before(a, b)
  {
    var da, db := "-" + Pad(a.day, 2), "-" + Pad(b.day, 2);
    var ma, mb := "-" + (Pad(a.month, 2) + da), "-" + (Pad(b.month, 2) + db);
    assert Format(a) == Pad(a.year, 4) + ma;
    assert Format(b) == Pad(b.year, 4) + mb;
    assert Less(da, db) <==> a.day < b.day by {
      SeparatorThenRest(Pad(a.day, 2), Pad(b.day, 2));
      PadOrder(a.day, b.day, 2);
    }
    assert Less(ma, mb) <==> a.month < b.month || (a.month == b.month && a.day < b.day) by {
      SeparatorThenRest(Pad(a.month, 2) + da, Pad(b.month, 2) + db);
      FieldThenRest(a.month, b.month, 2, da, db);
    }
    FieldThenRest(a.year, b.year, 4, ma, mb);
  }
}
