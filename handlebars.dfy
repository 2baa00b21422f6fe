/**
 * The `formatDateAux` Handlebars helper of src/lib/handlebars.js: a date rendered as
 * "year-month-day" with the month and the day padded to two digits. The date is already split
 * into the local calendar fields that `getFullYear`, `getMonth` and `getDate` return.
 */
module Handlebars {
  import opened JsValues

  /** `new Date(date)`: an Invalid Date, or local calendar fields (the month counts from 0). */
  datatype DateValue = InvalidDate | DateParts(year: int, monthIndex: int, day: int)

  /** The field ranges of a valid Date. */
  predicate WellFormed(d: DateValue) {
    d.DateParts? ==> 0 <= d.monthIndex <= 11 && 1 <= d.day <= 31
  }

  /** A 1- or 2-digit field as `n.toString().padStart(2, '0')`. */
  function TwoDigits(n: nat): (s: string)
    requires n < 100
    ensures |s| == 2 && AllDecimalDigits(s)
  {
    PadStart(NatToString(n), 2, '0')
  }

  /** `formatDateAux(date)`; every getter of an Invalid Date yields NaN, rendered "NaN". */
  function FormatDateAux(d: DateValue): (r: string)
    requires WellFormed(d)
  {
    match d
    case InvalidDate => "NaN-NaN-NaN"
    case DateParts(year, monthIndex, day) =>
      IntToString(year) + "-" + TwoDigits(monthIndex + 1) + "-" + TwoDigits(day)
  }

  /** parseInt reads a whole string of decimal digits as their value. */
  lemma ParseIntOfDigits(z: string)
    requires |z| > 0 && AllDecimalDigits(z)
    ensures AllRadixDigits(z, 10)
    ensures ParseInt(z, 10) == Some(ValueOf(z, 10))
  {
    assert AllRadixDigits(z, 10) by {
      forall i | 0 <= i < |z| ensures IsRadixDigit(z[i], 10) {
        assert IsDecimalDigit(z[i]);
      }
    }
    assert IsDecimalDigit(z[0]);
    assert TrimStart(z) == z;
    DigitPrefixWhole(z, "", 10);
    assert z + "" == z;
  }

  /** A padded field parses back to the number it renders. */
  lemma TwoDigitsParse(n: nat)
    requires n < 100
    ensures ParseInt(TwoDigits(n), 10) == Some(n)
  {
    var s := NatToString(n);
    ValueOfDecimal(n);
    if n < 10 {
      assert TwoDigits(n) == "0" + s;
      ValueOfLeadingZero(s, 10);
    }
    ParseIntOfDigits(TwoDigits(n));
  }

  /**
   * The layout of a formatted valid date: the last five characters hold "-mm" and "-dd", and
   * each of the three fields parses back to the year, the month (counted from 1) and the day.
   */
  lemma FormatDateAuxFields(d: DateValue)
    requires WellFormed(d) && d.DateParts?
    ensures var r := FormatDateAux(d);
      && |r| >= 7 && r[|r| - 6] == '-' && r[|r| - 3] == '-'
      && ParseInt(r[..|r| - 6], 10) == Some(d.year)
      && ParseInt(r[|r| - 5..|r| - 3], 10) == Some(d.monthIndex + 1)
      && ParseInt(r[|r| - 2..], 10) == Some(d.day)
  {
    var y := IntToString(d.year);
    var m := TwoDigits(d.monthIndex + 1);
    var dd := TwoDigits(d.day);
    assert FormatDateAux(d) == y + "-" + m + "-" + dd;
    DashedFields(y, m, dd);
    ParseIntOfDecimal(d.year, "", 10);
    assert y + "" == y;
    TwoDigitsParse(d.monthIndex + 1);
    TwoDigitsParse(d.day);
  }

  /** Where the pieces of `a-bb-cc` sit. */
  lemma DashedFields(a: string, b: string, c: string)
    requires |b| == 2 && |c| == 2
    ensures var r := a + "-" + b + "-" + c;
      && |r| == |a| + 6 && r[|r| - 6] == '-' && r[|r| - 3] == '-'
      && r[..|r| - 6] == a && r[|r| - 5..|r| - 3] == b && r[|r| - 2..] == c
  {
  }

  /** A four-digit year gives the ten characters "yyyy-mm-dd". */
  lemma FormatDateAuxFourDigitYear(d: DateValue)
    requires WellFormed(d) && d.DateParts? && 1000 <= d.year <= 9999
    ensures var r := FormatDateAux(d);
      && |r| == 10 && r[4] == '-' && r[7] == '-'
      && ParseInt(r[..4], 10) == Some(d.year)
  {
    assert |NatToString(d.year)| == 4 by {
      assert |NatToString(d.year / 10)| == 3 by {
        assert |NatToString(d.year / 100)| == 2;
      }
    }
    FormatDateAuxFields(d);
  }

  /** The year is not padded, and an Invalid Date renders its three NaNs. */
  lemma FormatDateAuxExamples()
    ensures FormatDateAux(DateParts(2024, 2, 9)) == "2024-03-09"
    ensures FormatDateAux(DateParts(5, 0, 1)) == "5-01-01"
    ensures FormatDateAux(InvalidDate) == "NaN-NaN-NaN"
  {
    YearExample();
    TwoDigitsPadding(3);
    TwoDigitsPadding(9);
    TwoDigitsPadding(1);
    assert IntToString(5) == "5";
  }

  /** A one-digit field gets a single leading zero; a two-digit one is left as it is. */
  lemma TwoDigitsPadding(n: nat)
    requires n < 100
    ensures n < 10 ==> TwoDigits(n) == ['0', DigitChar(n)]
    ensures n >= 10 ==> TwoDigits(n) == NatToString(n)
  {
    if n < 10 {
      assert NatToString(n) == [DigitChar(n)];
    }
  }

  lemma YearExample()
    ensures IntToString(2024) == "2024"
  {
    assert NatToString(20) == "20";
    assert NatToString(202) == "202";
  }
}
