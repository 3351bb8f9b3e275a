/** The column converters of one_book_ledger/bill_parser/field_convert.py:
    `convert_date_format`, `remove_sign` and `get_income_or_expense`, first
    on text and then on the cell values a table column holds. */
module FieldConvert {
  import opened Wrappers
  import opened Text
  import opened DateTimes
  import opened Values
  import opened Numbers

  // -------------------------------------------------------- convert_date_format

  /** `datetime.combine(date, time)`: the day of one, the time of the other. */
  function Combine(d: DateTime, t: DateTime): DateTime
  {
    DateTime(d.year, d.month, d.day, t.hour, t.minute, t.second)
  }

  /** `convert_date_format(date_str, time_str)`: the day read with '%Y%m%d'
      and the time read with '%H:%M:%S', written '%Y-%m-%d %H:%M:%S'; None
      for the ValueError raised when either is malformed or names no real
      day or time. The result reads back as the combined timestamp. */
  function ConvertDateFormat(date: string, time: string): (r: Option<string>)
    ensures r.Some? <==> ParseYmd(date).Some? && ParseHms(time).Some?
    ensures r.Some? ==> |r.value| == 19 && ParseIso(r.value) == Some(Combine(ParseYmd(date).value, ParseHms(time).value))
  {
    match ParseYmd(date)
    case None => None
    case Some(d) =>
      match ParseHms(time)
      case None => None
      case Some(t) =>
        ParseIsoFormatIso(Combine(d, t));
        Some(FormatIso(Combine(d, t)))
  }

  /** The default time '00:00:00' is midnight. */
  lemma ParseHmsMidnight()
    ensures ParseHms("00:00:00") == Some(DateTime(1900, 1, 1, 0, 0, 0))
  {
    ParseHmsFormatHms(0, 0, 0);
    assert FormatHms(0, 0, 0) == "00:00:00";
  }

  /** With the default time, a valid day is written at midnight. */
  lemma ConvertDateFormatMidnight(date: string)
    ensures ConvertDateFormat(date, "00:00:00").Some? <==> ParseYmd(date).Some?
    ensures ParseYmd(date).Some? ==> ConvertDateFormat(date, "00:00:00") == Some(FormatIso(ParseYmd(date).value))
  {
    ParseHmsMidnight();
    if ParseYmd(date).Some? {
      var d := ParseYmd(date).value;
      assert Combine(d, DateTime(1900, 1, 1, 0, 0, 0)) == d;
    }
  }

  /** Any timestamp split into its '%Y%m%d' day and '%H:%M:%S' time is put
      back together. */
  lemma ConvertDateFormatRoundTrip(dt: DateTime)
    requires Valid(dt)
    ensures ConvertDateFormat(FormatYmd(DateTime(dt.year, dt.month, dt.day, 0, 0, 0)), FormatHms(dt.hour, dt.minute, dt.second))
      == Some(FormatIso(dt))
  {
    var d := DateTime(dt.year, dt.month, dt.day, 0, 0, 0);
    ParseYmdFormatYmd(d);
    ParseHmsFormatHms(dt.hour, dt.minute, dt.second);
  }

  /** A thirteenth month is refused: '20251305' gives None, since '%m'
      takes only the '1' and a character is left over. */
  lemma ConvertDateFormatBadMonth(time: string)
    ensures ConvertDateFormat("20251305", time) == None
  {
    var s := "20251305";
    assert AllDigits(s[..4]) by {
      assert s[..4] == "2025";
    }
    MonthPastTwelve(s);
  }

  /** A day past the month's end is refused: '20250230' gives None. */
  lemma ConvertDateFormatBadDay(time: string)
    ensures ConvertDateFormat("20250230", time) == None
  {
    ParseYmdBadDay();
  }

  lemma ParseYmdBadDay()
    ensures ParseYmd("20250230") == None
  {
    BadDayDigits();
    ReadsEightDigits("20250230", 2, 30);
  }

  /** '20250230' is a four-digit year, then the month 2 and the day 30
      written `'%02d'`. */
  lemma BadDayDigits()
    ensures AllDigits("20250230"[..4])
    ensures TwoDigitsAt("20250230", 4, 2) && TwoDigitsAt("20250230", 6, 30)
  {
    var s := "20250230";
    assert s[..4] == "2025";
    assert DigitChar(0) == '0' && DigitChar(2) == '2' && DigitChar(3) == '3';
  }

  // ---------------------------------------------------------------- remove_sign

  function Abs(x: real): (a: real)
    ensures a >= 0.0 && (a == x || a == -x)
  {
    if x < 0.0 then -x else x
  }

  /** The hundredths `'{:.2f}'` rounds a non-negative number to. */
  function Cents(y: real): nat
    requires y >= 0.0
  {
    RoundHalfEven(y * 100.0)
  }

  /** Two-decimal text holds only digits and a point. */
  lemma FormatCentsChars(c: nat)
    ensures forall ch :: ch in FormatCents(c) ==> IsDigit(ch) || ch == '.'
  {
    var l := CentsLiteral(c);
    assert FormatCents(c) == l.whole + "." + l.frac;
    forall ch | ch in FormatCents(c) ensures IsDigit(ch) || ch == '.' {
      if ch in l.whole {
        var i :| 0 <= i < |l.whole| && l.whole[i] == ch;
      } else if ch in l.frac {
        var i :| 0 <= i < |l.frac| && l.frac[i] == ch;
      }
    }
  }

  /** `remove_sign(amount_str)`: the absolute value written with two
      decimals, None for the ValueError raised on text that is not a
      number. The result carries no sign and reads back as the absolute
      value rounded to hundredths. */
  function RemoveSign(s: string): (r: Option<string>)
    ensures r.Some? <==> Float(s).Some?
    ensures r.Some? ==> '-' !in r.value && '+' !in r.value
    ensures r.Some? ==> Float(r.value) == Some(Hundredths(Cents(Abs(Float(s).value))))
  {
    match Float(s)
    case None => None
    case Some(x) =>
      Fixed2Reads(Abs(x));
      Some(Fixed2(Abs(x)))
  }

  /** Two-decimal text of a non-negative number is unsigned and reads back
      as the number rounded to hundredths. */
  lemma Fixed2Reads(y: real)
    requires y >= 0.0
    ensures '-' !in Fixed2(y) && '+' !in Fixed2(y)
    ensures Float(Fixed2(y)) == Some(Hundredths(Cents(y)))
  {
    var c := Cents(y);
    assert Fixed2(y) == FormatCents(c);
    assert '-' !in FormatCents(c) && '+' !in FormatCents(c) by {
      FormatCentsChars(c);
    }
    assert Float(FormatCents(c)) == Some(Hundredths(c)) by {
      FloatFormatCents(c);
    }
  }

  /** Applying `remove_sign` to its own result changes nothing. */
  lemma RemoveSignIdempotent(s: string)
    requires RemoveSign(s).Some?
    ensures RemoveSign(RemoveSign(s).value) == RemoveSign(s)
  {
    var c := Cents(Abs(Float(s).value));
    assert Abs(Hundredths(c)) == Hundredths(c);
    Fixed2Cents(c);
  }

  /** An amount already in whole hundredths loses only its sign:
      '-59.90' gives '59.90' and '+100.00' gives '100.00'. */
  lemma RemoveSignCents(s: string, c: nat)
    requires Float(s) == Some(Hundredths(c)) || Float(s) == Some(-Hundredths(c))
    ensures RemoveSign(s) == Some(FormatCents(c))
  {
    assert Abs(Float(s).value) == Hundredths(c);
    Fixed2Cents(c);
  }

  /** Zero in any spelling is '0.00': '-0', '0' and '+0.000' alike. */
  lemma RemoveSignZero(l: Literal)
    requires WellFormed(l) && LiteralValue(l) == 0.0
    ensures RemoveSign(Print(l)) == Some("0.00")
  {
    FloatPrintValue(l, Hundredths(0));
    RemoveSignCents(Print(l), 0);
    FormatCentsZero();
  }

  lemma FormatCentsZero()
    ensures FormatCents(0) == "0.00"
  {
    ZeroDigits();
    assert FormatCents(0) == "" + "0" + "." + "00";
  }

  lemma ZeroDigits()
    ensures NatToDigits(0) == "0" && PadDigits(0, 2) == "00"
  {
    assert DigitChar(0) == '0';
    assert PadDigits(0, 1) == "0" by {
      assert PadDigits(0, 0) == [];
    }
  }

  /** Text with no digit, the empty string included, gives None. */
  lemma RemoveSignNoDigit(s: string)
    requires forall ch :: ch in s ==> !IsDigit(ch)
    ensures RemoveSign(s) == None
  {
    if Float(s).Some? {
      FloatAccepts(s);
    }
  }

  // ------------------------------------------------------ get_income_or_expense

  /** The direction a signed amount stands for in these bills: a positive
      amount is spending, a negative one income, zero neither. */
  function Direction(x: real): (r: string)
    ensures r == "支出" <==> x > 0.0
    ensures r == "收入" <==> x < 0.0
    ensures r == "其他" <==> x == 0.0
  {
    if x > 0.0 then "支出" else if x < 0.0 then "收入" else "其他"
  }

  /** `get_income_or_expense(amount)` on text: None for text that is not a
      number. */
  function IncomeOrExpense(s: string): (r: Option<string>)
    ensures r.Some? <==> Float(s).Some?
  {
    match Float(s)
    case None => None
    case Some(x) => Some(Direction(x))
  }

  /** `remove_sign` and `get_income_or_expense` of the same amount lose
      nothing between them: the unsigned text and the direction give back
      the signed amount when it is in whole hundredths. */
  lemma SignCarriedByDirection(s: string, c: nat)
    requires Float(s) == Some(Hundredths(c)) || Float(s) == Some(-Hundredths(c))
    ensures Float(RemoveSign(s).value) == Some(Hundredths(c))
    ensures Float(s).value == (if IncomeOrExpense(s) == Some("收入") then -Hundredths(c) else Hundredths(c))
  {
    RemoveSignCents(s, c);
    FloatFormatCents(c);
  }

  // ------------------------------------------------------- on the cell values

  /** `convert_date_format(cell)` with the default time. Only text can be
      read: `strptime` raises a TypeError on anything else, which the
      converter does not catch. */
  function ConvertDateValue(v: Value): (r: Raising<Value>)
    ensures r.Raise? <==> !v.Str?
    ensures v.Str? ==> (r.value == Nil <==> ParseYmd(v.s).None?)
    ensures v.Str? && ParseYmd(v.s).Some? ==> r == Ok(Str(FormatIso(ParseYmd(v.s).value)))
  {
    match v
    case Str(s) =>
      ConvertDateFormatMidnight(s);
      (match ConvertDateFormat(s, "00:00:00") case Some(t) => Ok(Str(t)) case None => Ok(Nil))
    case _ => Raise
  }

  /** `remove_sign(cell)`: `float()` takes numbers as they are and NaN gives
      'nan'; None and timestamps make it raise a TypeError that is not
      caught. */
  function RemoveSignValue(v: Value): (r: Raising<Value>)
    ensures r.Raise? <==> v.Nil? || v.Stamp?
    ensures v.Num? ==> r == Ok(Str(Fixed2(Abs(v.x))))
    ensures v.Str? ==> r == Ok(match RemoveSign(v.s) case Some(t) => Str(t) case None => Nil)
  {
    match v
    case Nil => Raise
    case NaN => Ok(Str("nan"))
    case Str(s) => Ok(match RemoveSign(s) case Some(t) => Str(t) case None => Nil)
    case Num(x) => Ok(Str(Fixed2(Abs(x))))
    case Stamp(_) => Raise
  }

  /** `get_income_or_expense(cell)`: NaN compares neither above nor below
      zero, so it is '其他'; None and timestamps raise. */
  function IncomeOrExpenseValue(v: Value): (r: Raising<Value>)
    ensures r.Raise? <==> v.Nil? || v.Stamp?
    ensures v.Num? ==> r == Ok(Str(Direction(v.x)))
    ensures v.Str? ==> r == Ok(match IncomeOrExpense(v.s) case Some(t) => Str(t) case None => Nil)
  {
    match v
    case Nil => Raise
    case NaN => Ok(Str("其他"))
    case Str(s) => Ok(match IncomeOrExpense(s) case Some(t) => Str(t) case None => Nil)
    case Num(x) => Ok(Str(Direction(x)))
    case Stamp(_) => Raise
  }
}
