/** Decimal number text: the literals Python's `float()` accepts from the
    bills (optional sign, digits, optional decimal point), and the
    two-decimal formatting `"{:.2f}".format(...)`. Values are exact reals. */
module Numbers {
  import opened Wrappers
  import opened Text

  datatype Sign = Unsigned | Plus | Minus

  /** A literal as written: sign, the digits before the point, whether a
      point is written, and the digits after it. */
  datatype Literal = Literal(sign: Sign, whole: string, point: bool, frac: string)

  /** At least one digit on one side of the point, and fraction digits only
      after a point: "1", "1.", ".5", "-1.25" but not ".", "" or "1e5". */
  predicate WellFormed(l: Literal)
  {
    AllDigits(l.whole) && AllDigits(l.frac) && (l.point || l.frac == []) && (l.whole != [] || l.frac != [])
  }

  function Magnitude(l: Literal): real
    requires WellFormed(l)
  {
    DigitsValue(l.whole + l.frac) as real / Pow10(|l.frac|) as real
  }

  /** The number a well-formed literal denotes. */
  function LiteralValue(l: Literal): real
    requires WellFormed(l)
  {
    if l.sign == Minus then -Magnitude(l) else Magnitude(l)
  }

  function SignText(sg: Sign): string
  {
    match sg
    case Unsigned => ""
    case Plus => "+"
    case Minus => "-"
  }

  function Print(l: Literal): string
  {
    SignText(l.sign) + l.whole + (if l.point then "." else "") + l.frac
  }

  function Unsign(s: string): (Sign, string)
  {
    if s != [] && s[0] == '+' then (Plus, s[1..])
    else if s != [] && s[0] == '-' then (Minus, s[1..])
    else (Unsigned, s)
  }

  /** Reads a whole string as one literal. */
  function ParseLiteral(s: string): (r: Option<Literal>)
    ensures r.Some? ==> WellFormed(r.value)
  {
    var l := Split(s);
    if WellFormed(l) then Some(l) else None
  }

  /** Cuts text into sign, digits before the first point, and the rest. */
  function Split(s: string): Literal
  {
    SplitBody(Unsign(s).0, Unsign(s).1)
  }

  function SplitBody(sg: Sign, body: string): Literal
  {
    match FirstIndex(body, '.')
    case None => Literal(sg, body, false, [])
    case Some(i) => Literal(sg, body[..i], true, body[i + 1..])
  }

  lemma UnsignSplits(s: string)
    ensures s == SignText(Unsign(s).0) + Unsign(s).1
  {
    if s != [] && (s[0] == '+' || s[0] == '-') {
      assert s == [s[0]] + s[1..];
    }
  }

  lemma PrintSplitBody(sg: Sign, body: string)
    ensures Print(SplitBody(sg, body)) == SignText(sg) + body
  {
    match FirstIndex(body, '.')
    case None =>
    case Some(i) =>
      assert Print(SplitBody(sg, body)) == SignText(sg) + body[..i] + "." + body[i + 1..];
      CutAtPoint(SignText(sg), body, i);
  }

  lemma PrintSplit(s: string)
    ensures Print(Split(s)) == s
  {
    UnsignSplits(s);
    PrintSplitBody(Unsign(s).0, Unsign(s).1);
  }

  lemma CutAtPoint(prefix: string, body: string, i: nat)
    requires i < |body| && body[i] == '.'
    ensures prefix + body[..i] + "." + body[i + 1..] == prefix + body
  {
    assert body == body[..i] + "." + body[i + 1..];
  }

  /** Whatever text reads as a literal is that literal printed. */
  lemma PrintParseLiteral(s: string)
    requires ParseLiteral(s).Some?
    ensures Print(ParseLiteral(s).value) == s
  {
    PrintSplit(s);
  }

  /** Reading a printed literal gives the literal back. */
  lemma ParseLiteralPrint(l: Literal)
    requires WellFormed(l)
    ensures ParseLiteral(Print(l)) == Some(l)
  {
    var body := l.whole + (if l.point then "." else "") + l.frac;
    assert Print(l) == SignText(l.sign) + body;
    assert Unsign(Print(l)) == (l.sign, body) by {
      match l.sign
      case Plus => assert Print(l) == "+" + body;
      case Minus => assert Print(l) == "-" + body;
      case Unsigned =>
        assert Print(l) == body;
        if body != [] {
          assert body[0] == '.' || IsDigit(body[0]);
        }
    }
    if l.point {
      assert body[|l.whole|] == '.';
      assert body[..|l.whole|] == l.whole;
      assert '.' !in l.whole by {
        forall i | 0 <= i < |l.whole| ensures l.whole[i] != '.' {
          assert IsDigit(l.whole[i]);
        }
      }
      assert FirstIndex(body, '.') == Some(|l.whole|);
      assert body[|l.whole| + 1..] == l.frac;
    } else {
      assert body == l.whole;
      assert '.' !in body by {
        forall i | 0 <= i < |body| ensures body[i] != '.' {
          assert IsDigit(body[i]);
        }
      }
    }
  }

  function StripLeft(s: string): (r: string)
    ensures |r| <= |s| && r == s[|s| - |r|..]
    ensures r == [] || !IsSpace(r[0])
    ensures s == [] || !IsSpace(s[0]) ==> r == s
  {
    if s != [] && IsSpace(s[0]) then StripLeft(s[1..]) else s
  }

  function StripRight(s: string): (r: string)
    ensures |r| <= |s| && r == s[..|r|]
    ensures r == [] || !IsSpace(r[|r| - 1])
    ensures s == [] || !IsSpace(s[|s| - 1]) ==> r == s
  {
    if s != [] && IsSpace(s[|s| - 1]) then StripRight(s[..|s| - 1]) else s
  }

  /** `s.strip()`: drops surrounding whitespace. */
  function Strip(s: string): (r: string)
    ensures r == [] || (!IsSpace(r[0]) && !IsSpace(r[|r| - 1]))
    ensures s == [] || (!IsSpace(s[0]) && !IsSpace(s[|s| - 1])) ==> r == s
  {
    var t := StripLeft(s);
    var r := StripRight(t);
    assert r == [] || !IsSpace(r[0]);
    r
  }

  /** Stripping removes only whitespace. */
  lemma StripChars(s: string)
    ensures forall c :: c in Strip(s) ==> c in s
    ensures forall c :: c in s ==> c in Strip(s) || IsSpace(c)
  {
    var t := StripLeft(s);
    var r := StripRight(t);
    StripLeftSkipsSpaces(s);
    StripRightSkipsSpaces(t);
    assert forall c :: c in r ==> c in t;
    forall c | c in s ensures c in r || IsSpace(c) {
      var i :| 0 <= i < |s| && s[i] == c;
      var k := |s| - |t|;
      if i >= k {
        assert c == t[i - k];
        if i - k < |r| {
          assert c == r[i - k];
        }
      }
    }
  }

  lemma {:induction false} StripLeftSkipsSpaces(s: string)
    ensures forall i :: 0 <= i < |s| - |StripLeft(s)| ==> IsSpace(s[i])
  {
    if s != [] && IsSpace(s[0]) {
      StripLeftSkipsSpaces(s[1..]);
    }
  }

  lemma {:induction false} StripRightSkipsSpaces(s: string)
    ensures forall i :: |StripRight(s)| <= i < |s| ==> IsSpace(s[i])
  {
    if s != [] && IsSpace(s[|s| - 1]) {
      StripRightSkipsSpaces(s[..|s| - 1]);
    }
  }

  /** `float(s)` on a string: surrounding whitespace is stripped, and None
      stands for the ValueError raised on text that is not a decimal literal
      of ASCII digits. */
  function Float(s: string): Option<real>
  {
    match ParseLiteral(Strip(s))
    case None => None
    case Some(l) => Some(LiteralValue(l))
  }

  /** A printed literal reads back as the number it denotes. */
  lemma FloatPrint(l: Literal)
    requires WellFormed(l)
    ensures Float(Print(l)) == Some(LiteralValue(l))
  {
    var p := Print(l);
    assert p != [];
    assert !IsSpace(p[0]) by {
      if l.sign == Unsigned && l.whole != [] { assert IsDigit(l.whole[0]); }
    }
    assert !IsSpace(p[|p| - 1]) by {
      if l.frac != [] {
        assert p[|p| - 1] == l.frac[|l.frac| - 1];
        assert IsDigit(l.frac[|l.frac| - 1]);
      } else if !l.point {
        assert p[|p| - 1] == l.whole[|l.whole| - 1];
        assert IsDigit(l.whole[|l.whole| - 1]);
      }
    }
    ParseLiteralPrint(l);
  }

  /** Characters `float()` can accept. */
  predicate NumberChar(c: char)
  {
    IsDigit(c) || c == '+' || c == '-' || c == '.' || IsSpace(c)
  }

  /** Every character of a literal is a number character, and one is a digit. */
  lemma PrintChars(l: Literal)
    requires WellFormed(l)
    ensures forall c :: c in Print(l) ==> NumberChar(c)
    ensures exists c :: c in Print(l) && IsDigit(c)
  {
    var p := Print(l);
    forall c | c in p ensures NumberChar(c) {
      var i :| 0 <= i < |p| && p[i] == c;
      var sl := |SignText(l.sign)|;
      if i < sl {
      } else if i < sl + |l.whole| {
        assert c == l.whole[i - sl];
      } else if l.point && i == sl + |l.whole| {
      } else {
        assert c == l.frac[i - sl - |l.whole| - (if l.point then 1 else 0)];
      }
    }
    if l.whole != [] {
      assert l.whole[0] in p;
    } else {
      assert l.frac[0] in p;
    }
  }

  /** Text `float()` accepts holds a digit and only number characters; so a
      grouping comma, a currency sign or a letter makes it fail. */
  lemma FloatAccepts(s: string)
    requires Float(s).Some?
    ensures forall c :: c in s ==> NumberChar(c)
    ensures exists c :: c in s && IsDigit(c)
  {
    var l := ParseLiteral(Strip(s)).value;
    PrintParseLiteral(Strip(s));
    PrintChars(l);
    StripChars(s);
  }

  /** Rounding to the nearest integer, ties to the even one: the rounding
      step of Python's fixed-point formatting. */
  function RoundHalfEven(x: real): (n: int)
    ensures -0.5 <= n as real - x <= 0.5
    ensures (n as real - x == 0.5 || x - n as real == 0.5) ==> n % 2 == 0
  {
    var f := x.Floor;
    var d := x - f as real;
    if d < 0.5 then f
    else if d > 0.5 then f + 1
    else if f % 2 == 0 then f
    else f + 1
  }

  /** An integer is its own rounding. */
  lemma RoundHalfEvenInt(n: int)
    ensures RoundHalfEven(n as real) == n
  {
    assert (n as real).Floor == n;
  }

  /** Hundredths as a literal: the whole units, a point and exactly two
      fraction digits. */
  function CentsLiteral(c: nat): Literal
  {
    Literal(Unsigned, NatToDigits(c / 100), true, PadDigits(c % 100, 2))
  }

  /** Whole cents written with two decimals: 123 as "1.23", 5 as "0.05". */
  function FormatCents(c: nat): string
  {
    Print(CentsLiteral(c))
  }

  /** `"{:.2f}".format(y)` for a non-negative `y`, the only kind the
      pipeline formats (it formats absolute values). */
  function Fixed2(y: real): (s: string)
    requires y >= 0.0
  {
    FormatCents(RoundHalfEven(y * 100.0))
  }

  lemma CentsDigits(c: nat)
    ensures WellFormed(CentsLiteral(c))
    ensures DigitsValue(CentsLiteral(c).whole + CentsLiteral(c).frac) == c
    ensures Pow10(|CentsLiteral(c).frac|) == 100
  {
    var l := CentsLiteral(c);
    DigitsValueAppend(l.whole, l.frac);
    assert Pow10(2) == 100 by {
      assert Pow10(1) == 10 * Pow10(0);
    }
  }

  lemma CentsValue(c: nat)
    ensures WellFormed(CentsLiteral(c))
    ensures LiteralValue(CentsLiteral(c)) == c as real / 100.0
  {
    CentsDigits(c);
  }

  /** A literal reads back as any number it is known to denote. */
  lemma FloatPrintValue(l: Literal, x: real)
    requires WellFormed(l) && LiteralValue(l) == x
    ensures Float(Print(l)) == Some(x)
  {
    FloatPrint(l);
  }

  /** `c` hundredths. */
  function Hundredths(c: nat): real
  {
    c as real / 100.0
  }

  /** Two-decimal text reads back as its number of hundredths. */
  lemma FloatFormatCents(c: nat)
    ensures Float(FormatCents(c)) == Some(Hundredths(c))
  {
    CentsValue(c);
    FloatPrintValue(CentsLiteral(c), Hundredths(c));
  }

  /** A number of hundredths is formatted exactly, with no rounding. */
  lemma Fixed2Cents(c: nat)
    ensures Fixed2(Hundredths(c)) == FormatCents(c)
  {
    assert Hundredths(c) * 100.0 == c as real;
    RoundHalfEvenInt(c);
  }
}
