/** Calendar timestamps, and `datetime.strptime`/`strftime` for the three
    layouts the bill pipeline uses: '%Y%m%d', '%H:%M:%S' and
    '%Y-%m-%d %H:%M:%S'. `strptime` compiles the format into a regular
    expression, matches it at the start of the text, refuses text left over
    after the match, and then builds the `datetime`, which refuses days and
    times that do not exist. */
module DateTimes {
  import opened Wrappers
  import opened Text

  /** Python's naive `datetime.datetime` at one-second resolution. */
  datatype DateTime = DateTime(year: int, month: int, day: int, hour: int, minute: int, second: int)

  predicate IsLeapYear(y: int)
  {
    (y % 4 == 0 && y % 100 != 0) || y % 400 == 0
  }

  function DaysInMonth(y: int, m: int): (n: int)
    requires 1 <= m <= 12
    ensures 28 <= n <= 31
  {
    if m == 2 then (if IsLeapYear(y) then 29 else 28)
    else if m == 4 || m == 6 || m == 9 || m == 11 then 30
    else 31
  }

  /** What `datetime.date` accepts: years 1..9999 and real calendar days. */
  predicate ValidDate(y: int, m: int, d: int)
  {
    1 <= y <= 9999 && 1 <= m <= 12 && 1 <= d <= DaysInMonth(y, m)
  }

  /** What `datetime.time` accepts (seconds 60 and 61 pass strptime's pattern
      but are refused when the object is built). */
  predicate ValidTime(h: int, mi: int, s: int)
  {
    0 <= h <= 23 && 0 <= mi <= 59 && 0 <= s <= 59
  }

  predicate Valid(dt: DateTime)
  {
    ValidDate(dt.year, dt.month, dt.day) && ValidTime(dt.hour, dt.minute, dt.second)
  }

  /** A timestamp a cell or a parsed field can hold: Python never builds an
      invalid `datetime`. */
  type Timestamp = dt: DateTime | Valid(dt) witness DateTime(1900, 1, 1, 0, 0, 0)

  // ------------------------------------------------ the compiled format

  /** One position of a directive's regex: `\d`, a class such as `[0-5]`,
      or a literal character. */
  datatype Class = Digit | Span(lo: char, hi: char) | Exact(c: char)

  predicate ClassMatches(k: Class, c: char)
  {
    match k
    case Digit => IsDigit(c)
    case Span(lo, hi) => lo <= c <= hi
    case Exact(x) => c == x
  }

  /** A piece of the regex a format compiles to: a directive's group of
      alternatives, tried in order; a literal character of the format; or
      `\s+`, which stands for each run of whitespace in the format. */
  datatype Piece = Group(alts: seq<seq<Class>>) | Literal(c: char) | Blanks

  /** '%Y' is `\d\d\d\d`. */
  function YearGroup(): Piece
  {
    Group([[Digit, Digit, Digit, Digit]])
  }

  /** '%m' is `1[0-2]|0[1-9]|[1-9]`. */
  function MonthGroup(): Piece
  {
    Group([[Exact('1'), Span('0', '2')], [Exact('0'), Span('1', '9')], [Span('1', '9')]])
  }

  /** '%d' is `3[0-1]|[1-2]\d|0[1-9]|[1-9]| [1-9]`. */
  function DayGroup(): Piece
  {
    Group([[Exact('3'), Span('0', '1')], [Span('1', '2'), Digit], [Exact('0'), Span('1', '9')], [Span('1', '9')], [Exact(' '), Span('1', '9')]])
  }

  /** '%H' is `2[0-3]|[0-1]\d|\d`. */
  function HourGroup(): Piece
  {
    Group([[Exact('2'), Span('0', '3')], [Span('0', '1'), Digit], [Digit]])
  }

  /** '%M' is `[0-5]\d|\d`. */
  function MinuteGroup(): Piece
  {
    Group([[Span('0', '5'), Digit], [Digit]])
  }

  /** '%S' is `6[0-1]|[0-5]\d|\d`. */
  function SecondGroup(): Piece
  {
    Group([[Exact('6'), Span('0', '1')], [Span('0', '5'), Digit], [Digit]])
  }

  /** The `strptime` layouts that occur in the pipeline. */
  datatype Layout = YearMonthDay | HourMinuteSecond | DateAndTime

  /** The regex each layout compiles to, piece by piece. */
  function Pieces(layout: Layout): seq<Piece>
  {
    match layout
    case YearMonthDay => [YearGroup(), MonthGroup(), DayGroup()]
    case HourMinuteSecond => [HourGroup(), Literal(':'), MinuteGroup(), Literal(':'), SecondGroup()]
    case DateAndTime =>
      [YearGroup(), Literal('-'), MonthGroup(), Literal('-'), DayGroup(), Blanks,
       HourGroup(), Literal(':'), MinuteGroup(), Literal(':'), SecondGroup()]
  }

  function Min(a: nat, b: nat): nat { if a <= b then a else b }

  function Max(a: nat, b: nat): nat { if a <= b then b else a }

  /** The length of the shortest and of the longest alternative. */
  function MinLen(alts: seq<seq<Class>>): nat
  {
    if alts == [] then 0
    else if |alts| == 1 then |alts[0]|
    else Min(|alts[0]|, MinLen(alts[1..]))
  }

  function MaxLen(alts: seq<seq<Class>>): nat
  {
    if alts == [] then 0 else Max(|alts[0]|, MaxLen(alts[1..]))
  }

  function PieceMin(p: Piece): nat
  {
    match p case Group(alts) => MinLen(alts) case _ => 1
  }

  function PieceMax(p: Piece): nat
  {
    match p case Group(alts) => MaxLen(alts) case _ => 1
  }

  /** The fewest characters a match of the pieces from the `k`th on takes,
      and (without `\s+`) the most. */
  function MinFrom(ps: seq<Piece>, k: nat): nat
    decreases |ps| - k
  {
    if k >= |ps| then 0 else PieceMin(ps[k]) + MinFrom(ps, k + 1)
  }

  function MaxFrom(ps: seq<Piece>, k: nat): nat
    decreases |ps| - k
  {
    if k >= |ps| then 0 else PieceMax(ps[k]) + MaxFrom(ps, k + 1)
  }

  /** The number of groups from the `k`th piece on. */
  function GroupsFrom(ps: seq<Piece>, k: nat): nat
    decreases |ps| - k
  {
    if k >= |ps| then 0 else (if ps[k].Group? then 1 else 0) + GroupsFrom(ps, k + 1)
  }

  predicate NoBlanksFrom(ps: seq<Piece>, k: nat)
  {
    forall j :: k <= j < |ps| ==> !ps[j].Blanks?
  }

  // ------------------------------------------------------------- matching

  /** Alternative `alt` fits the text at position `i`. */
  predicate AltAt(alt: seq<Class>, s: string, i: nat)
  {
    i + |alt| <= |s| && forall j :: 0 <= j < |alt| ==> ClassMatches(alt[j], s[i + j])
  }

  /** `re.match` of the pieces from the `k`th on at position `i` of `s`: the
      texts the groups captured and where the match ends. A group tries its
      alternatives in order, and when the rest of the pattern fails after
      one the engine backtracks to the next; `\s+` takes the longest run of
      blanks first. */
  function Match(ps: seq<Piece>, k: nat, s: string, i: nat): (r: Option<(seq<string>, nat)>)
    requires k <= |ps| && i <= |s|
    ensures r.Some? ==> i + MinFrom(ps, k) <= r.value.1 <= |s| && |r.value.0| == GroupsFrom(ps, k)
    ensures r.Some? && NoBlanksFrom(ps, k) ==> r.value.1 <= i + MaxFrom(ps, k)
    decreases |ps| - k, 1, 0
  {
    if k == |ps| then Some(([], i))
    else
      match ps[k]
      case Literal(c) =>
        if i < |s| && s[i] == c then Match(ps, k + 1, s, i + 1) else None
      case Group(alts) =>
        assert alts[0..] == alts;
        MatchAlts(alts, 0, ps, k + 1, s, i)
      case Blanks =>
        MatchBlanks(SpaceRun(s, i), ps, k + 1, s, i)
  }

  /** A group's alternatives from the `a`th on, each followed by the pieces
      from the `next`th on. */
  function MatchAlts(alts: seq<seq<Class>>, a: nat, ps: seq<Piece>, next: nat, s: string, i: nat): (r: Option<(seq<string>, nat)>)
    requires i <= |s| && a <= |alts| && next <= |ps|
    ensures r.Some? ==> i + MinLen(alts[a..]) + MinFrom(ps, next) <= r.value.1 <= |s| && |r.value.0| == GroupsFrom(ps, next) + 1
    ensures r.Some? && NoBlanksFrom(ps, next) ==> r.value.1 <= i + MaxLen(alts[a..]) + MaxFrom(ps, next)
    decreases |ps| - next + 1, 0, |alts| - a
  {
    if a == |alts| then None
    else
      assert alts[a..][0] == alts[a] && alts[a..][1..] == alts[a + 1..];
      if AltAt(alts[a], s, i) then
        match Match(ps, next, s, i + |alts[a]|)
        case Some((caps, e)) => Some(([s[i..i + |alts[a]|]] + caps, e))
        case None => MatchAlts(alts, a + 1, ps, next, s, i)
      else MatchAlts(alts, a + 1, ps, next, s, i)
  }

  /** `\s+` over a run of `n` blanks: the whole run first, then one fewer. */
  function MatchBlanks(n: nat, ps: seq<Piece>, next: nat, s: string, i: nat): (r: Option<(seq<string>, nat)>)
    requires i + n <= |s| && next <= |ps|
    ensures r.Some? ==> i + 1 + MinFrom(ps, next) <= r.value.1 <= |s| && |r.value.0| == GroupsFrom(ps, next)
    decreases |ps| - next + 1, 0, n
  {
    if n == 0 then None
    else
      match Match(ps, next, s, i + n)
      case Some(m) => Some(m)
      case None => MatchBlanks(n - 1, ps, next, s, i)
  }

  /** `int(t)` of a captured field: its digits, after the blank the day's
      ' [1-9]' alternative starts with. Every alternative captures digits,
      so the final 0 is never reached. */
  function FieldValue(t: string): nat
  {
    var d := if t != [] && t[0] == ' ' then t[1..] else t;
    if AllDigits(d) then DigitsValue(d) else 0
  }

  /** The timestamp the captured fields name; a layout without a date takes
      strptime's default, 1900-01-01, and one without a time is midnight. */
  function Fields(layout: Layout, caps: seq<string>): DateTime
    requires |caps| == if layout == DateAndTime then 6 else 3
  {
    match layout
    case YearMonthDay => DateTime(FieldValue(caps[0]), FieldValue(caps[1]), FieldValue(caps[2]), 0, 0, 0)
    case HourMinuteSecond => DateTime(1900, 1, 1, FieldValue(caps[0]), FieldValue(caps[1]), FieldValue(caps[2]))
    case DateAndTime =>
      DateTime(FieldValue(caps[0]), FieldValue(caps[1]), FieldValue(caps[2]),
        FieldValue(caps[3]), FieldValue(caps[4]), FieldValue(caps[5]))
  }

  /** `datetime.strptime(s, format)`, None where it raises ValueError: the
      text does not match, text remains after the match, or the fields name
      no real date or time. A text it reads is at least as long as the
      shortest match, and at most as long as the longest when the format
      has no whitespace. */
  function Strptime(s: string, layout: Layout): (r: Option<DateTime>)
    ensures r.Some? ==> Valid(r.value)
    ensures r.Some? && layout == YearMonthDay ==> r.value.hour == 0 && r.value.minute == 0 && r.value.second == 0
    ensures r.Some? && layout == HourMinuteSecond ==> r.value.year == 1900 && r.value.month == 1 && r.value.day == 1
    ensures r.Some? ==> MinFrom(Pieces(layout), 0) <= |s|
    ensures r.Some? && NoBlanksFrom(Pieces(layout), 0) ==> |s| <= MaxFrom(Pieces(layout), 0)
  {
    LayoutGroups(layout);
    Finish(layout, Match(Pieces(layout), 0, s, 0), |s|)
  }

  /** What strptime does with the regex match `m` on a text of length `n`:
      refuse a failed match or one that leaves text over, else build the
      timestamp when it exists. */
  function Finish(layout: Layout, m: Option<(seq<string>, nat)>, n: nat): (r: Option<DateTime>)
    requires m.Some? ==> |m.value.0| == if layout == DateAndTime then 6 else 3
    ensures r.Some? ==> m.Some? && m.value.1 == n && Valid(r.value) && r.value == Fields(layout, m.value.0)
  {
    match m
    case None => None
    case Some((caps, e)) =>
      if e != n then None
      else
        var dt := Fields(layout, caps);
        if Valid(dt) then Some(dt) else None
  }

  /** `datetime.strptime(s, '%Y%m%d')`: midnight of the day read, from six
      to eight characters. */
  function ParseYmd(s: string): (r: Option<DateTime>)
    ensures r.Some? ==> Valid(r.value) && r.value.hour == 0 && r.value.minute == 0 && r.value.second == 0
    ensures r.Some? ==> 6 <= |s| <= 8
  {
    LayoutWidths();
    Strptime(s, YearMonthDay)
  }

  /** `datetime.strptime(s, '%H:%M:%S')`: the date is strptime's default,
      1900-01-01; five to eight characters. */
  function ParseHms(s: string): (r: Option<DateTime>)
    ensures r.Some? ==> Valid(r.value) && r.value.year == 1900 && r.value.month == 1 && r.value.day == 1
    ensures r.Some? ==> 5 <= |s| <= 8
  {
    LayoutWidths();
    Strptime(s, HourMinuteSecond)
  }

  /** `datetime.strptime(s, '%Y-%m-%d %H:%M:%S')`: at least fourteen
      characters, the blank in the middle standing for any run of
      whitespace. */
  function ParseIso(s: string): (r: Option<DateTime>)
    ensures r.Some? ==> Valid(r.value) && 14 <= |s|
  {
    LayoutWidths();
    Strptime(s, DateAndTime)
  }

  /** The shortest and longest text each directive's group reads. */
  lemma GroupWidths()
    ensures PieceMin(YearGroup()) == 4 && PieceMax(YearGroup()) == 4
    ensures PieceMin(MonthGroup()) == 1 && PieceMax(MonthGroup()) == 2
    ensures PieceMin(DayGroup()) == 1 && PieceMax(DayGroup()) == 2
    ensures PieceMin(HourGroup()) == 1 && PieceMax(HourGroup()) == 2
    ensures PieceMin(MinuteGroup()) == 1 && PieceMax(MinuteGroup()) == 2
    ensures PieceMin(SecondGroup()) == 1 && PieceMax(SecondGroup()) == 2
  {
    var d := DayGroup().alts;
    assert d[1..][1..][1..] == [d[3], d[4]];
    assert d[1..][1..][1..][1..] == [d[4]];
  }

  /** The groups each layout captures. */
  lemma LayoutGroups(layout: Layout)
    ensures GroupsFrom(Pieces(layout), 0) == if layout == DateAndTime then 6 else 3
  {
    match layout
    case YearMonthDay => DateWidths(Pieces(layout));
    case HourMinuteSecond => TimeWidths(Pieces(layout), 0);
    case DateAndTime => StampWidths(Pieces(layout));
  }

  /** What each layout reads: '%Y%m%d' 6 to 8 characters, '%H:%M:%S' 5 to
      8, '%Y-%m-%d %H:%M:%S' at least 14; three, three and six groups. */
  lemma LayoutWidths()
    ensures MinFrom(Pieces(YearMonthDay), 0) == 6 && MaxFrom(Pieces(YearMonthDay), 0) == 8
    ensures NoBlanksFrom(Pieces(YearMonthDay), 0) && GroupsFrom(Pieces(YearMonthDay), 0) == 3
    ensures MaxFrom(Pieces(YearMonthDay), 2) == 2 && NoBlanksFrom(Pieces(YearMonthDay), 2)
    ensures MinFrom(Pieces(HourMinuteSecond), 0) == 5 && MaxFrom(Pieces(HourMinuteSecond), 0) == 8
    ensures NoBlanksFrom(Pieces(HourMinuteSecond), 0) && GroupsFrom(Pieces(HourMinuteSecond), 0) == 3
    ensures MinFrom(Pieces(DateAndTime), 0) == 14 && !NoBlanksFrom(Pieces(DateAndTime), 0)
    ensures GroupsFrom(Pieces(DateAndTime), 0) == 6
  {
    DateWidths(Pieces(YearMonthDay));
    TimeWidths(Pieces(HourMinuteSecond), 0);
    StampWidths(Pieces(DateAndTime));
  }

  lemma DateWidths(ps: seq<Piece>)
    requires ps == [YearGroup(), MonthGroup(), DayGroup()]
    ensures MinFrom(ps, 0) == 6 && MaxFrom(ps, 0) == 8 && GroupsFrom(ps, 0) == 3
    ensures MaxFrom(ps, 2) == 2 && NoBlanksFrom(ps, 0) && NoBlanksFrom(ps, 2)
  {
    GroupWidths();
    assert MinFrom(ps, 3) == 0 && MaxFrom(ps, 3) == 0 && GroupsFrom(ps, 3) == 0;
    assert MinFrom(ps, 2) == 1 && MaxFrom(ps, 2) == 2 && GroupsFrom(ps, 2) == 1;
    assert MinFrom(ps, 1) == 2 && MaxFrom(ps, 1) == 4 && GroupsFrom(ps, 1) == 2;
  }

  lemma TimeWidths(ps: seq<Piece>, k: nat)
    requires k + 5 == |ps| && ps[k..] == [HourGroup(), Literal(':'), MinuteGroup(), Literal(':'), SecondGroup()]
    ensures MinFrom(ps, k) == 5 && MaxFrom(ps, k) == 8 && GroupsFrom(ps, k) == 3 && NoBlanksFrom(ps, k)
  {
    GroupWidths();
    assert ps[k] == ps[k..][0] && ps[k + 1] == ps[k..][1] && ps[k + 2] == ps[k..][2];
    assert ps[k + 3] == ps[k..][3] && ps[k + 4] == ps[k..][4];
    assert MinFrom(ps, k + 5) == 0 && MaxFrom(ps, k + 5) == 0 && GroupsFrom(ps, k + 5) == 0;
    assert MinFrom(ps, k + 4) == 1 && MaxFrom(ps, k + 4) == 2 && GroupsFrom(ps, k + 4) == 1;
    assert MinFrom(ps, k + 3) == 2 && MaxFrom(ps, k + 3) == 3 && GroupsFrom(ps, k + 3) == 1;
    assert MinFrom(ps, k + 2) == 3 && MaxFrom(ps, k + 2) == 5 && GroupsFrom(ps, k + 2) == 2;
    assert MinFrom(ps, k + 1) == 4 && MaxFrom(ps, k + 1) == 6 && GroupsFrom(ps, k + 1) == 2;
  }

  lemma StampWidths(ps: seq<Piece>)
    requires ps == Pieces(DateAndTime)
    ensures MinFrom(ps, 0) == 14 && !NoBlanksFrom(ps, 0) && GroupsFrom(ps, 0) == 6
  {
    GroupWidths();
    TimeWidths(ps, 6);
    assert ps[5].Blanks?;
    assert MinFrom(ps, 5) == 6 && GroupsFrom(ps, 5) == 3;
    assert MinFrom(ps, 4) == 7 && GroupsFrom(ps, 4) == 4;
    assert MinFrom(ps, 3) == 8 && GroupsFrom(ps, 3) == 4;
    assert MinFrom(ps, 2) == 9 && GroupsFrom(ps, 2) == 5;
    assert MinFrom(ps, 1) == 10 && GroupsFrom(ps, 1) == 5;
  }

  // ------------------------------------------------ reading written fields

  /** The engine takes alternative `j` when it is the first that fits and
      the rest of the pattern matches after it. */
  lemma {:induction false} TakesAlt(alts: seq<seq<Class>>, a: nat, j: nat, ps: seq<Piece>, next: nat, s: string, i: nat)
    requires i <= |s| && a <= j < |alts| && next <= |ps| && AltAt(alts[j], s, i)
    requires forall l :: a <= l < j ==> !AltAt(alts[l], s, i)
    requires Match(ps, next, s, i + |alts[j]|).Some?
    ensures MatchAlts(alts, a, ps, next, s, i) ==
      Some(([s[i..i + |alts[j]|]] + Match(ps, next, s, i + |alts[j]|).value.0, Match(ps, next, s, i + |alts[j]|).value.1))
    decreases j - a
  {
    if a < j {
      TakesAlt(alts, a + 1, j, ps, next, s, i);
    }
  }

  /** The alternative `j` of a group that is the first to fit at `i`. */
  predicate FirstFit(g: seq<seq<Class>>, s: string, i: nat, j: nat)
  {
    j < |g| && AltAt(g[j], s, i) && forall l :: 0 <= l < j ==> !AltAt(g[l], s, i)
  }

  /** A group whose first fitting alternative is `j` captures its text, and
      the rest of the pattern goes on after it. */
  lemma ReadsGroup(ps: seq<Piece>, k: nat, s: string, i: nat, j: nat)
    requires k < |ps| && i <= |s| && ps[k].Group? && FirstFit(ps[k].alts, s, i, j)
    requires Match(ps, k + 1, s, i + |ps[k].alts[j]|).Some?
    ensures Match(ps, k, s, i) ==
      Some(([s[i..i + |ps[k].alts[j]|]] + Match(ps, k + 1, s, i + |ps[k].alts[j]|).value.0,
            Match(ps, k + 1, s, i + |ps[k].alts[j]|).value.1))
  {
    TakesAlt(ps[k].alts, 0, j, ps, k + 1, s, i);
  }

  /** A literal of the format consumes the same character of the text. */
  lemma ReadsLiteral(ps: seq<Piece>, k: nat, s: string, i: nat)
    requires k < |ps| && ps[k].Literal? && i < |s| && s[i] == ps[k].c
    ensures Match(ps, k, s, i) == Match(ps, k + 1, s, i + 1)
  {
  }

  /** The two characters `'%02d'` writes for `n`. */
  predicate TwoDigitsAt(s: string, i: nat, n: nat)
    requires n < 100
  {
    i + 2 <= |s| && s[i] == DigitChar(n / 10) && s[i + 1] == DigitChar(n % 10)
  }

  /** A number written `'%02d'` at `i` is two digits there, and reads back. */
  lemma PaddedTwo(s: string, i: nat, n: nat)
    requires n < 100 && i + 2 <= |s| && s[i..i + 2] == PadDigits(n, 2)
    ensures TwoDigitsAt(s, i, n) && FieldValue(s[i..i + 2]) == n
  {
    assert PadDigits(n / 10, 1) == [DigitChar(n / 10)];
    assert s[i..i + 2][0] == s[i] && s[i..i + 2][1] == s[i + 1];
    assert IsDigit(s[i]);
  }

  /** A year written `'%04d'` at `i` is four digits there, and reads back. */
  lemma PaddedYear(s: string, i: nat, y: nat)
    requires y <= 9999 && i + 4 <= |s| && s[i..i + 4] == PadDigits(y, 4)
    ensures AllDigits(s[i..i + 4]) && FieldValue(s[i..i + 4]) == y
  {
    assert IsDigit(s[i..i + 4][0]);
  }

  /** Two digits read back as the number they write. */
  lemma TwoValue(s: string, i: nat, n: nat)
    requires n < 100 && TwoDigitsAt(s, i, n)
    ensures FieldValue(s[i..i + 2]) == n
  {
    var t := s[i..i + 2];
    assert t[..1][..0] == [] && t[0] == s[i] && t[1] == s[i + 1];
    assert AllDigits(t);
    assert DigitsValue(t[..1]) == n / 10;
    assert DigitsValue(t) == DigitsValue(t[..1]) * 10 + n % 10;
  }

  /** One digit, or a zero and a digit, read back as that digit. */
  lemma OneDigitValue(s: string, i: nat)
    requires i < |s| && '1' <= s[i] <= '9'
    ensures FieldValue(s[i..i + 1]) == DigitValue(s[i])
  {
    var t := s[i..i + 1];
    assert t[..0] == [] && t[0] == s[i];
    assert AllDigits(t);
    assert DigitsValue(t) == DigitsValue(t[..0]) * 10 + DigitValue(s[i]);
  }

  lemma ZeroDigitValue(s: string, i: nat)
    requires i + 2 <= |s| && s[i] == '0' && '1' <= s[i + 1] <= '9'
    ensures FieldValue(s[i..i + 2]) == DigitValue(s[i + 1])
  {
    var t := s[i..i + 2];
    assert t[..1][..0] == [] && t[0] == s[i] && t[1] == s[i + 1];
    assert AllDigits(t);
    assert DigitsValue(t[..1]) == 0;
    assert DigitsValue(t) == DigitsValue(t[..1]) * 10 + DigitValue(s[i + 1]);
  }

  /** The two-digit directives, with the numbers each can be written with. */
  datatype Field = MonthField | DayField | HourField | MinuteField | SecondField

  function FieldGroup(f: Field): Piece
  {
    match f
    case MonthField => MonthGroup()
    case DayField => DayGroup()
    case HourField => HourGroup()
    case MinuteField => MinuteGroup()
    case SecondField => SecondGroup()
  }

  predicate InRange(f: Field, n: nat)
  {
    match f
    case MonthField => 1 <= n <= 12
    case DayField => 1 <= n <= 31
    case HourField => n <= 23
    case MinuteField => n <= 59
    case SecondField => n <= 59
  }

  lemma MonthAlt(g: seq<seq<Class>>, s: string, i: nat, n: nat) returns (j: nat)
    requires g == MonthGroup().alts && 1 <= n <= 12 && TwoDigitsAt(s, i, n)
    ensures FirstFit(g, s, i, j) && |g[j]| == 2
  {
    j := if n >= 10 then 0 else 1;
    assert j == 1 ==> !ClassMatches(g[0][0], s[i]);
  }

  lemma DayAlt(g: seq<seq<Class>>, s: string, i: nat, n: nat) returns (j: nat)
    requires g == DayGroup().alts && 1 <= n <= 31 && TwoDigitsAt(s, i, n)
    ensures FirstFit(g, s, i, j) && |g[j]| == 2
  {
    j := if n >= 30 then 0 else if n >= 10 then 1 else 2;
    assert j >= 1 ==> !ClassMatches(g[0][0], s[i]);
    assert j == 2 ==> !ClassMatches(g[1][0], s[i]);
  }

  lemma HourAlt(g: seq<seq<Class>>, s: string, i: nat, n: nat) returns (j: nat)
    requires g == HourGroup().alts && n <= 23 && TwoDigitsAt(s, i, n)
    ensures FirstFit(g, s, i, j) && |g[j]| == 2
  {
    j := if n >= 20 then 0 else 1;
    assert j == 1 ==> !ClassMatches(g[0][0], s[i]);
  }

  lemma MinuteAlt(g: seq<seq<Class>>, s: string, i: nat, n: nat) returns (j: nat)
    requires g == MinuteGroup().alts && n <= 59 && TwoDigitsAt(s, i, n)
    ensures FirstFit(g, s, i, j) && |g[j]| == 2
  {
    j := 0;
  }

  lemma SecondAlt(g: seq<seq<Class>>, s: string, i: nat, n: nat) returns (j: nat)
    requires g == SecondGroup().alts && n <= 59 && TwoDigitsAt(s, i, n)
    ensures FirstFit(g, s, i, j) && |g[j]| == 2
  {
    j := 1;
    assert !ClassMatches(g[0][0], s[i]);
  }

  /** The alternative of a two-digit directive that reads `n` written
      `'%02d'`. */
  lemma PaddedAlt(f: Field, g: seq<seq<Class>>, s: string, i: nat, n: nat) returns (j: nat)
    requires g == FieldGroup(f).alts && InRange(f, n) && TwoDigitsAt(s, i, n)
    ensures FirstFit(g, s, i, j) && |g[j]| == 2
  {
    match f
    case MonthField => j := MonthAlt(g, s, i, n);
    case DayField => j := DayAlt(g, s, i, n);
    case HourField => j := HourAlt(g, s, i, n);
    case MinuteField => j := MinuteAlt(g, s, i, n);
    case SecondField => j := SecondAlt(g, s, i, n);
  }

  /** Reading a field written `'%02d'` at `i` when the rest of the pattern
      matches after it. */
  lemma ReadsPadded(f: Field, ps: seq<Piece>, k: nat, s: string, i: nat, n: nat)
    requires k < |ps| && ps[k] == FieldGroup(f) && InRange(f, n) && TwoDigitsAt(s, i, n)
    requires Match(ps, k + 1, s, i + 2).Some?
    ensures Match(ps, k, s, i) == Some(([s[i..i + 2]] + Match(ps, k + 1, s, i + 2).value.0, Match(ps, k + 1, s, i + 2).value.1))
  {
    var j := PaddedAlt(f, ps[k].alts, s, i, n);
    ReadsGroup(ps, k, s, i, j);
  }

  /** Reading a year of four digits at `i`. */
  lemma ReadsYear(ps: seq<Piece>, k: nat, s: string, i: nat)
    requires k < |ps| && ps[k] == YearGroup()
    requires i + 4 <= |s| && AllDigits(s[i..i + 4])
    requires Match(ps, k + 1, s, i + 4).Some?
    ensures Match(ps, k, s, i) == Some(([s[i..i + 4]] + Match(ps, k + 1, s, i + 4).value.0, Match(ps, k + 1, s, i + 4).value.1))
  {
    var alt := ps[k].alts[0];
    assert AltAt(alt, s, i) by {
      forall j | 0 <= j < 4 ensures ClassMatches(alt[j], s[i + j]) {
        assert s[i + j] == s[i..i + 4][j];
      }
    }
    ReadsGroup(ps, k, s, i, 0);
  }

  // ------------------------------------------------- the compiled layouts

  /** '%H:%M:%S' as the last five pieces from the `k`th on. */
  predicate TimeShape(ps: seq<Piece>, k: nat)
  {
    k + 5 == |ps| && ps[k] == FieldGroup(HourField) && ps[k + 1] == Literal(':') && ps[k + 2] == FieldGroup(MinuteField)
    && ps[k + 3] == Literal(':') && ps[k + 4] == FieldGroup(SecondField)
  }

  /** '%Y%m%d'. */
  predicate DateShape(ps: seq<Piece>)
  {
    |ps| == 3 && ps[0] == YearGroup() && ps[1] == FieldGroup(MonthField) && ps[2] == FieldGroup(DayField)
  }

  /** '%Y-%m-%d %H:%M:%S'. */
  predicate StampShape(ps: seq<Piece>)
  {
    |ps| == 11 && ps[0] == YearGroup() && ps[1] == Literal('-') && ps[2] == FieldGroup(MonthField)
    && ps[3] == Literal('-') && ps[4] == FieldGroup(DayField) && ps[5] == Blanks && TimeShape(ps, 6)
  }

  lemma Shapes()
    ensures DateShape(Pieces(YearMonthDay)) && TimeShape(Pieces(HourMinuteSecond), 0) && StampShape(Pieces(DateAndTime))
  {
  }

  /** A time of day written '%H:%M:%S' at the end of the text matches the
      time pieces and captures the three fields. */
  lemma ReadsTime(ps: seq<Piece>, k: nat, s: string, i: nat, h: nat, mi: nat, se: nat)
    requires TimeShape(ps, k) && ValidTime(h, mi, se) && i + 8 == |s|
    requires TwoDigitsAt(s, i, h) && s[i + 2] == ':' && TwoDigitsAt(s, i + 3, mi) && s[i + 5] == ':'
    requires TwoDigitsAt(s, i + 6, se)
    ensures Match(ps, k, s, i) == Some(([s[i..i + 2], s[i + 3..i + 5], s[i + 6..i + 8]], |s|))
  {
    assert Match(ps, k + 5, s, i + 8) == Some(([], i + 8));
    ReadsPadded(SecondField, ps, k + 4, s, i + 6, se);
    assert [s[i + 6..i + 8]] + [] == [s[i + 6..i + 8]];
    ReadsLiteral(ps, k + 3, s, i + 5);
    ReadsPadded(MinuteField, ps, k + 2, s, i + 3, mi);
    assert [s[i + 3..i + 5]] + [s[i + 6..i + 8]] == [s[i + 3..i + 5], s[i + 6..i + 8]];
    ReadsLiteral(ps, k + 1, s, i + 2);
    ReadsPadded(HourField, ps, k, s, i, h);
    assert [s[i..i + 2]] + [s[i + 3..i + 5], s[i + 6..i + 8]] == [s[i..i + 2], s[i + 3..i + 5], s[i + 6..i + 8]];
  }

  /** A day written '%Y%m%d' matches the date pieces. */
  lemma ReadsDate(ps: seq<Piece>, s: string, m: nat, d: nat)
    requires DateShape(ps) && 1 <= m <= 12 && 1 <= d <= 31 && |s| == 8
    requires AllDigits(s[..4]) && TwoDigitsAt(s, 4, m) && TwoDigitsAt(s, 6, d)
    ensures Match(ps, 0, s, 0) == Some(([s[..4], s[4..6], s[6..8]], 8))
  {
    assert Match(ps, 3, s, 8) == Some(([], 8));
    ReadsPadded(DayField, ps, 2, s, 6, d);
    assert [s[6..8]] + [] == [s[6..8]];
    ReadsPadded(MonthField, ps, 1, s, 4, m);
    assert [s[4..6]] + [s[6..8]] == [s[4..6], s[6..8]];
    assert s[..4] == s[0..4];
    ReadsYear(ps, 0, s, 0);
    assert [s[..4]] + [s[4..6], s[6..8]] == [s[..4], s[4..6], s[6..8]];
  }

  /** The date half of '%Y-%m-%d %H:%M:%S', followed by text the rest of
      the pieces match. */
  lemma ReadsStampDate(ps: seq<Piece>, s: string, m: nat, d: nat)
    requires |ps| == 11 && ps[0] == YearGroup() && ps[1] == Literal('-')
    requires ps[2] == FieldGroup(MonthField) && ps[3] == Literal('-') && ps[4] == FieldGroup(DayField)
    requires 1 <= m <= 12 && 1 <= d <= 31 && 10 <= |s|
    requires AllDigits(s[..4]) && s[4] == '-' && TwoDigitsAt(s, 5, m) && s[7] == '-' && TwoDigitsAt(s, 8, d)
    requires Match(ps, 5, s, 10).Some?
    ensures Match(ps, 0, s, 0) == Some(([s[..4], s[5..7], s[8..10]] + Match(ps, 5, s, 10).value.0, Match(ps, 5, s, 10).value.1))
  {
    var tail := Match(ps, 5, s, 10).value;
    ReadsStampMonthDay(ps, s, m, d);
    ReadsLiteral(ps, 1, s, 4);
    assert s[..4] == s[0..4];
    ReadsYear(ps, 0, s, 0);
    ConsThree(s[..4], s[5..7], s[8..10], tail.0);
  }

  lemma ReadsStampMonthDay(ps: seq<Piece>, s: string, m: nat, d: nat)
    requires |ps| == 11 && ps[2] == FieldGroup(MonthField) && ps[3] == Literal('-') && ps[4] == FieldGroup(DayField) && 1 <= m <= 12 && 1 <= d <= 31 && 10 <= |s|
    requires TwoDigitsAt(s, 5, m) && s[7] == '-' && TwoDigitsAt(s, 8, d)
    requires Match(ps, 5, s, 10).Some?
    ensures Match(ps, 2, s, 5) == Some(([s[5..7], s[8..10]] + Match(ps, 5, s, 10).value.0, Match(ps, 5, s, 10).value.1))
  {
    var tail := Match(ps, 5, s, 10).value;
    ReadsPadded(DayField, ps, 4, s, 8, d);
    ReadsPaddedThen(MonthField, ps, 2, s, 5, m);
    ConsTwo(s[5..7], s[8..10], tail.0);
  }

  /** Captures prepended one at a time. */
  lemma ConsTwo(a: string, b: string, t: seq<string>)
    ensures [a] + ([b] + t) == [a, b] + t
  {
    assert [a, b] == [a] + [b];
  }

  lemma ConsThree(a: string, b: string, c: string, t: seq<string>)
    ensures [a] + ([b, c] + t) == [a, b, c] + t
  {
    assert [a, b, c] == [a] + [b, c];
  }

  /** A field written `'%02d'` and the literal after it. */
  lemma ReadsPaddedThen(f: Field, ps: seq<Piece>, k: nat, s: string, i: nat, n: nat)
    requires k + 1 < |ps| && ps[k] == FieldGroup(f) && ps[k + 1].Literal? && InRange(f, n) && TwoDigitsAt(s, i, n)
    requires i + 2 < |s| && s[i + 2] == ps[k + 1].c && Match(ps, k + 2, s, i + 3).Some?
    ensures Match(ps, k, s, i) == Some(([s[i..i + 2]] + Match(ps, k + 2, s, i + 3).value.0, Match(ps, k + 2, s, i + 3).value.1))
  {
    ReadsLiteral(ps, k + 1, s, i + 2);
    ReadsPadded(f, ps, k, s, i, n);
  }

  /** `\s+` before a time of day written '%H:%M:%S' at the end of the text
      takes the one blank that `strftime` writes. */
  lemma ReadsBlankTime(ps: seq<Piece>, s: string, h: nat, mi: nat, se: nat)
    requires StampShape(ps) && ValidTime(h, mi, se) && |s| == 19
    requires IsSpace(s[10]) && TwoDigitsAt(s, 11, h) && s[13] == ':' && TwoDigitsAt(s, 14, mi) && s[16] == ':'
    requires TwoDigitsAt(s, 17, se)
    ensures Match(ps, 5, s, 10) == Some(([s[11..13], s[14..16], s[17..19]], 19))
  {
    ReadsTime(ps, 6, s, 11, h, mi, se);
    SpaceExact(s, 10, 1);
  }

  /** A text the whole pattern matches is read as the timestamp its fields
      name, when that exists. */
  lemma StrptimeOf(layout: Layout, s: string, caps: seq<string>)
    requires Match(Pieces(layout), 0, s, 0) == Some((caps, |s|))
    requires |caps| == if layout == DateAndTime then 6 else 3
    ensures Strptime(s, layout) == if Valid(Fields(layout, caps)) then Some(Fields(layout, caps)) else None
  {
    MatchFinishes(layout, s, caps);
    FinishBuilds(layout, caps, |s|);
  }

  lemma MatchFinishes(layout: Layout, s: string, caps: seq<string>)
    requires Match(Pieces(layout), 0, s, 0) == Some((caps, |s|))
    requires |caps| == if layout == DateAndTime then 6 else 3
    ensures Strptime(s, layout) == Finish(layout, Some((caps, |s|)), |s|)
  {
    LayoutGroups(layout);
  }

  /** A match that takes the whole text is read as its fields' timestamp,
      when that exists. */
  lemma FinishBuilds(layout: Layout, caps: seq<string>, n: nat)
    requires |caps| == if layout == DateAndTime then 6 else 3
    ensures Finish(layout, Some((caps, n)), n) == if Valid(Fields(layout, caps)) then Some(Fields(layout, caps)) else None
  {
  }

  // ------------------------------------------------------------ strftime

  /** `dt.strftime('%Y-%m-%d %H:%M:%S')`, which is also `str(dt)`. */
  function FormatIso(dt: DateTime): (s: string)
    requires Valid(dt)
    ensures |s| == 19
  {
    PadDigits(dt.year, 4) + "-" + PadDigits(dt.month, 2) + "-" + PadDigits(dt.day, 2) + " "
      + PadDigits(dt.hour, 2) + ":" + PadDigits(dt.minute, 2) + ":" + PadDigits(dt.second, 2)
  }

  /** `dt.strftime('%Y%m%d_%H%M%S')`. */
  function FormatStamp(dt: DateTime): (s: string)
    requires Valid(dt)
    ensures |s| == 15
  {
    PadDigits(dt.year, 4) + PadDigits(dt.month, 2) + PadDigits(dt.day, 2) + "_"
      + PadDigits(dt.hour, 2) + PadDigits(dt.minute, 2) + PadDigits(dt.second, 2)
  }

  /** Formatting a valid timestamp and parsing it back gives the timestamp. */
  /** The characters of `dt` written '%Y-%m-%d %H:%M:%S'. */
  predicate IsoText(s: string, dt: DateTime)
    requires Valid(dt)
  {
    |s| == 19 && AllDigits(s[..4]) && s[4] == '-' && TwoDigitsAt(s, 5, dt.month) && s[7] == '-'
    && TwoDigitsAt(s, 8, dt.day) && s[10] == ' ' && TwoDigitsAt(s, 11, dt.hour) && s[13] == ':'
    && TwoDigitsAt(s, 14, dt.minute) && s[16] == ':' && TwoDigitsAt(s, 17, dt.second)
  }

  /** The numbers those characters stand for. */
  predicate IsoValues(s: string, dt: DateTime)
    requires |s| == 19
  {
    FieldValue(s[..4]) == dt.year && FieldValue(s[5..7]) == dt.month && FieldValue(s[8..10]) == dt.day
    && FieldValue(s[11..13]) == dt.hour && FieldValue(s[14..16]) == dt.minute && FieldValue(s[17..19]) == dt.second
  }

  lemma FormatIsoDate(dt: DateTime)
    requires Valid(dt)
    ensures var s := FormatIso(dt);
      AllDigits(s[..4]) && FieldValue(s[..4]) == dt.year && s[4] == '-'
      && TwoDigitsAt(s, 5, dt.month) && FieldValue(s[5..7]) == dt.month && s[7] == '-'
      && TwoDigitsAt(s, 8, dt.day) && FieldValue(s[8..10]) == dt.day && s[10] == ' '
  {
    var s := FormatIso(dt);
    assert s[0..4] == PadDigits(dt.year, 4) && s[4] == '-';
    assert s[5..7] == PadDigits(dt.month, 2) && s[7] == '-';
    assert s[8..10] == PadDigits(dt.day, 2) && s[10] == ' ';
    PaddedYear(s, 0, dt.year);
    PaddedTwo(s, 5, dt.month);
    PaddedTwo(s, 8, dt.day);
    assert s[..4] == s[0..4];
  }

  lemma FormatIsoTime(dt: DateTime)
    requires Valid(dt)
    ensures var s := FormatIso(dt);
      TwoDigitsAt(s, 11, dt.hour) && FieldValue(s[11..13]) == dt.hour && s[13] == ':'
      && TwoDigitsAt(s, 14, dt.minute) && FieldValue(s[14..16]) == dt.minute && s[16] == ':'
      && TwoDigitsAt(s, 17, dt.second) && FieldValue(s[17..19]) == dt.second
  {
    var s := FormatIso(dt);
    assert s[11..13] == PadDigits(dt.hour, 2) && s[13] == ':';
    assert s[14..16] == PadDigits(dt.minute, 2) && s[16] == ':';
    assert s[17..19] == PadDigits(dt.second, 2);
    PaddedTwo(s, 11, dt.hour);
    PaddedTwo(s, 14, dt.minute);
    PaddedTwo(s, 17, dt.second);
  }

  /** The whole of '%Y-%m-%d %H:%M:%S' matches a text holding the characters
      of `dt`, capturing its six fields. */
  lemma ReadsStamp(ps: seq<Piece>, s: string, dt: DateTime)
    requires Valid(dt) && IsoText(s, dt) && StampShape(ps)
    ensures Match(ps, 0, s, 0) == Some(([s[..4], s[5..7], s[8..10], s[11..13], s[14..16], s[17..19]], 19))
  {
    ReadsBlankTime(ps, s, dt.hour, dt.minute, dt.second);
    ReadsStampDate(ps, s, dt.month, dt.day);
    assert [s[..4], s[5..7], s[8..10]] + [s[11..13], s[14..16], s[17..19]] == [s[..4], s[5..7], s[8..10], s[11..13], s[14..16], s[17..19]];
  }

  /** A text holding the characters of `dt` is read as `dt`. */
  lemma ReadsIso(s: string, dt: DateTime)
    requires Valid(dt) && IsoText(s, dt) && IsoValues(s, dt)
    ensures ParseIso(s) == Some(dt)
  {
    Shapes();
    ReadsStamp(Pieces(DateAndTime), s, dt);
    StrptimeOf(DateAndTime, s, [s[..4], s[5..7], s[8..10], s[11..13], s[14..16], s[17..19]]);
  }

  /** Every timestamp written '%Y-%m-%d %H:%M:%S' reads back. */
  lemma ParseIsoFormatIso(dt: DateTime)
    requires Valid(dt)
    ensures ParseIso(FormatIso(dt)) == Some(dt)
  {
    FormatIsoDate(dt);
    FormatIsoTime(dt);
    ReadsIso(FormatIso(dt), dt);
  }

  /** `dt.strftime('%Y%m%d')`, read back by the compact layout. */
  function FormatYmd(dt: DateTime): (s: string)
    requires Valid(dt)
    ensures |s| == 8
  {
    PadDigits(dt.year, 4) + PadDigits(dt.month, 2) + PadDigits(dt.day, 2)
  }

  /** Every day written '%Y%m%d' reads back, at midnight. */
  lemma ParseYmdFormatYmd(dt: DateTime)
    requires Valid(dt) && dt.hour == 0 && dt.minute == 0 && dt.second == 0
    ensures ParseYmd(FormatYmd(dt)) == Some(dt)
  {
    var s := FormatYmd(dt);
    assert s[0..4] == PadDigits(dt.year, 4);
    assert s[4..6] == PadDigits(dt.month, 2);
    assert s[6..8] == PadDigits(dt.day, 2);
    PaddedYear(s, 0, dt.year);
    PaddedTwo(s, 4, dt.month);
    PaddedTwo(s, 6, dt.day);
    ReadsEightDigits(s, dt.month, dt.day);
  }

  /** Eight digits whose middle two name a month and whose last two a day
      number are read as that date when it exists, and refused otherwise. */
  lemma ReadsEightDigits(s: string, m: nat, d: nat)
    requires |s| == 8 && AllDigits(s[..4]) && 1 <= m <= 12 && 1 <= d <= 31
    requires TwoDigitsAt(s, 4, m) && TwoDigitsAt(s, 6, d)
    ensures ParseYmd(s) == if ValidDate(FieldValue(s[..4]), m, d) then Some(DateTime(FieldValue(s[..4]), m, d, 0, 0, 0)) else None
  {
    YmdEight(s, m, d);
    TwoValue(s, 4, m);
    TwoValue(s, 6, d);
  }

  lemma YmdEight(s: string, m: nat, d: nat)
    requires |s| == 8 && AllDigits(s[..4]) && 1 <= m <= 12 && 1 <= d <= 31
    requires TwoDigitsAt(s, 4, m) && TwoDigitsAt(s, 6, d)
    ensures var dt := DateTime(FieldValue(s[..4]), FieldValue(s[4..6]), FieldValue(s[6..8]), 0, 0, 0);
      ParseYmd(s) == if Valid(dt) then Some(dt) else None
  {
    Shapes();
    ReadsDate(Pieces(YearMonthDay), s, m, d);
    StrptimeOf(YearMonthDay, s, [s[..4], s[4..6], s[6..8]]);
  }

  /** Seven characters are read too: '%m' written '0m' leaves one digit,
      which '%d' takes alone, so '2025011' is the first of January 2025. */
  lemma ReadsSevenDigits(s: string)
    requires |s| == 7 && AllDigits(s[..4]) && s[4] == '0' && '1' <= s[5] <= '9' && '1' <= s[6] <= '9'
    ensures var dt := DateTime(FieldValue(s[..4]), DigitValue(s[5]), DigitValue(s[6]), 0, 0, 0);
      ParseYmd(s) == if Valid(dt) then Some(dt) else None
  {
    YmdSeven(s);
    OneDigitValue(s, 6);
    ZeroDigitValue(s, 4);
  }

  lemma YmdSeven(s: string)
    requires |s| == 7 && AllDigits(s[..4]) && s[4] == '0' && '1' <= s[5] <= '9' && '1' <= s[6] <= '9'
    ensures var dt := DateTime(FieldValue(s[..4]), FieldValue(s[4..6]), FieldValue(s[6..7]), 0, 0, 0);
      ParseYmd(s) == if Valid(dt) then Some(dt) else None
  {
    Shapes();
    MatchSevenDigits(Pieces(YearMonthDay), s);
    StrptimeOf(YearMonthDay, s, [s[..4], s[4..6], s[6..7]]);
  }

  /** '%d' at the last character, a digit 1 to 9, takes it alone. */
  lemma DayLastDigit(ps: seq<Piece>, k: nat, s: string, i: nat)
    requires k + 1 == |ps| && ps[k] == FieldGroup(DayField) && i + 1 == |s| && '1' <= s[i] <= '9'
    ensures Match(ps, k, s, i) == Some(([s[i..i + 1]], i + 1))
  {
    var day := ps[k].alts;
    assert !ClassMatches(day[2][0], s[i]);
    assert AltAt(day[3], s, i);
    assert Match(ps, k + 1, s, i + 1) == Some(([], i + 1));
    ReadsGroup(ps, k, s, i, 3);
    assert [s[i..i + 1]] + [] == [s[i..i + 1]];
  }

  lemma MatchSevenDigits(ps: seq<Piece>, s: string)
    requires DateShape(ps)
    requires |s| == 7 && AllDigits(s[..4]) && s[4] == '0' && '1' <= s[5] <= '9' && '1' <= s[6] <= '9'
    ensures Match(ps, 0, s, 0) == Some(([s[..4], s[4..6], s[6..7]], 7))
  {
    DayLastDigit(ps, 2, s, 6);
    var m := s[5] as int - '0' as int;
    assert TwoDigitsAt(s, 4, m);
    ReadsPadded(MonthField, ps, 1, s, 4, m);
    assert s[..4] == s[0..4];
    ReadsYear(ps, 0, s, 0);
    assert [s[..4]] + ([s[4..6]] + [s[6..7]]) == [s[..4], s[4..6], s[6..7]];
  }

  /** '%m' at a '1' followed by 3 to 9 takes the '1' alone. */
  lemma MonthTakesOne(ps: seq<Piece>, k: nat, s: string, i: nat)
    requires k < |ps| && ps[k] == FieldGroup(MonthField) && i + 2 <= |s| && s[i] == '1' && '3' <= s[i + 1] <= '9'
    ensures Match(ps, k, s, i) == match Match(ps, k + 1, s, i + 1)
      case None => None
      case Some((caps, e)) => Some(([s[i..i + 1]] + caps, e))
  {
    var month := ps[k].alts;
    assert !ClassMatches(month[0][1], s[i + 1]) && !ClassMatches(month[1][0], s[i]);
    assert MatchAlts(month, 0, ps, k + 1, s, i) == MatchAlts(month, 2, ps, k + 1, s, i);
    assert AltAt(month[2], s, i);
  }

  /** An eight-character text whose month digits are 13 to 19 is refused:
      '%m' takes only the '1', '%d' takes at most the next two characters,
      and the character left over is "unconverted data". */
  lemma MonthPastTwelve(s: string)
    requires |s| == 8 && AllDigits(s[..4]) && s[4] == '1' && '3' <= s[5] <= '9'
    ensures ParseYmd(s) == None
  {
    Shapes();
    LayoutWidths();
    MatchStopsShort(Pieces(YearMonthDay), s);
  }

  lemma MatchStopsShort(ps: seq<Piece>, s: string)
    requires DateShape(ps) && MaxFrom(ps, 2) == 2 && NoBlanksFrom(ps, 2)
    requires |s| == 8 && AllDigits(s[..4]) && s[4] == '1' && '3' <= s[5] <= '9'
    ensures Match(ps, 0, s, 0).None? || Match(ps, 0, s, 0).value.1 <= 7
  {
    MonthTakesOne(ps, 1, s, 4);
    if Match(ps, 1, s, 4).Some? {
      assert Match(ps, 1, s, 4).value.1 <= 7;
      assert s[..4] == s[0..4];
      ReadsYear(ps, 0, s, 0);
    }
  }

  /** `t.strftime('%H:%M:%S')` for a time of day. */
  function FormatHms(h: nat, mi: nat, se: nat): (s: string)
    requires ValidTime(h, mi, se)
    ensures |s| == 8
  {
    PadDigits(h, 2) + ":" + PadDigits(mi, 2) + ":" + PadDigits(se, 2)
  }

  /** A time of day written '%H:%M:%S' reads back on strptime's default
      date. */
  lemma ParseHmsFormatHms(h: nat, mi: nat, se: nat)
    requires ValidTime(h, mi, se)
    ensures ParseHms(FormatHms(h, mi, se)) == Some(DateTime(1900, 1, 1, h, mi, se))
  {
    var s := FormatHms(h, mi, se);
    assert s[0..2] == PadDigits(h, 2) && s[2] == ':';
    assert s[3..5] == PadDigits(mi, 2) && s[5] == ':';
    assert s[6..8] == PadDigits(se, 2);
    PaddedTwo(s, 0, h);
    PaddedTwo(s, 3, mi);
    PaddedTwo(s, 6, se);
    ReadsClock(s, h, mi, se);
  }

  /** Text holding a time of day written '%H:%M:%S' is read as that time. */
  lemma ReadsClock(s: string, h: nat, mi: nat, se: nat)
    requires ValidTime(h, mi, se) && |s| == 8
    requires TwoDigitsAt(s, 0, h) && s[2] == ':' && TwoDigitsAt(s, 3, mi) && s[5] == ':' && TwoDigitsAt(s, 6, se)
    requires FieldValue(s[0..2]) == h && FieldValue(s[3..5]) == mi && FieldValue(s[6..8]) == se
    ensures ParseHms(s) == Some(DateTime(1900, 1, 1, h, mi, se))
  {
    Shapes();
    ReadsTime(Pieces(HourMinuteSecond), 0, s, 0, h, mi, se);
    StrptimeOf(HourMinuteSecond, s, [s[0..2], s[3..5], s[6..8]]);
  }
}
