/** The parsing helpers of one_book_ledger/utils/utils.py on cell values:
    the classifier, `parse_amount`, `parse_datetime` and `parse_xls_bill`. */
module LedgerUtils {
  import opened Wrappers
  import opened Text
  import opened DateTimes
  import opened Values
  import opened Numbers
  import opened Classifier

  // ------------------------------------------- standardize_transaction_type

  /** `standardize_transaction_type(v)` on a cell or field value: only text
      has `.lower()`, so anything else raises an AttributeError. */
  function StandardizeValue(v: Value): (r: Raising<string>)
    ensures r.Ok? <==> v.Str?
    ensures r.Ok? ==> r.value != "提现" && r.value != "其他"
    ensures r.Ok? ==> (r.value == "未知类型" <==> Classify(v.s) == Unknown)
  {
    match v
    case Str(s) => Ok(StandardizeTransactionType(s))
    case _ => Raise
  }

  // ---------------------------------------------------------------- parse_amount

  /** The regex class `[\d,\.]`. */
  predicate AmountChar(c: char)
  {
    IsDigit(c) || c == ',' || c == '.'
  }

  /** The length of the greedy run `[\d,\.]*` starting at `from`. */
  function RunLength(s: string, from: nat): (n: nat)
    requires from <= |s|
    ensures from + n <= |s|
    ensures forall i :: from <= i < from + n ==> AmountChar(s[i])
    ensures from + n < |s| ==> !AmountChar(s[from + n])
    decreases |s| - from
  {
    if from < |s| && AmountChar(s[from]) then 1 + RunLength(s, from + 1) else 0
  }

  /** The run is exactly the `[\d,\.]` characters up to the first other
      character or the end. */
  lemma {:induction false} RunExact(s: string, from: nat, n: nat)
    requires from + n <= |s| && forall i :: from <= i < from + n ==> AmountChar(s[i])
    requires from + n == |s| || !AmountChar(s[from + n])
    ensures RunLength(s, from) == n
    decreases n
  {
    if n > 0 {
      RunExact(s, from + 1, n - 1);
    }
  }

  /** Group 1 of the amount regexes, `(-?[\d,\.]+(?:\.\d{2})?)`, tried at
      `from`: an optional minus and the longest nonempty run of digits,
      commas and points. The optional `\.\d{2}` tail only ever matches empty,
      because the greedy run has already taken every point and digit. */
  function CaptureAt(s: string, from: nat): (r: Option<string>)
    requires from <= |s|
    ensures r.Some? ==> r.value != [] && from + |r.value| <= |s| && r.value == s[from..from + |r.value|]
  {
    if from < |s| && s[from] == '-' && RunLength(s, from + 1) > 0 then Some(s[from..from + 1 + RunLength(s, from + 1)])
    else if RunLength(s, from) > 0 then Some(s[from..from + RunLength(s, from)])
    else None
  }

  /** A slice holds only characters of the whole. */
  lemma SliceChars(s: string, from: nat, len: nat)
    requires from + len <= |s|
    ensures forall c :: c in s[from..from + len] ==> c in s
  {
    forall c | c in s[from..from + len] ensures c in s {
      var i :| 0 <= i < len && s[from..from + len][i] == c;
      assert s[from + i] == c;
    }
  }

  /** The class `[￥¥\$]`: full-width yuan, yen and dollar signs. */
  predicate CurrencySymbol(c: char)
  {
    c == '\U{FFE5}' || c == '\U{A5}' || c == '$'
  }

  /** `re.search(r'[￥¥\$](-?[\d,\.]+(?:\.\d{2})?)', s)` from position
      `p` on: group 1 of the leftmost match, None when nothing matches. */
  function SymbolSearch(s: string, p: nat): (r: Option<string>)
    requires p <= |s|
    ensures r.Some? ==> r.value != [] && forall c :: c in r.value ==> c in s
    decreases |s| - p
  {
    if p == |s| then None
    else if CurrencySymbol(s[p]) && CaptureAt(s, p + 1).Some? then
      var g := CaptureAt(s, p + 1).value;
      SliceChars(s, p + 1, |g|);
      Some(g)
    else SymbolSearch(s, p + 1)
  }

  /** 'CNY' in any letter case at position `p`. */
  predicate CnyAt(s: string, p: nat)
  {
    p + 3 <= |s| && LowerChar(s[p]) == 'c' && LowerChar(s[p + 1]) == 'n' && LowerChar(s[p + 2]) == 'y'
  }

  /** `re.search(r'CNY\s*(-?[\d,\.]+(?:\.\d{2})?)', s, re.IGNORECASE)` from
      position `p` on: group 1 of the leftmost match. */
  function CnySearch(s: string, p: nat): (r: Option<string>)
    requires p <= |s|
    ensures r.Some? ==> r.value != [] && forall c :: c in r.value ==> c in s
    decreases |s| - p
  {
    if p == |s| then None
    else if CnyAt(s, p) && CaptureAt(s, p + 3 + SpaceRun(s, p + 3)).Some? then
      var from := p + 3 + SpaceRun(s, p + 3);
      var g := CaptureAt(s, from).value;
      SliceChars(s, from, |g|);
      Some(g)
    else CnySearch(s, p + 1)
  }

  /** An amount as the regexes capture it: an optional minus, then a
      nonempty run of digits, commas and points. */
  function Signed(minus: bool, run: string): string
  {
    (if minus then "-" else "") + run
  }

  predicate IsRun(run: string)
  {
    run != [] && forall i :: 0 <= i < |run| ==> AmountChar(run[i])
  }

  /** The group captures a whole signed run up to the first character that
      cannot continue it. */
  lemma CaptureRun(pre: string, minus: bool, run: string, rest: string)
    requires IsRun(run) && (rest == [] || !AmountChar(rest[0]))
    ensures CaptureAt(pre + Signed(minus, run) + rest, |pre|) == Some(Signed(minus, run))
  {
    var g := Signed(minus, run);
    var s := pre + g + rest;
    var from := |pre| + |g| - |run|;
    forall i | from <= i < from + |run| ensures AmountChar(s[i]) {
      assert s[i] == run[i - from];
    }
    if rest != [] {
      assert s[from + |run|] == rest[0];
    }
    RunExact(s, from, |run|);
    assert s[|pre|..|pre| + |g|] == g;
    if !minus {
      assert s[|pre|] == run[0];
    }
  }

  /** `float(text.replace(',', ''))`, None standing for the ValueError. */
  function FloatNoCommas(text: string): Option<real>
  {
    Float(RemoveChar(text, ','))
  }

  /** `parse_amount(amount_str)`: a direct `float()`, then `float()` with the
      thousands separators removed, then the number after a currency symbol,
      then the number after a 'CNY' prefix; 0.0 (after a logged warning) when
      every stage fails or when the stage that matched captured no number. */
  function ParseAmount(s: string): real
  {
    match Float(s)
    case Some(x) => x
    case None =>
      match FloatNoCommas(s)
      case Some(x) => x
      case None => PatternAmount(s)
  }

  /** The two regex stages of `parse_amount`: the currency-symbol pattern
      decides whenever it matches, even when its capture is no number; the
      'CNY' pattern is tried only when it does not match. */
  function PatternAmount(s: string): real
  {
    match SymbolSearch(s, 0)
    case Some(g) => CaptureValue(g)
    case None =>
      match CnySearch(s, 0)
      case Some(g) => CaptureValue(g)
      case None => 0.0
  }

  /** `float(match.group(1).replace(',', ''))`, 0.0 when that raises. */
  function CaptureValue(g: string): real
  {
    match FloatNoCommas(g)
    case Some(x) => x
    case None => 0.0
  }

  /** A plain decimal literal is read as its value. */
  lemma ParseAmountLiteral(l: Literal)
    requires WellFormed(l)
    ensures ParseAmount(Print(l)) == LiteralValue(l)
  {
    FloatPrint(l);
  }

  /** Removing the commas from text that has none leaves it unchanged. */
  lemma NoCommas(s: string)
    requires ',' !in s
    ensures RemoveChar(s, ',') == s
  {
  }

  /** A literal written with thousands separators is read as its value,
      e.g. '1,234.56' as 1234.56. */
  lemma ParseAmountThousands(s: string, l: Literal)
    requires WellFormed(l) && RemoveChar(s, ',') == Print(l)
    ensures ParseAmount(s) == LiteralValue(l)
  {
    FloatPrint(l);
    if Float(s).Some? {
      FloatNoComma(s);
      NoCommas(s);
    }
  }

  /** Text `float()` accepts has no comma. */
  lemma FloatNoComma(s: string)
    requires Float(s).Some?
    ensures ',' !in s
  {
    FloatAccepts(s);
  }

  /** Text with no digit at all is never a number: every stage fails and
      the amount is 0.0. */
  lemma ParseAmountNoDigit(s: string)
    requires forall c :: c in s ==> !IsDigit(c)
    ensures ParseAmount(s) == 0.0
  {
    NoDigitNoFloat(s);
    NoDigitNoFloat(RemoveChar(s, ','));
    var sym := SymbolSearch(s, 0);
    if sym.Some? {
      NoDigitNoFloat(RemoveChar(sym.value, ','));
    }
    var cny := CnySearch(s, 0);
    if cny.Some? {
      NoDigitNoFloat(RemoveChar(cny.value, ','));
    }
  }

  lemma NoDigitNoFloat(s: string)
    requires forall c :: c in s ==> !IsDigit(c)
    ensures Float(s).None?
  {
    if Float(s).Some? {
      FloatAccepts(s);
    }
  }

  /** `str(None)`, as the parsers pass it for an empty cell, is 0.0. */
  lemma ParseAmountNone()
    ensures ParseAmount("None") == 0.0
  {
    ParseAmountNoDigit("None");
  }

  /** A character `float()` cannot accept, other than a comma, makes both
      direct stages fail. */
  lemma ForeignCharNoFloat(s: string, c: char)
    requires c in s && !NumberChar(c) && c != ','
    ensures Float(s).None? && FloatNoCommas(s).None?
  {
    if Float(s).Some? {
      FloatAccepts(s);
    }
    assert c in RemoveChar(s, ',');
    if FloatNoCommas(s).Some? {
      FloatAccepts(RemoveChar(s, ','));
    }
  }

  /** Once the symbol pattern matches, its capture alone decides the amount
      (0.0 when it is no number) and the 'CNY' pattern is never tried,
      whatever follows the captured run. */
  lemma SymbolCaptureDecides(sym: char, minus: bool, run: string, rest: string)
    requires CurrencySymbol(sym) && IsRun(run) && (rest == [] || !AmountChar(rest[0]))
    ensures ParseAmount([sym] + Signed(minus, run) + rest) == CaptureValue(Signed(minus, run))
  {
    var s := [sym] + Signed(minus, run) + rest;
    assert Float(s).None? && FloatNoCommas(s).None? by {
      assert s[0] == sym;
      ForeignCharNoFloat(s, sym);
    }
    assert SymbolSearch(s, 0) == Some(Signed(minus, run)) by {
      CaptureRun([sym], minus, run, rest);
      SymbolFirst(s);
    }
    ParseAmountByPattern(s);
  }

  /** An amount after a currency symbol is read from the symbol pattern's
      capture, commas removed: '¥1,234.56' is 1234.56, '$-5' is -5.0. */
  lemma ParseAmountAfterSymbol(sym: char, minus: bool, run: string, l: Literal)
    requires CurrencySymbol(sym) && IsRun(run)
    requires WellFormed(l) && RemoveChar(Signed(minus, run), ',') == Print(l)
    ensures ParseAmount([sym] + Signed(minus, run)) == LiteralValue(l)
  {
    SymbolCaptureDecides(sym, minus, run, []);
    assert [sym] + Signed(minus, run) + [] == [sym] + Signed(minus, run);
    FloatPrint(l);
  }

  /** A currency symbol at the start followed by a capture decides the
      symbol search. */
  lemma SymbolFirst(s: string)
    requires |s| > 0 && CurrencySymbol(s[0]) && CaptureAt(s, 1).Some?
    ensures SymbolSearch(s, 0) == CaptureAt(s, 1)
  {
  }

  /** When both direct `float()` stages fail, the regex stages decide. */
  lemma ParseAmountByPattern(s: string)
    requires Float(s).None? && FloatNoCommas(s).None?
    ensures ParseAmount(s) == PatternAmount(s)
  {
  }

  /** The symbol pattern finds nothing in text without a currency symbol. */
  lemma {:induction false} NoSymbolFrom(s: string, p: nat)
    requires p <= |s| && forall i :: p <= i < |s| ==> !CurrencySymbol(s[i])
    ensures SymbolSearch(s, p) == None
    decreases |s| - p
  {
    if p < |s| {
      NoSymbolFrom(s, p + 1);
    }
  }

  /** 'CNY' at the start followed by a capture decides the 'CNY' search. */
  lemma CnyFirst(s: string)
    requires CnyAt(s, 0) && CaptureAt(s, 3 + SpaceRun(s, 3)).Some?
    ensures CnySearch(s, 0) == CaptureAt(s, 3 + SpaceRun(s, 3))
  {
  }

  /** No character of a 'CNY' prefix, a space, a minus or a run is a
      currency symbol. */
  lemma CnyTextNoSymbol(k: string, spaces: string, g: string, rest: string)
    requires |k| == 3 && CnyAt(k, 0) && forall i :: 0 <= i < |spaces| ==> IsSpace(spaces[i])
    requires forall i :: 0 <= i < |g| ==> g[i] == '-' || AmountChar(g[i])
    requires forall i :: 0 <= i < |rest| ==> !CurrencySymbol(rest[i])
    ensures forall i :: 0 <= i < |k + spaces + g + rest| ==> !CurrencySymbol((k + spaces + g + rest)[i])
  {
    var s := k + spaces + g + rest;
    forall i | 0 <= i < |s| ensures !CurrencySymbol(s[i]) {
      if i < 3 {
        assert s[i] == k[i];
      } else if i < 3 + |spaces| {
        assert s[i] == spaces[i - 3];
      } else if i < 3 + |spaces| + |g| {
        assert s[i] == g[i - 3 - |spaces|];
      } else {
        assert s[i] == rest[i - 3 - |spaces| - |g|];
      }
    }
  }

  /** After a 'CNY' prefix in any letter case and optional whitespace, the
      capture decides the amount when the text holds no currency symbol:
      'CNY 1,234.56 元' is 1234.56. */
  lemma CnyCaptureDecides(k: string, spaces: string, minus: bool, run: string, rest: string)
    requires |k| == 3 && CnyAt(k, 0) && forall i :: 0 <= i < |spaces| ==> IsSpace(spaces[i])
    requires IsRun(run) && (rest == [] || !AmountChar(rest[0]))
    requires forall i :: 0 <= i < |rest| ==> !CurrencySymbol(rest[i])
    ensures ParseAmount(k + spaces + Signed(minus, run) + rest) == CaptureValue(Signed(minus, run))
  {
    var s := k + spaces + Signed(minus, run) + rest;
    CnyTextNoSymbolSearch(k, spaces, minus, run, rest);
    CnySearchCapture(k, spaces, minus, run, rest);
    assert Float(s).None? && FloatNoCommas(s).None? by {
      assert s[0] == k[0];
      ForeignCharNoFloat(s, k[0]);
    }
    ParseAmountByPattern(s);
  }

  lemma CnyTextNoSymbolSearch(k: string, spaces: string, minus: bool, run: string, rest: string)
    requires |k| == 3 && CnyAt(k, 0) && forall i :: 0 <= i < |spaces| ==> IsSpace(spaces[i])
    requires IsRun(run)
    requires forall i :: 0 <= i < |rest| ==> !CurrencySymbol(rest[i])
    ensures SymbolSearch(k + spaces + Signed(minus, run) + rest, 0) == None
  {
    var g := Signed(minus, run);
    SignedChars(minus, run);
    CnyTextNoSymbol(k, spaces, g, rest);
    NoSymbolFrom(k + spaces + g + rest, 0);
  }

  lemma CnySearchCapture(k: string, spaces: string, minus: bool, run: string, rest: string)
    requires |k| == 3 && CnyAt(k, 0) && forall i :: 0 <= i < |spaces| ==> IsSpace(spaces[i])
    requires IsRun(run) && (rest == [] || !AmountChar(rest[0]))
    ensures CnySearch(k + spaces + Signed(minus, run) + rest, 0) == Some(Signed(minus, run))
  {
    var g := Signed(minus, run);
    var s := k + spaces + g + rest;
    assert s[..3] == k;
    CnySpaces(k, spaces, minus, run, rest);
    CaptureRun(k + spaces, minus, run, rest);
    CnyFirst(s);
  }

  /** `\s*` after the 'CNY' prefix takes exactly the blanks before the
      amount, which starts with a minus or a digit, comma or point. */
  lemma CnySpaces(k: string, spaces: string, minus: bool, run: string, rest: string)
    requires |k| == 3 && forall i :: 0 <= i < |spaces| ==> IsSpace(spaces[i])
    requires IsRun(run)
    ensures SpaceRun(k + spaces + Signed(minus, run) + rest, 3) == |spaces|
  {
    var g := Signed(minus, run);
    var s := k + spaces + g + rest;
    forall i | 3 <= i < 3 + |spaces| ensures IsSpace(s[i]) {
      assert s[i] == spaces[i - 3];
    }
    assert s[3 + |spaces|] == g[0];
    assert g[0] == '-' || AmountChar(g[0]);
    SpaceExact(s, 3, |spaces|);
  }

  /** A signed run holds only a minus, digits, commas and points. */
  lemma SignedChars(minus: bool, run: string)
    requires IsRun(run)
    ensures forall i :: 0 <= i < |Signed(minus, run)| ==> Signed(minus, run)[i] == '-' || AmountChar(Signed(minus, run)[i])
  {
    var g := Signed(minus, run);
    forall i | 0 <= i < |g| ensures g[i] == '-' || AmountChar(g[i]) {
      if minus && i > 0 {
        assert g[i] == run[i - 1];
      } else if !minus {
        assert g[i] == run[i];
      }
    }
  }

  /** `parse_amount(str(v))` on a cell or field value. `str(None)` is
      'None' and reads as 0.0; a number's `repr` reads back as the number;
      `str(nan)` is 'nan', which `float()` reads as NaN; a timestamp is
      written '%Y-%m-%d %H:%M:%S'. */
  function AmountOf(v: Value): (r: Value)
    ensures r.Num? || r == NaN
    ensures r == NaN <==> v == NaN
  {
    match v
    case Nil => Num(ParseAmount("None"))
    case NaN => NaN
    case Str(s) => Num(ParseAmount(s))
    case Num(x) => Num(x)
    case Stamp(dt) => Num(ParseAmount(FormatIso(dt)))
  }

  /** An empty cell's amount is 0.0. */
  lemma AmountOfNil()
    ensures AmountOf(Nil) == Num(0.0)
  {
    ParseAmountNone();
  }

  // -------------------------------------------------------------- parse_datetime

  /** `parse_datetime(value, date_format)`. A falsy value gives None and a
      timestamp is returned as it is. Text is read with the given layout, or
      with '%Y-%m-%d %H:%M:%S' when none is given, and None stands for the
      logged ValueError. Any other truthy value (a number, NaN) makes
      `strptime` raise a TypeError that is not caught. */
  function ParseDatetime(v: Value, format: Option<Layout>): (r: Raising<Option<DateTime>>)
    ensures !Truthy(v) ==> r == Ok(None)
    ensures v.Stamp? ==> r == Ok(Some(v.dt))
    ensures r.Raise? <==> Truthy(v) && (v.Num? || v.NaN?)
    ensures r.Ok? && r.value.Some? ==> Valid(r.value.value)
  {
    if !Truthy(v) then Ok(None)
    else match v
      case Stamp(dt) => Ok(Some(dt))
      case Str(s) => Ok(Strptime(s, if format.Some? then format.value else DateAndTime))
      case _ => Raise
  }

  /** Text is read strictly: the whole text must match the layout, so
      only text of the widths the layout's directives allow can name a
      timestamp ('%Y%m%d' six to eight characters, '%H:%M:%S' five to eight,
      '%Y-%m-%d %H:%M:%S' at least fourteen). */
  lemma ParseDatetimeStrict(s: string, format: Option<Layout>)
    requires ParseDatetime(Str(s), format) != Ok(None)
    ensures ParseDatetime(Str(s), format).Ok?
    ensures format == Some(YearMonthDay) ==> 6 <= |s| <= 8
    ensures format == Some(HourMinuteSecond) ==> 5 <= |s| <= 8
    ensures format == None || format == Some(DateAndTime) ==> 14 <= |s|
  {
    LayoutWidths();
  }

  /** Without a format only '%Y-%m-%d %H:%M:%S' is tried, and every
      timestamp written that way reads back. */
  lemma ParseDatetimeDefault(dt: DateTime)
    requires Valid(dt)
    ensures ParseDatetime(Str(FormatIso(dt)), None) == Ok(Some(dt))
    ensures ParseDatetime(Str(FormatIso(dt)), Some(YearMonthDay)) == Ok(None)
  {
    var s := FormatIso(dt);
    ParseIsoFormatIso(dt);
    ReadsText(s, None);
    ReadsText(s, Some(YearMonthDay));
    assert ParseYmd(s) == None;
  }

  /** Non-empty text is read with the given layout, or the default one. */
  lemma ReadsText(s: string, format: Option<Layout>)
    requires s != []
    ensures format == None ==> ParseDatetime(Str(s), format) == Ok(ParseIso(s))
    ensures format == Some(DateAndTime) ==> ParseDatetime(Str(s), format) == Ok(ParseIso(s))
    ensures format == Some(YearMonthDay) ==> ParseDatetime(Str(s), format) == Ok(ParseYmd(s))
    ensures format == Some(HourMinuteSecond) ==> ParseDatetime(Str(s), format) == Ok(ParseHms(s))
  {
  }

  /** The compact '%Y%m%d' layout reads back every date written that way,
      at midnight. */
  lemma ParseDatetimeCompact(dt: DateTime)
    requires Valid(dt) && dt.hour == 0 && dt.minute == 0 && dt.second == 0
    ensures ParseDatetime(Str(FormatYmd(dt)), Some(YearMonthDay)) == Ok(Some(dt))
    ensures ParseDatetime(Str(FormatYmd(dt)), None) == Ok(None)
  {
    var s := FormatYmd(dt);
    ParseYmdFormatYmd(dt);
    ReadsText(s, None);
    ReadsText(s, Some(YearMonthDay));
    assert ParseIso(s) == None;
  }

  // ------------------------------------------------------------ parse_xls_bill

  /** The `column_indices` dict: for each (sheet column, field) entry of the
      mapping in order, the field is bound to the column's position in the
      header, or to None when the header lacks it; a later entry for the
      same field replaces an earlier one. */
  function ColumnIndices(header: seq<Value>, mapping: seq<(string, string)>): (r: map<string, Option<nat>>)
    ensures forall f :: f in r <==> exists j :: 0 <= j < |mapping| && mapping[j].1 == f
  {
    if mapping == [] then map[]
    else
      var prev := ColumnIndices(header, mapping[..|mapping| - 1]);
      var last := mapping[|mapping| - 1];
      assert forall j :: 0 <= j < |mapping| - 1 ==> mapping[..|mapping| - 1][j] == mapping[j];
      prev[last.1 := IndexOf(header, Str(last.0))]
  }

  /** A field's index comes from the last mapping entry naming it. */
  lemma {:induction false} ColumnIndicesLast(header: seq<Value>, mapping: seq<(string, string)>, j: nat)
    requires j < |mapping| && forall k :: j < k < |mapping| ==> mapping[k].1 != mapping[j].1
    ensures mapping[j].1 in ColumnIndices(header, mapping)
    ensures ColumnIndices(header, mapping)[mapping[j].1] == IndexOf(header, Str(mapping[j].0))
  {
    if j < |mapping| - 1 {
      var init := mapping[..|mapping| - 1];
      assert forall k :: j < k < |init| ==> init[k] == mapping[k];
      ColumnIndicesLast(header, init, j);
    }
  }

  /** The fields whose column was found. */
  function Found(indices: map<string, Option<nat>>): set<string>
  {
    set f | f in indices && indices[f].Some?
  }

  /** Every found column exists in the row; otherwise `row_values[col_index]`
      raises an IndexError. */
  predicate RowFits(indices: map<string, Option<nat>>, row: seq<Value>)
  {
    forall f :: f in indices && indices[f].Some? ==> indices[f].value < |row|
  }

  /** The `bill_item` of one data row, None when the lookup raises. */
  function RowItem(indices: map<string, Option<nat>>, row: seq<Value>): (r: Option<Item>)
    ensures r.Some? <==> RowFits(indices, row)
    ensures r.Some? ==> r.value.Keys == Found(indices)
  {
    if RowFits(indices, row) then Some(map f | f in Found(indices) :: row[indices[f].value]) else None
  }

  /** The items of the data rows, in order: rows whose cells are all falsy
      are skipped, and so are rows whose lookup raises. */
  function BillRows(indices: map<string, Option<nat>>, rows: seq<seq<Value>>): (r: seq<Item>)
    ensures |r| <= |rows|
  {
    if rows == [] then []
    else
      var row := rows[|rows| - 1];
      BillRows(indices, rows[..|rows| - 1])
        + (if Any(row) && RowItem(indices, row).Some? then [RowItem(indices, row).value] else [])
  }

  /** `parse_xls_bill(path, mapping)` on the active sheet as rows of cell
      values (row 1 the header), None when the workbook cannot be loaded.
      A sheet without a header gives None; otherwise the data rows' items. */
  function XlsBill(sheet: Option<seq<seq<Value>>>, mapping: seq<(string, string)>): (r: Option<seq<Item>>)
    ensures r.None? <==> sheet.None? || sheet.value == [] || sheet.value[0] == []
    ensures r.Some? ==> |r.value| < |sheet.value|
  {
    match sheet
    case None => None
    case Some(rows) =>
      if rows == [] || rows[0] == [] then None
      else Some(BillRows(ColumnIndices(rows[0], mapping), rows[1..]))
  }

  /** `parse_xls_bill`: fills `column_indices` from the mapping, then builds
      one item per data row, field by field, skipping empty and faulty rows. */
  method ParseXlsBill(sheet: Option<seq<seq<Value>>>, mapping: seq<(string, string)>) returns (r: Option<seq<Item>>)
    ensures r == XlsBill(sheet, mapping)
  {
    if sheet.None? {
      return None;
    }
    var rows := sheet.value;
    if rows == [] || rows[0] == [] {
      return None;
    }
    var indices := FillIndices(rows[0], mapping);
    var data: seq<Item> := [];
    var k := 1;
    while k < |rows|
      invariant 1 <= k <= |rows|
      invariant data == BillRows(indices, rows[1..k])
    {
      var row := rows[k];
      assert rows[1..k + 1][..k - 1] == rows[1..k];
      assert rows[1..k + 1][k - 1] == row;
      if Any(row) {
        var item := FillItem(indices, row);
        if item.Some? {
          data := data + [item.value];
        }
      }
      k := k + 1;
    }
    assert rows[1..k] == rows[1..];
    return Some(data);
  }

  /** The first loop of `parse_xls_bill`: binds each mapped field to its
      column's position in the header, None when the header lacks it. */
  method FillIndices(header: seq<Value>, mapping: seq<(string, string)>) returns (indices: map<string, Option<nat>>)
    ensures indices == ColumnIndices(header, mapping)
  {
    indices := map[];
    var i := 0;
    while i < |mapping|
      invariant i <= |mapping|
      invariant indices == ColumnIndices(header, mapping[..i])
    {
      assert mapping[..i + 1][..i] == mapping[..i];
      indices := indices[mapping[i].1 := IndexOf(header, Str(mapping[i].0))];
      i := i + 1;
    }
    assert mapping[..i] == mapping;
  }

  /** The inner loop of `parse_xls_bill`: copies the cell under every found
      column into the item, giving up on the first index past the row's end. */
  method FillItem(indices: map<string, Option<nat>>, row: seq<Value>) returns (r: Option<Item>)
    ensures r == RowItem(indices, row)
  {
    var item: Item := map[];
    var todo := indices.Keys;
    while todo != {}
      invariant todo <= indices.Keys
      invariant forall f :: f in indices.Keys - todo && indices[f].Some? ==> indices[f].value < |row|
      invariant item == map f | f in Found(indices) - todo :: row[indices[f].value]
      decreases |todo|
    {
      var f :| f in todo;
      if indices[f].Some? {
        if indices[f].value >= |row| {
          return None;
        }
        item := item[f := row[indices[f].value]];
      }
      todo := todo - {f};
    }
    assert Found(indices) - todo == Found(indices);
    return Some(item);
  }

  /** Every item holds exactly the fields whose column was found. */
  lemma {:induction false} BillRowsFields(indices: map<string, Option<nat>>, rows: seq<seq<Value>>)
    ensures forall it :: it in BillRows(indices, rows) ==> it.Keys == Found(indices)
  {
    if rows != [] {
      BillRowsFields(indices, rows[..|rows| - 1]);
    }
  }

  /** A mapped column missing from the header leaves its field out of every
      item (unless a later entry maps the same field to a column present). */
  lemma MissingColumnOmitted(header: seq<Value>, mapping: seq<(string, string)>, j: nat, rows: seq<seq<Value>>)
    requires j < |mapping| && forall k :: j < k < |mapping| ==> mapping[k].1 != mapping[j].1
    requires Str(mapping[j].0) !in header
    ensures forall it :: it in BillRows(ColumnIndices(header, mapping), rows) ==> mapping[j].1 !in it
  {
    ColumnIndicesLast(header, mapping, j);
    BillRowsFields(ColumnIndices(header, mapping), rows);
  }

  /** A found column's field holds the cell under the first header cell
      with the column's name. */
  lemma ItemCell(header: seq<Value>, mapping: seq<(string, string)>, j: nat, row: seq<Value>)
    requires j < |mapping| && forall k :: j < k < |mapping| ==> mapping[k].1 != mapping[j].1
    requires Str(mapping[j].0) in header
    requires RowItem(ColumnIndices(header, mapping), row).Some?
    ensures mapping[j].1 in RowItem(ColumnIndices(header, mapping), row).value
    ensures exists c :: (0 <= c < |header| && header[c] == Str(mapping[j].0) && Str(mapping[j].0) !in header[..c]
      && c < |row| && RowItem(ColumnIndices(header, mapping), row).value[mapping[j].1] == row[c])
  {
    ColumnIndicesLast(header, mapping, j);
    var c := IndexOf(header, Str(mapping[j].0)).value;
    assert mapping[j].1 in Found(ColumnIndices(header, mapping));
  }

  /** A sheet whose data rows are all empty gives no items. */
  lemma {:induction false} BillRowsAllEmpty(indices: map<string, Option<nat>>, rows: seq<seq<Value>>)
    requires forall k :: 0 <= k < |rows| ==> !Any(rows[k])
    ensures BillRows(indices, rows) == []
  {
    if rows != [] {
      BillRowsAllEmpty(indices, rows[..|rows| - 1]);
    }
  }

  /** When no data row is empty or faulty, there is one item per row, in
      row order. */
  lemma {:induction false} BillRowsInOrder(indices: map<string, Option<nat>>, rows: seq<seq<Value>>)
    requires forall k :: 0 <= k < |rows| ==> Any(rows[k]) && RowFits(indices, rows[k])
    ensures |BillRows(indices, rows)| == |rows|
    ensures forall k :: 0 <= k < |rows| ==> Some(BillRows(indices, rows)[k]) == RowItem(indices, rows[k])
  {
    if rows != [] {
      BillRowsInOrder(indices, rows[..|rows| - 1]);
    }
  }
}
