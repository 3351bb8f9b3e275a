/** one_book_ledger/bill_parser/zhongxin_parser.py: the China CITIC Bank
    credit-card adapter. Its summary column reads 'payer-description', and
    two small helpers cut it at the dashes; the rest is a configuration of
    the common parser. */
module ZhongxinParser {
  import opened Wrappers
  import opened Values
  import opened Text
  import Numbers
  import opened Frames
  import opened FieldConvert
  import opened CommonParser

  /** Text with a dash splits into at least two parts, the first being the
      text before the first dash and the second the text after it up to
      the next dash. */
  lemma SplitAtDash(s: string)
    requires '-' in s
    ensures FirstIndex(s, '-').Some?
    ensures var i := FirstIndex(s, '-').value;
      |Split(s, '-')| >= 2 && Split(s, '-')[0] == s[..i] && Split(s, '-')[1] == Split(s[i + 1..], '-')[0]
  {
  }

  /** The first part of a split runs up to the first separator or to the
      end. */
  lemma {:induction false} SplitHead(s: string, sep: char)
    ensures var h := Split(s, sep)[0];
      |h| <= |s| && s[..|h|] == h && (|h| == |s| || s[|h|] == sep)
  {
  }

  /** `extract_account(trade_summary)`: the text before the first '-', or
      None when there is no dash. */
  function ExtractAccount(s: string): (r: Option<string>)
    ensures r.None? <==> '-' !in s
    ensures r.Some? ==> '-' !in r.value && |r.value| < |s| && s[..|r.value|] == r.value && s[|r.value|] == '-'
  {
    if '-' in s then
      SplitAtDash(s);
      Some(Split(s, '-')[0])
    else None
  }

  /** `extract_description(trade_summary)`: the text between the first
      dash and the next one (or the end), or the whole text when there is
      no dash. */
  function ExtractDescription(s: string): (r: string)
    ensures '-' !in s ==> r == s
    ensures '-' in s ==>
      '-' !in r && FirstIndex(s, '-').Some?
      && var i := FirstIndex(s, '-').value;
      i + 1 + |r| <= |s| && s[i + 1..i + 1 + |r|] == r && (i + 1 + |r| == |s| || s[i + 1 + |r|] == '-')
  {
    if '-' in s then
      SplitAtDash(s);
      var i := FirstIndex(s, '-').value;
      SplitHead(s[i + 1..], '-');
      Split(s, '-')[1]
    else s
  }

  /** The summary 'a-b…' gives the account 'a' and the description 'b',
      whatever follows the second dash: 'a-b-c' loses its 'c'. */
  lemma ExtractParts(a: string, b: string, rest: string)
    requires '-' !in a && '-' !in b && (rest == [] || rest[0] == '-')
    ensures ExtractAccount(a + "-" + b + rest) == Some(a)
    ensures ExtractDescription(a + "-" + b + rest) == b
  {
    var s := a + "-" + b + rest;
    assert s[|a|] == '-' && s[..|a|] == a;
    var i := FirstIndex(s, '-').value;
    assert i == |a|;
    var r := ExtractDescription(s);
    assert s[i + 1..] == b + rest;
    assert s[i + 1..i + 1 + |b|] == b;
  }

  /** With exactly one dash, account and description put back together
      with the dash give the summary again. */
  lemma OneDashRoundTrip(s: string)
    requires '-' in s && FirstIndex(s, '-').Some?
    requires '-' !in s[FirstIndex(s, '-').value + 1..]
    ensures ExtractAccount(s).value + "-" + ExtractDescription(s) == s
  {
    var i := FirstIndex(s, '-').value;
    var a, b := s[..i], s[i + 1..];
    assert s == a + "-" + b + [];
    ExtractParts(a, b, []);
  }

  /** 'a-b-c': the account is 'a' and the description 'b'. */
  lemma ExtractTwoDashes()
    ensures ExtractAccount("a-b-c") == Some("a") && ExtractDescription("a-b-c") == "b"
  {
    ExtractParts("a", "b", "-c");
    assert "a" + "-" + "b" + "-c" == "a-b-c";
  }

  /** `extract_account` on a cell: None becomes a missing cell, and
      anything but text raises, since `in` cannot look into it. */
  function ExtractAccountValue(v: Value): (r: Raising<Value>)
    ensures r.Raise? <==> !v.Str?
    ensures v.Str? ==> (r.value == Nil <==> '-' !in v.s)
    ensures v.Str? && r.value != Nil ==> r.value == Str(ExtractAccount(v.s).value)
  {
    match v
    case Str(s) => Ok(match ExtractAccount(s) case Some(a) => Str(a) case None => Nil)
    case _ => Raise
  }

  /** `extract_description` on a cell. */
  function ExtractDescriptionValue(v: Value): (r: Raising<Value>)
    ensures r.Raise? <==> !v.Str?
    ensures v.Str? ==> r.value == Str(ExtractDescription(v.s))
  {
    match v
    case Str(s) => Ok(Str(ExtractDescription(s)))
    case _ => Raise
  }

  /** The `column_mapping` of `parse_zhongxin_csv`: the summary feeds both
      the account and the description, and the signed amount both the
      unsigned amount and the direction. */
  function ZhongxinMapping(): seq<Triple>
  {
    [("交易日期", "交易时间", Convert(ConvertDateValue)),
     ("交易摘要", "收/付款账户", Convert(ExtractAccountValue)),
     ("交易对方", "交易对方", Copy),
     ("交易摘要", "交易说明", Convert(ExtractDescriptionValue)),
     ("交易金额", "交易金额", Convert(RemoveSignValue)),
     ("交易金额", "收/支", Convert(IncomeOrExpenseValue))]
  }

  /** The `extra_columns` of `parse_zhongxin_csv`. */
  function ZhongxinExtras(): seq<(string, Value)>
  {
    [("交易分类", Str("")), ("交易状态", Str("")), ("统计账单", Str("中信银行"))]
  }

  /** `parse_zhongxin_csv(input_f)`: GBK text with one line above the
      header. */
  function ZhongxinTable(readers: Readers, path: string): Option<Table>
  {
    ParseTable(readers, path, ZhongxinMapping(), ZhongxinExtras(), Some("gbk"), 1)
  }

  method ParseZhongxinCsv(readers: Readers, path: string) returns (r: Option<Frame>)
    ensures r.None? <==> ZhongxinTable(readers, path).None?
    ensures r.Some? ==>
      fresh(r.value) && r.value.Valid() && r.value.View() == ZhongxinTable(readers, path).value
  {
    r := Parse(readers, path, ZhongxinMapping(), ZhongxinExtras(), Some("gbk"), 1);
  }

  /** The bill parses exactly when the reader gives a frame on which none
      of the converters raises. */
  lemma ZhongxinFails(readers: Readers, path: string)
    ensures ZhongxinTable(readers, path).None? <==>
      ReadTable(readers, path, Some("gbk"), 1).None?
      || exists j :: 0 <= j < |ZhongxinMapping()|
           && RaisesOn(ReadTable(readers, path, Some("gbk"), 1).value, ZhongxinMapping()[j])
  {
    if ReadTable(readers, path, Some("gbk"), 1).Some? {
      TransformRaises(ReadTable(readers, path, Some("gbk"), 1).value, ZhongxinMapping());
    }
  }

  /** None of the columns the mapping fills is overwritten by a constant. */
  lemma NotExtra(n: string)
    requires n in {"交易时间", "收/付款账户", "交易对方", "交易说明", "交易金额", "收/支"}
    ensures !Extra(ZhongxinExtras(), n)
  {
    var e := ZhongxinExtras();
    forall k | 0 <= k < |e| ensures e[k].0 != n {
      assert e[k].0 in {"交易分类", "交易状态", "统计账单"};
      assert e[k].0[1] != n[1] || e[k].0[2] != n[2] || |e[k].0| != |n|;
    }
  }

  /** The amount column of a CITIC bill comes out unsigned and its sign
      moves to '收/支': row by row the two are `remove_sign` and
      `get_income_or_expense` of the same signed cell. */
  lemma ZhongxinAmounts(readers: Readers, path: string, df: WfTable, r: Table)
    requires ReadTable(readers, path, Some("gbk"), 1) == Some(df) && ZhongxinTable(readers, path) == Some(r)
    requires "交易金额" in df.names
    ensures "交易金额" in r.columns && "收/支" in r.columns && r.height == df.height
    ensures var src := df.columns["交易金额"];
      |r.columns["交易金额"]| == |r.columns["收/支"]| == |src| == df.height
      && forall i :: 0 <= i < |src| ==>
           r.columns["交易金额"][i] == RemoveSignValue(src[i]).value
           && r.columns["收/支"][i] == IncomeOrExpenseValue(src[i]).value
  {
    var m := ZhongxinMapping();
    NotExtra(m[4].1);
    NotExtra(m[5].1);
    ParseConvertedColumn(readers, path, m, ZhongxinExtras(), Some("gbk"), 1, 4);
    ParseConvertedColumn(readers, path, m, ZhongxinExtras(), Some("gbk"), 1, 5);
  }

  /** The extra columns have distinct names. */
  lemma ZhongxinExtrasDistinct()
    ensures forall j, k :: 0 <= j < k < |ZhongxinExtras()| ==> ZhongxinExtras()[j].0 != ZhongxinExtras()[k].0
  {
    var e := ZhongxinExtras();
    assert e[0].0[2] != e[1].0[2] && e[0].0[0] != e[2].0[0] && e[1].0[0] != e[2].0[0];
  }

  /** The three constants, each on every row: no category ('交易分类'), no
      status ('交易状态'), and '中信银行' as the bill ('统计账单'). */
  lemma ZhongxinConstants(readers: Readers, path: string)
    requires ZhongxinTable(readers, path).Some?
    ensures var r := ZhongxinTable(readers, path).value;
      forall k :: 0 <= k < |ZhongxinExtras()| ==>
        ZhongxinExtras()[k].0 in r.columns && r.columns[ZhongxinExtras()[k].0] == Constant(r.height, ZhongxinExtras()[k].1)
  {
    ZhongxinExtrasDistinct();
    forall k | 0 <= k < |ZhongxinExtras()|
      ensures var r := ZhongxinTable(readers, path).value;
        ZhongxinExtras()[k].0 in r.columns && r.columns[ZhongxinExtras()[k].0] == Constant(r.height, ZhongxinExtras()[k].1)
    {
      ParseConstantColumn(readers, path, ZhongxinMapping(), ZhongxinExtras(), Some("gbk"), 1, k);
    }
  }

  /** A signed amount in whole hundredths survives the split: the unsigned
      cell reads as its magnitude, and '收/支' is '收入' exactly for the
      negative ones, so the sign can be put back. */
  lemma ZhongxinSignRecovered(s: string, c: nat)
    requires Numbers.Float(s) == Some(Numbers.Hundredths(c)) || Numbers.Float(s) == Some(-Numbers.Hundredths(c))
    ensures RemoveSignValue(Str(s)).value.Str?
    ensures Numbers.Float(RemoveSignValue(Str(s)).value.s) == Some(Numbers.Hundredths(c))
    ensures Numbers.Float(s).value == (if IncomeOrExpenseValue(Str(s)).value == Str("收入") then -Numbers.Hundredths(c) else Numbers.Hundredths(c))
  {
    SignCarriedByDirection(s, c);
    assert RemoveSignValue(Str(s)) == Ok(Str(RemoveSign(s).value));
    assert IncomeOrExpenseValue(Str(s)) == Ok(Str(IncomeOrExpense(s).value));
  }
}
