/** one_book_ledger/bill_parser/wechat_parser.py: the WeChat Pay adapter.
    The common parser copies eight columns under new names, and the
    adapter then rewrites, in place, the rows whose status says the money
    went to the change wallet. */
module WechatParser {
  import opened Wrappers
  import opened Values
  import opened Text
  import opened Frames
  import opened CommonParser

  // ------------------------------------------------------ convert_refund_status

  /** `convert_refund_status(text)`: any text mentioning '已退款' (refunded),
      whatever amount or remark comes with it, becomes plain '已退款'; other
      text and None pass through. */
  function ConvertRefundStatus(text: Option<string>): (r: Option<string>)
    ensures r.None? <==> text.None?
    ensures r.Some? ==> r.value == text.value || r.value == "已退款"
  {
    match text
    case None => None
    case Some(s) => if Contains(s, "已退款") then Some("已退款") else Some(s)
  }

  /** `sub in s` finds a prefix. */
  lemma ContainsPrefix(s: string, sub: string)
    requires StartsWith(s, sub)
    ensures Contains(s, sub)
  {
  }

  /** The result mentions a refund exactly when the input did, and a
      mention is all that is left of it. */
  lemma RefundStatusKeepsRefund(text: Option<string>)
    requires text.Some?
    ensures Contains(ConvertRefundStatus(text).value, "已退款") <==> Contains(text.value, "已退款")
    ensures Contains(text.value, "已退款") ==> ConvertRefundStatus(text) == Some("已退款")
    ensures !Contains(text.value, "已退款") ==> ConvertRefundStatus(text) == text
  {
    ContainsPrefix("已退款", "已退款");
  }

  /** Normalising twice is normalising once. */
  lemma RefundStatusIdempotent(text: Option<string>)
    ensures ConvertRefundStatus(ConvertRefundStatus(text)) == ConvertRefundStatus(text)
  {
    if text.Some? {
      RefundStatusKeepsRefund(text);
    }
  }

  /** '已退款（部分）￥0.50' is a refund. */
  lemma PartialRefund()
    ensures ConvertRefundStatus(Some("已退款（部分）￥0.50")) == Some("已退款")
  {
    ContainsPrefix("已退款（部分）￥0.50", "已退款");
  }

  /** The empty status has no refund in it and stays empty. */
  lemma EmptyStatus()
    ensures ConvertRefundStatus(Some("")) == Some("")
  {
  }

  // ---------------------------------------------------------- parse_wechat_csv

  /** The `column_mapping` of `parse_wechat_csv`: eight columns copied
      under the ledger's names. */
  function WechatMapping(): seq<Triple>
  {
    [("交易时间", "交易时间", Copy),
     ("交易类型", "交易分类", Copy),
     ("交易对方", "交易对方", Copy),
     ("商品", "交易说明", Copy),
     ("金额(元)", "交易金额", Copy),
     ("收/支", "收/支", Copy),
     ("支付方式", "收/付款账户", Copy),
     ("当前状态", "交易状态", Copy)]
  }

  /** The `extra_columns` of `parse_wechat_csv`. */
  function WechatExtras(): seq<(string, Value)>
  {
    [("统计账单", Str("微信"))]
  }

  /** The `parse` call: UTF-8 text with sixteen lines above the header. */
  function WechatParsed(readers: Readers, path: string): Option<Table>
  {
    ParseTable(readers, path, WechatMapping(), WechatExtras(), Some("utf-8"), 16)
  }

  /** The status that marks money paid into the change wallet. */
  const IntoChange := Str("已存入零钱")

  /** `frame['交易状态'] == '已存入零钱'`, cell by cell. */
  function StatusMask(status: seq<Value>): (m: seq<bool>)
    ensures |m| == |status| && forall i :: 0 <= i < |status| ==> (m[i] <==> status[i] == IntoChange)
  {
    seq(|status|, i requires 0 <= i < |status| => status[i] == IntoChange)
  }

  /** The two `frame.loc[...] = ...` lines: the account of every
      change-wallet row becomes '零钱', then its status '交易成功'; the
      second mask is taken after the first write. A frame without a
      '交易状态' column makes the lookup raise. */
  function Fixup(t: Table): (r: Raising<Table>)
    requires WellFormed(t)
    ensures r.Raise? <==> "交易状态" !in t.names
  {
    if "交易状态" !in t.names then Raise
    else
      var m := StatusMask(t.columns["交易状态"]);
      var t1 := AssignWhere(t, m, "收/付款账户", Str("零钱"));
      AssignKeeps(t, "收/付款账户", MaskedColumn(t, m, "收/付款账户", Str("零钱")));
      Ok(AssignWhere(t1, StatusMask(t1.columns["交易状态"]), "交易状态", Str("交易成功")))
  }

  /** `parse_wechat_csv(input_f)` as a value: a `parse` that gives None
      makes the fix-up raise, since nothing guards it. */
  function WechatTable(readers: Readers, path: string): Raising<Table>
  {
    match WechatParsed(readers, path)
    case None => Raise
    case Some(t) =>
      ParseResult(readers, path, WechatMapping(), WechatExtras(), Some("utf-8"), 16);
      Fixup(t)
  }

  /** The fix-up on the frame `parse` returned, in place, in the source's
      order. */
  method FixupFrame(frame: Frame) returns (raised: bool)
    requires frame.Valid()
    modifies frame
    ensures raised <==> Fixup(old(frame.View())).Raise?
    ensures !raised ==> frame.Valid() && frame.View() == Fixup(old(frame.View())).value
  {
    if "交易状态" !in frame.names {
      return true;
    }
    raised := false;
    var mask := StatusMask(frame.columns["交易状态"]);
    frame.SetWhere(mask, "收/付款账户", Str("零钱"));
    mask := StatusMask(frame.columns["交易状态"]);
    frame.SetWhere(mask, "交易状态", Str("交易成功"));
  }

  /** `parse_wechat_csv(input_f)`. */
  method ParseWechatCsv(readers: Readers, path: string) returns (r: Raising<Frame>)
    ensures r.Raise? <==> WechatTable(readers, path).Raise?
    ensures r.Ok? ==>
      fresh(r.value) && r.value.Valid() && r.value.View() == WechatTable(readers, path).value
  {
    var parsed := Parse(readers, path, WechatMapping(), WechatExtras(), Some("utf-8"), 16);
    if parsed.None? {
      return Raise;
    }
    var frame := parsed.value;
    var raised := FixupFrame(frame);
    if raised {
      return Raise;
    }
    r := Ok(frame);
  }

  /** The fix-up keeps the frame well formed and as long as it was, and
      touches no column but the account and the status. */
  lemma FixupShape(t: Table)
    requires WellFormed(t) && "交易状态" in t.names
    ensures var r := Fixup(t).value;
      WellFormed(r) && r.height == t.height
      && "交易状态" in r.columns && "收/付款账户" in r.columns
      && (forall n :: n != "交易状态" && n != "收/付款账户" ==>
            (n in r.columns <==> n in t.columns) && (n in t.columns ==> r.columns[n] == t.columns[n]))
  {
    var m := StatusMask(t.columns["交易状态"]);
    var c1 := MaskedColumn(t, m, "收/付款账户", Str("零钱"));
    AssignKeeps(t, "收/付款账户", c1);
    var t1 := Assign(t, "收/付款账户", c1);
    AssignKeeps(t1, "交易状态", MaskedColumn(t1, StatusMask(t1.columns["交易状态"]), "交易状态", Str("交易成功")));
  }

  /** What the fix-up leaves, row by row: a change-wallet row gets the
      account '零钱' and the status '交易成功'; any other row keeps its
      status, and its account cell (NaN when the frame had no account
      column). */
  lemma FixupRows(t: Table)
    requires WellFormed(t) && "交易状态" in t.names
    ensures var r := Fixup(t).value;
      var status := t.columns["交易状态"];
      "交易状态" in r.columns && "收/付款账户" in r.columns
      && |r.columns["交易状态"]| == |r.columns["收/付款账户"]| == |status| == t.height
      && (forall i :: 0 <= i < |status| && status[i] == IntoChange ==>
            r.columns["收/付款账户"][i] == Str("零钱") && r.columns["交易状态"][i] == Str("交易成功"))
      && (forall i :: 0 <= i < |status| && status[i] != IntoChange ==>
            r.columns["交易状态"][i] == status[i]
            && r.columns["收/付款账户"][i] ==
                 (if "收/付款账户" in t.columns then t.columns["收/付款账户"][i] else NaN))
  {
    var m := StatusMask(t.columns["交易状态"]);
    var c1 := MaskedColumn(t, m, "收/付款账户", Str("零钱"));
    var t1 := Assign(t, "收/付款账户", c1);
    assert "收/付款账户" != "交易状态" by {
      assert |"收/付款账户"| != |"交易状态"|;
    }
    assert t1.columns["交易状态"] == t.columns["交易状态"];
    assert t1.height == t.height;
  }

  /** After the fix-up no row is left with the change-wallet status. */
  lemma FixupClearsStatus(t: Table)
    requires WellFormed(t) && "交易状态" in t.names
    ensures var r := Fixup(t).value;
      "交易状态" in r.columns && forall i :: 0 <= i < |r.columns["交易状态"]| ==> r.columns["交易状态"][i] != IntoChange
  {
    FixupRows(t);
  }

  /** The eight triples all copy, into eight distinct columns, none of
      them the constant one. */
  lemma WechatMappingShape()
    ensures var m := WechatMapping();
      |m| == 8
      && (forall k :: 0 <= k < 8 ==> m[k].2.Copy?)
      && (forall j, k :: 0 <= j < k < 8 ==> m[j].1 != m[k].1)
      && (forall k :: 0 <= k < 8 ==> !Extra(WechatExtras(), m[k].1))
  {
    var m := WechatMapping();
    assert forall j, k :: 0 <= j < k < 8 ==> m[j].1[2] != m[k].1[2];
    assert forall k :: 0 <= k < 8 ==> WechatExtras()[0].0[2] != m[k].1[2];
  }

  /** Every ledger column WeChat supplies is the bill's own column under
      its new name: the copy-only mapping changes no cell. */
  lemma WechatCopies(readers: Readers, path: string, j: nat)
    requires WechatParsed(readers, path).Some?
    requires j < 8 && WechatMapping()[j].0 in ReadTable(readers, path, Some("utf-8"), 16).value.names
    ensures var df := ReadTable(readers, path, Some("utf-8"), 16).value;
      var r := WechatParsed(readers, path).value;
      WechatMapping()[j].1 in r.columns && r.columns[WechatMapping()[j].1] == df.columns[WechatMapping()[j].0]
  {
    WechatMappingShape();
    ParseCopiedColumn(readers, path, WechatMapping(), WechatExtras(), Some("utf-8"), 16, j);
  }

  /** Every row of the WeChat bill carries '微信' as its bill. */
  lemma WechatBillName(readers: Readers, path: string)
    requires WechatParsed(readers, path).Some?
    ensures var r := WechatParsed(readers, path).value;
      "统计账单" in r.columns && r.columns["统计账单"] == Constant(r.height, Str("微信"))
  {
    ParseConstantColumn(readers, path, WechatMapping(), WechatExtras(), Some("utf-8"), 16, 0);
  }
}
