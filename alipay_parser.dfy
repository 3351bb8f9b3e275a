/** `parse_alipay_csv_bill` of one_book_ledger/bill_parser/alipay_parser.py:
    the generic CSV rows of an Alipay export assembled into ledger items
    with constants and priority fallbacks. */
module AlipayParser {
  import opened Wrappers
  import opened Values
  import opened DateTimes
  import opened Classifier
  import opened LedgerUtils
  import opened CsvBillParser
  import opened LedgerItems

  /** The {CSV column: field} mapping handed to `parse_csv_bill`. */
  function AlipayMapping(): seq<(string, string)>
  {
    [("交易时间", "日期"), ("交易类型", "交易摘要"), ("收/支", "收/支类型"), ("金额", "金额"),
     ("商品名称", "商品说明"), ("交易对方", "交易对方"), ("备注", "备注")]
  }

  /** The date field: `parse_datetime(v)` on a truthy raw value, with the
      default '%Y-%m-%d %H:%M:%S' layout; None otherwise. */
  function AlipayDate(raw: Value): (r: Raising<Value>)
    ensures !Truthy(raw) ==> r == Ok(Nil)
    ensures r.Raise? <==> Truthy(raw) && (raw.Num? || raw.NaN?)
    ensures raw.Stamp? ==> r == Ok(raw)
    ensures raw.Str? && raw.s != [] ==>
      r == Ok(if ParseIso(raw.s).Some? then Stamp(ParseIso(raw.s).value) else Nil)
  {
    if !Truthy(raw) then Ok(Nil)
    else
      assert raw.Str? ==> ParseDatetime(raw, None) == Ok(ParseIso(raw.s)) by {
        if raw.Str? { ReadsText(raw.s, None); }
      }
      match ParseDatetime(raw, None)
      case Raise => Raise
      case Ok(None) => Ok(Nil)
      case Ok(Some(dt)) => Ok(Stamp(dt))
  }

  /** The dict literal built for one raw item. Its `parse_datetime` and
      `standardize_transaction_type` calls are the only parts that can
      raise; then the item is skipped. */
  function AlipayItem(item: Item): (r: Raising<LedgerItem>)
    ensures r.Ok? <==> AlipayDate(Get(item, "日期", Nil)).Ok? && Get(item, "交易摘要", Str("")).Str?
  {
    var date := AlipayDate(Get(item, "日期", Nil));
    var kind := StandardizeValue(Get(item, "交易摘要", Str("")));
    if date.Raise? || kind.Raise? then Raise
    else
      var rawAmount := Get(item, "金额", Nil);
      Ok(LedgerItem(
        account := Str("支付宝"),
        date := date.value,
        summary := Some(Or(Or(Get(item, "交易摘要", Str("")), Get(item, "商品说明", Str(""))), Get(item, "交易对方", Str("")))),
        counterparty := Or(Get(item, "交易对方", Str("")), Get(item, "商品说明", Str(""))),
        description := Or(Get(item, "商品说明", Str("")), Get(item, "交易类型", Str(""))),
        amount := if rawAmount != Nil then AmountOf(rawAmount) else Num(0.0),
        direction := Get(item, "收/支类型", Str("")),
        payment := Str("支付宝"),
        status := Str("交易成功"),
        note := Get(item, "备注", Str("")),
        kind := Str(kind.value)))
  }

  /** `parse_alipay_csv_bill` after its call to `parse_csv_bill`: a None or
      empty list from that call gives None; otherwise the items of the raw
      items that assemble, in order. */
  function AlipayBill(raw: Option<seq<Item>>): (r: Option<seq<LedgerItem>>)
    ensures r.None? <==> raw.None? || raw.value == []
    ensures r.Some? ==> |r.value| <= |raw.value|
  {
    if raw.None? || raw.value == [] then None else Some(Kept(AlipayItem, raw.value))
  }

  /** `parse_alipay_csv_bill(path)` on what the CSV reader yields. */
  function AlipayCsvBill(file: Option<CsvFile>): Option<seq<LedgerItem>>
  {
    AlipayBill(CsvBill(file, AlipayMapping()))
  }

  /** `parse_alipay_csv_bill`: the CSV read, then the loop over its items. */
  method ParseAlipayCsvBill(file: Option<CsvFile>) returns (r: Option<seq<LedgerItem>>)
    ensures r == AlipayCsvBill(file)
  {
    var raw := ParseCsvBill(file, AlipayMapping());
    if raw.None? || raw.value == [] {
      return None;
    }
    var data := KeepResults(AlipayItem, raw.value);
    return Some(data);
  }

  /** Every assembled item is an Alipay item paid through Alipay and
      successful, whatever the row holds. */
  lemma AlipayConstants(raw: seq<Item>)
    ensures forall it :: it in Kept(AlipayItem, raw) ==>
      it.account == Str("支付宝") && it.payment == Str("支付宝") && it.status == Str("交易成功")
  {
    KeptFrom(AlipayItem, raw);
    EmptySummaryUnknown();
  }

  /** The fallbacks of one item: the summary is the first truthy of the raw
      summary, description and counterparty; the counterparty falls back to
      the description; the description to the raw transaction type. */
  lemma AlipayFallbacks(item: Item)
    requires AlipayItem(item).Ok?
    ensures var a, b, c := Get(item, "交易摘要", Str("")), Get(item, "商品说明", Str("")), Get(item, "交易对方", Str(""));
      AlipayItem(item).value.summary == Some(if Truthy(a) then a else if Truthy(b) then b else c)
      && AlipayItem(item).value.counterparty == (if Truthy(c) then c else b)
      && AlipayItem(item).value.description == (if Truthy(b) then b else Get(item, "交易类型", Str("")))
  {
  }

  /** The type is the classification of the raw summary ('' when there is
      none), not of the summary after its fallbacks; the amount is 0.0
      without a raw amount and `parse_amount(str(v))` otherwise; the date is
      None when the raw date is missing or empty, a timestamp stays as it
      is, and text is read as '%Y-%m-%d %H:%M:%S', None when it cannot be. */
  lemma AlipayTypeAmountDate(item: Item)
    requires AlipayItem(item).Ok?
    ensures AlipayItem(item).value.kind == Str(StandardizeTransactionType(Get(item, "交易摘要", Str("")).s))
    ensures AlipayItem(item).value.amount == (if "金额" in item && item["金额"] != Nil then AmountOf(item["金额"]) else Num(0.0))
    ensures !Truthy(Get(item, "日期", Nil)) ==> AlipayItem(item).value.date == Nil
    ensures var v := Get(item, "日期", Nil);
      v.Stamp? ==> AlipayItem(item).value.date == v
    ensures var v := Get(item, "日期", Nil);
      v.Str? && v.s != [] ==>
        AlipayItem(item).value.date == (if ParseIso(v.s).Some? then Stamp(ParseIso(v.s).value) else Nil)
  {
  }

  /** Through `parse_csv_bill`'s reversed mapping the raw items never hold
      '日期', '交易摘要' or '收/支类型': every Alipay item then has no date,
      an empty direction, and the type '未知类型' of the empty summary. */
  lemma AlipayThroughCsv(file: Option<CsvFile>)
    requires AlipayCsvBill(file).Some?
    ensures forall it :: it in AlipayCsvBill(file).value ==>
      it.date == Nil && it.direction == Str("") && it.kind == Str("未知类型")
  {
    var raw := CsvBill(file, AlipayMapping()).value;
    assert forall it :: it in raw ==> "日期" !in it && "交易摘要" !in it && "收/支类型" !in it by {
      MappingKeys();
      ItemsKeyedByColumns(file, AlipayMapping(), "日期");
      ItemsKeyedByColumns(file, AlipayMapping(), "交易摘要");
      ItemsKeyedByColumns(file, AlipayMapping(), "收/支类型");
    }
    LackingFields(raw);
  }

  /** None of the three fields is a key of the mapping. */
  lemma MappingKeys()
    ensures forall j :: 0 <= j < |AlipayMapping()| ==>
      AlipayMapping()[j].0 != "日期" && AlipayMapping()[j].0 != "交易摘要" && AlipayMapping()[j].0 != "收/支类型"
  {
    assert "金额" != "日期" by {
      assert "金额"[0] != "日期"[0];
    }
    assert "备注" != "日期" by {
      assert "备注"[0] != "日期"[0];
    }
    assert "交易类型" != "交易摘要" by {
      assert "交易类型"[2] != "交易摘要"[2];
    }
    assert "交易时间" != "交易摘要" by {
      assert "交易时间"[2] != "交易摘要"[2];
    }
    assert "商品名称" != "交易摘要" by {
      assert "商品名称"[0] != "交易摘要"[0];
    }
    assert "交易对方" != "交易摘要" by {
      assert "交易对方"[2] != "交易摘要"[2];
    }
  }

  lemma LackingFields(raw: seq<Item>)
    requires forall it :: it in raw ==> "日期" !in it && "交易摘要" !in it && "收/支类型" !in it
    ensures forall it :: it in Kept(AlipayItem, raw) ==>
      it.date == Nil && it.direction == Str("") && it.kind == Str("未知类型")
  {
    KeptFrom(AlipayItem, raw);
    EmptySummaryUnknown();
  }

  /** A file that cannot be read, or has no header, gives None. */
  lemma AlipayMissingFile()
    ensures AlipayCsvBill(None) == None
    ensures forall rows :: AlipayCsvBill(Some(CsvFile([], rows))) == None
  {
  }
}
