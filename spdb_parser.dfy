/** `_parse_spdb_xls_data_rows` of one_book_ledger/bill_parser/spdb_parser.py:
    the data rows of a Shanghai Pudong Development Bank credit-card sheet,
    read by header position, turned into ledger items. */
module SpdbParser {
  import opened Wrappers
  import opened DateTimes
  import opened Values
  import opened Classifier
  import opened LedgerUtils
  import opened LedgerItems

  /** The `column_indices` dict: the header positions of '交易日期',
      '交易摘要' and '交易金额', None for a column the header lacks. */
  datatype Columns = Columns(date: Option<nat>, summary: Option<nat>, amount: Option<nat>)

  function SpdbColumns(header: seq<Value>): (c: Columns)
    ensures c.date.None? <==> Str("交易日期") !in header
    ensures c.summary.None? <==> Str("交易摘要") !in header
    ensures c.amount.None? <==> Str("交易金额") !in header
    ensures c.date.Some? ==> c.date.value < |header| && header[c.date.value] == Str("交易日期")
    ensures c.summary.Some? ==> c.summary.value < |header| && header[c.summary.value] == Str("交易摘要")
    ensures c.amount.Some? ==> c.amount.value < |header| && header[c.amount.value] == Str("交易金额")
  {
    Columns(IndexOf(header, Str("交易日期")), IndexOf(header, Str("交易摘要")), IndexOf(header, Str("交易金额")))
  }

  /** `row_values[index]`: a None index raises a TypeError and a position
      past the row's end an IndexError. */
  function Cell(row: seq<Value>, index: Option<nat>): (r: Raising<Value>)
    ensures r.Ok? <==> index.Some? && index.value < |row|
    ensures r.Ok? ==> r.value == row[index.value]
  {
    if index.Some? && index.value < |row| then Ok(row[index.value]) else Raise
  }

  /** The direction of an amount in this bill: a negative amount is
      spending and anything else, NaN included, income. */
  function SpdbDirection(amount: Value): (r: Value)
    ensures r == Str("支出") || r == Str("收入")
  {
    if amount.Num? && amount.x < 0.0 then Str("支出") else Str("收入")
  }

  /** The body of the `try` for one non-empty row. The item is appended
      only at its end, so a row on which any step raises contributes
      nothing. */
  function SpdbItem(cols: Columns, row: seq<Value>): (r: Raising<LedgerItem>)
    ensures r.Ok? <==>
      Cell(row, cols.date).Ok? && Cell(row, cols.summary).Ok? && Cell(row, cols.amount).Ok?
      && ParseDatetime(Cell(row, cols.date).value, Some(YearMonthDay)).Ok?
      && Cell(row, cols.summary).value.Str?
  {
    var dateCell := Cell(row, cols.date);
    if dateCell.Raise? then Raise
    else
      var date := ParseDatetime(dateCell.value, Some(YearMonthDay));
      if date.Raise? then Raise
      else
        var summaryCell := Cell(row, cols.summary);
        if summaryCell.Raise? then Raise
        else
          var kind := StandardizeValue(summaryCell.value);
          if kind.Raise? then Raise
          else
            var amountCell := Cell(row, cols.amount);
            if amountCell.Raise? then Raise
            else
              var amount := AmountOf(amountCell.value);
              Ok(LedgerItem(
                account := Str("浦发银行"),
                date := if date.value.Some? then Stamp(date.value.value) else Nil,
                summary := None,
                counterparty := summaryCell.value,
                description := summaryCell.value,
                amount := amount,
                direction := SpdbDirection(amount),
                payment := Str("浦发银行信用卡"),
                status := Str("交易成功"),
                note := Str(""),
                kind := Str(kind.value)))
  }

  /** One pass of the row loop: an empty row (`not any(row_values)`) is
      skipped like a row that raises. */
  function SpdbRow(cols: Columns, row: seq<Value>): Raising<LedgerItem>
  {
    if !Any(row) then Raise else SpdbItem(cols, row)
  }

  function SpdbRowOf(cols: Columns): seq<Value> -> Raising<LedgerItem>
  {
    row => SpdbRow(cols, row)
  }

  /** `_parse_spdb_xls_data_rows(sheet, header_row)`, with `rows` the data
      rows below the header. */
  function SpdbBill(header: seq<Value>, rows: seq<seq<Value>>): (r: seq<LedgerItem>)
    ensures |r| <= |rows|
  {
    Kept(SpdbRowOf(SpdbColumns(header)), rows)
  }

  /** The column lookups, then the row loop. */
  method ParseSpdbRows(header: seq<Value>, rows: seq<seq<Value>>) returns (items: seq<LedgerItem>)
    ensures items == SpdbBill(header, rows)
  {
    var cols := SpdbColumns(header);
    items := KeepResults(SpdbRowOf(cols), rows);
  }

  /** A header without one of the three columns makes every row raise: the
      bill is empty whatever the rows hold. */
  lemma SpdbMissingColumn(header: seq<Value>, rows: seq<seq<Value>>)
    requires Str("交易日期") !in header || Str("交易摘要") !in header || Str("交易金额") !in header
    ensures SpdbBill(header, rows) == []
  {
    var f := SpdbRowOf(SpdbColumns(header));
    assert forall k :: 0 <= k < |rows| ==> f(rows[k]).Raise?;
    KeptNone(f, rows);
  }

  /** Every item is a Pudong Bank credit-card item, successful, without a
      note and without a 交易摘要 key; its counterparty and description are
      both the summary cell, and its type is that text classified. */
  lemma SpdbItems(header: seq<Value>, rows: seq<seq<Value>>)
    ensures forall it :: it in SpdbBill(header, rows) ==>
      it.account == Str("浦发银行") && it.payment == Str("浦发银行信用卡") && it.status == Str("交易成功")
      && it.note == Str("") && it.summary.None?
      && it.counterparty.Str? && it.description == it.counterparty
      && it.kind == Str(StandardizeTransactionType(it.counterparty.s))
  {
    KeptFrom(SpdbRowOf(SpdbColumns(header)), rows);
  }

  /** Where an item's fields come from: counterparty and description are
      both the row's summary cell, the amount is `parse_amount(str(v))` of
      its amount cell, the date is its date cell read with '%Y%m%d' (None
      when that fails or the cell is empty), and the direction follows the
      sign of that amount. */
  lemma SpdbItemFields(cols: Columns, row: seq<Value>)
    requires SpdbItem(cols, row).Ok?
    ensures var it := SpdbItem(cols, row).value;
      it.counterparty == Cell(row, cols.summary).value && it.description == Cell(row, cols.summary).value
      && it.amount == AmountOf(Cell(row, cols.amount).value)
      && it.direction == SpdbDirection(AmountOf(Cell(row, cols.amount).value))
    ensures var it, d := SpdbItem(cols, row).value, ParseDatetime(Cell(row, cols.date).value, Some(YearMonthDay));
      it.date == (if d.value.Some? then Stamp(d.value.value) else Nil)
  {
  }

  /** Every item of the bill comes from one of the data rows, field by
      field as `SpdbItemFields` states. */
  lemma SpdbItemsFromRows(header: seq<Value>, rows: seq<seq<Value>>)
    ensures forall it :: it in SpdbBill(header, rows) ==>
      exists k :: 0 <= k < |rows| && Any(rows[k]) && SpdbItem(SpdbColumns(header), rows[k]) == Ok(it)
  {
    KeptFrom(SpdbRowOf(SpdbColumns(header)), rows);
  }

  /** The direction is '支出' exactly for a negative amount; a NaN amount
      counts as income. */
  lemma SpdbDirections(header: seq<Value>, rows: seq<seq<Value>>)
    ensures forall it :: it in SpdbBill(header, rows) ==>
      (it.direction == Str("支出") <==> it.amount.Num? && it.amount.x < 0.0)
      && (it.direction == Str("收入") <==> !(it.amount.Num? && it.amount.x < 0.0))
  {
    KeptFrom(SpdbRowOf(SpdbColumns(header)), rows);
  }

  /** Dates are read with '%Y%m%d' only: a text cell shorter than six or
      longer than eight characters gives None. */
  lemma SpdbDateCompact(cols: Columns, row: seq<Value>)
    requires SpdbItem(cols, row).Ok?
    ensures var d := Cell(row, cols.date).value;
      d.Str? && (|d.s| < 6 || |d.s| > 8) ==> SpdbItem(cols, row).value.date == Nil
  {
    var d := Cell(row, cols.date).value;
    if d.Str? && (|d.s| < 6 || |d.s| > 8) && ParseDatetime(d, Some(YearMonthDay)) != Ok(None) {
      ParseDatetimeStrict(d.s, Some(YearMonthDay));
    }
  }

  /** With the three columns present and every row long enough, a row that
      is not empty is kept exactly when its date cell is text, a timestamp
      or falsy, and its summary cell is text. */
  lemma SpdbRowKept(header: seq<Value>, row: seq<Value>)
    requires var c := SpdbColumns(header);
      c.date.Some? && c.summary.Some? && c.amount.Some?
      && c.date.value < |row| && c.summary.value < |row| && c.amount.value < |row|
    requires Any(row)
    ensures var c := SpdbColumns(header);
      var d := row[c.date.value];
      SpdbRow(c, row).Ok? <==> (!Truthy(d) || d.Str? || d.Stamp?) && row[c.summary.value].Str?
  {
  }
}
