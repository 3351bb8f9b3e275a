/** `parse_csv_bill` of one_book_ledger/utils/csv_bill_parser.py: the rows
    of a CSV file, read as dicts keyed by the header, turned into items
    through a column mapping. */
module CsvBillParser {
  import opened Wrappers
  import opened Values

  /** What `csv.DictReader` yields: the header's field names and one dict
      per data row. None stands for a file that cannot be opened or decoded. */
  datatype CsvFile = CsvFile(fieldnames: seq<string>, rows: seq<Item>)

  /** The item the row loop builds. The mapping is written
      {CSV column: field}, but its pairs are unpacked as (field, column): for
      each entry (k, v), `item[k] = row[v]` when the row has a column named
      `v`. So an item is keyed by the mapping's keys, and only an entry whose
      key and value agree copies the cell of its own column. */
  function SwappedItem(mapping: seq<(string, string)>, row: Item): (r: Item)
    ensures forall k :: k in r <==> exists j :: 0 <= j < |mapping| && mapping[j].0 == k && mapping[j].1 in row
  {
    if mapping == [] then map[]
    else
      var init := mapping[..|mapping| - 1];
      var last := mapping[|mapping| - 1];
      assert forall j :: 0 <= j < |init| ==> init[j] == mapping[j];
      var prev := SwappedItem(init, row);
      if last.1 in row then prev[last.0 := row[last.1]] else prev
  }

  /** The cell an entry copies: the key's field holds the row's cell under
      the entry's value, as long as no later entry has the same key. */
  lemma {:induction false} SwappedItemCell(mapping: seq<(string, string)>, row: Item, j: nat)
    requires j < |mapping| && mapping[j].1 in row
    requires forall k :: j < k < |mapping| ==> mapping[k].0 != mapping[j].0
    ensures mapping[j].0 in SwappedItem(mapping, row)
    ensures SwappedItem(mapping, row)[mapping[j].0] == row[mapping[j].1]
  {
    if j < |mapping| - 1 {
      var init := mapping[..|mapping| - 1];
      assert forall k :: j < k < |init| ==> init[k] == mapping[k];
      SwappedItemCell(init, row, j);
    }
  }

  /** `parse_csv_bill(path, mapping)` on what the reader yields: None when the
      file cannot be read or has no header row; otherwise exactly one item
      per data row, in file order, possibly empty. No row can fail: every
      lookup is guarded by a membership test. */
  function CsvBill(file: Option<CsvFile>, mapping: seq<(string, string)>): (r: Option<seq<Item>>)
    ensures r.None? <==> file.None? || file.value.fieldnames == []
  {
    match file
    case None => None
    case Some(f) =>
      if f.fieldnames == [] then None
      else Some(seq(|f.rows|, i requires 0 <= i < |f.rows| => SwappedItem(mapping, f.rows[i])))
  }

  /** The row loop of `parse_csv_bill`, with the inner loop over the mapping. */
  method ParseCsvBill(file: Option<CsvFile>, mapping: seq<(string, string)>) returns (r: Option<seq<Item>>)
    ensures r == CsvBill(file, mapping)
    ensures r.Some? ==> |r.value| == |file.value.rows|
    ensures r.Some? ==> forall i :: 0 <= i < |r.value| ==> r.value[i] == SwappedItem(mapping, file.value.rows[i])
  {
    if file.None? || file.value.fieldnames == [] {
      return None;
    }
    var rows := file.value.rows;
    var data: seq<Item> := [];
    var i := 0;
    while i < |rows|
      invariant i <= |rows|
      invariant |data| == i
      invariant forall k :: 0 <= k < i ==> data[k] == SwappedItem(mapping, rows[k])
    {
      var item := FillItem(mapping, rows[i]);
      data := data + [item];
      i := i + 1;
    }
    assert data == CsvBill(file, mapping).value;
    return Some(data);
  }

  /** The inner loop of `parse_csv_bill`: one item from one row. */
  method FillItem(mapping: seq<(string, string)>, row: Item) returns (item: Item)
    ensures item == SwappedItem(mapping, row)
  {
    item := map[];
    var j := 0;
    while j < |mapping|
      invariant j <= |mapping|
      invariant item == SwappedItem(mapping[..j], row)
    {
      assert mapping[..j + 1][..j] == mapping[..j];
      var (fieldName, colName) := mapping[j];
      if colName in row {
        item := item[fieldName := row[colName]];
      }
      j := j + 1;
    }
    assert mapping[..j] == mapping;
  }

  /** Items are keyed only by the mapping's keys, the CSV column names: a
      field name that is not also a key never appears in any item. */
  lemma ItemsKeyedByColumns(file: Option<CsvFile>, mapping: seq<(string, string)>, field: string)
    requires forall j :: 0 <= j < |mapping| ==> mapping[j].0 != field
    requires CsvBill(file, mapping).Some?
    ensures forall it :: it in CsvBill(file, mapping).value ==> field !in it
  {
    var items := CsvBill(file, mapping).value;
    forall it | it in items ensures field !in it {
      var i :| 0 <= i < |items| && items[i] == it;
      assert it == SwappedItem(mapping, file.value.rows[i]);
    }
  }
}
