/** `parse` of one_book_ledger/bill_parser/common_paser.py: read a bill file
    into a frame by its extension, transform it by a column mapping, and
    broadcast a few constant columns over it. Anything that raises on the
    way ends the call with None. */
module CommonParser {
  import opened Wrappers
  import opened Values
  import opened Text
  import opened Paths
  import opened Frames

  /** The two pandas readers, `read_csv_to_dataframe` and
      `read_excel_to_dataframe`, which return None for a file they cannot
      read. What they read from the disk is outside the model, so they are
      parameters: the CSV reader takes the path, the encoding and the
      number of lines to skip, the Excel reader the path and the lines to
      skip. */
  datatype Readers = Readers(
    csv: (string, Option<string>, nat) -> Option<WfTable>,
    excel: (string, nat) -> Option<WfTable>)

  /** `os.path.splitext(path)[1].lower()`. */
  function Extension(path: string): (e: string)
    ensures |e| == |Splitext(path).1|
    ensures e == [] || e[0] == '.'
  {
    Lower(Splitext(path).1)
  }

  /** Which reader the extension picks: '.csv' the CSV reader, '.xlsx'
      and '.xls' the Excel reader, anything else none at all. */
  function ReadTable(readers: Readers, path: string, encoding: Option<string>, skip: nat): (r: Option<WfTable>)
    ensures Extension(path) !in {".csv", ".xlsx", ".xls"} ==> r.None?
  {
    var ext := Extension(path);
    if ext == ".csv" then readers.csv(path, encoding, skip)
    else if ext == ".xlsx" || ext == ".xls" then readers.excel(path, skip)
    else None
  }

  /** The loop over `extra_columns.items()`, each `add_constant_column`
      overwriting or appending one column filled with its value. */
  function WithConstants(t: Table, extras: seq<(string, Value)>): Table
  {
    if extras == [] then t
    else
      var prev := WithConstants(t, extras[..|extras| - 1]);
      var (name, v) := extras[|extras| - 1];
      Assign(prev, name, Constant(prev.height, v))
  }

  /** `parse(input_f, column_mapping, extra_columns, encoding, skip_lines)`
      as a value: the read frame transformed and given its constants, or
      None when the extension is unsupported, the reader gives up, or a
      conversion raises. */
  function ParseTable(readers: Readers, path: string, mapping: seq<Triple>, extras: seq<(string, Value)>,
                      encoding: Option<string>, skip: nat): (r: Option<Table>)
    ensures r.Some? <==>
      ReadTable(readers, path, encoding, skip).Some?
      && TransformTable(ReadTable(readers, path, encoding, skip).value, mapping).Ok?
  {
    match ReadTable(readers, path, encoding, skip)
    case None => None
    case Some(df) =>
      match TransformTable(df, mapping)
      case Raise => None
      case Ok(t) => Some(WithConstants(t, extras))
  }

  /** `parse` itself: the frame `transform_dataframe` builds, then one
      `add_constant_column` per extra column on that same frame. */
  method Parse(readers: Readers, path: string, mapping: seq<Triple>, extras: seq<(string, Value)>,
               encoding: Option<string>, skip: nat) returns (r: Option<Frame>)
    ensures r.None? <==> ParseTable(readers, path, mapping, extras, encoding, skip).None?
    ensures r.Some? ==>
      fresh(r.value) && r.value.Valid()
      && r.value.View() == ParseTable(readers, path, mapping, extras, encoding, skip).value
  {
    var df := ReadTable(readers, path, encoding, skip);
    if df.None? {
      return None;
    }
    var transformed := TransformDataFrame(df.value, mapping);
    if transformed.Raise? {
      return None;
    }
    var frame := transformed.value;
    ghost var t := TransformTable(df.value, mapping).value;
    assert frame.View() == WithConstants(t, extras[..0]);
    var i := 0;
    while i < |extras|
      invariant i <= |extras|
      invariant frame.Valid()
      invariant frame.View() == WithConstants(t, extras[..i])
      modifies frame
    {
      assert extras[..i + 1][..i] == extras[..i];
      frame.AddConstantColumn(extras[i].0, extras[i].1);
      i := i + 1;
    }
    assert extras[..i] == extras;
    r := Some(frame);
  }

  /** `name` is one of the extra columns. */
  predicate Extra(extras: seq<(string, Value)>, name: string)
  {
    exists k :: 0 <= k < |extras| && extras[k].0 == name
  }

  /** Broadcasting constants keeps the frame well formed and as long as it
      was, and moves no column. */
  lemma {:induction false} WithConstantsShape(t: Table, extras: seq<(string, Value)>)
    requires WellFormed(t)
    ensures var r := WithConstants(t, extras);
      WellFormed(r) && r.height == t.height
      && |t.names| <= |r.names| && r.names[..|t.names|] == t.names
  {
    if extras != [] {
      var init := extras[..|extras| - 1];
      var (name, v) := extras[|extras| - 1];
      WithConstantsShape(t, init);
      var prev := WithConstants(t, init);
      AssignKeeps(prev, name, Constant(prev.height, v));
      var r := WithConstants(t, extras);
      assert r.names[..|t.names|] == t.names by {
        assert r.names[..|prev.names|] == prev.names;
      }
    }
  }

  /** The columns afterwards are the frame's and the extra ones. */
  lemma {:induction false} WithConstantsDomain(t: Table, extras: seq<(string, Value)>)
    ensures forall n :: n in WithConstants(t, extras).columns <==> n in t.columns || Extra(extras, n)
  {
    if extras != [] {
      var init := extras[..|extras| - 1];
      var name := extras[|extras| - 1].0;
      WithConstantsDomain(t, init);
      forall n ensures n in WithConstants(t, extras).columns <==> n in t.columns || Extra(extras, n) {
        if Extra(init, n) {
          var k :| 0 <= k < |init| && init[k].0 == n;
          assert extras[k].0 == n;
        }
        if n != name && Extra(extras, n) {
          var k :| 0 <= k < |extras| && extras[k].0 == n;
          assert init[k].0 == n;
        }
      }
    }
  }

  /** An extra column holds its value on every row; when a name repeats,
      the last value wins. */
  lemma {:induction false} WithConstantsValues(t: Table, extras: seq<(string, Value)>, k: nat)
    requires WellFormed(t)
    requires k < |extras| && forall j :: k < j < |extras| ==> extras[j].0 != extras[k].0
    ensures extras[k].0 in WithConstants(t, extras).columns
    ensures WithConstants(t, extras).columns[extras[k].0] == Constant(t.height, extras[k].1)
  {
    var init := extras[..|extras| - 1];
    var (name, v) := extras[|extras| - 1];
    WithConstantsShape(t, init);
    var prev := WithConstants(t, init);
    AssignKeeps(prev, name, Constant(prev.height, v));
    if k < |extras| - 1 {
      WithConstantsValues(t, init, k);
    }
  }

  /** A column that is not an extra column keeps the cells it had. */
  lemma {:induction false} WithConstantsOthers(t: Table, extras: seq<(string, Value)>, n: string)
    requires WellFormed(t) && n in t.columns && !Extra(extras, n)
    ensures n in WithConstants(t, extras).columns
    ensures WithConstants(t, extras).columns[n] == t.columns[n]
  {
    if extras != [] {
      var init := extras[..|extras| - 1];
      var (name, v) := extras[|extras| - 1];
      assert !Extra(init, n);
      assert name != n by {
        assert extras[|extras| - 1].0 == name;
      }
      WithConstantsOthers(t, init, n);
      WithConstantsShape(t, init);
      var prev := WithConstants(t, init);
      AssignKeeps(prev, name, Constant(prev.height, v));
    }
  }

  /** What `parse` returns: the transformed frame, with each extra column
      filled with its value, every other column as the transform left it,
      and no row added or lost. */
  lemma ParseResult(readers: Readers, path: string, mapping: seq<Triple>, extras: seq<(string, Value)>,
                    encoding: Option<string>, skip: nat)
    requires ParseTable(readers, path, mapping, extras, encoding, skip).Some?
    ensures var df := ReadTable(readers, path, encoding, skip).value;
      var t := TransformTable(df, mapping).value;
      var r := ParseTable(readers, path, mapping, extras, encoding, skip).value;
      WellFormed(r) && r.height == t.height
      && |t.names| <= |r.names| && r.names[..|t.names|] == t.names
      && (forall n :: n in r.columns <==> n in t.columns || Extra(extras, n))
      && (forall k :: 0 <= k < |extras| && (forall j :: k < j < |extras| ==> extras[j].0 != extras[k].0) ==>
            extras[k].0 in r.columns && r.columns[extras[k].0] == Constant(t.height, extras[k].1))
      && (forall n :: n in t.columns && !Extra(extras, n) ==> n in r.columns && r.columns[n] == t.columns[n])
  {
    var df := ReadTable(readers, path, encoding, skip).value;
    TransformWellFormed(df, mapping);
    var t := TransformTable(df, mapping).value;
    WithConstantsShape(t, extras);
    WithConstantsDomain(t, extras);
    forall k | 0 <= k < |extras| && (forall j :: k < j < |extras| ==> extras[j].0 != extras[k].0)
      ensures extras[k].0 in WithConstants(t, extras).columns
      ensures WithConstants(t, extras).columns[extras[k].0] == Constant(t.height, extras[k].1)
    {
      WithConstantsValues(t, extras, k);
    }
    forall n | n in t.columns && !Extra(extras, n)
      ensures n in WithConstants(t, extras).columns && WithConstants(t, extras).columns[n] == t.columns[n]
    {
      WithConstantsOthers(t, extras, n);
    }
  }

  /** One extra column of what `parse` returns: its value on every row,
      the last one when the name repeats. */
  lemma ParseConstantColumn(readers: Readers, path: string, mapping: seq<Triple>, extras: seq<(string, Value)>,
                            encoding: Option<string>, skip: nat, k: nat)
    requires ParseTable(readers, path, mapping, extras, encoding, skip).Some?
    requires k < |extras| && forall j :: k < j < |extras| ==> extras[j].0 != extras[k].0
    ensures var r := ParseTable(readers, path, mapping, extras, encoding, skip).value;
      extras[k].0 in r.columns && r.columns[extras[k].0] == Constant(r.height, extras[k].1)
  {
    ParseResult(readers, path, mapping, extras, encoding, skip);
  }

  /** A column of what `parse` returns that is not an extra column: as the
      transform left it. */
  lemma ParseTransformedColumn(readers: Readers, path: string, mapping: seq<Triple>, extras: seq<(string, Value)>,
                               encoding: Option<string>, skip: nat, n: string)
    requires ParseTable(readers, path, mapping, extras, encoding, skip).Some?
    requires n in TransformTable(ReadTable(readers, path, encoding, skip).value, mapping).value.columns
    requires !Extra(extras, n)
    ensures var t := TransformTable(ReadTable(readers, path, encoding, skip).value, mapping).value;
      var r := ParseTable(readers, path, mapping, extras, encoding, skip).value;
      r.height == t.height && n in r.columns && r.columns[n] == t.columns[n]
  {
    ParseResult(readers, path, mapping, extras, encoding, skip);
  }

  /** The column a converting triple fills, when no later triple and no
      extra column overwrites it: the converter applied to every cell of its
      source, one row per row of the input. */
  lemma ParseConvertedColumn(readers: Readers, path: string, mapping: seq<Triple>, extras: seq<(string, Value)>,
                             encoding: Option<string>, skip: nat, j: nat)
    requires ParseTable(readers, path, mapping, extras, encoding, skip).Some?
    requires j < |mapping| && mapping[j].2.Convert?
    requires mapping[j].0 in ReadTable(readers, path, encoding, skip).value.names
    requires forall k :: j < k < |mapping| ==> mapping[k].1 != mapping[j].1
    requires !Extra(extras, mapping[j].1)
    ensures var df := ReadTable(readers, path, encoding, skip).value;
      var r := ParseTable(readers, path, mapping, extras, encoding, skip).value;
      var src := df.columns[mapping[j].0];
      mapping[j].1 in r.columns && r.height == df.height == |src|
      && |r.columns[mapping[j].1]| == |src|
      && forall i :: 0 <= i < |src| ==>
           mapping[j].2.f(src[i]).Ok? && r.columns[mapping[j].1][i] == mapping[j].2.f(src[i]).value
  {
    var df := ReadTable(readers, path, encoding, skip).value;
    TransformLastWins(df, mapping, j);
    TransformWellFormed(df, mapping);
    ParseTransformedColumn(readers, path, mapping, extras, encoding, skip, mapping[j].1);
  }

  /** The column a copying triple fills, when no later triple and no extra
      column overwrites it: its source column unchanged. */
  lemma ParseCopiedColumn(readers: Readers, path: string, mapping: seq<Triple>, extras: seq<(string, Value)>,
                          encoding: Option<string>, skip: nat, j: nat)
    requires ParseTable(readers, path, mapping, extras, encoding, skip).Some?
    requires j < |mapping| && mapping[j].2.Copy?
    requires mapping[j].0 in ReadTable(readers, path, encoding, skip).value.names
    requires forall k :: j < k < |mapping| ==> mapping[k].1 != mapping[j].1
    requires !Extra(extras, mapping[j].1)
    ensures var df := ReadTable(readers, path, encoding, skip).value;
      var r := ParseTable(readers, path, mapping, extras, encoding, skip).value;
      mapping[j].1 in r.columns && r.columns[mapping[j].1] == df.columns[mapping[j].0]
  {
    var df := ReadTable(readers, path, encoding, skip).value;
    TransformLastWins(df, mapping, j);
    ParseTransformedColumn(readers, path, mapping, extras, encoding, skip, mapping[j].1);
  }

  /** The extension is compared case-insensitively: 'bill.CSV' goes to the
      CSV reader. */
  lemma UpperCaseCsv(readers: Readers, encoding: Option<string>, skip: nat)
    ensures ReadTable(readers, "bill.CSV", encoding, skip) == readers.csv("bill.CSV", encoding, skip)
  {
    BillCsvSplit();
    LowerCsv();
  }

  lemma BillCsvSplit()
    ensures Splitext("bill.CSV").1 == ".CSV"
  {
    var p := "bill.CSV";
    assert '/' !in p;
    assert p[5..] == "CSV";
    LastIndexIs(p, 4, '.');
    assert p[0] != '.';
    assert NotAllDots(p, 0, 4);
    assert p[4..] == ".CSV";
  }

  /** Only the last suffix counts: 'bill.csv.bak' is not read at all. */
  lemma BackupNotRead(readers: Readers, mapping: seq<Triple>, extras: seq<(string, Value)>,
                      encoding: Option<string>, skip: nat)
    ensures ParseTable(readers, "bill.csv.bak", mapping, extras, encoding, skip).None?
  {
    BackupSplit();
    LowerBak();
  }

  lemma BackupSplit()
    ensures Splitext("bill.csv.bak").1 == ".bak"
  {
    var p := "bill.csv.bak";
    assert '/' !in p;
    assert p[9..] == "bak";
    LastIndexIs(p, 8, '.');
    assert p[0] != '.';
    assert NotAllDots(p, 0, 8);
    assert p[8..] == ".bak";
  }

  lemma LowerCsv()
    ensures Lower(".CSV") == ".csv"
  {
    assert LowerChar('C') == 'c' && LowerChar('S') == 's' && LowerChar('V') == 'v';
  }

  lemma LowerBak()
    ensures Lower(".bak") == ".bak"
  {
  }
}
