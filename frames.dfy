/** The DataFrame side of the pipeline, one_book_ledger/bill_parser/utils.py:
    `transform_dataframe`, which builds a new frame column by column from
    (source, target, transform) triples, and `add_constant_column`, which
    overwrites one column of a frame in place. */
module Frames {
  import opened Wrappers
  import opened Values

  /** A DataFrame as a value: its column names in order, one column of cells
      per name, and its number of rows. */
  datatype Table = Table(names: seq<string>, columns: map<string, seq<Value>>, height: nat)

  /** Names are distinct, each has a column, and every column is as long as
      the frame. */
  predicate WellFormed(t: Table)
  {
    (forall i, j :: 0 <= i < j < |t.names| ==> t.names[i] != t.names[j])
    && (forall n :: n in t.columns ==> n in t.names)
    && (forall i :: 0 <= i < |t.names| ==> t.names[i] in t.columns)
    && (forall n :: n in t.columns ==> |t.columns[n]| == t.height)
  }

  /** What a reader hands over: a well-formed frame. */
  type WfTable = t: Table | WellFormed(t) witness Table([], map[], 0)

  /** `pd.DataFrame()`. */
  function EmptyTable(): (t: Table)
    ensures WellFormed(t) && t.names == [] && t.height == 0
  {
    Table([], map[], 0)
  }

  /** `frame[name] = column`: an existing column is replaced where it
      stands, a new one is appended at the end. A frame without columns
      takes the length of the column it is given. */
  function Assign(t: Table, name: string, col: seq<Value>): Table
  {
    Table(if name in t.names then t.names else t.names + [name],
          t.columns[name := col],
          if t.names == [] then |col| else t.height)
  }

  /** Assigning a column of the frame's length keeps the frame well formed,
      leaves every other column as it was, and moves no column. */
  lemma AssignKeeps(t: Table, name: string, col: seq<Value>)
    requires WellFormed(t) && (t.names == [] || |col| == t.height)
    ensures var r := Assign(t, name, col);
      WellFormed(r) && name in r.columns && r.columns[name] == col
      && (forall n :: n != name ==> (n in r.columns <==> n in t.columns))
      && (forall n :: n != name && n in t.columns ==> r.columns[n] == t.columns[n])
      && |r.names| == |t.names| + (if name in t.names then 0 else 1)
      && (forall i :: 0 <= i < |t.names| ==> r.names[i] == t.names[i])
  {
    var r := Assign(t, name, col);
    assert forall n :: n in r.columns ==> n in r.names;
    assert forall n :: n in r.columns ==> |r.columns[n]| == r.height;
  }

  /** The column a constant broadcasts to. */
  function Constant(height: nat, v: Value): (col: seq<Value>)
    ensures |col| == height && forall i :: 0 <= i < height ==> col[i] == v
  {
    seq(height, _ => v)
  }

  /** The column `frame.loc[mask, name] = v` leaves: the rows the mask
      selects get `v`; the others keep their cell, or get NaN when the column
      is new. */
  function MaskedColumn(t: Table, mask: seq<bool>, name: string, v: Value): (col: seq<Value>)
    requires |mask| == t.height
    requires name in t.columns ==> |t.columns[name]| == t.height
    ensures |col| == t.height
  {
    seq(t.height, i requires 0 <= i < t.height =>
      if mask[i] then v else if name in t.columns then t.columns[name][i] else NaN)
  }

  /** `frame.loc[mask, name] = v`. */
  function AssignWhere(t: Table, mask: seq<bool>, name: string, v: Value): Table
    requires |mask| == t.height
    requires name in t.columns ==> |t.columns[name]| == t.height
  {
    Assign(t, name, MaskedColumn(t, mask, name, v))
  }

  /** A pandas frame that its methods update in place. */
  class Frame {
    var names: seq<string>
    var columns: map<string, seq<Value>>
    var height: nat

    function View(): Table
      reads this
    {
      Table(names, columns, height)
    }

    predicate Valid()
      reads this
    {
      WellFormed(View())
    }

    /** `pd.DataFrame()`. */
    constructor ()
      ensures Valid() && View() == EmptyTable()
    {
      names := [];
      columns := map[];
      height := 0;
    }

    /** `frame[name] = column`. */
    method SetColumn(name: string, col: seq<Value>)
      requires Valid()
      requires names == [] || |col| == height
      modifies this
      ensures Valid()
      ensures View() == Assign(old(View()), name, col)
    {
      AssignKeeps(View(), name, col);
      if names == [] {
        height := |col|;
      }
      if name !in names {
        names := names + [name];
      }
      columns := columns[name := col];
    }

    /** `add_constant_column(frame, name, value)`: every row of the named
        column becomes `value`, in this same frame. */
    method AddConstantColumn(name: string, value: Value)
      requires Valid()
      modifies this
      ensures Valid()
      ensures View() == Assign(old(View()), name, Constant(old(height), value))
    {
      SetColumn(name, Constant(height, value));
    }

    /** `frame.loc[mask, name] = v`, row by row. */
    method SetWhere(mask: seq<bool>, name: string, v: Value)
      requires Valid() && names != [] && |mask| == height
      modifies this
      ensures Valid()
      ensures View() == AssignWhere(old(View()), mask, name, v)
    {
      var col: seq<Value> := [];
      var i := 0;
      while i < height
        invariant i <= height
        invariant |col| == i
        invariant forall k :: 0 <= k < i ==>
          col[k] == (if mask[k] then v else if name in columns then columns[name][k] else NaN)
      {
        var cell := if mask[i] then v else if name in columns then columns[name][i] else NaN;
        col := col + [cell];
        i := i + 1;
      }
      assert col == MaskedColumn(View(), mask, name, v);
      SetColumn(name, col);
    }

    /** One pass of the loop of `transform_dataframe`: the triple's column
        assigned into this frame, or `raised` when its callable raises. */
    method ApplyTriple(df: WfTable, t: Triple) returns (raised: bool)
      requires Valid() && (names == [] || height == df.height)
      modifies this
      ensures raised <==> Step(df, old(View()), t).Raise?
      ensures !raised ==> Valid() && View() == Step(df, old(View()), t).value
    {
      raised := false;
      var (src, dst, kind) := t;
      if src in df.names {
        var col := df.columns[src];
        match kind
        case Convert(f) =>
          var applied := ApplyEach(f, col);
          if applied.Raise? {
            raised := true;
          } else {
            SetColumn(dst, applied.value);
          }
        case Lookup(table) =>
          SetColumn(dst, MapOrKeep(table, col));
        case Copy =>
          SetColumn(dst, col);
        case Invalid =>
      }
    }
  }

  // ------------------------------------------------------ transform_dataframe

  /** The third element of a triple: a callable, a dict, None, or anything
      else (which is reported and ignored). */
  datatype Transform =
    | Convert(f: Value -> Raising<Value>)
    | Lookup(table: map<Value, Value>)
    | Copy
    | Invalid

  /** A (source column, target column, transform) triple. */
  type Triple = (string, string, Transform)

  /** `series.apply(f)`: `f` on every cell; an exception from any cell
      escapes. */
  function ApplyColumn(f: Value -> Raising<Value>, col: seq<Value>): (r: Raising<seq<Value>>)
    ensures r.Ok? <==> forall i :: 0 <= i < |col| ==> f(col[i]).Ok?
    ensures r.Ok? ==> |r.value| == |col| && forall i :: 0 <= i < |col| ==> r.value[i] == f(col[i]).value
  {
    if col == [] then Ok([])
    else
      var init := col[..|col| - 1];
      assert forall i :: 0 <= i < |init| ==> init[i] == col[i];
      var prev := ApplyColumn(f, init);
      var last := f(col[|col| - 1]);
      if prev.Raise? || last.Raise? then Raise else Ok(prev.value + [last.value])
  }

  /** The loop behind `series.apply(f)`. */
  method ApplyEach(f: Value -> Raising<Value>, col: seq<Value>) returns (r: Raising<seq<Value>>)
    ensures r == ApplyColumn(f, col)
  {
    var out: seq<Value> := [];
    var i := 0;
    while i < |col|
      invariant i <= |col|
      invariant ApplyColumn(f, col[..i]) == Ok(out)
    {
      assert col[..i + 1][..i] == col[..i];
      var y := f(col[i]);
      if y.Raise? {
        assert ApplyColumn(f, col[..i + 1]).Raise?;
        RaiseExtends(f, col, i + 1);
        return Raise;
      }
      out := out + [y.value];
      i := i + 1;
    }
    assert col[..i] == col;
    return Ok(out);
  }

  /** A cell that raises makes the whole column raise. */
  lemma RaiseExtends(f: Value -> Raising<Value>, col: seq<Value>, k: nat)
    requires k <= |col| && ApplyColumn(f, col[..k]).Raise?
    ensures ApplyColumn(f, col).Raise?
  {
    var j :| 0 <= j < k && f(col[..k][j]).Raise?;
    assert col[j] == col[..k][j];
  }

  /** pandas' missing values: None and NaN. */
  predicate Missing(v: Value)
  {
    v == Nil || v == NaN
  }

  /** `series.map(table)`: a cell the table has no key for becomes NaN. */
  function MapColumn(table: map<Value, Value>, col: seq<Value>): (r: seq<Value>)
    ensures |r| == |col|
  {
    seq(|col|, i requires 0 <= i < |col| => if col[i] in table then table[col[i]] else NaN)
  }

  /** `a.fillna(b)`: the missing cells of `a` taken from `b`. */
  function FillMissing(a: seq<Value>, b: seq<Value>): (r: seq<Value>)
    requires |a| == |b|
    ensures |r| == |a|
  {
    seq(|a|, i requires 0 <= i < |a| => if Missing(a[i]) then b[i] else a[i])
  }

  /** `series.map(table).fillna(series)`: looked up where the table has a
      usable value, kept as it was elsewhere. */
  function MapOrKeep(table: map<Value, Value>, col: seq<Value>): (r: seq<Value>)
    ensures |r| == |col|
  {
    FillMissing(MapColumn(table, col), col)
  }

  /** A dict transform keeps every cell the dict has no key for, replaces
      every cell it maps to a present value, and produces nothing but cells
      of the column or values of the dict. */
  lemma MapOrKeepCells(table: map<Value, Value>, col: seq<Value>)
    ensures forall i :: 0 <= i < |col| && col[i] !in table ==> MapOrKeep(table, col)[i] == col[i]
    ensures forall i :: 0 <= i < |col| && col[i] in table && !Missing(table[col[i]]) ==>
      MapOrKeep(table, col)[i] == table[col[i]]
    ensures forall i :: 0 <= i < |col| ==>
      MapOrKeep(table, col)[i] == col[i] || (col[i] in table && MapOrKeep(table, col)[i] == table[col[i]])
  {
  }

  /** The column one applicable triple produces: None for an invalid
      transform, which assigns nothing. */
  function Produced(df: WfTable, src: string, kind: Transform): (r: Raising<Option<seq<Value>>>)
    requires src in df.columns
    ensures r.Ok? && r.value.Some? ==> |r.value.value| == df.height
  {
    var col := df.columns[src];
    match kind
    case Convert(f) => (match ApplyColumn(f, col) case Ok(c) => Ok(Some(c)) case Raise => Raise)
    case Lookup(table) => Ok(Some(MapOrKeep(table, col)))
    case Copy => Ok(Some(col))
    case Invalid => Ok(None)
  }

  /** A triple assigns a column when its source is a column of the input
      and its transform is not invalid. */
  predicate Assigns(df: WfTable, t: Triple)
  {
    t.0 in df.names && !t.2.Invalid?
  }

  /** A triple raises when its callable raises on some cell of its source. */
  predicate RaisesOn(df: WfTable, t: Triple)
  {
    t.0 in df.names && t.2.Convert? && ApplyColumn(t.2.f, df.columns[t.0]).Raise?
  }

  /** One pass of the loop of `transform_dataframe` on the frame built so
      far. */
  function Step(df: WfTable, prev: Table, t: Triple): Raising<Table>
  {
    if t.0 !in df.names then Ok(prev)
    else match Produced(df, t.0, t.2)
      case Raise => Raise
      case Ok(None) => Ok(prev)
      case Ok(Some(c)) => Ok(Assign(prev, t.1, c))
  }

  /** `transform_dataframe(df, column_mapping)`. */
  function TransformTable(df: WfTable, mapping: seq<Triple>): Raising<Table>
  {
    if mapping == [] then Ok(EmptyTable())
    else
      var prev := TransformTable(df, mapping[..|mapping| - 1]);
      if prev.Raise? then Raise else Step(df, prev.value, mapping[|mapping| - 1])
  }

  /** The output is a well-formed frame, as long as the input when it has
      any column. */
  lemma {:induction false} TransformWellFormed(df: WfTable, mapping: seq<Triple>)
    requires TransformTable(df, mapping).Ok?
    ensures WellFormed(TransformTable(df, mapping).value)
    ensures TransformTable(df, mapping).value.names == [] || TransformTable(df, mapping).value.height == df.height
  {
    if mapping != [] {
      var init := mapping[..|mapping| - 1];
      var last := mapping[|mapping| - 1];
      var prev := TransformTable(df, init);
      assert prev.Ok?;
      TransformWellFormed(df, init);
      assert TransformTable(df, mapping) == Step(df, prev.value, last);
      if Assigns(df, last) {
        var c := Produced(df, last.0, last.2).value.value;
        AssignKeeps(prev.value, last.1, c);
      }
    }
  }

  /** The loop of `transform_dataframe`, assigning into a new frame. */
  method TransformDataFrame(df: WfTable, mapping: seq<Triple>) returns (r: Raising<Frame>)
    ensures r.Raise? <==> TransformTable(df, mapping).Raise?
    ensures r.Ok? ==> fresh(r.value) && r.value.Valid() && r.value.View() == TransformTable(df, mapping).value
  {
    var frame := new Frame();
    var i := 0;
    while i < |mapping|
      invariant i <= |mapping|
      invariant fresh(frame) && frame.Valid()
      invariant TransformTable(df, mapping[..i]) == Ok(frame.View())
      modifies frame
    {
      assert mapping[..i + 1][..i] == mapping[..i];
      TransformWellFormed(df, mapping[..i]);
      var raised := frame.ApplyTriple(df, mapping[i]);
      if raised {
        RaiseSticks(df, mapping, i + 1);
        return Raise;
      }
      i := i + 1;
    }
    assert mapping[..i] == mapping;
    return Ok(frame);
  }

  /** Once a prefix of the triples raises, the whole transform raises. */
  lemma {:induction false} RaiseSticks(df: WfTable, mapping: seq<Triple>, k: nat)
    requires k <= |mapping| && TransformTable(df, mapping[..k]).Raise?
    ensures TransformTable(df, mapping).Raise?
    decreases |mapping|
  {
    if k < |mapping| {
      var init := mapping[..|mapping| - 1];
      assert init[..k] == mapping[..k];
      RaiseSticks(df, init, k);
    } else {
      assert mapping[..k] == mapping;
    }
  }

  /** Prefixes of a transform that does not raise do not raise either. */
  lemma RaiseFree(df: WfTable, mapping: seq<Triple>, k: nat)
    requires k <= |mapping| && TransformTable(df, mapping).Ok?
    ensures TransformTable(df, mapping[..k]).Ok?
  {
    if TransformTable(df, mapping[..k]).Raise? {
      RaiseSticks(df, mapping, k);
    }
  }

  /** The transform raises exactly when some applicable callable raises on
      a cell of its source column. */
  lemma {:induction false} TransformRaises(df: WfTable, mapping: seq<Triple>)
    ensures TransformTable(df, mapping).Raise? <==> exists j :: 0 <= j < |mapping| && RaisesOn(df, mapping[j])
  {
    if mapping != [] {
      var init := mapping[..|mapping| - 1];
      TransformRaises(df, init);
      assert forall j :: 0 <= j < |init| ==> init[j] == mapping[j];
      if exists j :: 0 <= j < |init| && RaisesOn(df, init[j]) {
        var j :| 0 <= j < |init| && RaisesOn(df, init[j]);
        assert RaisesOn(df, mapping[j]);
      }
    }
  }

  /** The output has a column exactly for the targets of the triples that
      assign, whatever their order. */
  lemma {:induction false} TransformTargets(df: WfTable, mapping: seq<Triple>)
    requires TransformTable(df, mapping).Ok?
    ensures forall n :: n in TransformTable(df, mapping).value.names <==>
      exists j :: 0 <= j < |mapping| && Assigns(df, mapping[j]) && mapping[j].1 == n
  {
    if mapping != [] {
      var init := mapping[..|mapping| - 1];
      var last := mapping[|mapping| - 1];
      assert TransformTable(df, init).Ok?;
      TransformTargets(df, init);
      forall n | exists j :: 0 <= j < |mapping| && Assigns(df, mapping[j]) && mapping[j].1 == n
        ensures n in TransformTable(df, mapping).value.names
      {
        var j :| 0 <= j < |mapping| && Assigns(df, mapping[j]) && mapping[j].1 == n;
        if j < |init| {
          assert init[j] == mapping[j];
        }
      }
      forall n | n in TransformTable(df, mapping).value.names
        ensures exists j :: 0 <= j < |mapping| && Assigns(df, mapping[j]) && mapping[j].1 == n
      {
        if n in TransformTable(df, init).value.names {
          var j :| 0 <= j < |init| && Assigns(df, init[j]) && init[j].1 == n;
          assert mapping[j] == init[j];
        }
      }
    }
  }

  /** A target holds the column of the last triple that assigns it: a
      later triple with the same target replaces an earlier one. */
  lemma {:induction false} TransformLastWins(df: WfTable, mapping: seq<Triple>, j: nat)
    requires TransformTable(df, mapping).Ok?
    requires j < |mapping| && Assigns(df, mapping[j])
    requires forall k :: j < k < |mapping| && Assigns(df, mapping[k]) ==> mapping[k].1 != mapping[j].1
    ensures Produced(df, mapping[j].0, mapping[j].2).Ok?
    ensures mapping[j].1 in TransformTable(df, mapping).value.columns
    ensures TransformTable(df, mapping).value.columns[mapping[j].1] == Produced(df, mapping[j].0, mapping[j].2).value.value
  {
    var init := mapping[..|mapping| - 1];
    var last := mapping[|mapping| - 1];
    assert TransformTable(df, init).Ok?;
    if j < |init| {
      assert init[j] == mapping[j];
      assert forall k :: j < k < |init| ==> init[k] == mapping[k];
      TransformLastWins(df, init, j);
      if Assigns(df, last) {
        assert last.1 != mapping[j].1;
      }
    }
  }

  /** Later triples never move a column: the names of a prefix are a prefix
      of the names. */
  lemma {:induction false} NamesKept(df: WfTable, mapping: seq<Triple>, k: nat)
    requires k <= |mapping| && TransformTable(df, mapping).Ok?
    ensures TransformTable(df, mapping[..k]).Ok?
    ensures var short, long := TransformTable(df, mapping[..k]).value.names, TransformTable(df, mapping).value.names;
      |short| <= |long| && forall i :: 0 <= i < |short| ==> long[i] == short[i]
    decreases |mapping|
  {
    RaiseFree(df, mapping, k);
    if k < |mapping| {
      var init := mapping[..|mapping| - 1];
      assert init[..k] == mapping[..k];
      assert TransformTable(df, init).Ok?;
      NamesKept(df, init, k);
    } else {
      assert mapping[..k] == mapping;
    }
  }

  /** Columns appear in the order their targets are first assigned: a
      target first assigned by an earlier triple stands before one first
      assigned by a later triple. */
  lemma TransformOrder(df: WfTable, mapping: seq<Triple>, j: nat, k: nat)
    requires TransformTable(df, mapping).Ok?
    requires j < k < |mapping| && Assigns(df, mapping[j]) && Assigns(df, mapping[k])
    requires forall i :: 0 <= i < k && Assigns(df, mapping[i]) ==> mapping[i].1 != mapping[k].1
    ensures var names := TransformTable(df, mapping).value.names;
      exists a, b :: 0 <= a < b < |names| && names[a] == mapping[j].1 && names[b] == mapping[k].1
  {
    var init := mapping[..k];
    var prefix := mapping[..k + 1];
    assert prefix[..k] == init;
    assert init[j] == mapping[j];
    NamesKept(df, mapping, k + 1);
    NamesKept(df, mapping, k);
    var before := TransformTable(df, init).value;
    assert mapping[j].1 in before.names by {
      TransformTargets(df, init);
    }
    assert mapping[k].1 !in before.names by {
      TransformTargets(df, init);
      forall i | 0 <= i < k && Assigns(df, init[i]) ensures init[i].1 != mapping[k].1 {
        assert init[i] == mapping[i];
      }
    }
    var a :| 0 <= a < |before.names| && before.names[a] == mapping[j].1;
    var mid := TransformTable(df, prefix).value;
    assert prefix[k] == mapping[k];
    assert mid.names == before.names + [mapping[k].1];
    var names := TransformTable(df, mapping).value.names;
    assert names[a] == mapping[j].1 && names[|before.names|] == mapping[k].1;
  }
}
