/**
 * The part of a pandas DataFrame the transformer relies on.  `pd.DataFrame`
 * of a list of dicts gives one row per dict, and the union of the dicts' keys
 * as columns; a row lacks no column, a key that a dict does not have is NaN
 * there.  Selecting a list of columns (`df[cols]`) raises KeyError when one
 * of them is not a column, its message naming either all requested columns
 * (when none exists) or the missing ones, and otherwise gives a frame with
 * exactly those columns in that order.
 */
module Frames {
  import opened Wrappers
  import opened Json

  /** One cell: a value taken from a record, or NaN for a key the record lacks. */
  datatype Cell = Val(v: Value) | Missing

  type Row = map<string, Cell>

  /** A frame whose column order is not modelled (the order pandas picks
      before a projection fixes it). */
  datatype Table = Table(columns: set<string>, rows: seq<Row>) {
    /** Every row has exactly the table's columns. */
    predicate Rectangular() {
      forall i :: 0 <= i < |rows| ==> rows[i].Keys == columns
    }
  }

  /** A frame with ordered columns. */
  datatype Frame = Frame(columns: seq<string>, rows: seq<Row>) {
    predicate Rectangular() {
      forall i :: 0 <= i < |rows| ==> rows[i].Keys == set c | c in columns
    }

    /** The same data with the column order forgotten. */
    function AsTable(): (t: Table)
      requires Rectangular()
      ensures t.Rectangular() && t.rows == rows
      ensures forall c :: c in t.columns <==> c in columns
    {
      Table((set c | c in columns), rows)
    }
  }

  /** The keys that occur in at least one record. */
  function KeysOf(recs: seq<map<string, Value>>): (ks: set<string>)
    ensures forall i, k :: 0 <= i < |recs| && k in recs[i] ==> k in ks
    ensures forall k :: k in ks ==> exists i :: 0 <= i < |recs| && k in recs[i]
  {
    set i, k | 0 <= i < |recs| && k in recs[i] :: k
  }

  /** `pd.DataFrame(records)`. */
  function FromRecords(recs: seq<map<string, Value>>): (t: Table)
    ensures t.Rectangular() && |t.rows| == |recs|
    ensures forall k :: k in t.columns <==> exists i :: 0 <= i < |recs| && k in recs[i]
    ensures forall i, k :: 0 <= i < |recs| && k in recs[i] ==> t.rows[i][k] == Val(recs[i][k])
    ensures forall i, k :: 0 <= i < |recs| && k in t.columns && k !in recs[i] ==> t.rows[i][k] == Missing
  {
    var columns := KeysOf(recs);
    Table(columns, seq(|recs|, i requires 0 <= i < |recs| =>
      map k | k in columns :: if k in recs[i] then Val(recs[i][k]) else Missing))
  }

  /**
   * The requested columns that are not among `present`, each once, in the
   * order of its first request (pandas' `unique()` of the missing labels).
   */
  function Absent(cols: seq<string>, present: set<string>): (m: seq<string>)
    ensures forall c :: c in m <==> c in cols && c !in present
    ensures forall i, j :: 0 <= i < j < |m| ==> m[i] != m[j]
    ensures forall i, j, q :: 0 <= i < j < |m| && 0 <= q < |cols| && cols[q] == m[j] ==> m[i] in cols[..q]
  {
    if cols == [] then []
    else
      var init := cols[..|cols| - 1];
      var c := cols[|cols| - 1];
      var rest := Absent(init, present);
      assert forall q :: 0 <= q < |init| ==> init[..q] == cols[..q];
      if c in present || c in rest then rest
      else
        assert c !in init;
        rest + [c]
  }

  /** `df[cols]`. */
  function Select(t: Table, cols: seq<string>): (r: Result<Frame, Error>)
    requires t.Rectangular()
    ensures r.Ok? <==> forall c :: c in cols ==> c in t.columns
    ensures r.Err? && (forall c :: c in cols ==> c !in t.columns) ==> r.error == NoneOfColumns(cols)
    ensures r.Err? && (exists c :: c in cols && c in t.columns) ==> r.error == ColumnsNotInIndex(Absent(cols, t.columns))
    ensures r.Ok? ==> r.value.Rectangular() && r.value.columns == cols && |r.value.rows| == |t.rows|
    ensures r.Ok? ==> forall i, c :: 0 <= i < |t.rows| && c in cols ==> r.value.rows[i][c] == t.rows[i][c]
  {
    var missing := Absent(cols, t.columns);
    if missing == [] then
      Ok(Frame(cols, seq(|t.rows|, i requires 0 <= i < |t.rows| =>
        map c | c in cols :: t.rows[i][c])))
    else
      assert missing[0] in cols && missing[0] !in t.columns;
      if forall c :: c in cols ==> c !in t.columns then Err(NoneOfColumns(cols))
      else Err(ColumnsNotInIndex(missing))
  }

  /** Some requested columns missing: the message lists them once each, in
      request order (`df[["date", "open", "high", "open"]]` on a frame with
      only `date` names `['open', 'high']`). */
  lemma SelectMissingExample(t: Table, a: string, b: string, c: string)
    requires t == Table({a}, []) && a != b && a != c && b != c
    ensures Select(t, [a, b, c, b]) == Err(ColumnsNotInIndex([b, c]))
  {
    assert [a, b][..1] == [a] && [a, b, c][..2] == [a, b] && [a, b, c, b][..3] == [a, b, c];
    assert Absent([a], t.columns) == [];
    assert Absent([a, b], t.columns) == [b];
    assert Absent([a, b, c], t.columns) == [b, c];
  }

  /** No requested column exists: the message lists all of them. */
  lemma SelectNoneExample()
    ensures Select(Table({}, []), ["date", "open"]) == Err(NoneOfColumns(["date", "open"]))
  {
  }

  /** Selecting the columns of a selection again changes nothing. */
  lemma SelectIdempotent(t: Table, cols: seq<string>)
    requires t.Rectangular() && Select(t, cols).Ok?
    ensures Select(Select(t, cols).value.AsTable(), cols) == Select(t, cols)
  {
    var f := Select(t, cols).value;
    var g := Select(f.AsTable(), cols);
    assert g.Ok?;
    assert |g.value.rows| == |f.rows|;
    forall i | 0 <= i < |f.rows|
      ensures g.value.rows[i] == f.rows[i]
    {
      assert g.value.rows[i].Keys == f.rows[i].Keys;
    }
    assert g.value.rows == f.rows;
  }
}
