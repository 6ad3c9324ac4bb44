/** The loading stage, post_to_elasticsearch(): each row of the cleaned
    table becomes one bulk action for the index "employee_data", in row
    order, and the stage reports how many actions it built. */
module Loader {
  import opened TableModel

  /** The index every document is written to. */
  const IndexName: string := "employee_data"

  /** One bulk action: {"_index": index, "_source": source}. */
  datatype Action = Action(index: string, source: map<string, Cell>)

  /** r.to_dict() for a row under the given header: column name to cell.
      The header comes from read_csv, which renames a repeated name ("a",
      "a.1"), so the loader never sees two columns of one name; the function
      is total all the same and, like a Python dict, keeps the later cell. */
  function RowToDict(columns: seq<string>, row: Row): (d: map<string, Cell>)
    requires |columns| == |row|
    ensures d.Keys == set k | 0 <= k < |columns| :: columns[k]
  {
    if columns == [] then map[]
    else
      var n := |columns| - 1;
      var prev := RowToDict(columns[..n], row[..n]);
      assert forall k :: 0 <= k < n ==> columns[..n][k] == columns[k];
      prev[columns[n] := row[n]]
  }

  /** The document read back under the header: one cell per column. */
  function DictToRow(columns: seq<string>, d: map<string, Cell>): (row: Row)
    requires forall k :: 0 <= k < |columns| ==> columns[k] in d
    ensures |row| == |columns|
    ensures forall k :: 0 <= k < |columns| ==> row[k] == d[columns[k]]
  {
    seq(|columns|, k requires 0 <= k < |columns| => d[columns[k]])
  }

  /** The comprehension that builds the actions: one per row, in order. */
  function Actions(t: Table): (acts: seq<Action>)
    requires WellFormed(t)
    ensures |acts| == |t.rows|
    ensures forall i :: 0 <= i < |t.rows| ==>
      acts[i].index == IndexName && acts[i].source.Keys == (set k | 0 <= k < |t.columns| :: t.columns[k])
  {
    seq(|t.rows|, i requires 0 <= i < |t.rows| => Action(IndexName, RowToDict(t.columns, t.rows[i])))
  }

  /** The number the stage reports: len(actions). */
  function ReportedCount(t: Table): (n: nat)
    requires WellFormed(t)
    ensures n == |t.rows|
  {
    |Actions(t)|
  }

  /** Under the last column of a given name, the document holds that
      column's cell. */
  lemma {:induction false} RowToDictLookup(columns: seq<string>, row: Row, k: nat)
    requires |columns| == |row| && k < |columns|
    requires forall l :: k < l < |columns| ==> columns[l] != columns[k]
    ensures columns[k] in RowToDict(columns, row)
    ensures RowToDict(columns, row)[columns[k]] == row[k]
  {
    var n := |columns| - 1;
    if k < n {
      RowToDictLookup(columns[..n], row[..n], k);
    }
  }

  /** With a header of distinct names, reading the document back column by
      column gives the row again: nothing is lost or reordered. */
  lemma RowRoundTrip(columns: seq<string>, row: Row)
    requires |columns| == |row| && Distinct(columns)
    ensures forall k :: 0 <= k < |columns| ==> columns[k] in RowToDict(columns, row)
    ensures DictToRow(columns, RowToDict(columns, row)) == row
  {
    forall k | 0 <= k < |columns|
      ensures columns[k] in RowToDict(columns, row) && RowToDict(columns, row)[columns[k]] == row[k]
    {
      RowToDictLookup(columns, row, k);
    }
  }

  /** One action per cleaned row and in row order, each for "employee_data",
      each document keyed by exactly the header's names and, under a header
      of distinct names, holding that row's cells; the count reported is the
      number of rows. */
  lemma ActionsOnePerRow(t: Table)
    requires WellFormed(t)
    ensures |Actions(t)| == |t.rows| && ReportedCount(t) == |t.rows|
    ensures forall i :: 0 <= i < |t.rows| ==>
      Actions(t)[i].index == "employee_data" &&
      Actions(t)[i].source.Keys == (set k | 0 <= k < |t.columns| :: t.columns[k])
    ensures Distinct(t.columns) ==> forall i :: 0 <= i < |t.rows| ==>
      DictToRow(t.columns, Actions(t)[i].source) == t.rows[i]
  {
    if Distinct(t.columns) {
      forall i | 0 <= i < |t.rows|
        ensures DictToRow(t.columns, Actions(t)[i].source) == t.rows[i]
      {
        RowRoundTrip(t.columns, t.rows[i]);
      }
    }
  }
}
