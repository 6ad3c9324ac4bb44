/** The in-memory table that the cleaning stage reads from raw_data.csv and
    writes to clean_data.csv: a header of column names, a dtype per column
    (reduced to "numeric" or not, the only distinction the cleaner makes) and
    rows of cells. A cell is missing (pandas NaN / None), a number or a text. */
module TableModel {

  datatype Option<T> = None | Some(value: T)

  /** The dtype test of the cleaner: float64 and int64 columns are Numeric,
      every other dtype (object, bool, ...) is NonNumeric. */
  datatype Kind = Numeric | NonNumeric

  /** Numbers are exact reals: the model does not follow float64 rounding. */
  datatype Cell = Missing | Num(x: real) | Text(s: string)

  type Row = seq<Cell>

  datatype Table = Table(columns: seq<string>, kinds: seq<Kind>, rows: seq<Row>)

  /** Every row has exactly width cells. */
  predicate HasWidth(rows: seq<Row>, width: nat)
  {
    forall i :: 0 <= i < |rows| ==> |rows[i]| == width
  }

  /** Every row has one cell per column, and every column has a kind. */
  predicate Rectangular(columns: seq<string>, kinds: seq<Kind>, rows: seq<Row>)
  {
    |kinds| == |columns| && HasWidth(rows, |columns|)
  }

  /** What read_csv guarantees of the frame it returns. */
  predicate WellFormed(t: Table)
  {
    Rectangular(t.columns, t.kinds, t.rows)
  }

  /** A numeric column holds only numbers or missing cells, a text column
      only texts or missing cells. */
  predicate WellTyped(t: Table)
    requires WellFormed(t)
  {
    forall i, j :: 0 <= i < |t.rows| && 0 <= j < |t.columns| ==>
      (t.kinds[j] == Numeric ==> !t.rows[i][j].Text?) &&
      (t.kinds[j] == NonNumeric ==> !t.rows[i][j].Num?)
  }

  /** No element occurs twice. */
  predicate Distinct<T(==)>(s: seq<T>)
  {
    forall i, j :: 0 <= i < j < |s| ==> s[i] != s[j]
  }

  /** Column j of the rows, top to bottom (pandas df[column]). */
  function Column(rows: seq<Row>, j: nat): (col: seq<Cell>)
    requires forall i :: 0 <= i < |rows| ==> j < |rows[i]|
    ensures |col| == |rows|
    ensures forall i :: 0 <= i < |rows| ==> col[i] == rows[i][j]
  {
    seq(|rows|, i requires 0 <= i < |rows| => rows[i][j])
  }

  /** The numbers among the cells, in order: the sample pandas' median is
      taken over (NaN skipped). */
  function Present(cells: seq<Cell>): (xs: seq<real>)
    ensures |xs| <= |cells|
    ensures forall x :: x in xs <==> Num(x) in cells
  {
    if cells == [] then []
    else
      var rest := Present(cells[1..]);
      assert cells == [cells[0]] + cells[1..];
      if cells[0].Num? then [cells[0].x] + rest else rest
  }

  /** The sample keeps repeated numbers: a number occurs in it as many times
      as it occurs in the column, which the median depends on. */
  lemma {:induction false} PresentKeepsMultiplicity(cells: seq<Cell>)
    ensures forall x :: multiset(Present(cells))[x] == multiset(cells)[Num(x)]
  {
    if cells != [] {
      PresentKeepsMultiplicity(cells[1..]);
      assert cells == [cells[0]] + cells[1..];
      assert multiset(cells) == multiset{cells[0]} + multiset(cells[1..]);
    }
  }

  /** In a column that holds only numbers or missing cells, the sample is
      empty exactly when every cell is missing. */
  lemma {:induction false} PresentEmptyIffAllMissing(cells: seq<Cell>)
    requires forall k :: 0 <= k < |cells| ==> !cells[k].Text?
    ensures Present(cells) == [] <==> forall k :: 0 <= k < |cells| ==> cells[k] == Missing
  {
    if cells != [] {
      PresentEmptyIffAllMissing(cells[1..]);
      assert forall k :: 1 <= k < |cells| ==> cells[k] == cells[1..][k - 1];
    }
  }
}
