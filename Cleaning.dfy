/** The cleaning stage, data_cleaning(): drop duplicate rows, fill the
    missing cells column by column, normalise the header. The frame the
    stage works on is an object updated in place (DataFrame); the whole
    stage is specified by the function Clean. */
module Cleaning {
  import opened TableModel
  import opened Duplicates
  import opened Statistics
  import opened Header

  /** What fillna writes into a non-numeric column. */
  const Placeholder: string := "Unknown"

  /** The argument fillna is given for a column: the median of the column's
      numbers for a numeric column, Placeholder otherwise. A numeric column
      without numbers has no median (pandas computes NaN), and filling with
      NaN leaves its cells missing: here the fill is Missing. A median fill
      splits the column's numbers in halves. */
  function FillValue(kind: Kind, col: seq<Cell>): (v: Cell)
    ensures kind == NonNumeric ==> v == Text(Placeholder)
    ensures kind == Numeric ==> !v.Text?
    ensures kind == Numeric ==> (v == Missing <==> forall k :: 0 <= k < |col| ==> !col[k].Num?)
    ensures v.Num? ==> 2 * CountAtMost(Present(col), v.x) >= |Present(col)| &&
                       2 * CountAtLeast(Present(col), v.x) >= |Present(col)|
  {
    match kind
    case NonNumeric => Text(Placeholder)
    case Numeric =>
      var xs := Present(col);
      match Median(xs)
      case None =>
        assert forall x :: Num(x) !in col;
        Missing
      case Some(m) =>
        assert xs[0] in xs;
        MedianSplitsSample(xs);
        Num(m)
  }

  /** fillna(value, inplace=True) on column j: each missing cell of that
      column takes the value, every other cell stays as it is. */
  function FillColumn(rows: seq<Row>, j: nat, value: Cell): (r: seq<Row>)
    requires forall i :: 0 <= i < |rows| ==> j < |rows[i]|
    ensures |r| == |rows|
    ensures forall i :: 0 <= i < |rows| ==> |r[i]| == |rows[i]|
    ensures forall i, c :: 0 <= i < |rows| && 0 <= c < |rows[i]| ==>
      r[i][c] == rows[i][c] || (c == j && rows[i][c] == Missing && r[i][c] == value)
    ensures forall i :: 0 <= i < |rows| && rows[i][j] == Missing ==> r[i][j] == value
  {
    seq(|rows|, i requires 0 <= i < |rows| =>
      rows[i][j := if rows[i][j] == Missing then value else rows[i][j]])
  }

  /** Cell (i, j) once column j has been filled, the fill being computed
      from the same rows. */
  function ImputedCell(rows: seq<Row>, kinds: seq<Kind>, i: nat, j: nat): (c: Cell)
    requires HasWidth(rows, |kinds|) && i < |rows| && j < |kinds|
    ensures rows[i][j] != Missing ==> c == rows[i][j]
    ensures rows[i][j] == Missing && kinds[j] == NonNumeric ==> c == Text(Placeholder)
    ensures rows[i][j] == Missing && kinds[j] == Numeric ==> !c.Text?
  {
    if rows[i][j] == Missing then FillValue(kinds[j], Column(rows, j)) else rows[i][j]
  }

  /** Every column filled, each from its own cells. */
  function Impute(rows: seq<Row>, kinds: seq<Kind>): (r: seq<Row>)
    requires HasWidth(rows, |kinds|)
    ensures HasWidth(r, |kinds|) && |r| == |rows|
  {
    seq(|rows|, i requires 0 <= i < |rows| =>
      seq(|kinds|, j requires 0 <= j < |kinds| => ImputedCell(rows, kinds, i, j)))
  }

  lemma DedupRectangular(columns: seq<string>, kinds: seq<Kind>, rows: seq<Row>)
    requires Rectangular(columns, kinds, rows)
    ensures Rectangular(columns, kinds, Dedup(rows))
  {
    DedupSameRows(rows);
    forall i | 0 <= i < |Dedup(rows)|
      ensures |Dedup(rows)[i]| == |columns|
    {
      assert Dedup(rows)[i] in rows;
    }
  }

  /** The whole stage on the frame read from raw_data.csv: what is written
      to clean_data.csv. */
  function Clean(raw: Table): (cleaned: Table)
    requires WellFormed(raw)
    ensures WellFormed(cleaned)
    ensures |cleaned.columns| == |raw.columns| && cleaned.kinds == raw.kinds
    ensures |cleaned.rows| == |Dedup(raw.rows)|
  {
    DedupRectangular(raw.columns, raw.kinds, raw.rows);
    Table(LowerAll(StripAll(raw.columns)), raw.kinds, Impute(Dedup(raw.rows), raw.kinds))
  }

  /** A pandas DataFrame as the cleaner uses it: a header, the dtypes and the
      rows, all replaced in place by the methods below. */
  class DataFrame {
    var columns: seq<string>
    var kinds: seq<Kind>
    var rows: seq<Row>

    ghost predicate Valid()
      reads this
    {
      Rectangular(columns, kinds, rows)
    }

    /** pd.read_csv: the frame holds the table read. */
    constructor (t: Table)
      requires WellFormed(t)
      ensures Valid()
      ensures columns == t.columns && kinds == t.kinds && rows == t.rows
    {
      columns, kinds, rows := t.columns, t.kinds, t.rows;
    }

    /** df = df.drop_duplicates() */
    method DropDuplicates()
      requires Valid()
      modifies this
      ensures Valid()
      ensures rows == Dedup(old(rows))
      ensures columns == old(columns) && kinds == old(kinds)
    {
      DedupRectangular(columns, kinds, rows);
      rows := Dedup(rows);
    }

    /** df[column].fillna(value, inplace=True), column j being the column. */
    method FillNa(j: nat, value: Cell)
      requires Valid() && j < |columns|
      modifies this
      ensures Valid()
      ensures rows == FillColumn(old(rows), j, value)
      ensures columns == old(columns) && kinds == old(kinds)
    {
      rows := FillColumn(rows, j, value);
    }

    /** df.columns = names */
    method SetColumns(names: seq<string>)
      requires Valid() && |names| == |columns|
      modifies this
      ensures Valid()
      ensures columns == names
      ensures kinds == old(kinds) && rows == old(rows)
    {
      columns := names;
    }
  }

  /** data_cleaning(): the raw table in, the cleaned table out. The frame is
      deduplicated, then each column in header order has its missing cells
      filled from the column as it stands at that moment, then the header is
      stripped and lower-cased. */
  method DataCleaning(raw: Table) returns (cleaned: Table)
    requires WellFormed(raw)
    ensures WellFormed(cleaned)
    ensures cleaned == Clean(raw)
  {
    var df := new DataFrame(raw);
    df.DropDuplicates();
    ghost var deduped := df.rows;
    var j := 0;
    while j < |df.columns|
      invariant df.Valid() && j <= |df.columns|
      invariant df.columns == raw.columns && df.kinds == raw.kinds
      invariant |df.rows| == |deduped|
      invariant forall i, c :: 0 <= i < |deduped| && 0 <= c < |raw.columns| ==>
        df.rows[i][c] == if c < j then ImputedCell(deduped, raw.kinds, i, c) else deduped[i][c]
    {
      assert Column(df.rows, j) == Column(deduped, j);
      var value := FillValue(df.kinds[j], Column(df.rows, j));
      df.FillNa(j, value);
      j := j + 1;
    }
    ghost var filled := Impute(deduped, raw.kinds);
    forall i | 0 <= i < |deduped|
      ensures df.rows[i] == filled[i]
    {
      assert |df.rows[i]| == |filled[i]| == |raw.columns|;
    }
    assert df.rows == filled;
    df.SetColumns(StripAll(df.columns));
    df.SetColumns(LowerAll(df.columns));
    cleaned := Table(df.columns, df.kinds, df.rows);
  }

  /** The cleaned table is a table of the same columns and kinds, with one
      row per distinct raw row. */
  lemma CleanShape(raw: Table)
    requires WellFormed(raw)
    ensures WellFormed(Clean(raw))
    ensures |Clean(raw).columns| == |raw.columns| && Clean(raw).kinds == raw.kinds
    ensures |Clean(raw).rows| == |Dedup(raw.rows)| <= |raw.rows|
  {
  }

  /** Header normalisation: column k of the cleaned header is column k of
      the raw header stripped and then lower-cased; nothing else is renamed
      and no column moves. */
  lemma CleanHeader(raw: Table)
    requires WellFormed(raw)
    ensures |Clean(raw).columns| == |raw.columns|
    ensures forall k :: 0 <= k < |raw.columns| ==> Clean(raw).columns[k] == Normalise(raw.columns[k])
  {
  }

  /** Row i of the cleaned table is the row kept at position
      KeptIndices(raw.rows)[i] of the raw table, with only its missing cells
      changed. */
  lemma CleanChangesOnlyMissingCells(raw: Table, i: nat)
    requires WellFormed(raw) && i < |KeptIndices(raw.rows)|
    ensures |Clean(raw).rows| == |KeptIndices(raw.rows)|
    ensures KeptIndices(raw.rows)[i] < |raw.rows|
    ensures forall j :: 0 <= j < |raw.columns| && raw.rows[KeptIndices(raw.rows)[i]][j] != Missing ==>
      Clean(raw).rows[i][j] == raw.rows[KeptIndices(raw.rows)[i]][j]
  {
    DedupKeepsFirstInOrder(raw.rows);
  }

  /** A missing cell of a numeric column that holds at least one number
      becomes the median of that column's numbers, taken over the
      deduplicated rows. */
  lemma CleanFillsNumericWithMedian(raw: Table, i: nat, j: nat)
    requires WellFormed(raw) && i < |Dedup(raw.rows)| && j < |raw.columns|
    requires raw.kinds[j] == Numeric && Dedup(raw.rows)[i][j] == Missing
    ensures Present(Column(Dedup(raw.rows), j)) != [] ==>
        Clean(raw).rows[i][j] == Num(Median(Present(Column(Dedup(raw.rows), j))).value)
  {
  }

  /** A numeric column without a single number has no median: each of its
      cells is left as it was, so it stays missing. */
  lemma CleanLeavesNumberlessColumn(raw: Table, j: nat)
    requires WellFormed(raw) && j < |raw.columns| && raw.kinds[j] == Numeric
    ensures Present(Column(Dedup(raw.rows), j)) == [] ==>
        Column(Clean(raw).rows, j) == Column(Dedup(raw.rows), j)
  {
  }

  /** A missing cell of a non-numeric column becomes "Unknown". */
  lemma CleanFillsTextWithPlaceholder(raw: Table, i: nat, j: nat)
    requires WellFormed(raw) && i < |Dedup(raw.rows)| && j < |raw.columns|
    requires raw.kinds[j] == NonNumeric && Dedup(raw.rows)[i][j] == Missing
    ensures Clean(raw).rows[i][j] == Text("Unknown")
  {
  }

  /** The only missing cells left are those of numeric columns without any
      number; in a well-typed table those columns are missing throughout. */
  lemma CleanMissingOnlyInNumberlessColumns(raw: Table, i: nat, j: nat)
    requires WellFormed(raw) && WellTyped(raw)
    requires i < |Clean(raw).rows| && j < |raw.columns|
    ensures Clean(raw).rows[i][j] == Missing <==>
        raw.kinds[j] == Numeric &&
        forall k :: 0 <= k < |Dedup(raw.rows)| ==> Dedup(raw.rows)[k][j] == Missing
  {
    DedupRectangular(raw.columns, raw.kinds, raw.rows);
    var d: seq<Row> := Dedup(raw.rows);
    DedupSameRows(raw.rows);
    var col := Column(d, j);
    assert Clean(raw).rows[i][j] == ImputedCell(d, raw.kinds, i, j);
    if raw.kinds[j] == Numeric {
      forall k | 0 <= k < |col| ensures !col[k].Text? {
        assert d[k] in raw.rows;
      }
      PresentEmptyIffAllMissing(col);
    }
  }

  /** Cleaning keeps each column's kind: numbers only in numeric columns,
      texts only in the others. */
  lemma CleanWellTyped(raw: Table)
    requires WellFormed(raw) && WellTyped(raw)
    ensures WellTyped(Clean(raw))
  {
    DedupRectangular(raw.columns, raw.kinds, raw.rows);
    DedupSameRows(raw.rows);
    var d: seq<Row> := Dedup(raw.rows);
    forall i, j | 0 <= i < |d| && 0 <= j < |raw.columns|
      ensures raw.kinds[j] == Numeric ==> !d[i][j].Text?
      ensures raw.kinds[j] == NonNumeric ==> !d[i][j].Num?
    {
      assert d[i] in raw.rows;
    }
  }
}
