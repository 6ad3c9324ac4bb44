/** Concrete runs of the cleaning stage on small tables, each showing one
    consequence of the order of its steps. */
module Scenarios {
  import opened TableModel
  import opened Duplicates
  import opened Statistics
  import opened Header
  import opened Cleaning

  /** Two identical " Alice" rows with a missing score and one "Bob" row
      scored 80: one Alice row is dropped, her score becomes the median of
      {80}, and only the header is normalised. The value " Alice" keeps its
      leading space: the cleaner never strips values. */
  lemma AliceAndBob()
    ensures Clean(Table(["Name", "Score"], [NonNumeric, Numeric],
                        [[Text(" Alice"), Missing], [Text(" Alice"), Missing], [Text("Bob"), Num(80.0)]]))
         == Table(["name", "score"], [NonNumeric, Numeric],
                  [[Text(" Alice"), Num(80.0)], [Text("Bob"), Num(80.0)]])
  {
    var alice: Row := [Text(" Alice"), Missing];
    var bob: Row := [Text("Bob"), Num(80.0)];
    DropsSecondRow(alice, bob);
    FillsAliceScore();
    SimpleNames();
  }

  lemma FillsAliceScore()
    ensures Impute([[Text(" Alice"), Missing], [Text("Bob"), Num(80.0)]], [NonNumeric, Numeric])
         == [[Text(" Alice"), Num(80.0)], [Text("Bob"), Num(80.0)]]
  {
    var d: seq<Row> := [[Text(" Alice"), Missing], [Text("Bob"), Num(80.0)]];
    var kinds := [NonNumeric, Numeric];
    FillsFromOneNumber(d, 80.0);
    assert ImputedCell(d, kinds, 0, 1) == Num(80.0);
    var filled := Impute(d, kinds);
    assert filled[0] == [Text(" Alice"), Num(80.0)];
    assert filled[1] == [Text("Bob"), Num(80.0)];
  }

  lemma DropsSecondRow(a: Row, b: Row)
    requires a != b
    ensures Dedup([a, a, b]) == [a, b]
  {
    var rows := [a, a, b];
    assert rows[..2] == [a, a];
    assert rows[..2][..1] == [a];
    assert Dedup([a]) == [a] by { assert [a][..0] == []; }
  }

  lemma FillsFromOneNumber(d: seq<Row>, x: real)
    requires |d| == 2 && |d[0]| == 2 && |d[1]| == 2
    requires d[0][1] == Missing && d[1][1] == Num(x)
    ensures FillValue(Numeric, Column(d, 1)) == Num(x)
  {
    var col := Column(d, 1);
    assert col == [Missing, Num(x)];
    assert col[1..] == [Num(x)];
    assert col[1..][1..] == [];
    assert Present(col) == [x];
    MedianOfOne(x);
  }

  lemma SimpleNames()
    ensures LowerAll(StripAll(["Name", "Score"])) == ["name", "score"]
  {
    StripTrimmed("Name");
    StripTrimmed("Score");
    assert Lower("Name") == "name" && Lower("Score") == "score";
  }

  /** Deduplication runs before the fill, so two rows that differ only in
      a missing cell both survive it and can end up equal: the cleaned table
      is not free of duplicates. */
  lemma RowsMayRepeatAfterFilling()
    ensures !Distinct(Clean(Table(["Name", "Score"], [NonNumeric, Numeric],
                                  [[Text("A"), Missing], [Text("A"), Num(80.0)]])).rows)
  {
    var first: Row := [Text("A"), Missing];
    var second: Row := [Text("A"), Num(80.0)];
    var rows := [first, second];
    assert rows[..1] == [first];
    assert Dedup([first]) == [first] by { assert [first][..0] == []; }
    assert Dedup(rows) == rows;
    var kinds := [NonNumeric, Numeric];
    FillsFromOneNumber(rows, 80.0);
    var filled := Impute(rows, kinds);
    assert filled[0] == [Text("A"), Num(80.0)] == filled[1];
  }

  /** The median is taken after deduplication: with scores 1, 1, 4 and one
      missing score, the repeated row [1] is dropped first, so the missing
      score becomes the median of {1, 4}, which is 2.5, and not the median
      1 of the raw scores 1, 1, 4. */
  lemma MedianAfterDeduplication()
    ensures Clean(Table(["Score"], [Numeric], [[Num(1.0)], [Num(1.0)], [Num(4.0)], [Missing]])).rows
         == [[Num(1.0)], [Num(4.0)], [Num(2.5)]]
    ensures Median([1.0, 1.0, 4.0]) == Some(1.0)
  {
    var one: Row := [Num(1.0)];
    var four: Row := [Num(4.0)];
    var none: Row := [Missing];
    DedupDropsRepeatedOne(one, four, none);
    FillsMissingScore();
    SortsThree();
  }

  lemma FillsMissingScore()
    ensures Impute([[Num(1.0)], [Num(4.0)], [Missing]], [Numeric]) == [[Num(1.0)], [Num(4.0)], [Num(2.5)]]
  {
    FillsWithMeanOfTwo([[Num(1.0)], [Num(4.0)], [Missing]]);
    FillsLastCell(Num(1.0), Num(4.0), Num(2.5));
  }

  lemma FillsLastCell(a: Cell, b: Cell, v: Cell)
    requires a != Missing && b != Missing
    requires FillValue(Numeric, Column([[a], [b], [Missing]], 0)) == v
    ensures Impute([[a], [b], [Missing]], [Numeric]) == [[a], [b], [v]]
  {
    var d: seq<Row> := [[a], [b], [Missing]];
    var filled := Impute(d, [Numeric]);
    assert filled[0] == [a] && filled[1] == [b] && filled[2] == [v];
  }

  lemma FillsWithMeanOfTwo(d: seq<Row>)
    requires d == [[Num(1.0)], [Num(4.0)], [Missing]]
    ensures FillValue(Numeric, Column(d, 0)) == Num(2.5)
  {
    var col := Column(d, 0);
    assert col == [Num(1.0), Num(4.0), Missing];
    assert Present(col[2..]) == [] by { assert col[2..][1..] == []; }
    assert col[1..][1..] == col[2..];
    assert Present(col[1..]) == [4.0];
    assert Present(col) == [1.0, 4.0];
    assert Sort([1.0, 4.0]) == [1.0, 4.0] by {
      assert [1.0, 4.0][1..] == [4.0];
      assert Sort([4.0]) == [4.0] by { assert [4.0][1..] == []; }
    }
  }

  lemma SortsThree()
    ensures Median([1.0, 1.0, 4.0]) == Some(1.0)
  {
    assert Sort([1.0, 1.0, 4.0]) == [1.0, 1.0, 4.0] by {
      assert [1.0, 1.0, 4.0][1..] == [1.0, 4.0];
      assert [1.0, 4.0][1..] == [4.0];
      assert Sort([4.0]) == [4.0] by { assert [4.0][1..] == []; }
    }
  }

  lemma DedupDropsRepeatedOne(one: Row, four: Row, none: Row)
    requires one != four && one != none && four != none
    ensures Dedup([one, one, four, none]) == [one, four, none]
  {
    var rows := [one, one, four, none];
    assert Dedup([one]) == [one] by { assert [one][..0] == []; }
    assert Dedup([one, one]) == [one] by { assert [one, one][..1] == [one]; }
    assert Dedup([one, one, four]) == [one, four] by { assert [one, one, four][..2] == [one, one]; }
    assert rows[..3] == [one, one, four];
  }

  /** A numeric column with no number at all does not stop the cleaner: its
      cells stay missing, the other columns are filled as usual. */
  lemma NumberlessColumnStaysMissing()
    ensures Clean(Table(["Bonus", "Dept"], [Numeric, NonNumeric],
                        [[Missing, Missing], [Missing, Text("Sales")]])).rows
         == [[Missing, Text("Unknown")], [Missing, Text("Sales")]]
  {
    var first: Row := [Missing, Missing];
    var second: Row := [Missing, Text("Sales")];
    var rows := [first, second];
    assert rows[..1] == [first];
    assert Dedup([first]) == [first] by { assert [first][..0] == []; }
    assert Dedup(rows) == rows;
    var col := Column(rows, 0);
    assert col == [Missing, Missing] && col[1..] == [Missing] && col[1..][1..] == [];
    assert Present(col) == [];
    var kinds := [Numeric, NonNumeric];
    assert ImputedCell(rows, kinds, 0, 0) == Missing;
    assert ImputedCell(rows, kinds, 1, 0) == Missing;
    assert ImputedCell(rows, kinds, 0, 1) == Text("Unknown");
    assert ImputedCell(rows, kinds, 1, 1) == Text("Sales");
    var filled := Impute(rows, kinds);
    assert filled[0] == [Missing, Text("Unknown")] && filled[1] == [Missing, Text("Sales")];
  }
}
