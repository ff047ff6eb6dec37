/**
 * pd.get_dummies(df, drop_first=True) on a raw table.  The columns that are
 * not encoded (the numeric ones) come first, in their original order; then,
 * for each categorical column in order, one 0/1 column "<name>_<value>" per
 * level of the column, the levels being the distinct values present in THIS
 * table in sorted order, with the first (smallest) level dropped.
 */
module Dummies {
  import opened Frames
  import opened LexOrder

  /** The strings in categorical column j, one per row. */
  function Observed(t: RawTable, j: nat): (vs: seq<string>)
    requires t.Valid() && j < |t.names| && t.kinds[j] == Categorical
    ensures |vs| == |t.rows|
    ensures forall i :: 0 <= i < |t.rows| ==> t.rows[i][j] == Cat(vs[i])
  {
    seq(|t.rows|, i requires 0 <= i < |t.rows| => t.rows[i][j].s)
  }

  /** The levels of categorical column j that get a dummy column: all but the smallest. */
  function Kept(t: RawTable, j: nat): seq<string>
    requires t.Valid() && j < |t.names| && t.kinds[j] == Categorical
  {
    var l := Levels(Observed(t, j));
    if |l| == 0 then [] else l[1..]
  }

  function DummyName(column: string, level: string): string
  {
    column + "_" + level
  }

  /** The value of the dummy for level in a row whose cell is cell. */
  function Hot(cell: Value, level: string): real
  {
    if cell == Cat(level) then 1.0 else 0.0
  }

  function NumericNameBlock(t: RawTable, j: nat): seq<string>
    requires t.Valid() && j < |t.names|
  {
    if t.kinds[j] == Numeric then [t.names[j]] else []
  }

  function NumericCellBlock(t: RawTable, i: nat, j: nat): seq<real>
    requires t.Valid() && i < |t.rows| && j < |t.names|
  {
    if t.kinds[j] == Numeric then [t.rows[i][j].x] else []
  }

  function DummyNameBlock(t: RawTable, j: nat): seq<string>
    requires t.Valid() && j < |t.names|
  {
    if t.kinds[j] == Numeric then []
    else
      var kept := Kept(t, j);
      seq(|kept|, p requires 0 <= p < |kept| => DummyName(t.names[j], kept[p]))
  }

  function DummyCellBlock(t: RawTable, i: nat, j: nat): seq<real>
    requires t.Valid() && i < |t.rows| && j < |t.names|
  {
    if t.kinds[j] == Numeric then []
    else
      var kept := Kept(t, j);
      seq(|kept|, p requires 0 <= p < |kept| => Hot(t.rows[i][j], kept[p]))
  }

  function NumericNames(t: RawTable): seq<seq<string>>
    requires t.Valid()
  {
    seq(|t.names|, j requires 0 <= j < |t.names| => NumericNameBlock(t, j))
  }

  function NumericCells(t: RawTable, i: nat): seq<seq<real>>
    requires t.Valid() && i < |t.rows|
  {
    seq(|t.names|, j requires 0 <= j < |t.names| => NumericCellBlock(t, i, j))
  }

  function DummyNames(t: RawTable): seq<seq<string>>
    requires t.Valid()
  {
    seq(|t.names|, j requires 0 <= j < |t.names| => DummyNameBlock(t, j))
  }

  function DummyCells(t: RawTable, i: nat): seq<seq<real>>
    requires t.Valid() && i < |t.rows|
  {
    seq(|t.names|, j requires 0 <= j < |t.names| => DummyCellBlock(t, i, j))
  }

  /** Encoded row i: its numeric cells, then its dummy cells. */
  function EncodedRow(t: RawTable, i: nat): (r: seq<real>)
    requires t.Valid() && i < |t.rows|
    ensures |r| == |Concat(NumericNames(t))| + |Concat(DummyNames(t))|
  {
    ConcatSameLength(NumericCells(t, i), NumericNames(t));
    ConcatSameLength(DummyCells(t, i), DummyNames(t));
    Concat(NumericCells(t, i)) + Concat(DummyCells(t, i))
  }

  function GetDummies(t: RawTable): (e: Table)
    requires t.Valid()
    ensures e.Valid() && |e.rows| == |t.rows|
  {
    Table(Concat(NumericNames(t)) + Concat(DummyNames(t)),
          seq(|t.rows|, i requires 0 <= i < |t.rows| => EncodedRow(t, i)))
  }

  /** Where numeric column j lands among the encoded columns. */
  function NumericOffset(t: RawTable, j: nat): nat
    requires t.Valid() && j <= |t.names|
  {
    |Concat(NumericNames(t)[..j])|
  }

  /** Where the dummy block of column j starts among the encoded columns. */
  function DummyOffset(t: RawTable, j: nat): nat
    requires t.Valid() && j <= |t.names|
  {
    |Concat(NumericNames(t))| + |Concat(DummyNames(t)[..j])|
  }

  /** A numeric column keeps its own name among the encoded columns. */
  lemma NumericColumn(t: RawTable, j: nat)
    requires t.Valid() && j < |t.names| && t.kinds[j] == Numeric
    ensures NumericOffset(t, j) < |GetDummies(t).names|
    ensures GetDummies(t).names[NumericOffset(t, j)] == t.names[j]
  {
    ConcatAt(NumericNames(t), j, 0);
  }

  /** ... and its cells are passed through unchanged. */
  lemma NumericCell(t: RawTable, i: nat, j: nat)
    requires t.Valid() && i < |t.rows| && j < |t.names| && t.kinds[j] == Numeric
    ensures NumericOffset(t, j) < |GetDummies(t).rows[i]|
    ensures GetDummies(t).rows[i][NumericOffset(t, j)] == t.rows[i][j].x
  {
    var cells := NumericCells(t, i);
    ConcatAt(cells, j, 0);
    NumericPrefixWidth(t, i, j);
    EncodedRowAt(t, i);
    PrefixAt(GetDummies(t).rows[i], Concat(cells), NumericOffset(t, j), cells[j][0]);
  }

  /** Reading cell q of a row that starts with c. */
  lemma PrefixAt<T>(row: seq<T>, c: seq<T>, q: nat, v: T)
    requires |c| <= |row| && row[..|c|] == c && q < |c| && c[q] == v
    ensures q < |row| && row[q] == v
  {
    assert row[..|c|][q] == row[q];
  }

  lemma NumericPrefixWidth(t: RawTable, i: nat, j: nat)
    requires t.Valid() && i < |t.rows| && j <= |t.names|
    ensures |Concat(NumericCells(t, i)[..j])| == |Concat(NumericNames(t)[..j])|
  {
    assert forall m :: 0 <= m < |t.names| ==> |NumericCells(t, i)[m]| == |NumericNames(t)[m]|;
    ConcatSameLength(NumericCells(t, i)[..j], NumericNames(t)[..j]);
  }

  lemma EncodedRowAt(t: RawTable, i: nat)
    requires t.Valid() && i < |t.rows|
    ensures GetDummies(t).rows[i] == Concat(NumericCells(t, i)) + Concat(DummyCells(t, i))
    ensures |Concat(NumericCells(t, i))| == |Concat(NumericNames(t))|
    ensures GetDummies(t).rows[i][..|Concat(NumericCells(t, i))|] == Concat(NumericCells(t, i))
  {
    ConcatSameLength(NumericCells(t, i), NumericNames(t));
  }

  /**
   * Dummy p of categorical column j is named after its level: the column
   * name, an underscore and the level.
   */
  lemma DummyColumn(t: RawTable, j: nat, p: nat)
    requires t.Valid() && j < |t.names| && t.kinds[j] == Categorical && p < |Kept(t, j)|
    ensures DummyOffset(t, j) + p < |GetDummies(t).names|
    ensures GetDummies(t).names[DummyOffset(t, j) + p] == DummyName(t.names[j], Kept(t, j)[p])
  {
    DummyNameAt(t, j, p);
    NamesDummyPart(t);
    Locate(GetDummies(t).names, |Concat(NumericNames(t))|, DummyNames(t), j, p, DummyOffset(t, j) + p);
  }

  lemma DummyNameAt(t: RawTable, j: nat, p: nat)
    requires t.Valid() && j < |t.names| && t.kinds[j] == Categorical && p < |Kept(t, j)|
    ensures p < |DummyNames(t)[j]| && DummyNames(t)[j][p] == DummyName(t.names[j], Kept(t, j)[p])
  {
  }

  lemma NamesDummyPart(t: RawTable)
    requires t.Valid()
    ensures |Concat(NumericNames(t))| <= |GetDummies(t).names|
    ensures GetDummies(t).names[|Concat(NumericNames(t))|..] == Concat(DummyNames(t))
  {
  }

  lemma DummyBlockWidths(t: RawTable, i: nat)
    requires t.Valid() && i < |t.rows|
    ensures forall j :: 0 <= j < |t.names| ==> |DummyCells(t, i)[j]| == |DummyNames(t)[j]|
  {
  }

  lemma DummyPrefixWidth(t: RawTable, i: nat, j: nat)
    requires t.Valid() && i < |t.rows| && j <= |t.names|
    ensures |Concat(DummyCells(t, i)[..j])| == |Concat(DummyNames(t)[..j])|
  {
    DummyBlockWidths(t, i);
    ConcatSameLength(DummyCells(t, i)[..j], DummyNames(t)[..j]);
  }

  /**
   * Reading element p of block j at index k of a row whose part from n on
   * is the concatenation of blocks.
   */
  lemma Locate<T>(row: seq<T>, n: nat, blocks: seq<seq<T>>, j: nat, p: nat, k: nat)
    requires n <= |row| && row[n..] == Concat(blocks)
    requires j < |blocks| && p < |blocks[j]| && k == n + |Concat(blocks[..j])| + p
    ensures k < |row| && row[k] == blocks[j][p]
  {
    ConcatAt(blocks, j, p);
    assert row[n..][k - n] == row[k];
  }

  lemma RowDummyPart(t: RawTable, i: nat)
    requires t.Valid() && i < |t.rows|
    ensures |Concat(NumericNames(t))| <= |GetDummies(t).rows[i]|
    ensures GetDummies(t).rows[i][|Concat(NumericNames(t))|..] == Concat(DummyCells(t, i))
  {
    EncodedRowAt(t, i);
  }

  /** In row i, dummy p of column j is 1 exactly when the row holds that level. */
  lemma DummyCell(t: RawTable, i: nat, j: nat, p: nat)
    requires t.Valid() && i < |t.rows| && j < |t.names| && t.kinds[j] == Categorical && p < |Kept(t, j)|
    ensures DummyOffset(t, j) + p < |GetDummies(t).rows[i]|
    ensures GetDummies(t).rows[i][DummyOffset(t, j) + p] == Hot(t.rows[i][j], Kept(t, j)[p])
  {
    DummyCellAt(t, i, j, p);
    DummyCellLocated(t, i, j, p);
  }

  lemma DummyCellLocated(t: RawTable, i: nat, j: nat, p: nat)
    requires t.Valid() && i < |t.rows| && j < |t.names| && p < |DummyCells(t, i)[j]|
    ensures DummyOffset(t, j) + p < |GetDummies(t).rows[i]|
    ensures GetDummies(t).rows[i][DummyOffset(t, j) + p] == DummyCells(t, i)[j][p]
  {
    DummyPrefixWidth(t, i, j);
    RowDummyPart(t, i);
    Locate(GetDummies(t).rows[i], |Concat(NumericNames(t))|, DummyCells(t, i), j, p, DummyOffset(t, j) + p);
  }

  lemma DummyCellAt(t: RawTable, i: nat, j: nat, p: nat)
    requires t.Valid() && i < |t.rows| && j < |t.names| && t.kinds[j] == Categorical && p < |Kept(t, j)|
    ensures p < |DummyCells(t, i)[j]| && DummyCells(t, i)[j][p] == Hot(t.rows[i][j], Kept(t, j)[p])
  {
  }

  lemma NumericNamesMember(t: RawTable, c: string)
    requires t.Valid()
    ensures c in Concat(NumericNames(t)) <==>
      exists j :: 0 <= j < |t.names| && t.kinds[j] == Numeric && t.names[j] == c
  {
    var blocks := NumericNames(t);
    ConcatMember(blocks, c);
    if c in Concat(blocks) {
      var j, p :| 0 <= j < |blocks| && 0 <= p < |blocks[j]| && blocks[j][p] == c;
      assert t.kinds[j] == Numeric && t.names[j] == c;
    }
    if exists j :: 0 <= j < |t.names| && t.kinds[j] == Numeric && t.names[j] == c {
      var j :| 0 <= j < |t.names| && t.kinds[j] == Numeric && t.names[j] == c;
      assert blocks[j][0] == c;
    }
  }

  /** Every dummy name comes from a kept level of some categorical column. */
  lemma DummyNameSource(t: RawTable, c: string)
    requires t.Valid() && c in Concat(DummyNames(t))
    ensures exists j, p :: 0 <= j < |t.names| && t.kinds[j] == Categorical && 0 <= p < |Kept(t, j)| &&
                           DummyName(t.names[j], Kept(t, j)[p]) == c
  {
    var blocks := DummyNames(t);
    ConcatMember(blocks, c);
    var j, p :| 0 <= j < |blocks| && 0 <= p < |blocks[j]| && blocks[j][p] == c;
    assert t.kinds[j] == Categorical;
    assert DummyName(t.names[j], Kept(t, j)[p]) == c;
  }

  lemma DummyNameProduced(t: RawTable, c: string, j: nat, p: nat)
    requires t.Valid() && j < |t.names| && t.kinds[j] == Categorical && p < |Kept(t, j)|
    requires DummyName(t.names[j], Kept(t, j)[p]) == c
    ensures c in Concat(DummyNames(t))
  {
    var blocks := DummyNames(t);
    ConcatMember(blocks, c);
    assert blocks[j][p] == c;
  }

  /**
   * The encoded column names are exactly the numeric column names and the
   * dummy names of the kept levels.
   */
  lemma EncodedNames(t: RawTable, c: string)
    requires t.Valid()
    ensures c in GetDummies(t).names <==>
      (exists j :: 0 <= j < |t.names| && t.kinds[j] == Numeric && t.names[j] == c) ||
      (exists j, p :: 0 <= j < |t.names| && t.kinds[j] == Categorical && 0 <= p < |Kept(t, j)| &&
                      DummyName(t.names[j], Kept(t, j)[p]) == c)
  {
    NumericNamesMember(t, c);
    if c in Concat(DummyNames(t)) {
      DummyNameSource(t, c);
    }
    if exists j, p :: 0 <= j < |t.names| && t.kinds[j] == Categorical && 0 <= p < |Kept(t, j)| &&
                      DummyName(t.names[j], Kept(t, j)[p]) == c {
      var j, p :| 0 <= j < |t.names| && t.kinds[j] == Categorical && 0 <= p < |Kept(t, j)| &&
                  DummyName(t.names[j], Kept(t, j)[p]) == c;
      DummyNameProduced(t, c, j, p);
    }
  }

  lemma DummyNameInjective(column: string, v: string, w: string)
    requires DummyName(column, v) == DummyName(column, w)
    ensures v == w
  {
    var n := |column| + 1;
    assert v == DummyName(column, v)[n..];
    assert w == DummyName(column, w)[n..];
  }

  /**
   * The reference category of column j, the smallest value present in the
   * table, gets no dummy column; every other present value gets one.
   */
  lemma ReferenceDropped(t: RawTable, j: nat)
    requires t.Valid() && j < |t.names| && t.kinds[j] == Categorical && |t.rows| > 0
    ensures var ref := Levels(Observed(t, j))[0];
      ref in Observed(t, j) &&
      (forall v :: v in Observed(t, j) ==> v == ref || Less(ref, v)) &&
      DummyName(t.names[j], ref) !in DummyNameBlock(t, j) &&
      forall v :: v in Observed(t, j) && v != ref ==> DummyName(t.names[j], v) in DummyNameBlock(t, j)
  {
    var l := Levels(Observed(t, j));
    LevelsFirstIsSmallest(Observed(t, j));
    var ref := l[0];
    var block := DummyNameBlock(t, j);
    if DummyName(t.names[j], ref) in block {
      var p :| 0 <= p < |block| && block[p] == DummyName(t.names[j], ref);
      DummyNameInjective(t.names[j], Kept(t, j)[p], ref);
      assert l[p + 1] == ref;
      LessIrreflexive(ref);
    }
    forall v | v in Observed(t, j) && v != ref
      ensures DummyName(t.names[j], v) in block
    {
      var k :| 0 <= k < |l| && l[k] == v;
      assert block[k - 1] == DummyName(t.names[j], v);
    }
  }

  /** In each row at most one dummy of a categorical column is 1. */
  lemma AtMostOneHot(t: RawTable, i: nat, j: nat, p1: nat, p2: nat)
    requires t.Valid() && i < |t.rows| && j < |t.names| && t.kinds[j] == Categorical
    requires p1 < |Kept(t, j)| && p2 < |Kept(t, j)|
    requires DummyCellBlock(t, i, j)[p1] == 1.0 && DummyCellBlock(t, i, j)[p2] == 1.0
    ensures p1 == p2
  {
    var l := Levels(Observed(t, j));
    if p1 != p2 {
      assert l[p1 + 1] == l[p2 + 1];
      LessIrreflexive(l[p1 + 1]);
    }
  }

  /**
   * With at most one row every column has at most one level, which is
   * dropped: only the numeric columns are left.
   */
  lemma SmallTableHasNoDummies(t: RawTable)
    requires t.Valid() && |t.rows| <= 1
    ensures GetDummies(t).names == Concat(NumericNames(t))
  {
    forall j | 0 <= j < |t.names|
      ensures DummyNames(t)[j] == []
    {
      if t.kinds[j] == Categorical {
        LevelsOfSmallColumn(Observed(t, j));
      }
    }
    ConcatOfEmpty(DummyNames(t));
  }

  /** Tables whose categorical columns hold the same sets of values. */
  ghost predicate SameLevels(t: RawTable, u: RawTable)
    requires t.Valid() && u.Valid() && t.names == u.names && t.kinds == u.kinds
  {
    forall j, x :: 0 <= j < |t.names| && t.kinds[j] == Categorical ==>
      (x in Observed(t, j) <==> x in Observed(u, j))
  }

  /**
   * Given the levels, an encoded row depends on its own input row alone:
   * equal input rows of tables with the same levels encode alike.
   */
  lemma EncodedRowIsLocal(t: RawTable, u: RawTable, i: nat, i2: nat)
    requires t.Valid() && u.Valid() && t.names == u.names && t.kinds == u.kinds
    requires SameLevels(t, u)
    requires i < |t.rows| && i2 < |u.rows| && t.rows[i] == u.rows[i2]
    ensures GetDummies(t).names == GetDummies(u).names
    ensures GetDummies(t).rows[i] == GetDummies(u).rows[i2]
  {
    forall j | 0 <= j < |t.names| && t.kinds[j] == Categorical
      ensures Kept(t, j) == Kept(u, j)
    {
      LevelsBySet(Observed(t, j), Observed(u, j));
    }
    assert NumericNames(t) == NumericNames(u);
    assert DummyNames(t) == DummyNames(u);
    assert NumericCells(t, i) == NumericCells(u, i2);
    assert DummyCells(t, i) == DummyCells(u, i2);
    assert GetDummies(t).rows[i] == EncodedRow(t, i);
    assert GetDummies(u).rows[i2] == EncodedRow(u, i2);
  }
}
