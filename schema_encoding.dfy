/**
 * A schema-driven encoder: each schema column is filled from the row alone
 * (a numeric attribute of that name, or 1 when the row's category spells the
 * column's name), so the reference category is the one fixed at training
 * time rather than the smallest one present in the batch.
 */
module SchemaEncoding {
  import opened Frames
  import opened Dummies

  /** One raw row matching the column names and kinds. */
  predicate RowFits(names: seq<string>, kinds: seq<Kind>, row: seq<Value>)
  {
    |kinds| == |names| && |row| == |names| &&
    forall j :: 0 <= j < |names| ==> (row[j].Num? <==> kinds[j] == Numeric)
  }

  /** The first numeric column at or after j called c, or |names| when there is none. */
  function FirstNumeric(names: seq<string>, kinds: seq<Kind>, c: string, j: nat): (r: nat)
    requires |kinds| == |names| && j <= |names|
    ensures j <= r <= |names|
    ensures r < |names| ==> kinds[r] == Numeric && names[r] == c
    ensures forall m :: j <= m < r ==> !(kinds[m] == Numeric && names[m] == c)
    decreases |names| - j
  {
    if j == |names| then j
    else if kinds[j] == Numeric && names[j] == c then j
    else FirstNumeric(names, kinds, c, j + 1)
  }

  /** Some categorical cell of the row is the level that schema column c stands for. */
  predicate LevelNamed(names: seq<string>, kinds: seq<Kind>, row: seq<Value>, c: string)
    requires RowFits(names, kinds, row)
  {
    exists j :: 0 <= j < |names| && kinds[j] == Categorical && DummyName(names[j], row[j].s) == c
  }

  function RowCell(names: seq<string>, kinds: seq<Kind>, row: seq<Value>, c: string): real
    requires RowFits(names, kinds, row)
  {
    var n := FirstNumeric(names, kinds, c, 0);
    if n < |names| then row[n].x
    else if LevelNamed(names, kinds, row, c) then 1.0
    else 0.0
  }

  lemma RowsFit(t: RawTable)
    requires t.Valid()
    ensures forall i :: 0 <= i < |t.rows| ==> RowFits(t.names, t.kinds, t.rows[i])
  {
  }

  function SchemaEncode(t: RawTable, schema: seq<string>): (r: Table)
    requires t.Valid()
    ensures r.Valid() && r.names == schema && |r.rows| == |t.rows|
  {
    RowsFit(t);
    Table(schema, seq(|t.rows|, i requires 0 <= i < |t.rows| =>
      seq(|schema|, k requires 0 <= k < |schema| => RowCell(t.names, t.kinds, t.rows[i], schema[k]))))
  }

  /**
   * Encoding a batch equals encoding its parts and stacking the results:
   * the encoding of a row does not depend on the other rows.
   */
  lemma SchemaEncodeSplit(t1: RawTable, t2: RawTable, schema: seq<string>)
    requires t1.Valid() && t2.Valid() && t1.names == t2.names && t1.kinds == t2.kinds
    ensures RawTable(t1.names, t1.kinds, t1.rows + t2.rows).Valid()
    ensures SchemaEncode(RawTable(t1.names, t1.kinds, t1.rows + t2.rows), schema).rows ==
            SchemaEncode(t1, schema).rows + SchemaEncode(t2, schema).rows
  {
    var t := RawTable(t1.names, t1.kinds, t1.rows + t2.rows);
    assert forall i :: 0 <= i < |t.rows| ==> t.rows[i] == if i < |t1.rows| then t1.rows[i] else t2.rows[i - |t1.rows|];
    var whole := SchemaEncode(t, schema).rows;
    var parts := SchemaEncode(t1, schema).rows + SchemaEncode(t2, schema).rows;
    forall i | 0 <= i < |whole|
      ensures whole[i] == parts[i]
    {
      RowsFit(t);
      if i < |t1.rows| {
        assert t.rows[i] == t1.rows[i];
      } else {
        assert t.rows[i] == t2.rows[i - |t1.rows|];
      }
    }
  }

  /** A category present in a row sets the schema column named after it, in any batch. */
  lemma ObservedLevelIsSet(t: RawTable, schema: seq<string>, i: nat, k: nat, j: nat)
    requires t.Valid() && i < |t.rows| && k < |schema| && j < |t.names| && t.kinds[j] == Categorical
    requires schema[k] == DummyName(t.names[j], t.rows[i][j].s)
    requires forall m :: 0 <= m < |t.names| && t.kinds[m] == Numeric ==> t.names[m] != schema[k]
    ensures SchemaEncode(t, schema).rows[i][k] == 1.0
  {
    RowsFit(t);
    assert LevelNamed(t.names, t.kinds, t.rows[i], schema[k]);
  }

  /** A schema column no cell of the row accounts for is 0; an unseen category just sets nothing. */
  lemma UnmatchedColumnIsZero(t: RawTable, schema: seq<string>, i: nat, k: nat)
    requires t.Valid() && i < |t.rows| && k < |schema|
    requires forall m :: 0 <= m < |t.names| && t.kinds[m] == Numeric ==> t.names[m] != schema[k]
    requires forall m :: 0 <= m < |t.names| && t.kinds[m] == Categorical ==>
      DummyName(t.names[m], t.rows[i][m].s) != schema[k]
    ensures SchemaEncode(t, schema).rows[i][k] == 0.0
  {
    RowsFit(t);
  }

  /** The first numeric column carrying a schema name is copied through. */
  lemma NumericCopied(t: RawTable, schema: seq<string>, i: nat, k: nat, j: nat)
    requires t.Valid() && i < |t.rows| && k < |schema| && j < |t.names|
    requires t.kinds[j] == Numeric && t.names[j] == schema[k]
    requires forall m :: 0 <= m < j ==> !(t.kinds[m] == Numeric && t.names[m] == schema[k])
    ensures SchemaEncode(t, schema).rows[i][k] == t.rows[i][j].x
  {
    RowsFit(t);
    assert FirstNumeric(t.names, t.kinds, schema[k], 0) == j;
  }
}
