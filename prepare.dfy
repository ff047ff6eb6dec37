/**
 * prepare_features: one-hot encode the raw table, add every schema column the
 * encoding did not produce as a column of zeros, then select the schema's
 * columns in the schema's order.
 */
module Prepare {
  import opened Wrappers
  import opened Frames
  import opened Dummies

  /**
   * df_enc[cols]: the columns named by cols, in that order.  A label that is
   * not a column is a KeyError.
   */
  function Project(t: Table, cols: seq<string>): (r: Option<Table>)
    requires t.Valid()
    ensures r.Some? <==> forall k :: 0 <= k < |cols| ==> cols[k] in t.names
    ensures r.Some? ==> r.value.Valid() && r.value.names == cols && |r.value.rows| == |t.rows|
    ensures r.Some? ==> forall i, k :: 0 <= i < |t.rows| && 0 <= k < |cols| ==>
      r.value.rows[i][k] == t.rows[i][FirstIndex(t.names, cols[k])]
  {
    if forall k :: 0 <= k < |cols| ==> cols[k] in t.names then
      Some(Table(cols, seq(|t.rows|, i requires 0 <= i < |t.rows| =>
        seq(|cols|, k requires 0 <= k < |cols| => t.rows[i][FirstIndex(t.names, cols[k])]))))
    else
      None
  }

  /** Column c of row i once the missing columns are zero-filled. */
  function Cell(e: Table, c: string, i: nat): real
    requires e.Valid() && i < |e.rows|
  {
    if c in e.names then e.rows[i][FirstIndex(e.names, c)] else 0.0
  }

  /** The encoded table forced onto the schema. */
  function Reconciled(e: Table, schema: seq<string>): (r: Table)
    requires e.Valid()
    ensures r.Valid() && r.names == schema && |r.rows| == |e.rows|
  {
    Table(schema, seq(|e.rows|, i requires 0 <= i < |e.rows| =>
      seq(|schema|, k requires 0 <= k < |schema| => Cell(e, schema[k], i))))
  }

  /**
   * What prepare_features returns: whatever the input holds, exactly the
   * schema's columns in the schema's order, and one row per input row.
   */
  function Prepared(t: RawTable, schema: seq<string>): (r: Table)
    requires t.Valid()
    ensures r.Valid() && r.names == schema && |r.rows| == |t.rows|
  {
    Reconciled(GetDummies(t), schema)
  }

  method PrepareFeatures(t: RawTable, schema: seq<string>) returns (out: Table)
    requires t.Valid()
    ensures out.Valid() && out.names == schema && |out.rows| == |t.rows|
    ensures out == Prepared(t, schema)
  {
    var enc := GetDummies(t);
    var filled := FillMissing(enc, schema);
    FilledProjection(enc, filled, schema);
    out := Project(filled, schema).value;
  }

  /**
   * The schema labels the zero-fill loop appends to a table with columns
   * names: those not among names, each once, in the order the schema first
   * lists them.
   */
  function Missing(names: seq<string>, schema: seq<string>): (r: seq<string>)
    ensures forall x :: x in r <==> x in schema && x !in names
    ensures Distinct(r)
  {
    if |schema| == 0 then []
    else
      var m := Missing(names, schema[..|schema| - 1]);
      var c := schema[|schema| - 1];
      assert forall x :: x in schema <==> x in schema[..|schema| - 1] || x == c;
      if c in names || c in m then m else m + [c]
  }

  /** The zero-fill loop: every schema label missing from the table is appended as a column of zeros. */
  method FillMissing(enc: Table, schema: seq<string>) returns (f: Table)
    requires enc.Valid()
    ensures f.names == enc.names + Missing(enc.names, schema)
    ensures Filled(enc, f, schema)
  {
    var names := enc.names;
    var rows := enc.rows;
    ghost var n0 := |enc.names|;
    for k := 0 to |schema|
      invariant names == enc.names + Missing(enc.names, schema[..k])
      invariant |rows| == |enc.rows|
      invariant forall i :: 0 <= i < |rows| ==> |rows[i]| == |names| && rows[i][..n0] == enc.rows[i]
      invariant forall i, c :: 0 <= i < |rows| && n0 <= c < |names| ==> rows[i][c] == 0.0
    {
      assert schema[..k + 1][..k] == schema[..k];
      if schema[k] !in names {
        names := names + [schema[k]];
        rows := seq(|rows|, i requires 0 <= i < |rows| => rows[i] + [0.0]);
      }
    }
    assert schema[..|schema|] == schema;
    f := Table(names, rows);
    assert forall c :: n0 <= c < |names| ==> names[c] in Missing(enc.names, schema);
  }

  /**
   * The table the zero-fill loop leaves behind: the encoded columns first,
   * then added columns that are 0 everywhere and whose labels the encoding
   * did not produce, covering every schema label.  Projecting it onto the
   * schema gives the reconciled table.
   */
  predicate Filled(enc: Table, f: Table, schema: seq<string>)
    requires enc.Valid()
  {
    var n0 := |enc.names|;
    f.Valid() && n0 <= |f.names| && f.names[..n0] == enc.names && |f.rows| == |enc.rows|
    && (forall i :: 0 <= i < |f.rows| ==> f.rows[i][..n0] == enc.rows[i])
    && (forall i, c :: 0 <= i < |f.rows| && n0 <= c < |f.names| ==> f.rows[i][c] == 0.0)
    && (forall c :: n0 <= c < |f.names| ==> f.names[c] !in enc.names)
    && (forall m :: 0 <= m < |schema| ==> schema[m] in f.names)
  }

  lemma FilledProjection(enc: Table, f: Table, schema: seq<string>)
    requires enc.Valid() && Filled(enc, f, schema)
    ensures Project(f, schema).Some? && Project(f, schema).value == Reconciled(enc, schema)
  {
    var n0 := |enc.names|;
    var out := Project(f, schema).value;
    forall i, k | 0 <= i < |f.rows| && 0 <= k < |schema|
      ensures out.rows[i][k] == Cell(enc, schema[k], i)
    {
      FirstIndexInPrefix(f.names, enc.names, schema[k]);
      var q := FirstIndex(f.names, schema[k]);
      if q < n0 {
        assert f.rows[i][..n0][q] == f.rows[i][q];
      }
    }
    var spec := Reconciled(enc, schema);
    forall i | 0 <= i < |f.rows|
      ensures out.rows[i] == spec.rows[i]
    {
      assert forall k :: 0 <= k < |schema| ==> spec.rows[i][k] == Cell(enc, schema[k], i);
    }
  }

  /**
   * A schema column that the encoding does not produce (neither a numeric
   * column nor the dummy of a level present in this table) is 0 in every
   * row.  This covers a missing numeric attribute, which is defaulted to 0
   * rather than rejected.
   */
  lemma UnproducedColumnIsZero(t: RawTable, schema: seq<string>, i: nat, k: nat)
    requires t.Valid() && i < |t.rows| && k < |schema|
    requires forall j :: 0 <= j < |t.names| && t.kinds[j] == Numeric ==> t.names[j] != schema[k]
    requires forall j, p :: 0 <= j < |t.names| && t.kinds[j] == Categorical && 0 <= p < |Kept(t, j)| ==>
      DummyName(t.names[j], Kept(t, j)[p]) != schema[k]
    ensures Prepared(t, schema).rows[i][k] == 0.0
  {
    EncodedNames(t, schema[k]);
  }

  /**
   * A numeric column the schema names is copied through unchanged, row by
   * row (raw column labels are distinct, as in any table pandas builds from
   * a CSV header or a dict).
   */
  lemma NumericPassThrough(t: RawTable, schema: seq<string>, i: nat, k: nat, j: nat)
    requires t.Valid() && Distinct(t.names) && i < |t.rows| && k < |schema| && j < |t.names|
    requires t.kinds[j] == Numeric && t.names[j] == schema[k]
    ensures Prepared(t, schema).rows[i][k] == t.rows[i][j].x
  {
    NumericColumn(t, j);
    NumericCell(t, i, j);
    NumericFirstIndex(t, j);
    PreparedCell(t, schema, i, k, NumericOffset(t, j));
  }

  /** With distinct raw labels, a numeric column's label first occurs at its own offset. */
  lemma NumericFirstIndex(t: RawTable, j: nat)
    requires t.Valid() && Distinct(t.names) && j < |t.names| && t.kinds[j] == Numeric
    ensures t.names[j] in GetDummies(t).names
    ensures FirstIndex(GetDummies(t).names, t.names[j]) == NumericOffset(t, j)
  {
    var e := GetDummies(t);
    var q := NumericOffset(t, j);
    NumericColumn(t, j);
    var blocks := NumericNames(t);
    ConcatPrefix(blocks, j);
    forall m | 0 <= m < q
      ensures e.names[m] != t.names[j]
    {
      var x := e.names[m];
      assert x == Concat(blocks[..j])[m];
      ConcatMember(blocks[..j], x);
      var j', p :| 0 <= j' < j && 0 <= p < |blocks[..j][j']| && blocks[..j][j'][p] == x;
      assert x == t.names[j'];
    }
  }

  /** Output column k of row i is the encoded cell where the schema label first occurs. */
  lemma PreparedCell(t: RawTable, schema: seq<string>, i: nat, k: nat, q: nat)
    requires t.Valid() && i < |t.rows| && k < |schema|
    requires schema[k] in GetDummies(t).names && FirstIndex(GetDummies(t).names, schema[k]) == q
    ensures Prepared(t, schema).rows[i][k] == GetDummies(t).rows[i][q]
  {
    assert Prepared(t, schema).rows[i][k] == Cell(GetDummies(t), schema[k], i);
  }

  /**
   * Dummy p of categorical column j reaches the output as 1 exactly in the
   * rows holding that level, provided no other encoded column carries the
   * same label.
   */
  lemma DummyIndicator(t: RawTable, schema: seq<string>, i: nat, k: nat, j: nat, p: nat)
    requires t.Valid() && i < |t.rows| && k < |schema| && j < |t.names| && t.kinds[j] == Categorical
    requires p < |Kept(t, j)| && schema[k] == DummyName(t.names[j], Kept(t, j)[p])
    requires forall m :: 0 <= m < |GetDummies(t).names| && GetDummies(t).names[m] == schema[k] ==> m == DummyOffset(t, j) + p
    ensures Prepared(t, schema).rows[i][k] == Hot(t.rows[i][j], Kept(t, j)[p])
  {
    var q := DummyOffset(t, j) + p;
    DummyColumn(t, j, p);
    DummyCell(t, i, j, p);
    PreparedCell(t, schema, i, k, q);
  }

  /** In every output row at most one dummy column of a categorical attribute is 1. */
  lemma AtMostOneDummySet(t: RawTable, schema: seq<string>, i: nat, j: nat, k1: nat, k2: nat, p1: nat, p2: nat)
    requires t.Valid() && Distinct(schema)
    requires i < |t.rows| && k1 < |schema| && k2 < |schema| && j < |t.names| && t.kinds[j] == Categorical
    requires p1 < |Kept(t, j)| && schema[k1] == DummyName(t.names[j], Kept(t, j)[p1])
    requires p2 < |Kept(t, j)| && schema[k2] == DummyName(t.names[j], Kept(t, j)[p2])
    requires forall m :: 0 <= m < |GetDummies(t).names| && GetDummies(t).names[m] == schema[k1] ==> m == DummyOffset(t, j) + p1
    requires forall m :: 0 <= m < |GetDummies(t).names| && GetDummies(t).names[m] == schema[k2] ==> m == DummyOffset(t, j) + p2
    requires Prepared(t, schema).rows[i][k1] == 1.0 && Prepared(t, schema).rows[i][k2] == 1.0
    ensures k1 == k2
  {
    DummyIndicator(t, schema, i, k1, j, p1);
    DummyIndicator(t, schema, i, k2, j, p2);
  }

  /**
   * The reference level is chosen per call: with a single row every
   * categorical column has one level, which is dropped, so every schema
   * column except the numeric ones is 0.
   */
  lemma SingleRowLosesDummies(t: RawTable, schema: seq<string>, k: nat)
    requires t.Valid() && |t.rows| == 1 && k < |schema|
    requires forall j :: 0 <= j < |t.names| && t.kinds[j] == Numeric ==> t.names[j] != schema[k]
    ensures Prepared(t, schema).rows[0][k] == 0.0
  {
    SmallTableHasNoDummies(t);
    NumericNamesMember(t, schema[k]);
  }

  /**
   * Row order is kept: output row i is computed from input row i alone,
   * given the levels the batch holds.
   */
  lemma OutputRowFollowsInputRow(t: RawTable, u: RawTable, schema: seq<string>, i: nat, i2: nat)
    requires t.Valid() && u.Valid() && t.names == u.names && t.kinds == u.kinds
    requires SameLevels(t, u)
    requires i < |t.rows| && i2 < |u.rows| && t.rows[i] == u.rows[i2]
    ensures Prepared(t, schema).rows[i] == Prepared(u, schema).rows[i2]
  {
    EncodedRowIsLocal(t, u, i, i2);
  }
}
