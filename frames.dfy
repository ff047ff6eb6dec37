/**
 * The tables prepare_features works on.  A raw table holds the customer
 * attributes as they come from the form or the CSV file; each column has a
 * kind fixed up front (the model does not infer dtypes).  An encoded table
 * holds only numbers: pass-through numeric columns and 0/1 dummy columns.
 */
module Frames {

  datatype Kind = Numeric | Categorical

  datatype Value = Num(x: real) | Cat(s: string)

  datatype RawTable = RawTable(names: seq<string>, kinds: seq<Kind>, rows: seq<seq<Value>>)
  {
    /** Every row has one cell per column, and a cell is a number exactly in a numeric column. */
    predicate Valid()
    {
      |kinds| == |names| &&
      forall i :: 0 <= i < |rows| ==>
        |rows[i]| == |names| &&
        forall j :: 0 <= j < |names| ==> (rows[i][j].Num? <==> kinds[j] == Numeric)
    }
  }

  datatype Table = Table(names: seq<string>, rows: seq<seq<real>>)
  {
    predicate Valid()
    {
      forall i :: 0 <= i < |rows| ==> |rows[i]| == |names|
    }
  }

  predicate Distinct(s: seq<string>)
  {
    forall i, j :: 0 <= i < j < |s| ==> s[i] != s[j]
  }

  /**
   * Position of the column a label selects.  With duplicate labels pandas
   * would select all of them; the model takes the first.
   */
  function FirstIndex(s: seq<string>, c: string): (k: nat)
    requires c in s
    ensures k < |s| && s[k] == c
    ensures forall m :: 0 <= m < k ==> s[m] != c
  {
    if s[0] == c then 0 else 1 + FirstIndex(s[1..], c)
  }

  /** A label found in a prefix is found at the same place in the whole. */
  lemma FirstIndexInPrefix(s: seq<string>, p: seq<string>, c: string)
    requires |p| <= |s| && s[..|p|] == p
    ensures c in p ==> c in s && FirstIndex(s, c) == FirstIndex(p, c)
    ensures c in s && c !in p ==> FirstIndex(s, c) >= |p|
  {
    if c in p {
      var k := FirstIndex(p, c);
      assert s[k] == p[k];
    }
  }

  /** Side-by-side concatenation of column blocks (or of their cells in one row). */
  function Concat<T>(ss: seq<seq<T>>): seq<T>
  {
    if |ss| == 0 then [] else Concat(ss[..|ss| - 1]) + ss[|ss| - 1]
  }

  lemma {:induction false} ConcatPrefix<T>(ss: seq<seq<T>>, j: nat)
    requires j <= |ss|
    ensures |Concat(ss[..j])| <= |Concat(ss)|
    ensures Concat(ss)[..|Concat(ss[..j])|] == Concat(ss[..j])
    decreases |ss|
  {
    if j == |ss| {
      assert ss[..j] == ss;
    } else {
      var init := ss[..|ss| - 1];
      assert init[..j] == ss[..j];
      ConcatPrefix(init, j);
    }
  }

  /** Cell p of block j sits at the block's offset plus p. */
  lemma ConcatAt<T>(ss: seq<seq<T>>, j: nat, p: nat)
    requires j < |ss| && p < |ss[j]|
    ensures |Concat(ss[..j])| + p < |Concat(ss)|
    ensures Concat(ss)[|Concat(ss[..j])| + p] == ss[j][p]
  {
    assert ss[..j + 1][..j] == ss[..j];
    assert Concat(ss[..j + 1]) == Concat(ss[..j]) + ss[j];
    ConcatPrefix(ss, j + 1);
    assert Concat(ss)[|Concat(ss[..j])| + p] == Concat(ss[..j + 1])[|Concat(ss[..j])| + p];
  }

  lemma {:induction false} ConcatMember<T>(ss: seq<seq<T>>, x: T)
    ensures x in Concat(ss) <==> exists j, p :: 0 <= j < |ss| && 0 <= p < |ss[j]| && ss[j][p] == x
    decreases |ss|
  {
    if |ss| > 0 {
      var init := ss[..|ss| - 1];
      ConcatMember(init, x);
      if x in Concat(ss) {
        if x !in Concat(init) {
          var p :| 0 <= p < |ss[|ss| - 1]| && ss[|ss| - 1][p] == x;
        } else {
          var j, p :| 0 <= j < |init| && 0 <= p < |init[j]| && init[j][p] == x;
          assert ss[j][p] == x;
        }
      }
      if exists j, p :: 0 <= j < |ss| && 0 <= p < |ss[j]| && ss[j][p] == x {
        var j, p :| 0 <= j < |ss| && 0 <= p < |ss[j]| && ss[j][p] == x;
        if j < |ss| - 1 {
          assert init[j][p] == x;
        } else {
          assert ss[j][p] in ss[|ss| - 1];
        }
      }
    }
  }

  /** Blocks of matching widths concatenate to sequences of matching widths. */
  lemma {:induction false} ConcatSameLength<S, T>(a: seq<seq<S>>, b: seq<seq<T>>)
    requires |a| == |b|
    requires forall j :: 0 <= j < |a| ==> |a[j]| == |b[j]|
    ensures |Concat(a)| == |Concat(b)|
    decreases |a|
  {
    if |a| > 0 {
      ConcatSameLength(a[..|a| - 1], b[..|b| - 1]);
    }
  }

  lemma {:induction false} ConcatOfEmpty<T>(ss: seq<seq<T>>)
    requires forall j :: 0 <= j < |ss| ==> ss[j] == []
    ensures Concat(ss) == []
    decreases |ss|
  {
    if |ss| > 0 {
      ConcatOfEmpty(ss[..|ss| - 1]);
    }
  }
}
