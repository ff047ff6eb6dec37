/**
 * The model-insights table: schema column names paired with the model's
 * feature importances, sorted by importance in ascending order.
 */
module Importance {
  import opened Wrappers

  /** One row of the table: (Feature, Importance). */
  type Entry = (string, real)

  datatype Unavailable =
    | NoImportances   // the model has no feature_importances_ attribute
    | LengthMismatch  // the two columns of the DataFrame differ in length

  predicate Ascending(s: seq<Entry>)
  {
    forall a, b :: 0 <= a < b < |s| ==> s[a].1 <= s[b].1
  }

  function InsertByImportance(s: seq<Entry>, e: Entry): (r: seq<Entry>)
    requires Ascending(s)
    ensures Ascending(r)
    ensures multiset(r) == multiset(s) + multiset{e}
  {
    if |s| == 0 then [e]
    else if e.1 <= s[0].1 then [e] + s
    else
      var rest := InsertByImportance(s[1..], e);
      assert s == [s[0]] + s[1..];
      BoundedBelow(s[1..], e, rest, s[0].1);
      [s[0]] + rest
  }

  /** A rearrangement of s + [e] keeps every lower bound they share. */
  lemma BoundedBelow(s: seq<Entry>, e: Entry, r: seq<Entry>, low: real)
    requires multiset(r) == multiset(s) + multiset{e}
    requires low <= e.1 && forall m :: 0 <= m < |s| ==> low <= s[m].1
    ensures forall b :: 0 <= b < |r| ==> low <= r[b].1
  {
    forall b | 0 <= b < |r|
      ensures low <= r[b].1
    {
      assert r[b] in multiset(r);
      if r[b] != e {
        assert r[b] in multiset(s);
        var m :| 0 <= m < |s| && s[m] == r[b];
      }
    }
  }

  /**
   * Sorting by importance.  pandas' sort_values uses an unstable sort by
   * default, so only the order of the importances and the multiset of rows
   * are promised, not the order of ties.
   */
  function SortByImportance(s: seq<Entry>): (r: seq<Entry>)
    ensures Ascending(r)
    ensures multiset(r) == multiset(s)
  {
    if |s| == 0 then []
    else
      assert s == s[..|s| - 1] + [s[|s| - 1]];
      InsertByImportance(SortByImportance(s[..|s| - 1]), s[|s| - 1])
  }

  /** The DataFrame of the two columns, row k being (features[k], importances[k]). */
  function Pair(features: seq<string>, importances: seq<real>): (s: seq<Entry>)
    requires |features| == |importances|
    ensures |s| == |features|
    ensures forall k :: 0 <= k < |s| ==> s[k] == (features[k], importances[k])
  {
    seq(|features|, k requires 0 <= k < |features| => (features[k], importances[k]))
  }

  /** The table shown under "Model Insights", or why there is none. */
  function ImportanceTable(features: seq<string>, importances: Option<seq<real>>): (r: Result<seq<Entry>, Unavailable>)
    ensures importances.None? <==> r == Failure(NoImportances)
    ensures r == Failure(LengthMismatch) <==> importances.Some? && |importances.value| != |features|
    ensures r.Success? ==> Ascending(r.value)
    ensures r.Success? ==> multiset(r.value) == multiset(Pair(features, importances.value))
  {
    match importances
    case None => Failure(NoImportances)
    case Some(w) =>
      if |w| != |features| then Failure(LengthMismatch)
      else Success(SortByImportance(Pair(features, w)))
  }

  /**
   * Sorting never separates a feature from its weight: the table has one row
   * per schema column, and each row is some column's name with that column's
   * own importance.
   */
  lemma EntriesKeepTheirWeights(features: seq<string>, importances: seq<real>, k: nat)
    requires |features| == |importances|
    requires k < |ImportanceTable(features, Some(importances)).value|
    ensures |ImportanceTable(features, Some(importances)).value| == |features|
    ensures exists i :: 0 <= i < |features| && ImportanceTable(features, Some(importances)).value[k] == (features[i], importances[i])
  {
    var table := ImportanceTable(features, Some(importances)).value;
    var pairs := Pair(features, importances);
    assert |multiset(table)| == |multiset(pairs)|;
    assert table[k] in multiset(pairs);
    var i :| 0 <= i < |pairs| && pairs[i] == table[k];
  }
}
