/**
 * The order in which the one-hot encoder sorts the categories of a column:
 * Python's `<` on strings, which compares code point by code point and puts
 * a proper prefix first.  (Dafny's own `<` on sequences means "proper prefix",
 * so the lexicographic order is written out here.)
 */
module LexOrder {

  predicate Less(a: string, b: string)
    decreases |a|
  {
    if |a| == 0 then |b| > 0
    else if |b| == 0 then false
    else a[0] < b[0] || (a[0] == b[0] && Less(a[1..], b[1..]))
  }

  lemma {:induction false} LessIrreflexive(a: string)
    ensures !Less(a, a)
    decreases |a|
  {
    if |a| > 0 {
      LessIrreflexive(a[1..]);
    }
  }

  lemma {:induction false} LessTransitive(a: string, b: string, c: string)
    requires Less(a, b) && Less(b, c)
    ensures Less(a, c)
    decreases |a|
  {
    if |a| > 0 && a[0] == b[0] && b[0] == c[0] {
      LessTransitive(a[1..], b[1..], c[1..]);
    }
  }

  lemma {:induction false} LessTotal(a: string, b: string)
    requires a != b
    ensures Less(a, b) || Less(b, a)
    decreases |a|
  {
    if |a| > 0 && |b| > 0 && a[0] == b[0] {
      assert a == [a[0]] + a[1..] && b == [b[0]] + b[1..];
      LessTotal(a[1..], b[1..]);
    }
  }

  predicate StrictlySorted(s: seq<string>)
  {
    forall i, j :: 0 <= i < j < |s| ==> Less(s[i], s[j])
  }

  /** Adds v to a strictly sorted sequence, unless it is already there. */
  function Insert(s: seq<string>, v: string): (r: seq<string>)
    requires StrictlySorted(s)
    ensures StrictlySorted(r)
    ensures forall x :: x in r <==> x in s || x == v
  {
    if |s| == 0 then [v]
    else if v == s[0] then s
    else if Less(v, s[0]) then
      assert forall j :: 0 < j < |s| ==> Less(v, s[j]) by {
        forall j | 0 < j < |s| ensures Less(v, s[j]) { LessTransitive(v, s[0], s[j]); }
      }
      [v] + s
    else
      LessTotal(v, s[0]);
      var rest := Insert(s[1..], v);
      assert forall x :: x in rest ==> Less(s[0], x);
      [s[0]] + rest
  }

  /**
   * The distinct values of a column in the encoder's order: strictly sorted,
   * and holding exactly the values that occur.
   */
  function Levels(vals: seq<string>): (l: seq<string>)
    ensures StrictlySorted(l)
    ensures forall x :: x in l <==> x in vals
  {
    if |vals| == 0 then []
    else Insert(Levels(vals[..|vals| - 1]), vals[|vals| - 1])
  }

  lemma HeadIsMember(s: seq<string>)
    ensures |s| > 0 ==> s[0] in s
  {
  }

  /** A strictly sorted sequence is determined by its set of elements. */
  lemma {:induction false} SortedUnique(a: seq<string>, b: seq<string>)
    requires StrictlySorted(a) && StrictlySorted(b)
    requires forall x :: x in a <==> x in b
    ensures a == b
    decreases |a|
  {
    if |a| == 0 {
      HeadIsMember(b);
      if |b| > 0 {
        assert false;
      }
    } else {
      assert a[0] in b && b[0] in a;
      if a[0] != b[0] {
        assert Less(b[0], a[0]);
        assert Less(a[0], b[0]);
        LessTransitive(a[0], b[0], a[0]);
        LessIrreflexive(a[0]);
      }
      forall x
        ensures x in a[1..] <==> x in b[1..]
      {
        if x in a[1..] {
          var k :| 1 <= k < |a| && a[k] == x;
          LessIrreflexive(a[0]);
          assert x in b && x != b[0];
          var m :| 0 <= m < |b| && b[m] == x;
          assert b[1..][m - 1] == x;
        }
        if x in b[1..] {
          var k :| 1 <= k < |b| && b[k] == x;
          LessIrreflexive(b[0]);
          assert x in a && x != a[0];
          var m :| 0 <= m < |a| && a[m] == x;
          assert a[1..][m - 1] == x;
        }
      }
      SortedUnique(a[1..], b[1..]);
      assert a == [a[0]] + a[1..] && b == [b[0]] + b[1..];
    }
  }

  /** Two columns with the same set of values have the same levels. */
  lemma LevelsBySet(u: seq<string>, w: seq<string>)
    requires forall x :: x in u <==> x in w
    ensures Levels(u) == Levels(w)
  {
    SortedUnique(Levels(u), Levels(w));
  }

  /** The first level is an observed value, and the smallest one. */
  lemma LevelsFirstIsSmallest(vals: seq<string>)
    requires |vals| > 0
    ensures |Levels(vals)| > 0 && Levels(vals)[0] in vals
    ensures forall v :: v in vals ==> v == Levels(vals)[0] || Less(Levels(vals)[0], v)
  {
    var l := Levels(vals);
    assert vals[0] in l;
    forall v | v in vals
      ensures v == l[0] || Less(l[0], v)
    {
      var k :| 0 <= k < |l| && l[k] == v;
    }
  }

  /** A column of at most one row has at most one level. */
  lemma LevelsOfSmallColumn(vals: seq<string>)
    requires |vals| <= 1
    ensures |Levels(vals)| == |vals|
  {
    if |vals| == 1 {
      assert Levels(vals) == Insert([], vals[0]);
    }
  }
}
