/** Indices in increasing order. */
module IndexOrder {
  import opened Prelude

  ghost predicate Increasing(s: seq<int>) {
    forall i, j | 0 <= i < j < |s| :: s[i] < s[j]
  }

  ghost predicate IsLeast(m: int, s: set<int>) {
    m in s && forall x :: x in s ==> m <= x
  }

  lemma {:induction false} LeastExists(s: set<int>)
    requires |s| > 0
    ensures exists m :: IsLeast(m, s)
    decreases |s|
  {
    var y := Member(s);
    var rest := s - {y};
    if |rest| == 0 {
      assert rest == {};
      assert forall x :: x in s ==> x == y || x in rest;
      assert IsLeast(y, s);
    } else {
      LeastExists(rest);
      var m :| IsLeast(m, rest);
      var least := if y < m then y else m;
      assert forall x :: x in s ==> x == y || x in rest;
      assert IsLeast(least, s);
    }
  }

  function Least(s: set<int>): (m: int)
    requires |s| > 0
    ensures IsLeast(m, s)
  {
    LeastExists(s);
    var m :| m in s && forall x :: x in s ==> m <= x;
    m
  }

  function SortedKeys(s: set<int>): (r: seq<int>)
    ensures Increasing(r)
    ensures forall x :: x in r <==> x in s
  {
    if |s| == 0 then []
    else
      var least := Least(s);
      [least] + SortedKeys(s - {least})
  }

  lemma HeadIsMember(s: seq<int>)
    requires s != []
    ensures s[0] in s
  {
  }

  /** Two increasing lists of the same numbers are one list. */
  lemma {:induction false} SortedUnique(a: seq<int>, b: seq<int>)
    requires Increasing(a) && Increasing(b)
    requires forall x :: x in a <==> x in b
    ensures a == b
  {
    if a == [] {
      if b != [] { HeadIsMember(b); }
    } else {
      assert a[0] in a && b != [] by { assert a[0] in a; }
      assert b[0] in b;
      forall x ensures x in a[1..] <==> x in b[1..] {
        assert x in a <==> x == a[0] || x in a[1..];
        assert x in b <==> x == b[0] || x in b[1..];
      }
      SortedUnique(a[1..], b[1..]);
    }
  }

  ghost function Position(idx: seq<int>, k: int): (p: nat)
    requires k in idx
    ensures p < |idx| && idx[p] == k
  {
    var p :| 0 <= p < |idx| && idx[p] == k;
    p
  }

  lemma PositionInverts(idx: seq<int>, i: nat)
    requires Increasing(idx) && i < |idx|
    ensures Position(idx, idx[i]) == i
  {
    var p := Position(idx, idx[i]);
    assert !(p < i) && !(i < p);
  }
}
