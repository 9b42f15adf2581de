/** Small things every module needs. */
module Prelude {

  datatype Option<+T> = None | Some(value: T)

  /** A nonempty set has a member one can name. */
  lemma Member<T>(s: set<T>) returns (x: T)
    requires s != {}
    ensures x in s
  {
    x :| x in s;
  }

  /** ASCII lower case. */
  function Lower(s: string): (r: string)
    ensures |r| == |s|
  {
    seq(|s|, i requires 0 <= i < |s| => if 'A' <= s[i] <= 'Z' then s[i] - 'A' + 'a' else s[i])
  }

  /** Capital letters move to the small ones, everything else stays. */
  lemma LowerAt(s: string, i: nat)
    requires i < |s|
    ensures 'A' <= s[i] <= 'Z' ==> 'a' <= Lower(s)[i] <= 'z' && Lower(s)[i] as int == s[i] as int + 32
    ensures s[i] < 'A' || s[i] > 'Z' ==> Lower(s)[i] == s[i]
  {
  }

  ghost predicate Distinct<T>(s: seq<T>) {
    forall i, j | 0 <= i < j < |s| :: s[i] != s[j]
  }

  /** The first occurrence of everything in s, in order. */
  function Firsts<T(==)>(s: seq<T>): seq<T> {
    if s == [] then []
    else
      var init, last := s[..|s| - 1], s[|s| - 1];
      Firsts(init) + if last in init then [] else [last]
  }

  lemma {:induction false} FirstsFacts<T>(s: seq<T>)
    ensures Distinct(Firsts(s)) && |Firsts(s)| <= |s|
    ensures forall x :: x in Firsts(s) <==> x in s
  {
    if s == [] {
    } else {
      var init, last := s[..|s| - 1], s[|s| - 1];
      FirstsFacts(init);
      assert s == init + [last];
    }
  }

  lemma {:induction false} FirstsOccur<T>(s: seq<T>, i: nat) returns (p: nat)
    requires i < |Firsts(s)|
    ensures p < |s| && s[p] == Firsts(s)[i]
  {
    var init := s[..|s| - 1];
    if i < |Firsts(init)| {
      p := FirstsOccur(init, i);
    } else {
      p := |s| - 1;
    }
  }

  /** They stand in the order in which they first occur. */
  lemma {:induction false} FirstsInOrder<T>(s: seq<T>, i: nat, j: nat) returns (p: nat)
    requires i < j < |Firsts(s)|
    ensures p < |s| && s[p] == Firsts(s)[i] && Firsts(s)[j] !in s[..p + 1]
  {
    var init, last := s[..|s| - 1], s[|s| - 1];
    FirstsFacts(s);
    FirstsFacts(init);
    if j < |Firsts(init)| {
      p := FirstsInOrder(init, i, j);
      assert init[..p + 1] == s[..p + 1];
    } else {
      p := FirstsOccur(init, i);
      assert s[..p + 1] <= init;
    }
  }

  lemma FirstsSnoc<T>(s: seq<T>, x: T)
    ensures Firsts(s + [x]) == Firsts(s) + if x in s then [] else [x]
  {
    assert (s + [x])[..|s|] == s;
  }

  /** How many entries of s satisfy p. */
  function Tally<T>(s: seq<T>, p: T -> bool): nat {
    if s == [] then 0
    else Tally(s[..|s| - 1], p) + if p(s[|s| - 1]) then 1 else 0
  }

  lemma {:induction false} TallyUpdate<T>(s: seq<T>, p: T -> bool, i: nat, x: T)
    requires i < |s|
    ensures Tally(s[i := x], p) == Tally(s, p) + (if p(x) then 1 else 0) - if p(s[i]) then 1 else 0
  {
    var n := |s| - 1;
    if i < n {
      assert s[i := x][..n] == s[..n][i := x];
      TallyUpdate(s[..n], p, i, x);
    } else {
      assert s[i := x][..n] == s[..n];
    }
  }

  lemma {:induction false} TallyBounds<T>(s: seq<T>, p: T -> bool)
    ensures Tally(s, p) <= |s|
    ensures Tally(s, p) == |s| <==> forall i | 0 <= i < |s| :: p(s[i])
    ensures Tally(s, p) == 0 <==> forall i | 0 <= i < |s| :: !p(s[i])
  {
    if s == [] {
    } else {
      var n := |s| - 1;
      TallyBounds(s[..n], p);
      assert forall i | 0 <= i < n :: s[..n][i] == s[i];
    }
  }

  lemma TallySnoc<T>(s: seq<T>, p: T -> bool, x: T)
    ensures Tally(s + [x], p) == Tally(s, p) + if p(x) then 1 else 0
  {
    assert (s + [x])[..|s|] == s;
  }

  lemma {:induction false} TallyPick<T>(s: seq<T>, p: T -> bool) returns (i: nat)
    requires Tally(s, p) > 0
    ensures i < |s| && p(s[i])
  {
    var n := |s| - 1;
    if p(s[n]) {
      i := n;
    } else {
      i := TallyPick(s[..n], p);
    }
  }

  lemma {:induction false} TallyMonotone<T>(s: seq<T>, p: T -> bool, q: T -> bool)
    requires forall x | x in s && p(x) :: q(x)
    ensures Tally(s, p) <= Tally(s, q)
  {
    if s == [] {
    } else {
      TallyMonotone(s[..|s| - 1], p, q);
    }
  }

  function Sum<T>(s: seq<T>, f: T -> nat): nat {
    if s == [] then 0 else Sum(s[..|s| - 1], f) + f(s[|s| - 1])
  }

  lemma {:induction false} SumUpdate<T>(s: seq<T>, f: T -> nat, i: nat, x: T)
    requires i < |s|
    ensures Sum(s[i := x], f) == Sum(s, f) - f(s[i]) + f(x)
  {
    var n := |s| - 1;
    if i < n {
      assert s[i := x][..n] == s[..n][i := x];
      SumUpdate(s[..n], f, i, x);
    } else {
      assert s[i := x][..n] == s[..n];
    }
  }
}
