/** Column ids of a workbook made from a template. */
module TemplateIds {
  import opened Numerals
  import opened Prelude

  /** What the loop tries: the base itself, then base_1, base_2, ... */
  function Candidate(b: string, m: nat): string {
    if m == 0 then b else b + "_" + Render(m, 10)
  }

  lemma CandidatesDiffer(b: string, m: nat, n: nat)
    requires m != n
    ensures Candidate(b, m) != Candidate(b, n)
  {
    ValueOfRender(m, 10);
    ValueOfRender(n, 10);
    var prefix := b + "_";
    if m != 0 {
      assert Candidate(b, m)[|prefix|..] == Render(m, 10);
    }
    if n != 0 {
      assert Candidate(b, n)[|prefix|..] == Render(n, 10);
    }
  }

  /** The m-th candidate is the first that is free. */
  ghost predicate FirstFree(b: string, seen: set<string>, m: nat) {
    Candidate(b, m) !in seen && forall k | 0 <= k < m :: Candidate(b, k) in seen
  }

  /** The first m candidates. */
  ghost function Tried(b: string, m: nat): set<string> {
    if m == 0 then {} else Tried(b, m - 1) + {Candidate(b, m - 1)}
  }

  lemma {:induction false} LaterOnesAreNew(b: string, m: nat, k: nat)
    requires m <= k
    ensures Candidate(b, k) !in Tried(b, m)
  {
    if m == 0 {
    } else {
      LaterOnesAreNew(b, m - 1, k);
      CandidatesDiffer(b, m - 1, k);
    }
  }

  /** Pigeonhole: of |seen| + 1 candidates one is free. */
  lemma {:induction false} TakenAreFew(b: string, seen: set<string>, m: nat)
    requires forall k | 0 <= k < m :: Candidate(b, k) in seen
    ensures |Tried(b, m)| == m && Tried(b, m) <= seen && m <= |seen|
  {
    if m == 0 {
    } else {
      TakenAreFew(b, seen, m - 1);
      LaterOnesAreNew(b, m - 1, m - 1);
      assert Candidate(b, m - 1) in seen;
      Larger(Tried(b, m), seen);
    }
  }

  lemma Larger(a: set<string>, b: set<string>)
    requires a <= b
    ensures |a| <= |b|
  {
    assert b == a + (b - a);
  }

  /** The first free candidate from the m-th on, trying |seen| + 1 of them in all. */
  ghost function Search(b: string, seen: set<string>, m: nat): string
    decreases |seen| + 1 - m
  {
    if m > |seen| then ""
    else if Candidate(b, m) !in seen then Candidate(b, m)
    else Search(b, seen, m + 1)
  }

  ghost function FirstFreeId(b: string, seen: set<string>): string {
    Search(b, seen, 0)
  }

  /** The search does not run out: it finds the first free candidate. */
  lemma {:induction false} SearchFinds(b: string, seen: set<string>, m: nat) returns (n: nat)
    requires forall k | 0 <= k < m :: Candidate(b, k) in seen
    ensures m <= n <= |seen| && FirstFree(b, seen, n) && Search(b, seen, m) == Candidate(b, n)
    decreases |seen| + 1 - m
  {
    TakenAreFew(b, seen, m);
    if Candidate(b, m) in seen {
      TakenAreFew(b, seen, m + 1);
      n := SearchFinds(b, seen, m + 1);
    } else {
      n := m;
    }
  }

  /** The first free candidate is free, one of the first |seen| + 1, and everything before it is taken. */
  lemma FirstFreeIdIs(b: string, seen: set<string>) returns (n: nat)
    ensures n <= |seen| && FirstFree(b, seen, n) && FirstFreeId(b, seen) == Candidate(b, n)
  {
    n := SearchFinds(b, seen, 0);
  }

  /** The suffix loop; it ends after at most |seen| increments. */
  method FreshId(b: string, seen: set<string>) returns (id: string)
    ensures id == FirstFreeId(b, seen)
  {
    id := b;
    var suffix := 1;
    while id in seen
      invariant 1 <= suffix <= |seen| + 1 && id == Candidate(b, suffix - 1)
      invariant forall k | 0 <= k < suffix - 1 :: Candidate(b, k) in seen
      invariant Search(b, seen, suffix - 1) == FirstFreeId(b, seen)
      decreases |seen| + 1 - suffix
    {
      TakenAreFew(b, seen, suffix);
      id := b + "_" + Render(suffix, 10);
      suffix := suffix + 1;
    }
  }

  // ---- the whole workbook ----

  /** The k-th enrichment column's id before suffixes: its own, unless that is missing or empty. */
  function Base(own: Option<string>, k: nat): string {
    if own.Some? && own.value != "" then own.value else "enrich_" + Render(k, 10)
  }

  function Bases(own: seq<Option<string>>): (bases: seq<string>)
    ensures |bases| == |own| && forall k | 0 <= k < |own| :: bases[k] == Base(own[k], k)
  {
    seq(|own|, k requires 0 <= k < |own| => Base(own[k], k))
  }

  ghost function Taken(keys: seq<string>, ids: seq<string>): set<string> {
    (set x | x in keys) + set x | x in ids
  }

  /** The enrichment columns' ids: each the first free candidate, given the template's keys and the
      ids before it. */
  ghost function Ids(keys: seq<string>, bases: seq<string>): (ids: seq<string>)
    ensures |ids| == |bases|
  {
    if bases == [] then []
    else
      var n := |bases| - 1;
      var early := Ids(keys, bases[..n]);
      early + [FirstFreeId(bases[n], Taken(keys, early))]
  }

  lemma IdsSnoc(keys: seq<string>, bases: seq<string>, n: nat)
    requires n < |bases|
    ensures Ids(keys, bases[..n + 1]) == Ids(keys, bases[..n]) + [FirstFreeId(bases[n], Taken(keys, Ids(keys, bases[..n])))]
  {
    assert bases[..n + 1][..n] == bases[..n];
  }

  lemma TakenSnoc(keys: seq<string>, ids: seq<string>, id: string)
    ensures Taken(keys, ids + [id]) == Taken(keys, ids) + {id}
  {
  }

  lemma Appended(a: seq<string>, b: seq<string>, x: string)
    ensures a + b + [x] == a + (b + [x])
  {
  }

  /** The template's own columns, whose ids are their keys. */
  method KeyColumns(keys: seq<string>) returns (columns: seq<string>, seen: set<string>)
    ensures columns == keys && seen == Taken(keys, [])
  {
    columns, seen := [], {};
    for i := 0 to |keys|
      invariant columns == keys[..i] && seen == Taken(keys[..i], [])
    {
      columns, seen := columns + [keys[i]], seen + {keys[i]};
      assert keys[..i + 1] == keys[..i] + [keys[i]];
    }
    assert keys[..|keys|] == keys;
  }

  method ColumnIds(keys: seq<string>, own: seq<Option<string>>) returns (columns: seq<string>)
    ensures columns == keys + Ids(keys, Bases(own))
  {
    var seen;
    columns, seen := KeyColumns(keys);
    ghost var bases, ids: seq<string> := Bases(own), [];
    var count := 0;
    while count < |own|
      invariant count <= |own| && ids == Ids(keys, bases[..count])
      invariant columns == keys + ids && seen == Taken(keys, ids)
    {
      var id := FreshId(Base(own[count], count), seen);
      IdsSnoc(keys, bases, count);
      TakenSnoc(keys, ids, id);
      Appended(keys, ids, id);
      columns, seen, ids := columns + [id], seen + {id}, ids + [id];
      count := count + 1;
    }
    assert bases[..|own|] == bases;
  }

  /** Enrichment ids are pairwise distinct and none is a template key. */
  lemma {:induction false} IdsAreFresh(keys: seq<string>, bases: seq<string>)
    ensures Distinct(Ids(keys, bases)) && forall k | 0 <= k < |bases| :: Ids(keys, bases)[k] !in keys
  {
    if bases == [] {
    } else {
      var n := |bases| - 1;
      IdsAreFresh(keys, bases[..n]);
      var early := Ids(keys, bases[..n]);
      var m := FirstFreeIdIs(bases[n], Taken(keys, early));
      assert Ids(keys, bases)[n] !in Taken(keys, early);
      forall k | 0 <= k < n ensures Ids(keys, bases)[k] == early[k] {}
    }
  }

  /** Later columns do not matter to earlier ones. */
  lemma {:induction false} EarlierIds(keys: seq<string>, bases: seq<string>, k: nat)
    requires k <= |bases|
    ensures Ids(keys, bases)[..k] == Ids(keys, bases[..k])
  {
    if k == |bases| {
      assert bases[..k] == bases;
    } else {
      var n := |bases| - 1;
      EarlierIds(keys, bases[..n], k);
      assert bases[..n][..k] == bases[..k];
      assert Ids(keys, bases)[..n] == Ids(keys, bases[..n]);
    }
  }

  /** Each column's id is the first free candidate at its turn. */
  lemma TurnByTurn(keys: seq<string>, bases: seq<string>, k: nat)
    requires k < |bases|
    ensures Ids(keys, bases)[k] == FirstFreeId(bases[k], Taken(keys, Ids(keys, bases)[..k]))
  {
    EarlierIds(keys, bases, k);
    EarlierIds(keys, bases, k + 1);
    IdsSnoc(keys, bases, k);
    assert Ids(keys, bases)[..k + 1][k] == Ids(keys, bases)[k];
  }

  lemma KeepsBaseExactlyIf(keys: seq<string>, bases: seq<string>, k: nat)
    requires k < |bases|
    ensures Ids(keys, bases)[k] == bases[k] <==> bases[k] !in Taken(keys, Ids(keys, bases)[..k])
  {
    var b, seen := bases[k], Taken(keys, Ids(keys, bases)[..k]);
    TurnByTurn(keys, bases, k);
    var m := FirstFreeIdIs(b, seen);
    assert Candidate(b, 0) == b;
  }

  /** In the columns made, an enrichment column with an id of its own keeps it exactly if no column before it
      has it; one without is called enrich_k, for its place k among them, exactly if no column before it is. */
  lemma KeepsItsOwnId(keys: seq<string>, own: seq<Option<string>>, columns: seq<string>, k: nat)
    requires columns == keys + Ids(keys, Bases(own)) && k < |own|
    ensures |columns| == |keys| + |own|
    ensures own[k].Some? && own[k].value != "" ==>
              (columns[|keys| + k] == own[k].value <==> own[k].value !in columns[..|keys| + k])
    ensures own[k].None? || own[k].value == "" ==>
              (columns[|keys| + k] == "enrich_" + Render(k, 10) <==> "enrich_" + Render(k, 10) !in columns[..|keys| + k])
  {
    KeepsBaseExactlyIf(keys, Bases(own), k);
    var ids := Ids(keys, Bases(own));
    assert columns[..|keys| + k] == keys + ids[..k];
    assert forall x :: x in Taken(keys, ids[..k]) <==> x in columns[..|keys| + k];
  }

  /** Whatever a column asks for, its id starts with that, so a suffix is all that can be added. */
  lemma IdsExtendTheirBase(keys: seq<string>, own: seq<Option<string>>, columns: seq<string>, k: nat) returns (m: nat)
    requires columns == keys + Ids(keys, Bases(own)) && k < |own|
    ensures var b := if own[k].Some? && own[k].value != "" then own[k].value else "enrich_" + Render(k, 10);
      columns[|keys| + k] == if m == 0 then b else b + "_" + Render(m, 10)
    ensures m <= |keys| + k
  {
    var ids := Ids(keys, Bases(own));
    var seen := Taken(keys, ids[..k]);
    TurnByTurn(keys, Bases(own), k);
    m := FirstFreeIdIs(Bases(own)[k], seen);
    TakenIsSmall(keys, ids[..k]);
  }

  lemma TakenIsSmall(keys: seq<string>, ids: seq<string>)
    ensures |Taken(keys, ids)| <= |keys| + |ids|
  {
    SetIsSmall(keys);
    SetIsSmall(ids);
  }

  lemma {:induction false} SetIsSmall(s: seq<string>)
    ensures |set x | x in s| <= |s|
  {
    if s == [] {
      assert (set x | x in s) == {};
    } else {
      var init, last := s[..|s| - 1], s[|s| - 1];
      SetIsSmall(init);
      assert (set x | x in s) == (set x | x in init) + {last} by {
        assert s == init + [last];
      }
    }
  }

  lemma {:induction false} FreshBasesAreKept(keys: seq<string>, bases: seq<string>, k: nat)
    requires k < |bases| && Distinct(bases) && forall j | 0 <= j < |bases| :: bases[j] !in keys
    ensures Ids(keys, bases)[k] == bases[k]
  {
    var early := Ids(keys, bases)[..k];
    forall j | 0 <= j < k ensures early[j] == bases[j] != bases[k] {
      FreshBasesAreKept(keys, bases, j);
    }
    KeepsBaseExactlyIf(keys, bases, k);
  }

  /** Columns whose own ids are different from each other and from the keys all keep them. */
  lemma FreshIdsAreKept(keys: seq<string>, own: seq<string>, k: nat)
    requires k < |own| && Distinct(own) && forall j | 0 <= j < |own| :: own[j] != "" && own[j] !in keys
    ensures Ids(keys, Bases(Given(own)))[k] == own[k]
  {
    assert Bases(Given(own)) == own;
    FreshBasesAreKept(keys, own, k);
  }

  function Given(own: seq<string>): (r: seq<Option<string>>)
    ensures |r| == |own| && forall k | 0 <= k < |own| :: r[k] == Some(own[k])
  {
    seq(|own|, k requires 0 <= k < |own| => Some(own[k]))
  }
}
