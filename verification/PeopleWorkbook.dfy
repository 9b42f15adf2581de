/** Saving researched people as a workbook, at most once per action key. */
module PeopleWorkbook {
  import opened Prelude

  // ---- which people are saved ----

  /** `id` is the person's entity id, `name` the trimmed name; a result list may hold junk too. */
  datatype Raw = Junk | Person(id: string, name: string)

  const MAX_PEOPLE := 100

  datatype Selection = NoPeople | UnknownIds | NobodyNamed | NamesMissing | Rows(people: seq<Raw>)

  /** Ids of the people in the list, in order. */
  function Ids(raw: seq<Raw>): seq<string> {
    if raw == [] then []
    else Ids(raw[..|raw| - 1]) + if raw[|raw| - 1].Person? then [raw[|raw| - 1].id] else []
  }

  /** The earliest person with this id. */
  function FirstWith(raw: seq<Raw>, id: string): (r: Option<Raw>)
    ensures r.Some? <==> id in Ids(raw)
    ensures r.Some? ==> r.value.Person? && r.value.id == id
  {
    if raw == [] then None
    else
      var early, last := FirstWith(raw[..|raw| - 1], id), raw[|raw| - 1];
      if early.Some? then early else if last.Person? && last.id == id then Some(last) else None
  }

  function Considered(raw: seq<Raw>): seq<Raw> {
    if |raw| <= MAX_PEOPLE then raw else raw[..MAX_PEOPLE]
  }

  function NonBlank(s: seq<string>): seq<string> {
    if s == [] then []
    else NonBlank(s[..|s| - 1]) + if s[|s| - 1] != "" then [s[|s| - 1]] else []
  }

  /** The ids asked for, given trimmed, or all known ones when none is, each once. */
  function Wanted(raw: seq<Raw>, requested: seq<string>): seq<string> {
    if NonBlank(requested) != [] then Firsts(NonBlank(requested)) else Firsts(Ids(Considered(raw)))
  }

  /** People by id, earliest first. */
  method IndexPeople(people: seq<Raw>) returns (order: seq<string>, byId: map<string, Raw>)
    ensures order == Firsts(Ids(people))
    ensures forall id :: id in byId <==> id in Ids(people)
    ensures forall id | id in byId :: Some(byId[id]) == FirstWith(people, id)
  {
    order, byId := [], map[];
    for n := 0 to |people|
      invariant order == Firsts(Ids(people[..n]))
      invariant forall id :: id in byId <==> id in Ids(people[..n])
      invariant forall id | id in byId :: Some(byId[id]) == FirstWith(people[..n], id)
    {
      var p := people[n];
      assert people[..n + 1][..n] == people[..n];
      if p.Junk? {
        assert Ids(people[..n + 1]) == Ids(people[..n]);
        continue;
      }
      assert Ids(people[..n + 1]) == Ids(people[..n]) + [p.id];
      FirstsSnoc(Ids(people[..n]), p.id);
      if p.id !in byId {
        order := order + [p.id];
        byId := byId[p.id := p];
      }
    }
    assert people[..|people|] == people;
  }

  /** The wanted person has a name to be saved under. */
  predicate Named(people: seq<Raw>, id: string) {
    FirstWith(people, id).Some? && FirstWith(people, id).value.name != ""
  }

  /** The rows for the wanted ids, skipping the nameless. */
  method CollectRows(people: seq<Raw>, wanted: seq<string>, byId: map<string, Raw>) returns (rows: seq<Raw>)
    requires Distinct(wanted) && forall id <- wanted :: id in byId
    requires forall id | id in byId :: Some(byId[id]) == FirstWith(people, id)
    ensures |rows| <= |wanted|
    ensures |rows| == 0 <==> forall id <- wanted :: !Named(people, id)
    ensures |rows| == |wanted| <==> forall id <- wanted :: Named(people, id)
    ensures |rows| == |wanted| ==> forall i | 0 <= i < |rows| :: Some(rows[i]) == FirstWith(people, wanted[i])
  {
    var seen: set<string> := {};
    rows := [];
    for n := 0 to |wanted|
      invariant forall id | id in seen :: id in wanted[..n]
      invariant |rows| <= n
      invariant |rows| == 0 <==> forall i | 0 <= i < n :: !Named(people, wanted[i])
      invariant |rows| == n <==> forall i | 0 <= i < n :: Named(people, wanted[i])
      invariant |rows| == n ==> forall i | 0 <= i < n :: Some(rows[i]) == FirstWith(people, wanted[i])
    {
      assert wanted[n] in wanted && wanted[n] !in wanted[..n];
      var p := byId[wanted[n]];
      if p.name == "" || wanted[n] in seen {
        continue;
      }
      seen := seen + {wanted[n]};
      rows := rows + [p];
    }
  }

  /** Chooses the rows: the wanted people, one each, in the wanted order, every one the earliest with
      its id; an unknown id or a nameless person fails the whole selection. */
  method Select(raw: seq<Raw>, requested: seq<string>) returns (r: Selection)
    ensures r.NoPeople? <==> Ids(Considered(raw)) == []
    ensures r.UnknownIds? <==> !r.NoPeople? && exists id <- Wanted(raw, requested) :: id !in Ids(Considered(raw))
    ensures r.NobodyNamed? <==>
              !r.NoPeople? && !r.UnknownIds? && forall id <- Wanted(raw, requested) :: !Named(Considered(raw), id)
    ensures r.Rows? <==>
              !r.NoPeople? && !r.UnknownIds? && forall id <- Wanted(raw, requested) :: Named(Considered(raw), id)
    ensures r.Rows? ==> |r.people| == |Wanted(raw, requested)| > 0
    ensures r.Rows? ==> forall i | 0 <= i < |r.people| ::
              Some(r.people[i]) == FirstWith(Considered(raw), Wanted(raw, requested)[i])
  {
    var considered := Considered(raw);
    var order, byId := IndexPeople(considered);
    if order == [] {
      if Ids(considered) != [] { FirstsNonEmpty(Ids(considered)); }
      return NoPeople;
    }
    var asked := Firsts(NonBlank(requested));
    if NonBlank(requested) != [] { FirstsNonEmpty(NonBlank(requested)); }
    var wanted := if asked != [] then asked else order;
    WantedAreDistinct(raw, requested);
    assert wanted == Wanted(raw, requested);
    if exists id <- wanted :: id !in byId {
      return UnknownIds;
    }
    var rows := CollectRows(considered, wanted, byId);
    assert wanted[0] in wanted;
    if rows == [] {
      return NobodyNamed;
    }
    return if |rows| != |wanted| then NamesMissing else Rows(rows);
  }

  lemma FirstsNonEmpty<T>(s: seq<T>)
    requires s != []
    ensures Firsts(s) != []
  {
    FirstsFacts(s);
    assert s[0] in s;
  }

  /** Whose rows are saved: exactly those of the ids asked for, if any is, and of everybody among the first 100
      otherwise; in the order in which they first occur. */
  lemma WantedExactly(raw: seq<Raw>, requested: seq<string>, id: string)
    ensures (exists x :: x in requested && x != "") ==> (id in Wanted(raw, requested) <==> id in requested && id != "")
    ensures (forall x | x in requested :: x == "") ==>
              (id in Wanted(raw, requested) <==> exists k :: 0 <= k < |raw| && k < 100 && raw[k].Person? && raw[k].id == id)
  {
    NonBlankExactly(requested, id);
    if x :| x in requested && x != "" {
      NonBlankExactly(requested, x);
      assert NonBlank(requested) != [];
    } else if NonBlank(requested) != [] {
      NonBlankExactly(requested, NonBlank(requested)[0]);
    }
    FirstsFacts(NonBlank(requested));
    FirstsFacts(Ids(Considered(raw)));
    IdsExactly(Considered(raw), id);
    assert forall k | 0 <= k < |raw| && k < 100 :: Considered(raw)[k] == raw[k];
  }

  lemma {:induction false} NonBlankExactly(s: seq<string>, id: string)
    ensures id in NonBlank(s) <==> id in s && id != ""
  {
    if s == [] {
    } else {
      NonBlankExactly(s[..|s| - 1], id);
      assert s == s[..|s| - 1] + [s[|s| - 1]];
    }
  }

  lemma {:induction false} IdsExactly(raw: seq<Raw>, id: string)
    ensures id in Ids(raw) <==> exists k :: 0 <= k < |raw| && raw[k].Person? && raw[k].id == id
  {
    if raw == [] {
    } else {
      var n := |raw| - 1;
      IdsExactly(raw[..n], id);
      assert raw == raw[..n] + [raw[n]];
      if k :| 0 <= k < |raw| && raw[k].Person? && raw[k].id == id {
        assert k < n ==> raw[..n][k].id == id;
      }
    }
  }

  /** Somebody listed twice is saved as first listed, so under the name given first. */
  lemma {:induction false} FirstWithIsFirst(raw: seq<Raw>, id: string, k: nat)
    requires k < |raw| && raw[k].Person? && raw[k].id == id
    requires forall j | 0 <= j < k :: raw[j].Junk? || raw[j].id != id
    ensures FirstWith(raw, id) == Some(raw[k]) && (Named(raw, id) <==> raw[k].name != "")
  {
    var n := |raw| - 1;
    if k == n {
      IdsExactly(raw[..n], id);
    } else {
      FirstWithIsFirst(raw[..n], id, k);
    }
  }

  /** The ids asked for come in the order asked for, each where it is first named. */
  lemma AskedInOrder(raw: seq<Raw>, requested: seq<string>, i: nat, j: nat) returns (p: nat)
    requires NonBlank(requested) != [] && i < j < |Wanted(raw, requested)|
    ensures p < |requested| && requested[p] == Wanted(raw, requested)[i] && Wanted(raw, requested)[j] !in requested[..p + 1]
  {
    var q := FirstsInOrder(NonBlank(requested), i, j);
    var y := Firsts(NonBlank(requested))[j];
    FirstsFacts(NonBlank(requested));
    assert y in NonBlank(requested);
    NonBlankExactly(requested, y);
    p := NonBlankAt(requested, q, y);
  }

  /** Where the q-th nonblank entry stands; nothing nonblank before it is missing from the first q. */
  lemma {:induction false} NonBlankAt(s: seq<string>, q: nat, y: string) returns (p: nat)
    requires q < |NonBlank(s)| && y != "" && y !in NonBlank(s)[..q + 1]
    ensures p < |s| && s[p] == NonBlank(s)[q] && y !in s[..p + 1]
  {
    var n := |s| - 1;
    var init := s[..n];
    if q < |NonBlank(init)| {
      assert NonBlank(init)[..q + 1] == NonBlank(s)[..q + 1];
      p := NonBlankAt(init, q, y);
      assert init[..p + 1] == s[..p + 1];
    } else {
      p := n;
      assert NonBlank(s)[..q + 1] == NonBlank(s);
      NonBlankExactly(s, y);
      assert s[..n + 1] == s;
    }
  }

  /** The saved rows are different people, whatever was asked for. */
  lemma WantedAreDistinct(raw: seq<Raw>, requested: seq<string>)
    ensures Distinct(Wanted(raw, requested))
  {
    FirstsFacts(NonBlank(requested));
    FirstsFacts(Ids(Considered(raw)));
  }
}
