/** Pushing a batch of rows into a workbook: key mapping, dedup by identity, append. One request at a
    time; concurrent requests are the subject of IngestReplay. */
module IngestRows {
  import opened Prelude

  const MAX_INGEST_ROWS := 500

  const LEAD_FIELDS := {
    "company", "website", "email", "phone", "contact_person", "contact_title", "city", "state", "address",
    "specialization", "company_size", "company_size_basis", "description", "linkedin_url", "twitter_url",
    "facebook_url", "score", "score_tier", "status", "source", "notes", "email_confidence", "industry_tags",
    "hiring_signals", "decision_makers", "founding_year", "funding_stage", "last_funding_amount", "investors",
    "recent_news", "google_rating", "technologies", "technographics", "email_verify", "email_presence",
    "secondary_emails", "revenue_estimate"
  }

  datatype Value = Nothing | Text(text: string) | Number(n: int)

  predicate Blank(v: Value) {
    v == Nothing || v == Text("")
  }

  predicate Truthy(v: Value) {
    !Blank(v) && v != Number(0)
  }

  /** An incoming row in its own key order, and a stored one. */
  type Raw = seq<(string, Value)>
  type Record = map<string, Value>

  /** A workbook column; `name` is trimmed, and `field` is "" unless it is a lead-field column. */
  datatype Column = Column(field: string, name: string)

  // ---- keys ----

  function Trim(s: string): string
    decreases |s|
  {
    if s != "" && s[0] in " \t\n\r" then Trim(s[1..])
    else if s != "" && s[|s| - 1] in " \t\n\r" then Trim(s[..|s| - 1])
    else s
  }

  /** The field of the last lead-field column displayed under this name. */
  function NamedLast(columns: seq<Column>, key: string): Option<string> {
    if columns == [] then None
    else
      var c := columns[|columns| - 1];
      if c.field != "" && c.name != "" && Lower(c.name) == key then Some(c.field)
      else NamedLast(columns[..|columns| - 1], key)
  }

  /** The field of the first lead-field column whose field reads like this. */
  function FieldFirst(columns: seq<Column>, key: string): Option<string> {
    if columns == [] then None
    else
      var early, c := FieldFirst(columns[..|columns| - 1], key), columns[|columns| - 1];
      if early.Some? then early else if c.field != "" && Lower(c.field) == key then Some(c.field) else None
  }

  /** What a lower-cased key means: a displayed name counts most, then a known field, then a custom one. */
  function Meaning(columns: seq<Column>, key: string): Option<string> {
    if NamedLast(columns, key).Some? then NamedLast(columns, key)
    else if key in LEAD_FIELDS then Some(key)
    else FieldFirst(columns, key)
  }

  ghost predicate Means(m: map<string, string>, columns: seq<Column>) {
    forall key :: (key in m <==> Meaning(columns, key).Some?) && (key in m ==> Some(m[key]) == Meaning(columns, key))
  }

  method KeyMap(columns: seq<Column>) returns (m: map<string, string>)
    ensures Means(m, columns)
  {
    m := map f | f in LEAD_FIELDS :: f;
    for n := 0 to |columns|
      invariant Means(m, columns[..n])
    {
      var c := columns[n];
      assert columns[..n + 1][..n] == columns[..n] && columns[..n + 1][n] == c;
      if c.field != "" {
        if Lower(c.field) !in m {
          m := m[Lower(c.field) := c.field];
        }
        if c.name != "" {
          m := m[Lower(c.name) := c.field];
        }
      }
    }
    assert columns[..|columns|] == columns;
  }

  /** In the map that is built every known field has an entry, and it keeps its own name exactly unless the
      last column displayed under that name shows another field — the source's comment promises it always
      does. */
  lemma FieldKeepsItsName(m: map<string, string>, columns: seq<Column>, f: string)
    requires Means(m, columns) && f in LEAD_FIELDS
    ensures f in m && (m[f] == f <==> NamedLast(columns, f) == None || NamedLast(columns, f) == Some(f))
  {
  }

  lemma FieldCanLoseItsName()
    ensures "company" in LEAD_FIELDS && Meaning([Column("website", "Company")], "company") == Some("website")
  {
    assert Lower("Company") == "company";
  }

  /** What a key means, for the column k that decides it: the last one displayed under it; if there is none
      and the key is no known field, the first whose field reads like it. */
  lemma {:induction false} NamedColumnDecides(columns: seq<Column>, key: string, k: nat)
    requires k < |columns| && Names(columns[k], key) && forall j | k < j < |columns| :: !Names(columns[j], key)
    ensures NamedLast(columns, key) == Meaning(columns, key) == Some(columns[k].field)
  {
    if k < |columns| - 1 {
      NamedColumnDecides(columns[..|columns| - 1], key, k);
    }
  }

  lemma {:induction false} FieldColumnDecides(columns: seq<Column>, key: string, k: nat)
    requires forall j | 0 <= j < |columns| :: !Names(columns[j], key)
    requires k < |columns| && ReadsLike(columns[k], key) && forall j | 0 <= j < k :: !ReadsLike(columns[j], key)
    ensures FieldFirst(columns, key) == Some(columns[k].field)
    ensures Meaning(columns, key) == Some(if key in LEAD_FIELDS then key else columns[k].field)
  {
    NobodyNames(columns, key);
    if k < |columns| - 1 {
      FieldColumnDecides(columns[..|columns| - 1], key, k);
    } else {
      NobodyReadsLike(columns[..k], key);
    }
  }

  lemma NothingDecides(columns: seq<Column>, key: string)
    requires forall j | 0 <= j < |columns| :: !Names(columns[j], key) && !ReadsLike(columns[j], key)
    ensures Meaning(columns, key) == if key in LEAD_FIELDS then Some(key) else None
  {
    NobodyNames(columns, key);
    NobodyReadsLike(columns, key);
  }

  predicate Names(c: Column, key: string) {
    c.field != "" && c.name != "" && Lower(c.name) == key
  }

  predicate ReadsLike(c: Column, key: string) {
    c.field != "" && Lower(c.field) == key
  }

  lemma {:induction false} NobodyNames(columns: seq<Column>, key: string)
    requires forall j | 0 <= j < |columns| :: !Names(columns[j], key)
    ensures NamedLast(columns, key) == None
  {
    if columns == [] {
    } else {
      assert !Names(columns[|columns| - 1], key);
      NobodyNames(columns[..|columns| - 1], key);
    }
  }

  lemma {:induction false} NobodyReadsLike(columns: seq<Column>, key: string)
    requires forall j | 0 <= j < |columns| :: !ReadsLike(columns[j], key)
    ensures FieldFirst(columns, key) == None
  {
    if columns == [] {
    } else {
      assert !ReadsLike(columns[|columns| - 1], key);
      NobodyReadsLike(columns[..|columns| - 1], key);
    }
  }

  // ---- rows ----

  function Target(columns: seq<Column>, key: string): string {
    match Meaning(columns, Lower(Trim(key)))
    case Some(f) => f
    case None => key
  }

  /** Each field holds the last value sent for it; unknown keys stay as they are. */
  function Mapped(columns: seq<Column>, raw: Raw): Record {
    if raw == [] then map[]
    else Mapped(columns, raw[..|raw| - 1])[Target(columns, raw[|raw| - 1].0) := raw[|raw| - 1].1]
  }

  /** A row has exactly the fields its keys lead to, each with the value of the last key that leads there. */
  lemma {:induction false} LastKeyWins(columns: seq<Column>, raw: Raw, k: nat, f: string)
    requires k < |raw| && Target(columns, raw[k].0) == f && forall j | k < j < |raw| :: Target(columns, raw[j].0) != f
    ensures f in Mapped(columns, raw) && Mapped(columns, raw)[f] == raw[k].1
  {
    var n := |raw| - 1;
    if k < n {
      assert Target(columns, raw[n].0) != f;
      LastKeyWins(columns, raw[..n], k, f);
    }
  }

  lemma {:induction false} NoOtherFields(columns: seq<Column>, raw: Raw, f: string)
    requires f in Mapped(columns, raw)
    ensures exists k :: 0 <= k < |raw| && Target(columns, raw[k].0) == f
  {
    var n := |raw| - 1;
    if Target(columns, raw[n].0) != f {
      NoOtherFields(columns, raw[..n], f);
      var k :| 0 <= k < n && Target(columns, raw[..n][k].0) == f;
      assert raw[..n][k] == raw[k];
    }
  }

  lemma UnmappedInSnoc(columns: seq<Column>, raw: Raw, n: nat)
    requires n < |raw|
    ensures UnmappedIn(columns, raw[..n + 1]) ==
      UnmappedIn(columns, raw[..n]) + if Meaning(columns, Lower(Trim(raw[n].0))) == None then {raw[n].0} else {}
  {
    var before, now := UnmappedIn(columns, raw[..n]), UnmappedIn(columns, raw[..n + 1]);
    forall i | 0 <= i < n ensures raw[..n][i] == raw[i] == raw[..n + 1][i] {}
    forall x | x in now ensures x in before || (x == raw[n].0 && Meaning(columns, Lower(Trim(raw[n].0))) == None) {
      var i :| 0 <= i < n + 1 && Meaning(columns, Lower(Trim(raw[..n + 1][i].0))) == None && raw[..n + 1][i].0 == x;
      assert i < n ==> raw[..n][i].0 == x;
    }
    forall x | x in before ensures x in now {
      var i :| 0 <= i < n && Meaning(columns, Lower(Trim(raw[..n][i].0))) == None && raw[..n][i].0 == x;
      assert raw[..n + 1][i].0 == x;
    }
    if Meaning(columns, Lower(Trim(raw[n].0))) == None {
      assert raw[..n + 1][n] == raw[n];
    }
  }

  method MapRow(raw: Raw, m: map<string, string>, ghost columns: seq<Column>, unmapped0: set<string>)
    returns (row: Record, unmapped: set<string>)
    requires Means(m, columns)
    ensures row == Mapped(columns, raw)
    ensures unmapped == unmapped0 + UnmappedIn(columns, raw)
  {
    row, unmapped := map[], unmapped0;
    for n := 0 to |raw|
      invariant row == Mapped(columns, raw[..n])
      invariant unmapped == unmapped0 + UnmappedIn(columns, raw[..n])
    {
      var key := Lower(Trim(raw[n].0));
      assert raw[..n + 1][..n] == raw[..n];
      UnmappedInSnoc(columns, raw, n);
      if key in m {
        row := row[m[key] := raw[n].1];
      } else {
        row := row[raw[n].0 := raw[n].1];
        unmapped := unmapped + {raw[n].0};
      }
    }
    assert raw[..|raw|] == raw;
  }

  predicate IsEmpty(r: Record) {
    forall k | k in r :: Blank(r[k])
  }

  function Get(r: Record, k: string): Value {
    if k in r then r[k] else Nothing
  }

  /** The identity normalisers, which this model leaves abstract. */
  datatype Normalisers = Normalisers(domain: Value -> string, company: Value -> string)

  /** The site a row's domain is read from. */
  function Site(r: Record): Value {
    if Truthy(Get(r, "website")) then Get(r, "website")
    else if Truthy(Get(r, "domain")) then Get(r, "domain") else Text("")
  }

  function Identity(z: Normalisers, r: Record): string {
    if z.domain(Site(r)) != "" then "d:" + z.domain(Site(r))
    else if z.company(Get(r, "company")) != "" then "n:" + z.company(Get(r, "company"))
    else ""
  }

  predicate Says(v: Value) {
    (v.Text? && v.text != "") || (v.Number? && v.n != 0)
  }

  /** The website decides if it says anything, otherwise the domain if that does. */
  lemma SiteIs(r: Record)
    ensures "website" in r && Says(r["website"]) ==> Site(r) == r["website"]
    ensures !("website" in r && Says(r["website"])) && "domain" in r && Says(r["domain"]) ==> Site(r) == r["domain"]
    ensures !("website" in r && Says(r["website"])) && !("domain" in r && Says(r["domain"])) ==> Site(r) == Text("")
  {
  }

  /** Two rows are duplicates exactly if their sites have one domain, or neither has any and their companies have
      one name. */
  lemma SameIdentityExactlyIf(z: Normalisers, r: Record, r': Record)
    ensures Identity(z, r) == Identity(z, r') != "" <==>
      || z.domain(Site(r)) == z.domain(Site(r')) != ""
      || (z.domain(Site(r)) == z.domain(Site(r')) == "" && z.company(Get(r, "company")) == z.company(Get(r', "company")) != "")
    ensures Identity(z, r) == "" <==> z.domain(Site(r)) == "" && z.company(Get(r, "company")) == ""
  {
    PrefixesTell(z.domain(Site(r)), z.domain(Site(r')), z.company(Get(r, "company")), z.company(Get(r', "company")));
  }

  lemma PrefixesTell(d: string, d': string, c: string, c': string)
    ensures "d:" + d == "d:" + d' <==> d == d'
    ensures "n:" + c == "n:" + c' <==> c == c'
    ensures "d:" + d != "n:" + c' && "n:" + c != "d:" + d'
  {
    assert ("d:" + d)[2..] == d && ("d:" + d')[2..] == d';
    assert ("n:" + c)[2..] == c && ("n:" + c')[2..] == c';
    assert ("d:" + d)[0] == 'd' && ("d:" + d')[0] == 'd' && ("n:" + c)[0] == 'n' && ("n:" + c')[0] == 'n';
  }

  // ---- what is kept, row by row ----

  /** The batch after mapping, without rows that came out empty. */
  function Usable(columns: seq<Column>, raws: seq<Raw>): seq<Record> {
    if raws == [] then []
    else
      var r := Mapped(columns, raws[|raws| - 1]);
      Usable(columns, raws[..|raws| - 1]) + if IsEmpty(r) then [] else [r]
  }

  /** Row n is new: it has no identity, or nobody before it has its identity. */
  ghost predicate IsNew(z: Normalisers, known: set<string>, rows: seq<Record>, n: nat)
    requires n < |rows|
  {
    var id := Identity(z, rows[n]);
    id == "" || (id !in known && forall k | 0 <= k < n :: Identity(z, rows[k]) != id)
  }

  ghost function NewRows(z: Normalisers, known: set<string>, rows: seq<Record>): (r: seq<Record>)
    ensures |r| <= |rows|
  {
    if rows == [] then []
    else
      var n := |rows| - 1;
      NewRows(z, known, rows[..n]) + if IsNew(z, known, rows, n) then [rows[n]] else []
  }

  lemma NewRowsSnoc(z: Normalisers, known: set<string>, rows: seq<Record>, n: nat)
    requires n < |rows|
    ensures NewRows(z, known, rows[..n + 1]) == NewRows(z, known, rows[..n]) + if IsNew(z, known, rows, n) then [rows[n]] else []
  {
    assert rows[..n + 1][..n] == rows[..n];
    assert IsNew(z, known, rows[..n + 1], n) <==> IsNew(z, known, rows, n);
  }

  function IdentityIfAny(z: Normalisers, r: Record): set<string> {
    if Identity(z, r) != "" then {Identity(z, r)} else {}
  }

  /** The nonempty identities among the rows. */
  function Identities(z: Normalisers, rows: seq<Record>): set<string> {
    if rows == [] then {} else Identities(z, rows[..|rows| - 1]) + IdentityIfAny(z, rows[|rows| - 1])
  }

  lemma {:induction false} IdentitiesHas(z: Normalisers, rows: seq<Record>, id: string)
    ensures id in Identities(z, rows) <==> id != "" && exists k :: 0 <= k < |rows| && Identity(z, rows[k]) == id
  {
    if rows == [] {
    } else {
      var n := |rows| - 1;
      IdentitiesHas(z, rows[..n], id);
      assert rows == rows[..n] + [rows[n]];
      if Identity(z, rows[n]) == id { assert 0 <= n < |rows| && Identity(z, rows[n]) == id; }
      forall k | 0 <= k < n ensures rows[..n][k] == rows[k] {}
    }
  }

  lemma SeenDecides(z: Normalisers, known: set<string>, rows: seq<Record>, n: nat)
    requires n < |rows| && "" !in known
    ensures IsNew(z, known, rows, n) <==> Identity(z, rows[n]) !in known + Identities(z, rows[..n])
  {
    var id := Identity(z, rows[n]);
    IdentitiesHas(z, rows[..n], id);
    forall k | 0 <= k < n ensures rows[..n][k] == rows[k] {}
  }

  lemma NextSeen(z: Normalisers, known: set<string>, rows: seq<Record>, n: nat)
    requires n < |rows| && "" !in known
    ensures var seen, id := known + Identities(z, rows[..n]), Identity(z, rows[n]);
      && (IsNew(z, known, rows, n) <==> id !in seen)
      && known + Identities(z, rows[..n + 1]) == if id == "" || id in seen then seen else seen + {id}
  {
    SeenDecides(z, known, rows, n);
    assert rows[..n + 1][..n] == rows[..n];
  }

  method Dedupe(z: Normalisers, rows: seq<Record>, known: set<string>) returns (kept: seq<Record>, skipped: nat)
    requires "" !in known
    ensures kept == NewRows(z, known, rows) && skipped == |rows| - |kept|
  {
    var seen := known;
    kept, skipped := [], 0;
    for n := 0 to |rows|
      invariant seen == known + Identities(z, rows[..n])
      invariant kept == NewRows(z, known, rows[..n]) && skipped == n - |kept|
    {
      var id := Identity(z, rows[n]);
      NewRowsSnoc(z, known, rows, n);
      NextSeen(z, known, rows, n);
      EmptyIsNeverSeen(z, known, rows[..n]);
      if id != "" && id in seen {
        skipped := skipped + 1;
        continue;
      }
      if id != "" {
        seen := seen + {id};
      }
      kept := kept + [rows[n]];
    }
    assert rows[..|rows|] == rows;
  }

  lemma EmptyIsNeverSeen(z: Normalisers, known: set<string>, rows: seq<Record>)
    requires "" !in known
    ensures "" !in known + Identities(z, rows)
  {
    IdentitiesHas(z, rows, "");
  }

  // ---- the request ----

  datatype Row = Row(id: nat, position: int, data: Record)

  datatype Result = TooManyRows
                  | Result(added: nat, skippedDuplicates: nat, skippedEmpty: nat, totalRows: nat,
                           rowIds: seq<nat>, unmapped: set<string>)

  function DataOf(rows: seq<Row>): (r: seq<Record>)
    ensures |r| == |rows| && forall k | 0 <= k < |r| :: r[k] == rows[k].data
  {
    seq(|rows|, k requires 0 <= k < |rows| => rows[k].data)
  }

  /** The largest position, or 0 in a workbook without rows. */
  function MaxPosition(rows: seq<Row>): int {
    if |rows| == 0 then 0
    else if |rows| == 1 then rows[0].position
    else
      var m, last := MaxPosition(rows[..|rows| - 1]), rows[|rows| - 1].position;
      if m >= last then m else last
  }

  /** New rows with consecutive ids, at consecutive positions above `top`. */
  function Placed(data: seq<Record>, firstId: nat, top: int): (r: seq<Row>)
    ensures |r| == |data|
  {
    seq(|data|, i requires 0 <= i < |data| => Row(firstId + i, top + i + 1, data[i]))
  }

  function Counting(first: nat, n: nat): seq<nat> {
    seq(n, i => first + i)
  }

  /** What a batch adds to a workbook holding these rows. */
  ghost function Added(z: Normalisers, columns: seq<Column>, stored: seq<Record>, raws: seq<Raw>, dedupe: bool): (r: seq<Record>)
    ensures |r| <= |Usable(columns, raws)| <= |raws|
  {
    UsableIsShorter(columns, raws);
    if dedupe then NewRows(z, Identities(z, stored), Usable(columns, raws)) else Usable(columns, raws)
  }

  lemma {:induction false} UsableIsShorter(columns: seq<Column>, raws: seq<Raw>)
    ensures |Usable(columns, raws)| <= |raws|
  {
    if raws == [] {
    } else {
      UsableIsShorter(columns, raws[..|raws| - 1]);
    }
  }

  class Workbook {
    var columns: seq<Column>
    var rows: seq<Row>
    var totalRows: nat
    var nextId: nat
    const z: Normalisers

    method Ingest(raws: seq<Raw>, dedupe: bool) returns (r: Result)
      modifies this
      ensures columns == old(columns)
      ensures |raws| > MAX_INGEST_ROWS ==> r == TooManyRows && rows == old(rows) && totalRows == old(totalRows) && nextId == old(nextId)
      ensures |raws| <= MAX_INGEST_ROWS ==>
                var added := Added(z, columns, DataOf(old(rows)), raws, dedupe);
                && rows == old(rows) + Placed(added, old(nextId), MaxPosition(old(rows)))
                && nextId == old(nextId) + |added|
                && r == Result(|added|, |Usable(columns, raws)| - |added|, |raws| - |Usable(columns, raws)|,
                               |rows|, Counting(old(nextId), |added|), Unmapped(columns, raws))
                && totalRows == |rows|
    {
      if |raws| > MAX_INGEST_ROWS {
        return TooManyRows;
      }
      var kept, skipped, empty, unmapped := Choose(raws, dedupe);
      var ids := Append(kept);
      totalRows := |rows|;
      return Result(|ids|, skipped, empty, totalRows, ids, unmapped);
    }

    method Choose(raws: seq<Raw>, dedupe: bool) returns (kept: seq<Record>, skipped: nat, empty: nat, unmapped: set<string>)
      ensures kept == Added(z, columns, DataOf(rows), raws, dedupe)
      ensures skipped == |Usable(columns, raws)| - |kept| && empty == |raws| - |Usable(columns, raws)|
      ensures unmapped == Unmapped(columns, raws)
    {
      var usable;
      usable, empty, unmapped := MapBatch(raws);
      kept, skipped := usable, 0;
      if dedupe && usable != [] {
        var known := KnownIdentities();
        kept, skipped := Dedupe(z, usable, known);
      }
    }

    method Append(data: seq<Record>) returns (ids: seq<nat>)
      modifies this`rows, this`nextId
      ensures rows == old(rows) + Placed(data, old(nextId), MaxPosition(old(rows)))
      ensures nextId == old(nextId) + |data| && ids == Counting(old(nextId), |data|)
    {
      var top, first := MaxPosition(rows), nextId;
      var added: seq<Row> := [];
      ids := [];
      for i := 0 to |data|
        invariant added == Placed(data[..i], first, top) && ids == Counting(first, i)
      {
        added := added + [Row(first + i, top + i + 1, data[i])];
        ids := ids + [first + i];
      }
      assert data[..|data|] == data;
      rows := rows + added;
      nextId := first + |data|;
    }

    method MapBatch(raws: seq<Raw>) returns (usable: seq<Record>, empty: nat, unmapped: set<string>)
      ensures usable == Usable(columns, raws) && empty == |raws| - |usable|
      ensures unmapped == Unmapped(columns, raws)
    {
      var m := KeyMap(columns);
      usable, empty, unmapped := [], 0, {};
      for n := 0 to |raws|
        invariant usable == Usable(columns, raws[..n]) && empty == n - |usable|
        invariant unmapped == Unmapped(columns, raws[..n])
      {
        UsableSnoc(columns, raws, n);
        UnmappedSnoc(columns, raws, n);
        var row;
        row, unmapped := MapRow(raws[n], m, columns, unmapped);
        if IsEmpty(row) {
          empty := empty + 1;
          continue;
        }
        usable := usable + [row];
      }
      assert raws[..|raws|] == raws;
    }

    method KnownIdentities() returns (known: set<string>)
      ensures known == Identities(z, DataOf(rows)) && "" !in known
    {
      known := {};
      for n := 0 to |rows|
        invariant known == Identities(z, DataOf(rows[..n])) && "" !in known
      {
        assert DataOf(rows[..n + 1])[..n] == DataOf(rows[..n]);
        known := known + IdentityIfAny(z, rows[n].data);
      }
      assert rows[..|rows|] == rows;
    }
  }

  lemma UsableSnoc(columns: seq<Column>, raws: seq<Raw>, n: nat)
    requires n < |raws|
    ensures var r := Mapped(columns, raws[n]);
      Usable(columns, raws[..n + 1]) == Usable(columns, raws[..n]) + if IsEmpty(r) then [] else [r]
  {
    assert raws[..n + 1][..n] == raws[..n];
  }

  lemma UnmappedSnoc(columns: seq<Column>, raws: seq<Raw>, n: nat)
    requires n < |raws|
    ensures Unmapped(columns, raws[..n + 1]) == Unmapped(columns, raws[..n]) + UnmappedIn(columns, raws[n])
  {
    assert raws[..n + 1][..n] == raws[..n];
  }

  /** Keys of one row that mean nothing here. */
  function UnmappedIn(columns: seq<Column>, raw: Raw): set<string> {
    set i | 0 <= i < |raw| && Meaning(columns, Lower(Trim(raw[i].0))) == None :: raw[i].0
  }

  /** Keys of the batch that mean nothing here. */
  function Unmapped(columns: seq<Column>, raws: seq<Raw>): set<string> {
    if raws == [] then {}
    else
      Unmapped(columns, raws[..|raws| - 1]) + UnmappedIn(columns, raws[|raws| - 1])
  }

  // ---- what a batch means ----

  ghost predicate HoldsSomething(r: Record) {
    exists f :: f in r && r[f] != Nothing && r[f] != Text("")
  }

  lemma EmptyExactlyIf(r: Record)
    ensures IsEmpty(r) <==> !HoldsSomething(r)
  {
    if !IsEmpty(r) {
      var f :| f in r && !Blank(r[f]);
    }
  }

  /** A row of the batch is used, as mapped and in its place among those used, exactly if it holds anything
      but blanks. */
  lemma UsableAt(columns: seq<Column>, raws: seq<Raw>, k: nat)
    requires k < |raws|
    ensures var place := |Usable(columns, raws[..k])|;
      if HoldsSomething(Mapped(columns, raws[k])) then
        && place < |Usable(columns, raws)| && Usable(columns, raws)[place] == Mapped(columns, raws[k])
        && |Usable(columns, raws[..k + 1])| == place + 1
      else
        |Usable(columns, raws[..k + 1])| == place
  {
    EmptyExactlyIf(Mapped(columns, raws[k]));
    UsableSnoc(columns, raws, k);
    UsableStays(columns, raws, k + 1);
  }

  lemma {:induction false} UsableStays(columns: seq<Column>, raws: seq<Raw>, k: nat)
    requires k <= |raws|
    ensures Usable(columns, raws[..k]) <= Usable(columns, raws)
  {
    if k == |raws| {
      assert raws[..k] == raws;
    } else {
      UsableStays(columns, raws[..|raws| - 1], k);
      assert raws[..|raws| - 1][..k] == raws[..k];
    }
  }

  /** The k-th row added stands k + 1 above the largest stored position, so above every stored row and every
      row added before it. */
  lemma AddedOnTop(rows: seq<Row>, data: seq<Record>, firstId: nat, k: nat)
    requires k < |data|
    ensures var all := rows + Placed(data, firstId, MaxPosition(rows));
      && |all| == |rows| + |data|
      && all[|rows| + k].position == MaxPosition(rows) + k + 1
      && (rows == [] ==> all[k].position == k + 1)
      && all[|rows| + k].data == data[k] && all[|rows| + k].id == firstId + k
      && forall i | 0 <= i < |rows| + k :: all[i].position < all[|rows| + k].position
  {
    MaxPositionIsMax(rows);
  }

  /** A key is reported exactly if some row has it and it means nothing. */
  lemma {:induction false} UnmappedExactly(columns: seq<Column>, raws: seq<Raw>, key: string)
    ensures key in Unmapped(columns, raws) <==>
      Meaning(columns, Lower(Trim(key))) == None && exists n :: 0 <= n < |raws| && exists i :: 0 <= i < |raws[n]| && raws[n][i].0 == key
  {
    if raws == [] {
    } else {
      var n := |raws| - 1;
      UnmappedExactly(columns, raws[..n], key);
      assert raws == raws[..n] + [raws[n]];
    }
  }

  /** Blanks around a key make no difference. */
  lemma {:induction false} TrimsBlanks(pre: string, s: string, post: string)
    requires s != "" && s[0] !in {' ', '\t', '\n', '\r'} && s[|s| - 1] !in {' ', '\t', '\n', '\r'}
    requires forall i | 0 <= i < |pre| :: pre[i] in {' ', '\t', '\n', '\r'}
    requires forall i | 0 <= i < |post| :: post[i] in {' ', '\t', '\n', '\r'}
    ensures Trim(pre + s + post) == s
    decreases |pre| + |post|
  {
    var all := pre + s + post;
    if pre != "" {
      assert all[1..] == pre[1..] + s + post;
      TrimsBlanks(pre[1..], s, post);
    } else if post != "" {
      assert all[..|all| - 1] == pre + s + post[..|post| - 1];
      TrimsBlanks(pre, s, post[..|post| - 1]);
    } else {
      assert all == s;
    }
  }

  /** Where the flags are set. */
  function Places(flags: seq<bool>): seq<nat> {
    if flags == [] then []
    else Places(flags[..|flags| - 1]) + if flags[|flags| - 1] then [|flags| - 1] else []
  }

  lemma {:induction false} PlacesAreSet(flags: seq<bool>)
    ensures forall i | 0 <= i < |Places(flags)| :: Places(flags)[i] < |flags| && flags[Places(flags)[i]]
    ensures forall i, j | 0 <= i < j < |Places(flags)| :: Places(flags)[i] < Places(flags)[j]
  {
    if flags == [] {
    } else {
      var n := |flags| - 1;
      PlacesAreSet(flags[..n]);
      var early := Places(flags[..n]);
      forall i | 0 <= i < |early| ensures early[i] < n && flags[early[i]] {
        assert flags[..n][early[i]];
      }
    }
  }

  lemma {:induction false} SetPlacesAreFound(flags: seq<bool>, k: nat)
    requires k < |flags| && flags[k]
    ensures k in Places(flags)
  {
    var n := |flags| - 1;
    if k == n {
    } else {
      SetPlacesAreFound(flags[..n], k);
    }
  }

  /** `kept` are the rows at these places. */
  ghost predicate Selects(rows: seq<Record>, indices: seq<nat>, kept: seq<Record>) {
    |kept| == |indices| && forall i | 0 <= i < |indices| :: indices[i] < |rows| && kept[i] == rows[indices[i]]
  }

  lemma SelectsMore(rows: seq<Record>, indices: seq<nat>, kept: seq<Record>, n: nat)
    requires Selects(rows, indices, kept) && n < |rows|
    ensures Selects(rows, indices + [n], kept + [rows[n]])
  {
  }

  lemma {:induction false} NewRowsAt(z: Normalisers, known: set<string>, rows: seq<Record>, flags: seq<bool>, n: nat)
    requires n <= |rows| == |flags| && forall k | 0 <= k < |rows| :: flags[k] == IsNew(z, known, rows, k)
    ensures Selects(rows, Places(flags[..n]), NewRows(z, known, rows[..n]))
  {
    if n == 0 {
    } else {
      NewRowsAt(z, known, rows, flags, n - 1);
      assert flags[..n][..n - 1] == flags[..n - 1];
      NextNewRow(z, known, rows, Places(flags[..n - 1]), n - 1);
    }
  }

  lemma NextNewRow(z: Normalisers, known: set<string>, rows: seq<Record>, places: seq<nat>, n: nat)
    requires n < |rows| && Selects(rows, places, NewRows(z, known, rows[..n]))
    ensures Selects(rows, places + (if IsNew(z, known, rows, n) then [n] else []), NewRows(z, known, rows[..n + 1]))
  {
    NewRowsSnoc(z, known, rows, n);
    if IsNew(z, known, rows, n) {
      SelectsMore(rows, places, NewRows(z, known, rows[..n]), n);
    } else {
      assert places + [] == places;
    }
  }

  /** The new rows are an order-preserving subsequence of the batch: exactly its new rows. */
  lemma NewRowsAreASubsequence(z: Normalisers, known: set<string>, rows: seq<Record>) returns (indices: seq<nat>)
    ensures |indices| == |NewRows(z, known, rows)|
    ensures forall i | 0 <= i < |indices| :: indices[i] < |rows| && NewRows(z, known, rows)[i] == rows[indices[i]]
    ensures forall i | 0 <= i < |indices| :: IsNew(z, known, rows, indices[i])
    ensures forall i, j | 0 <= i < j < |indices| :: indices[i] < indices[j]
    ensures forall n | 0 <= n < |rows| && IsNew(z, known, rows, n) :: n in indices
  {
    var flags := seq(|rows|, k requires 0 <= k < |rows| => IsNew(z, known, rows, k));
    assert rows[..|rows|] == rows && flags[..|rows|] == flags;
    NewRowsAt(z, known, rows, flags, |rows|);
    indices := Places(flags);
    PlacesAreSet(flags);
    assert Selects(rows, indices, NewRows(z, known, rows));
    forall n | 0 <= n < |rows| && IsNew(z, known, rows, n) ensures n in indices {
      SetPlacesAreFound(flags, n);
    }
  }

  /** No new row shares a nonempty identity with a row already there or with another new row. */
  lemma NewIdentitiesAreUnique(z: Normalisers, known: set<string>, rows: seq<Record>, i: nat, j: nat)
    requires i < |NewRows(z, known, rows)| && j < |NewRows(z, known, rows)|
    ensures var id := Identity(z, NewRows(z, known, rows)[i]);
            id != "" ==> id !in known && (Identity(z, NewRows(z, known, rows)[j]) == id ==> i == j)
  {
    var indices := NewRowsAreASubsequence(z, known, rows);
    assert IsNew(z, known, rows, indices[i]) && IsNew(z, known, rows, indices[j]);
    assert i < j ==> indices[i] < indices[j];
    assert j < i ==> indices[j] < indices[i];
  }

  /** Every identity of the batch ends up in the workbook once, whichever row carried it. */
  lemma {:induction false} NoIdentityLost(z: Normalisers, known: set<string>, rows: seq<Record>)
    ensures known + Identities(z, rows) == known + Identities(z, NewRows(z, known, rows))
  {
    if rows == [] {
    } else {
      NoIdentityLost(z, known, rows[..|rows| - 1]);
      LastIdentityIsKept(z, known, rows);
    }
  }

  lemma LastIdentityIsKept(z: Normalisers, known: set<string>, rows: seq<Record>)
    requires rows != []
    requires var init := rows[..|rows| - 1]; known + Identities(z, init) == known + Identities(z, NewRows(z, known, init))
    ensures known + Identities(z, rows) == known + Identities(z, NewRows(z, known, rows))
  {
    var n := |rows| - 1;
    var before, kept, id := Identities(z, rows[..n]), NewRows(z, known, rows[..n]), IdentityIfAny(z, rows[n]);
    if IsNew(z, known, rows, n) {
      IdentitiesSnoc(z, kept, rows[n]);
      SameUnion(known, before, Identities(z, kept), id);
    } else {
      RepeatedIdentityIsKnown(z, known, rows, n);
      assert NewRows(z, known, rows) == kept;
      assert known + (before + id) == known + before;
    }
  }

  lemma SameUnion(known: set<string>, a: set<string>, b: set<string>, more: set<string>)
    requires known + a == known + b
    ensures known + (a + more) == known + (b + more)
  {
    assert known + (a + more) == (known + a) + more;
    assert known + (b + more) == (known + b) + more;
  }

  lemma IdentitiesSnoc(z: Normalisers, rows: seq<Record>, r: Record)
    ensures Identities(z, rows + [r]) == Identities(z, rows) + IdentityIfAny(z, r)
  {
    assert (rows + [r])[..|rows|] == rows;
  }

  lemma RepeatedIdentityIsKnown(z: Normalisers, known: set<string>, rows: seq<Record>, n: nat)
    requires n < |rows| && !IsNew(z, known, rows, n)
    ensures IdentityIfAny(z, rows[n]) <= known + Identities(z, rows[..n])
  {
    var id := Identity(z, rows[n]);
    IdentitiesHas(z, rows[..n], id);
    if id !in known {
      var k :| 0 <= k < n && Identity(z, rows[k]) == id;
      assert rows[..n][k] == rows[k];
    }
  }

  lemma {:induction false} IdentitiesConcat(z: Normalisers, a: seq<Record>, b: seq<Record>)
    ensures Identities(z, a + b) == Identities(z, a) + Identities(z, b)
    decreases |b|
  {
    if b == [] {
      assert a + b == a;
    } else {
      assert (a + b)[..|a + b| - 1] == a + b[..|b| - 1];
      IdentitiesConcat(z, a, b[..|b| - 1]);
    }
  }

  /** The rows of a batch without an identity: what ingesting it again would add again. */
  function Anonymous(z: Normalisers, rows: seq<Record>): seq<Record> {
    if rows == [] then []
    else Anonymous(z, rows[..|rows| - 1]) + if Identity(z, rows[|rows| - 1]) == "" then [rows[|rows| - 1]] else []
  }

  lemma {:induction false} KnownBatchAddsOnlyAnonymous(z: Normalisers, known: set<string>, rows: seq<Record>)
    requires Identities(z, rows) <= known
    ensures NewRows(z, known, rows) == Anonymous(z, rows)
  {
    if rows == [] {
    } else {
      var n := |rows| - 1;
      KnownBatchAddsOnlyAnonymous(z, known, rows[..n]);
      assert Identity(z, rows[n]) != "" ==> Identity(z, rows[n]) in IdentityIfAny(z, rows[n]);
    }
  }

  lemma {:induction false} MaxPositionIsMax(rows: seq<Row>)
    ensures forall k | 0 <= k < |rows| :: rows[k].position <= MaxPosition(rows)
    ensures rows != [] ==> exists k :: 0 <= k < |rows| && rows[k].position == MaxPosition(rows)
  {
    if rows == [] {
    } else if |rows| == 1 {
      assert rows[0].position == MaxPosition(rows);
    } else {
      var init := rows[..|rows| - 1];
      MaxPositionIsMax(init);
      var k :| 0 <= k < |init| && init[k].position == MaxPosition(init);
      assert rows[k] == init[k] && rows[|rows| - 1].position <= MaxPosition(rows);
      forall j | 0 <= j < |rows| ensures rows[j].position <= MaxPosition(rows) {
        if j < |init| { assert init[j] == rows[j]; }
      }
    }
  }

  /** After a deduplicated batch, the same batch adds exactly its anonymous rows. */
  lemma SecondTimeAddsOnlyAnonymous(z: Normalisers, columns: seq<Column>, stored: seq<Record>, raws: seq<Raw>)
    ensures var after := stored + Added(z, columns, stored, raws, true);
            Added(z, columns, after, raws, true) == Anonymous(z, Usable(columns, raws))
  {
    var known, usable := Identities(z, stored), Usable(columns, raws);
    IdentitiesConcat(z, stored, NewRows(z, known, usable));
    NoIdentityLost(z, known, usable);
    KnownBatchAddsOnlyAnonymous(z, known + Identities(z, NewRows(z, known, usable)), usable);
  }

  lemma DataOfPlaced(rows: seq<Row>, data: seq<Record>, firstId: nat, top: int)
    ensures DataOf(rows + Placed(data, firstId, top)) == DataOf(rows) + data
  {
  }

  /** Sending a deduplicated batch twice: the second time counts every row with an identity as a
      duplicate. */
  method IngestTwice(wb: Workbook, raws: seq<Raw>) returns (first: Result, second: Result)
    requires |raws| <= MAX_INGEST_ROWS
    modifies wb
    ensures var usable := Usable(wb.columns, raws);
            && second.Result? && second.added == |Anonymous(wb.z, usable)|
            && second.skippedDuplicates == |usable| - |Anonymous(wb.z, usable)|
  {
    first := wb.Ingest(raws, true);
    ghost var added := Added(wb.z, wb.columns, DataOf(old(wb.rows)), raws, true);
    DataOfPlaced(old(wb.rows), added, old(wb.nextId), MaxPosition(old(wb.rows)));
    SecondTimeAddsOnlyAnonymous(wb.z, wb.columns, DataOf(old(wb.rows)), raws);
    second := wb.Ingest(raws, true);
  }
}
