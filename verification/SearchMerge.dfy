/** Merging what several search instances answer, in whatever order they answer. */
module SearchMerge {
  import opened Prelude

  /** A result's URL as the parser sees it: no host (or no parse), or its parts. The parser has
      lower-cased the scheme; `rest` is the user info and the query. */
  datatype Url = NoHost(text: string)
               | Url(scheme: string, host: string, path: string, rest: string, fragment: string)

  datatype Hit = Hit(title: string, url: Url, content: string, engines: seq<string>)

  /** What results are merged under. */
  datatype Key = Raw(text: string) | At(scheme: string, host: string, path: string, rest: string)

  lemma LowerTwice(s: string)
    ensures Lower(Lower(s)) == Lower(s)
  {
  }

  function TrimSlashes(path: string): string {
    if path != "" && path[|path| - 1] == '/' then TrimSlashes(path[..|path| - 1]) else path
  }

  function Canonical(u: Url): Key {
    match u
    case NoHost(text) => Raw(text)
    case Url(scheme, host, path, rest, _) =>
      At(scheme, Lower(host), if TrimSlashes(path) == "" then "/" else TrimSlashes(path), rest)
  }

  // ---- when two URLs share a key ----

  function Slashes(m: nat): (s: string)
    ensures |s| == m && forall i | 0 <= i < m :: s[i] == '/'
  {
    seq(m, _ => '/')
  }

  predicate EndsInSlash(s: string) {
    s != "" && s[|s| - 1] == '/'
  }

  lemma {:induction false} TrimOf(t: string, m: nat)
    requires !EndsInSlash(t)
    ensures TrimSlashes(t + Slashes(m)) == t
  {
    if m == 0 {
      assert t + Slashes(m) == t;
    } else {
      var s := t + Slashes(m);
      assert s[..|s| - 1] == t + Slashes(m - 1);
      TrimOf(t, m - 1);
    }
  }

  lemma {:induction false} TrimSplits(path: string) returns (m: nat)
    ensures !EndsInSlash(TrimSlashes(path)) && path == TrimSlashes(path) + Slashes(m)
  {
    if EndsInSlash(path) {
      var n := TrimSplits(path[..|path| - 1]);
      m := n + 1;
      assert Slashes(m) == Slashes(n) + ['/'];
      assert path == path[..|path| - 1] + ['/'];
    } else {
      m := 0;
    }
  }

  /** The paths differ in slashes at their ends at most. */
  ghost predicate SamePath(p: string, q: string) {
    exists t, m, n :: SplitsOff(p, t, m) && SplitsOff(q, t, n)
  }

  predicate SplitsOff(p: string, t: string, m: nat) {
    !EndsInSlash(t) && p == t + Slashes(m)
  }

  /** Two URLs with hosts are merged exactly if their schemes, their hosts up to case, their paths up to slashes
      at the end and the rest are equal, whatever their fragments; other URLs exactly if their texts are. */
  lemma SameKeyExactlyIf(u: Url, v: Url)
    ensures Canonical(u) == Canonical(v) <==>
      if u.Url? && v.Url? then
        u.scheme == v.scheme && Lower(u.host) == Lower(v.host) && u.rest == v.rest && SamePath(u.path, v.path)
      else
        u.NoHost? && v.NoHost? && u.text == v.text
  {
    if u.Url? && v.Url? {
      SamePathExactlyIf(u.path, v.path);
      var m := TrimSplits(u.path);
      var n := TrimSplits(v.path);
      assert EndsInSlash("/");
    }
  }

  lemma SamePathExactlyIf(p: string, q: string)
    ensures SamePath(p, q) <==> TrimSlashes(p) == TrimSlashes(q)
  {
    var m := TrimSplits(p);
    var n := TrimSplits(q);
    assert SplitsOff(p, TrimSlashes(p), m) && SplitsOff(q, TrimSlashes(q), n);
    if t, i, j :| SplitsOff(p, t, i) && SplitsOff(q, t, j) {
      TrimOf(t, i);
      TrimOf(t, j);
    }
  }

  // ---- what is worth keeping ----

  const COMMON_TLDS := {"com", "org", "net", "io", "co", "in", "ai", "gov", "edu", "info", "biz", "us", "uk"}

  function LastIndex(s: string, c: char): (i: int)
    ensures -1 <= i < |s| && (i >= 0 ==> s[i] == c)
  {
    if s == "" then -1 else if s[|s| - 1] == c then |s| - 1 else LastIndex(s[..|s| - 1], c)
  }

  predicate IsVowel(c: char) {
    c in {'a', 'e', 'i', 'o', 'u'}
  }

  /** A short or vowel-starved name under an unusual top-level domain, or no domain at all. */
  predicate SuspiciousHost(host: string) {
    SuspiciousLower(Lower(host))
  }

  predicate SuspiciousLower(lower: string) {
    var host := PortOff(lower);
    var dot := LastIndex(host, '.');
    dot < 0 || SuspiciousName(LastLabel(host[..dot]), host[dot + 1..])
  }

  function PortOff(host: string): string {
    if LastIndex(host, ':') >= 0 then host[..LastIndex(host, ':')] else host
  }

  function LastLabel(s: string): string {
    s[LastIndex(s, '.') + 1..]
  }

  predicate SuspiciousName(name: string, tld: string) {
    tld !in COMMON_TLDS && (|name| <= 8 || 4 * Tally(name, IsVowel) < |name|)
  }

  lemma {:induction false} LastIndexIs(a: string, c: char, b: string)
    requires c !in b
    ensures LastIndex(a + [c] + b, c) == |a|
  {
    var s := a + [c] + b;
    if b == "" {
      assert s[|s| - 1] == c;
    } else {
      assert s[..|s| - 1] == a + [c] + b[..|b| - 1];
      assert s[|s| - 1] == b[|b| - 1] && b[|b| - 1] in b;
      LastIndexIs(a, c, b[..|b| - 1]);
    }
  }

  /** A host, in lower case, is judged by its last two labels, whatever comes before them and whatever the
      port. */
  lemma SuspiciousByLabels(front: string, name: string, tld: string, port: string)
    requires front == "" || front[|front| - 1] == '.'
    requires '.' !in name && '.' !in tld && ':' !in front + name + "." + tld
    requires port == "" || (port[0] == ':' && ':' !in port[1..])
    ensures SuspiciousLower(front + name + "." + tld + port) <==> SuspiciousName(name, tld)
  {
    WithoutPort(front + name + "." + tld, port);
    NameOf(front, name);
    Judged(front + name + "." + tld + port, front + name, tld);
  }

  /** A name is trusted under a common top-level domain whatever it is; under another it is not if it has 8
      letters at most or, of n letters, fewer than n / 4 vowels. */
  lemma NamesAreJudged(name: string, tld: string)
    ensures tld in COMMON_TLDS ==> !SuspiciousName(name, tld)
    ensures tld !in COMMON_TLDS && |name| <= 8 ==> SuspiciousName(name, tld)
    ensures tld !in COMMON_TLDS && |name| > 8 ==> (SuspiciousName(name, tld) <==> 4 * Tally(name, IsVowel) < |name|)
  {
  }

  lemma Judged(lower: string, before: string, tld: string)
    requires PortOff(lower) == before + "." + tld && '.' !in tld
    ensures SuspiciousLower(lower) <==> SuspiciousName(LastLabel(before), tld)
  {
    DomainOf(before, tld);
  }

  lemma DomainOf(before: string, tld: string)
    requires '.' !in tld
    ensures var host := before + "." + tld;
      LastIndex(host, '.') == |before| && host[..|before|] == before && host[|before| + 1..] == tld
  {
    LastIndexIs(before, '.', tld);
    assert before + ['.'] + tld == before + "." + tld;
  }

  lemma WithoutPort(host: string, port: string)
    requires ':' !in host && (port == "" || (port[0] == ':' && ':' !in port[1..]))
    ensures PortOff(host + port) == host
  {
    var all := host + port;
    if port == "" {
      assert all == host;
      assert LastIndex(host, ':') == -1;
    } else {
      assert all == host + [':'] + port[1..];
      LastIndexIs(host, ':', port[1..]);
    }
  }

  lemma NameOf(front: string, name: string)
    requires '.' !in name && (front == "" || front[|front| - 1] == '.')
    ensures LastLabel(front + name) == name
  {
    if front == "" {
      assert front + name == name;
      assert LastIndex(name, '.') == -1;
    } else {
      var before := front[..|front| - 1];
      assert front + name == before + ['.'] + name;
      LastIndexIs(before, '.', name);
    }
  }

  predicate Keep(h: Hit) {
    |h.engines| > 1 || (h.url.Url? && h.url.scheme == "https" && !SuspiciousHost(h.url.host))
  }

  /** `Keep` for one engine needs the key only. */
  predicate TrustedKey(k: Key) {
    k.At? && k.scheme == "https" && !SuspiciousHost(k.host)
  }

  lemma KeepByKey(h: Hit)
    ensures Keep(h) <==> |h.engines| > 1 || TrustedKey(Canonical(h.url))
  {
    if h.url.Url? { LowerTwice(h.url.host); }
  }

  // ---- merging engine lists ----

  function Merged(a: seq<string>, b: seq<string>): seq<string> {
    if b == [] then a
    else
      var m, last := Merged(a, b[..|b| - 1]), b[|b| - 1];
      if last in m then m else m + [last]
  }

  lemma {:induction false} MergedFacts(a: seq<string>, b: seq<string>)
    ensures forall x :: x in Merged(a, b) <==> x in a || x in b
    ensures a <= Merged(a, b)
    ensures Distinct(a) ==> Distinct(Merged(a, b))
  {
    if b == [] {
    } else {
      MergedFacts(a, b[..|b| - 1]);
      assert b == b[..|b| - 1] + [b[|b| - 1]];
    }
  }

  /** The ones that were not there before follow, once each, in the order of the second list. */
  lemma {:induction false} MergedInOrder(a: seq<string>, b: seq<string>)
    ensures Merged(a, b) == a + Firsts(Others(a, b))
  {
    if b == [] {
      assert a + Firsts(Others(a, b)) == a;
    } else {
      var init, last := b[..|b| - 1], b[|b| - 1];
      MergedInOrder(a, init);
      MergedFacts(a, init);
      OthersHas(a, init, last);
      OthersSnoc(a, init, last, Firsts(Others(a, init)));
      assert Others(a, b) == Others(a, init) + if last in a then [] else [last];
    }
  }

  lemma OthersSnoc(a: seq<string>, init: seq<string>, last: string, firsts: seq<string>)
    requires firsts == Firsts(Others(a, init)) && (last in Others(a, init) <==> last in init && last !in a)
    ensures var others := Others(a, init) + if last in a then [] else [last];
      a + Firsts(others) == if last in a || last in init then a + firsts else a + firsts + [last]
  {
    if last in a {
      assert Others(a, init) + [] == Others(a, init);
    } else {
      FirstsSnoc(Others(a, init), last);
      assert firsts + [] == firsts;
      assert a + (firsts + [last]) == a + firsts + [last];
    }
  }

  /** The entries of b that are not in a. */
  function Others(a: seq<string>, b: seq<string>): seq<string> {
    if b == [] then [] else Others(a, b[..|b| - 1]) + if b[|b| - 1] in a then [] else [b[|b| - 1]]
  }

  lemma {:induction false} OthersHas(a: seq<string>, b: seq<string>, x: string)
    ensures x in Others(a, b) <==> x in b && x !in a
  {
    if b == [] {
    } else {
      OthersHas(a, b[..|b| - 1], x);
      assert b == b[..|b| - 1] + [b[|b| - 1]];
    }
  }

  method MergeStrings(a0: seq<string>, b: seq<string>) returns (a: seq<string>)
    ensures a == Merged(a0, b)
  {
    a := a0;
    var seen := set i | 0 <= i < |a0| :: a0[i];
    for n := 0 to |b|
      invariant a == Merged(a0, b[..n])
      invariant forall x :: x in seen <==> x in a
    {
      assert b[..n + 1][..n] == b[..n];
      if b[n] !in seen {
        a := a + [b[n]];
        seen := seen + {b[n]};
      }
    }
    assert b[..|b|] == b;
  }

  // ---- merging hits ----

  function KeyOf(h: Hit): Key {
    Canonical(h.url)
  }

  function Keys(hits: seq<Hit>): seq<Key> {
    if hits == [] then []
    else Keys(hits[..|hits| - 1]) + if KeyOf(hits[|hits| - 1]) == Raw("") then [] else [KeyOf(hits[|hits| - 1])]
  }

  /** The hit shown for a key: the first with that key, with all its engines. */
  function Shown(hits: seq<Hit>, k: Key): Option<Hit> {
    if hits == [] then None
    else
      var early, h := Shown(hits[..|hits| - 1], k), hits[|hits| - 1];
      if KeyOf(h) != k then early
      else if early.None? then Some(h)
      else Some(early.value.(engines := Merged(early.value.engines, h.engines)))
  }

  /** It is shown as it first came: title, URL and text of the first hit with the key. */
  lemma {:induction false} ShownAsItCame(hits: seq<Hit>, k: Key, n: nat)
    requires n < |hits| && KeyOf(hits[n]) == k && forall m | 0 <= m < n :: KeyOf(hits[m]) != k
    ensures Shown(hits, k).Some?
    ensures var h := Shown(hits, k).value; h.title == hits[n].title && h.url == hits[n].url && h.content == hits[n].content
  {
    var last := |hits| - 1;
    if n == last {
      NotShown(hits[..last], k);
    } else {
      ShownAsItCame(hits[..last], k, n);
    }
  }

  lemma {:induction false} NotShown(hits: seq<Hit>, k: Key)
    requires forall m | 0 <= m < |hits| :: KeyOf(hits[m]) != k
    ensures Shown(hits, k).None?
  {
    if hits == [] {
    } else {
      NotShown(hits[..|hits| - 1], k);
    }
  }

  ghost predicate MergeOf(hits: seq<Hit>, order: seq<Key>, merged: map<Key, Hit>) {
    && order == Firsts(Keys(hits))
    && (forall k :: k in merged <==> k in Keys(hits))
    && (forall k | k in merged :: Some(merged[k]) == Shown(hits, k))
  }

  method AddHits(hits: seq<Hit>, ghost before: seq<Hit>, order0: seq<Key>, merged0: map<Key, Hit>)
    returns (order: seq<Key>, merged: map<Key, Hit>)
    requires MergeOf(before, order0, merged0)
    ensures MergeOf(before + hits, order, merged)
  {
    order, merged := order0, merged0;
    ghost var all := before;
    assert before + hits[..0] == before;
    for n := 0 to |hits|
      invariant all == before + hits[..n] && MergeOf(all, order, merged)
    {
      order, merged := AddHit(hits[n], all, order, merged);
      NextHit(before, hits, n);
      all := all + [hits[n]];
    }
    assert hits[..|hits|] == hits;
  }

  lemma NextHit(before: seq<Hit>, hits: seq<Hit>, n: nat)
    requires n < |hits|
    ensures before + hits[..n] + [hits[n]] == before + hits[..n + 1]
  {
  }

  method AddHit(h: Hit, ghost before: seq<Hit>, order0: seq<Key>, merged0: map<Key, Hit>)
    returns (order: seq<Key>, merged: map<Key, Hit>)
    requires MergeOf(before, order0, merged0)
    ensures MergeOf(before + [h], order, merged)
  {
    order, merged := order0, merged0;
    var k := KeyOf(h);
    OneMoreKey(before, h);
    ShownIffKey(before, k);
    forall x ensures Shown(before + [h], x) == if x != k then Shown(before, x) else Shown(before + [h], k) {
      OneMoreShown(before, h, x);
    }
    OneMoreShown(before, h, k);
    if k == Raw("") {
      NoEmptyKey(before);
      return;
    }
    if k in merged {
      var engines := MergeStrings(merged[k].engines, h.engines);
      merged := merged[k := merged[k].(engines := engines)];
      return;
    }
    merged := merged[k := h];
    order := order + [k];
  }

  lemma OneMoreKey(before: seq<Hit>, h: Hit)
    ensures Keys(before + [h]) == if KeyOf(h) == Raw("") then Keys(before) else Keys(before) + [KeyOf(h)]
    ensures Firsts(Keys(before + [h])) == Firsts(Keys(before)) + if KeyOf(h) == Raw("") || KeyOf(h) in Keys(before) then [] else [KeyOf(h)]
  {
    assert (before + [h])[..|before|] == before;
    FirstsSnoc(Keys(before), KeyOf(h));
  }

  lemma OneMoreShown(before: seq<Hit>, h: Hit, k: Key)
    ensures Shown(before + [h], k) ==
            if KeyOf(h) != k then Shown(before, k)
            else if Shown(before, k).None? then Some(h)
            else Some(Shown(before, k).value.(engines := Merged(Shown(before, k).value.engines, h.engines)))
  {
    assert (before + [h])[..|before|] == before;
  }

  lemma {:induction false} NoEmptyKey(hits: seq<Hit>)
    ensures Raw("") !in Keys(hits)
  {
    if hits == [] {
    } else {
      NoEmptyKey(hits[..|hits| - 1]);
    }
  }

  lemma {:induction false} ShownIffKey(hits: seq<Hit>, k: Key)
    ensures k != Raw("") ==> (Shown(hits, k).Some? <==> k in Keys(hits))
  {
    if hits == [] {
    } else {
      ShownIffKey(hits[..|hits| - 1], k);
    }
  }

  /** One instance's answer as it comes off the channel; `None` is an error. */
  datatype Reply = Reply(instance: string, hits: Option<seq<Hit>>)

  function HitsOf(replies: seq<Reply>): seq<Hit> {
    if replies == [] then []
    else HitsOf(replies[..|replies| - 1])
         + (if replies[|replies| - 1].hits.Some? then replies[|replies| - 1].hits.value else [])
  }

  function Answers(replies: seq<Reply>): nat {
    if replies == [] then 0 else Answers(replies[..|replies| - 1]) + (if replies[|replies| - 1].hits.Some? then 1 else 0)
  }

  /** Who has answered, in order. */
  function Answerers(replies: seq<Reply>): (names: seq<string>)
    ensures |names| == Answers(replies)
  {
    if replies == [] then []
    else
      Answerers(replies[..|replies| - 1])
      + if replies[|replies| - 1].hits.Some? then [replies[|replies| - 1].instance] else []
  }

  /** An instance is among those that answered, in its place, exactly if its reply is no error. */
  lemma {:induction false} AnswererAt(replies: seq<Reply>, k: nat)
    requires k < |replies|
    ensures var place := |Answerers(replies[..k])|;
      if replies[k].hits.Some? then
        && place < |Answerers(replies)| && Answerers(replies)[place] == replies[k].instance
        && |Answerers(replies[..k + 1])| == place + 1
      else
        |Answerers(replies[..k + 1])| == place
  {
    var n := |replies| - 1;
    if k == n {
      assert replies[..k + 1] == replies;
    } else {
      AnswererAt(replies[..n], k);
      assert replies[..n][..k] == replies[..k] && replies[..n][..k + 1] == replies[..k + 1] && replies[..n][k] == replies[k];
    }
  }

  /** Enough instances have answered; one is always waited for. */
  predicate Enough(answers: nat, minResponses: int) {
    answers > 0 && answers >= minResponses
  }

  /** How many answers are waited for. */
  function Least(minResponses: int): nat {
    if minResponses > 1 then minResponses else 1
  }

  /** The collector's loop: merge replies in arrival order until enough have answered. `read` is how
      many it took off the channel. */
  method Gather(arrivals: seq<Reply>, minResponses: int)
    returns (order: seq<Key>, merged: map<Key, Hit>, used: seq<string>, read: nat)
    ensures read <= |arrivals| && used == Answerers(arrivals[..read])
    ensures |used| <= Least(minResponses) && (read < |arrivals| ==> |used| == Least(minResponses))
    ensures forall m | 0 <= m < read :: !Enough(Answers(arrivals[..m]), minResponses)
    ensures MergeOf(HitsOf(arrivals[..read]), order, merged)
  {
    order, merged, used, read := [], map[], [], 0;
    while read < |arrivals|
      invariant read <= |arrivals| && used == Answerers(arrivals[..read])
      invariant MergeOf(HitsOf(arrivals[..read]), order, merged)
      invariant forall m | 0 <= m <= read :: !Enough(Answers(arrivals[..m]), minResponses)
    {
      var r := arrivals[read];
      assert arrivals[..read + 1][..read] == arrivals[..read];
      if r.hits.None? {
        assert HitsOf(arrivals[..read + 1]) == HitsOf(arrivals[..read]);
        read := read + 1;
        continue;
      }
      used := used + [r.instance];
      order, merged := AddHits(r.hits.value, HitsOf(arrivals[..read]), order, merged);
      read := read + 1;
      if |used| >= minResponses {
        break;
      }
    }
  }

  /** What one search returns: the merged hits worth keeping, in first-seen order. */
  method Collect(arrivals: seq<Reply>, minResponses: int) returns (out: seq<Hit>, used: seq<string>, read: nat)
    ensures read <= |arrivals| && used == Answerers(arrivals[..read])
    ensures |used| <= Least(minResponses) && (read < |arrivals| ==> |used| == Least(minResponses))
    ensures forall m | 0 <= m < read :: !Enough(Answers(arrivals[..m]), minResponses)
    ensures out == Results(HitsOf(arrivals[..read]))
  {
    var order, merged;
    order, merged, used, read := Gather(arrivals, minResponses);
    ghost var hits := HitsOf(arrivals[..read]);
    FirstsFacts(Keys(hits));
    out := [];
    for n := 0 to |order|
      invariant out == Listing(hits, order[..n])
    {
      assert order[..n + 1][..n] == order[..n] && order[n] in order;
      if Keep(merged[order[n]]) {
        out := out + [merged[order[n]]];
      }
    }
    assert order[..|order|] == order;
  }

  function Results(hits: seq<Hit>): seq<Hit> {
    Listing(hits, Firsts(Keys(hits)))
  }

  function Listing(hits: seq<Hit>, order: seq<Key>): seq<Hit> {
    if order == [] then []
    else
      var h := Shown(hits, order[|order| - 1]);
      Listing(hits, order[..|order| - 1]) + if h.Some? && Keep(h.value) then [h.value] else []
  }

  // ---- the order of arrival does not matter ----

  /** Some hit with this key came from engine e. */
  ghost predicate FoundBy(hits: seq<Hit>, k: Key, e: string) {
    exists n :: 0 <= n < |hits| && KeyOf(hits[n]) == k && e in hits[n].engines
  }

  ghost predicate Occurs(hits: seq<Hit>, k: Key) {
    k != Raw("") && exists n :: 0 <= n < |hits| && KeyOf(hits[n]) == k
  }

  ghost predicate EnginesDistinct(hits: seq<Hit>) {
    forall n | 0 <= n < |hits| :: Distinct(hits[n].engines)
  }

  lemma OccursSnoc(hits: seq<Hit>, h: Hit, k: Key)
    ensures Occurs(hits + [h], k) <==> Occurs(hits, k) || (k != Raw("") && KeyOf(h) == k)
  {
    var all := hits + [h];
    assert all[|hits|] == h;
    if Occurs(hits, k) {
      var m :| 0 <= m < |hits| && KeyOf(hits[m]) == k;
      assert KeyOf(all[m]) == k;
    }
  }

  lemma {:induction false} KeysOccur(hits: seq<Hit>, k: Key)
    ensures k in Keys(hits) <==> Occurs(hits, k)
  {
    if hits == [] {
    } else {
      var n := |hits| - 1;
      KeysOccur(hits[..n], k);
      OccursSnoc(hits[..n], hits[n], k);
      assert hits == hits[..n] + [hits[n]];
    }
  }

  /** The shown hit carries exactly the engines of all hits with its key, each once if every list
      named each once; its URL has the key. */
  lemma {:induction false} ShownFacts(hits: seq<Hit>, k: Key)
    ensures Shown(hits, k).Some? <==> exists n :: 0 <= n < |hits| && KeyOf(hits[n]) == k
    ensures Shown(hits, k).Some? ==> KeyOf(Shown(hits, k).value) == k
    ensures Shown(hits, k).Some? ==> forall e :: e in Shown(hits, k).value.engines <==> FoundBy(hits, k, e)
    ensures Shown(hits, k).Some? && EnginesDistinct(hits) ==> Distinct(Shown(hits, k).value.engines)
  {
    if hits == [] {
    } else {
      var n := |hits| - 1;
      var init, h := hits[..n], hits[n];
      ShownFacts(init, k);
      assert forall m | 0 <= m < n :: init[m] == hits[m];
      if exists m :: 0 <= m < |init| && KeyOf(init[m]) == k {
        var m :| 0 <= m < |init| && KeyOf(init[m]) == k;
        assert KeyOf(hits[m]) == k;
      }
      if KeyOf(h) == k && Shown(init, k).Some? {
        MergedFacts(Shown(init, k).value.engines, h.engines);
      }
      forall e ensures FoundBy(hits, k, e) <==> FoundBy(init, k, e) || (KeyOf(h) == k && e in h.engines) {
        if FoundBy(init, k, e) {
          var m :| 0 <= m < |init| && KeyOf(init[m]) == k && e in init[m].engines;
          assert KeyOf(hits[m]) == k && e in hits[m].engines;
        }
      }
    }
  }

  /** A key's place in the results: listed once, in first-seen order. */
  lemma {:induction false} ListingFacts(hits: seq<Hit>, order: seq<Key>)
    requires Distinct(order) && forall k <- order :: Shown(hits, k).Some? && KeyOf(Shown(hits, k).value) == k
    ensures Distinct(ListedKeys(hits, order)) && forall k <- ListedKeys(hits, order) :: k in order
    ensures forall k :: k in ListedKeys(hits, order) <==> k in order && Keep(Shown(hits, k).value)
    ensures |Listing(hits, order)| == |ListedKeys(hits, order)|
    ensures forall i | 0 <= i < |Listing(hits, order)| :: Some(Listing(hits, order)[i]) == Shown(hits, ListedKeys(hits, order)[i])
  {
    if order == [] {
    } else {
      var n := |order| - 1;
      assert order[n] in order && order == order[..n] + [order[n]];
      forall k | k in order[..n] ensures k in order {}
      ListingFacts(hits, order[..n]);
    }
  }

  /** The keys of the listing, in order. */
  function ListedKeys(hits: seq<Hit>, order: seq<Key>): seq<Key> {
    if order == [] then []
    else
      var h := Shown(hits, order[|order| - 1]);
      ListedKeys(hits, order[..|order| - 1]) + if h.Some? && Keep(h.value) then [order[|order| - 1]] else []
  }

  /** Where a key is first seen; |hits| if nowhere. */
  function FirstAt(hits: seq<Hit>, k: Key): (n: nat)
    ensures n <= |hits| && (n < |hits| ==> KeyOf(hits[n]) == k)
    ensures forall m | 0 <= m < n :: KeyOf(hits[m]) != k
  {
    if hits == [] then 0
    else
      var n := |hits| - 1;
      var early := FirstAt(hits[..n], k);
      assert forall m | 0 <= m < n :: hits[..n][m] == hits[m];
      if early < n then early else if KeyOf(hits[n]) == k then n else n + 1
  }

  lemma FirstAtSnoc(hits: seq<Hit>, h: Hit, k: Key)
    ensures FirstAt(hits + [h], k) ==
      if FirstAt(hits, k) < |hits| then FirstAt(hits, k) else if KeyOf(h) == k then |hits| else |hits| + 1
  {
    assert (hits + [h])[..|hits|] == hits;
  }

  /** Some result has key k. */
  ghost predicate Returned(hits: seq<Hit>, k: Key) {
    exists i :: 0 <= i < |Results(hits)| && KeyOf(Results(hits)[i]) == k
  }

  /** Two engines found k. */
  ghost predicate Corroborated(hits: seq<Hit>, k: Key) {
    exists e, f :: e != f && FoundBy(hits, k, e) && FoundBy(hits, k, f)
  }

  /** The first hit with key k lists more than one engine, be it one engine twice. */
  predicate LeadsWithTwo(hits: seq<Hit>, k: Key) {
    FirstAt(hits, k) < |hits| && |hits[FirstAt(hits, k)].engines| > 1
  }

  /** What is returned: keys that two engines found, or that are trusted, or whose first hit lists two. */
  ghost predicate Deserves(hits: seq<Hit>, k: Key) {
    Occurs(hits, k) && (TrustedKey(k) || Corroborated(hits, k) || LeadsWithTwo(hits, k))
  }

  lemma TwoEngines(s: seq<string>)
    requires Distinct(s)
    ensures |s| > 1 <==> exists e, f :: e != f && e in s && f in s
  {
    if |s| > 1 {
      assert s[0] != s[1] && s[0] in s && s[1] in s;
    }
  }

  /** The shown hit's engines start with those of the first hit, and repeat one only if that does. */
  lemma {:induction false} ShownLeads(hits: seq<Hit>, k: Key)
    ensures Shown(hits, k).Some? <==> FirstAt(hits, k) < |hits|
    ensures Shown(hits, k).Some? ==> hits[FirstAt(hits, k)].engines <= Shown(hits, k).value.engines
    ensures Shown(hits, k).Some? && Distinct(hits[FirstAt(hits, k)].engines) ==> Distinct(Shown(hits, k).value.engines)
  {
    if hits == [] {
    } else {
      var init, h := hits[..|hits| - 1], hits[|hits| - 1];
      assert hits == init + [h];
      ShownLeads(init, k);
      FirstAtSnoc(init, h, k);
      if Shown(init, k).Some? {
        MergedFacts(Shown(init, k).value.engines, h.engines);
      }
    }
  }

  lemma ManyEngines(hits: seq<Hit>, k: Key)
    requires FirstAt(hits, k) < |hits|
    ensures Shown(hits, k).Some?
    ensures |Shown(hits, k).value.engines| > 1 <==> Corroborated(hits, k) || LeadsWithTwo(hits, k)
  {
    ShownLeads(hits, k);
    ShownFacts(hits, k);
    var first, shown := hits[FirstAt(hits, k)].engines, Shown(hits, k).value.engines;
    if |first| <= 1 {
      TwoEngines(shown);
      assert Corroborated(hits, k) <==> exists e, f :: e != f && e in shown && f in shown;
    }
  }

  /** A key is returned exactly if it deserves it. */
  lemma ReturnedIffDeserved(hits: seq<Hit>, k: Key)
    ensures Returned(hits, k) <==> Deserves(hits, k)
  {
    var listed := ListedKeys(hits, Firsts(Keys(hits)));
    ResultsAreShown(hits);
    ListedIffKept(hits, k);
    if k in listed {
      var i :| 0 <= i < |listed| && listed[i] == k;
      assert KeyOf(Results(hits)[i]) == k;
    }
    if Returned(hits, k) {
      var i :| 0 <= i < |Results(hits)| && KeyOf(Results(hits)[i]) == k;
      assert listed[i] in listed;
    }
  }

  lemma ListedIffKept(hits: seq<Hit>, k: Key)
    ensures k in ListedKeys(hits, Firsts(Keys(hits))) <==> Deserves(hits, k)
  {
    FirstsFacts(Keys(hits));
    KeysOccur(hits, k);
    OrderIsShown(hits);
    ListingFacts(hits, Firsts(Keys(hits)));
    if Occurs(hits, k) {
      SeenIffKey(hits, k);
      ManyEngines(hits, k);
      ShownFacts(hits, k);
      KeepByKey(Shown(hits, k).value);
    }
  }

  lemma OrderIsShown(hits: seq<Hit>)
    ensures forall k <- Firsts(Keys(hits)) :: Shown(hits, k).Some? && KeyOf(Shown(hits, k).value) == k
  {
    FirstsFacts(Keys(hits));
    forall k <- Firsts(Keys(hits)) ensures Shown(hits, k).Some? && KeyOf(Shown(hits, k).value) == k {
      KeysOccur(hits, k);
      ShownFacts(hits, k);
    }
  }

  /** Without repeated engines order plays no part: two engines found k, or it is trusted. */
  lemma RepeatFreeIffCorroborated(hits: seq<Hit>, k: Key)
    requires EnginesDistinct(hits)
    ensures Returned(hits, k) <==> Occurs(hits, k) && (TrustedKey(k) || Corroborated(hits, k))
  {
    ReturnedIffDeserved(hits, k);
    if LeadsWithTwo(hits, k) {
      var first := hits[FirstAt(hits, k)];
      assert first.engines[0] != first.engines[1];
      assert FoundBy(hits, k, first.engines[0]) && FoundBy(hits, k, first.engines[1]);
    }
  }

  /** The same replies in any order. */
  ghost predicate SameReplies(a: seq<Reply>, b: seq<Reply>) {
    multiset(a) == multiset(b)
  }

  lemma {:induction false} HitsComeFromReplies(replies: seq<Reply>, h: Hit)
    ensures h in HitsOf(replies) <==> exists r <- replies :: r.hits.Some? && h in r.hits.value
  {
    if replies == [] {
    } else {
      var n := |replies| - 1;
      HitsComeFromReplies(replies[..n], h);
      assert replies == replies[..n] + [replies[n]];
      assert replies[n] in replies;
    }
  }

  lemma SameHits(a: seq<Reply>, b: seq<Reply>, h: Hit)
    requires SameReplies(a, b)
    ensures h in HitsOf(a) <==> h in HitsOf(b)
  {
    HitsComeFromReplies(a, h);
    HitsComeFromReplies(b, h);
    assert forall r :: r in a <==> r in multiset(a);
    assert forall r :: r in b <==> r in multiset(b);
  }

  lemma MembersDecide(x: seq<Hit>, y: seq<Hit>, k: Key)
    requires forall h :: h in x <==> h in y
    ensures EnginesDistinct(x) <==> EnginesDistinct(y)
    ensures Occurs(x, k) <==> Occurs(y, k)
    ensures forall e :: FoundBy(x, k, e) <==> FoundBy(y, k, e)
  {
    MembersDecideHalf(x, y, k);
    MembersDecideHalf(y, x, k);
  }

  lemma MembersDecideHalf(x: seq<Hit>, y: seq<Hit>, k: Key)
    requires forall h | h in x :: h in y
    ensures EnginesDistinct(y) ==> EnginesDistinct(x)
    ensures Occurs(x, k) ==> Occurs(y, k)
    ensures forall e | FoundBy(x, k, e) :: FoundBy(y, k, e)
  {
    forall n | 0 <= n < |x| ensures exists m :: 0 <= m < |y| && y[m] == x[n] {
      assert x[n] in x && x[n] in y;
    }
    forall e | FoundBy(x, k, e) ensures FoundBy(y, k, e) {
      var n :| 0 <= n < |x| && KeyOf(x[n]) == k && e in x[n].engines;
      var m :| 0 <= m < |y| && y[m] == x[n];
      assert KeyOf(y[m]) == k && e in y[m].engines;
    }
  }

  lemma SameFinds(a: seq<Reply>, b: seq<Reply>, k: Key)
    requires SameReplies(a, b)
    ensures EnginesDistinct(HitsOf(a)) <==> EnginesDistinct(HitsOf(b))
    ensures Occurs(HitsOf(a), k) <==> Occurs(HitsOf(b), k)
    ensures forall e :: FoundBy(HitsOf(a), k, e) <==> FoundBy(HitsOf(b), k, e)
    ensures Corroborated(HitsOf(a), k) <==> Corroborated(HitsOf(b), k)
  {
    forall h ensures h in HitsOf(a) <==> h in HitsOf(b) { SameHits(a, b, h); }
    MembersDecide(HitsOf(a), HitsOf(b), k);
  }

  /** Merging the same replies in any order of arrival returns the same keys with the same engines,
      if no hit names an engine twice. */
  lemma ArrivalOrderIsIrrelevant(a: seq<Reply>, b: seq<Reply>, k: Key)
    requires SameReplies(a, b) && EnginesDistinct(HitsOf(a))
    ensures Returned(HitsOf(a), k) <==> Returned(HitsOf(b), k)
    ensures forall e :: FoundBy(HitsOf(a), k, e) <==> FoundBy(HitsOf(b), k, e)
  {
    SameFinds(a, b, k);
    RepeatFreeIffCorroborated(HitsOf(a), k);
    RepeatFreeIffCorroborated(HitsOf(b), k);
  }

  // ---- when exactly it does not matter ----

  /** The reply brings a hit with key k. */
  predicate Brings(r: Reply, k: Key) {
    r.hits.Some? && FirstAt(r.hits.value, k) < |r.hits.value|
  }

  /** All replies that bring k agree on whether their first hit for it lists more than one engine. */
  predicate LeadersAgree(replies: seq<Reply>, k: Key) {
    forall m, n | 0 <= m < n < |replies| && Brings(replies[m], k) && Brings(replies[n], k) ::
      LeadsWithTwo(replies[m].hits.value, k) == LeadsWithTwo(replies[n].hits.value, k)
  }

  ghost predicate OrderDoesNotMatter(replies: seq<Reply>, k: Key) {
    forall b | SameReplies(replies, b) :: Returned(HitsOf(b), k) <==> Returned(HitsOf(replies), k)
  }

  lemma FirstAtConcat(x: seq<Hit>, y: seq<Hit>, k: Key)
    ensures FirstAt(x + y, k) == if FirstAt(x, k) < |x| then FirstAt(x, k) else |x| + FirstAt(y, k)
    ensures LeadsWithTwo(x + y, k) == if FirstAt(x, k) < |x| then LeadsWithTwo(x, k) else LeadsWithTwo(y, k)
  {
    var n := if FirstAt(x, k) < |x| then FirstAt(x, k) else |x| + FirstAt(y, k);
    assert forall m | 0 <= m < n :: KeyOf((x + y)[m]) != k;
    assert n < |x + y| ==> KeyOf((x + y)[n]) == k;
  }

  lemma LastReply(replies: seq<Reply>, k: Key)
    requires replies != []
    ensures var init, r := replies[..|replies| - 1], replies[|replies| - 1];
      if FirstAt(HitsOf(init), k) < |HitsOf(init)| then
        FirstAt(HitsOf(replies), k) < |HitsOf(replies)| && LeadsWithTwo(HitsOf(replies), k) == LeadsWithTwo(HitsOf(init), k)
      else
        && (FirstAt(HitsOf(replies), k) < |HitsOf(replies)| <==> Brings(r, k))
        && (Brings(r, k) ==> LeadsWithTwo(HitsOf(replies), k) == LeadsWithTwo(r.hits.value, k))
  {
    var init, r := replies[..|replies| - 1], replies[|replies| - 1];
    if r.hits.Some? {
      FirstAtConcat(HitsOf(init), r.hits.value, k);
    } else {
      assert HitsOf(replies) == HitsOf(init);
    }
  }

  lemma {:induction false} BroughtIsSeen(replies: seq<Reply>, k: Key)
    ensures FirstAt(HitsOf(replies), k) < |HitsOf(replies)| <==> exists n :: 0 <= n < |replies| && Brings(replies[n], k)
  {
    if replies == [] {
    } else {
      var n := |replies| - 1;
      BroughtIsSeen(replies[..n], k);
      LastReply(replies, k);
      if m :| 0 <= m < n && Brings(replies[..n][m], k) {
        assert Brings(replies[m], k);
      }
      if m :| 0 <= m < |replies| && Brings(replies[m], k) {
        assert m < n ==> Brings(replies[..n][m], k);
      }
    }
  }

  /** The hit that leads for k is the leader of the first reply that brings it. */
  lemma {:induction false} LeaderIsAReplys(replies: seq<Reply>, k: Key) returns (n: nat)
    requires FirstAt(HitsOf(replies), k) < |HitsOf(replies)|
    ensures n < |replies| && Brings(replies[n], k)
    ensures LeadsWithTwo(HitsOf(replies), k) == LeadsWithTwo(replies[n].hits.value, k)
    ensures forall m | 0 <= m < n :: !Brings(replies[m], k)
  {
    var last := |replies| - 1;
    var init := replies[..last];
    LastReply(replies, k);
    if FirstAt(HitsOf(init), k) < |HitsOf(init)| {
      n := LeaderIsAReplys(init, k);
      assert forall m | 0 <= m < last :: init[m] == replies[m];
    } else {
      n := last;
      BroughtIsSeen(init, k);
      forall m | 0 <= m < last ensures !Brings(replies[m], k) {
        assert init[m] == replies[m];
      }
    }
  }

  /** The same replies, with the n-th read first. */
  function Advanced(replies: seq<Reply>, n: nat): (b: seq<Reply>)
    requires n < |replies|
  {
    [replies[n]] + replies[..n] + replies[n + 1..]
  }

  lemma AdvancedLeads(replies: seq<Reply>, n: nat, k: Key)
    requires n < |replies| && Brings(replies[n], k)
    ensures SameReplies(replies, Advanced(replies, n))
    ensures LeadsWithTwo(HitsOf(Advanced(replies, n)), k) == LeadsWithTwo(replies[n].hits.value, k)
  {
    var b := Advanced(replies, n);
    assert replies == replies[..n] + [replies[n]] + replies[n + 1..];
    assert Brings(b[0], k);
    BroughtIsSeen(b, k);
    var m := LeaderIsAReplys(b, k);
  }

  lemma AgreeingLeaders(a: seq<Reply>, b: seq<Reply>, k: Key)
    requires SameReplies(a, b) && LeadersAgree(a, k)
    ensures LeadsWithTwo(HitsOf(a), k) == LeadsWithTwo(HitsOf(b), k)
  {
    SameBringing(a, b, k);
    BroughtIsSeen(a, k);
    BroughtIsSeen(b, k);
    if FirstAt(HitsOf(a), k) < |HitsOf(a)| {
      var m := LeaderIsAReplys(a, k);
      var n := LeaderIsAReplys(b, k);
      assert b[n] in multiset(b) && b[n] in a;
      var p :| 0 <= p < |a| && a[p] == b[n];
    }
  }

  lemma SameBringing(a: seq<Reply>, b: seq<Reply>, k: Key)
    requires SameReplies(a, b)
    ensures (exists n :: 0 <= n < |a| && Brings(a[n], k)) <==> exists n :: 0 <= n < |b| && Brings(b[n], k)
  {
    if n :| 0 <= n < |a| && Brings(a[n], k) {
      assert a[n] in multiset(a) && a[n] in b;
    }
    if n :| 0 <= n < |b| && Brings(b[n], k) {
      assert b[n] in multiset(b) && b[n] in a;
    }
  }

  /** For a key k the order in which these replies arrive does not matter exactly if k is trusted, two
      engines found it, or the replies that bring it agree on leading with more than one engine. */
  lemma OrderMattersExactlyIf(replies: seq<Reply>, k: Key)
    requires k != Raw("")
    ensures OrderDoesNotMatter(replies, k) <==> TrustedKey(k) || Corroborated(HitsOf(replies), k) || LeadersAgree(replies, k)
  {
    if TrustedKey(k) || Corroborated(HitsOf(replies), k) || LeadersAgree(replies, k) {
      forall b | SameReplies(replies, b) ensures Returned(HitsOf(b), k) <==> Returned(HitsOf(replies), k) {
        SameFinds(replies, b, k);
        ReturnedIffDeserved(HitsOf(b), k);
        ReturnedIffDeserved(HitsOf(replies), k);
        if LeadersAgree(replies, k) { AgreeingLeaders(replies, b, k); }
      }
    } else {
      var m, n :| 0 <= m < n < |replies| && Brings(replies[m], k) && Brings(replies[n], k)
        && LeadsWithTwo(replies[m].hits.value, k) != LeadsWithTwo(replies[n].hits.value, k);
      DisagreeingLeaders(replies, k, m, n);
    }
  }

  lemma DisagreeingLeaders(replies: seq<Reply>, k: Key, m: nat, n: nat)
    requires m < n < |replies| && Brings(replies[m], k) && Brings(replies[n], k) && k != Raw("")
    requires LeadsWithTwo(replies[m].hits.value, k) != LeadsWithTwo(replies[n].hits.value, k)
    requires !TrustedKey(k) && !Corroborated(HitsOf(replies), k)
    ensures SameReplies(replies, Advanced(replies, m)) && SameReplies(replies, Advanced(replies, n))
    ensures Returned(HitsOf(Advanced(replies, m)), k) != Returned(HitsOf(Advanced(replies, n)), k)
  {
    LeaderDecides(replies, k, m);
    LeaderDecides(replies, k, n);
  }

  lemma LeaderDecides(replies: seq<Reply>, k: Key, n: nat)
    requires n < |replies| && Brings(replies[n], k) && k != Raw("")
    requires !TrustedKey(k) && !Corroborated(HitsOf(replies), k)
    ensures SameReplies(replies, Advanced(replies, n))
    ensures Returned(HitsOf(Advanced(replies, n)), k) == LeadsWithTwo(replies[n].hits.value, k)
  {
    var b := Advanced(replies, n);
    AdvancedLeads(replies, n, k);
    SameFinds(replies, b, k);
    assert Brings(b[0], k);
    BroughtIsSeen(b, k);
    var i := FirstAt(HitsOf(b), k);
    assert KeyOf(HitsOf(b)[i]) == k;
    ReturnedIffDeserved(HitsOf(b), k);
  }

  /** It can matter: one engine named twice counts as two, but only when its hit arrives first. */
  lemma RepeatedEngineBreaksIt()
    ensures var u := Url("http", "x.sn", "/", "", "");
            var twice, once := Hit("t", u, "", ["g", "g"]), Hit("t", u, "", ["g"]);
            Returned([twice, once], KeyOf(once)) && !Returned([once, twice], KeyOf(once))
  {
    var u := Url("http", "x.sn", "/", "", "");
    var twice, once := Hit("t", u, "", ["g", "g"]), Hit("t", u, "", ["g"]);
    assert Merged(["g", "g"], ["g"]) == ["g", "g"] by { assert ["g"][..0] == []; }
    assert Merged(["g"], ["g", "g"]) == ["g"] by { assert ["g", "g"][..1] == ["g"] && ["g"][..0] == []; }
    TwoHits(twice, once);
    TwoHits(once, twice);
    assert Results([twice, once]) == [twice] && Results([once, twice]) == [];
    assert KeyOf(Results([twice, once])[0]) == KeyOf(once);
  }

  lemma TwoHits(a: Hit, b: Hit)
    requires KeyOf(a) == KeyOf(b) != Raw("")
    ensures var shown := a.(engines := Merged(a.engines, b.engines));
            Results([a, b]) == if Keep(shown) then [shown] else []
  {
    var k := KeyOf(a);
    FirstHit(a);
    OneMoreKey([a], b);
    OneMoreShown([a], b, k);
    assert [a] + [b] == [a, b];
    assert Firsts(Keys([a, b])) == [k] + [] == [k];
    ListingOfOne([a, b], k);
  }

  lemma FirstHit(a: Hit)
    requires KeyOf(a) != Raw("")
    ensures Keys([a]) == Firsts(Keys([a])) == [KeyOf(a)] && Shown([a], KeyOf(a)) == Some(a)
  {
    OneMoreKey([], a);
    OneMoreShown([], a, KeyOf(a));
    assert [] + [a] == [a];
  }

  lemma ListingOfOne(hits: seq<Hit>, k: Key)
    ensures Listing(hits, [k]) == if Shown(hits, k).Some? && Keep(Shown(hits, k).value) then [Shown(hits, k).value] else []
  {
    assert [k][..0] == [];
  }

  // ---- the order of the results ----

  ghost predicate Rising(hits: seq<Hit>, keys: seq<Key>) {
    forall i, j | 0 <= i < j < |keys| :: FirstAt(hits, keys[i]) < FirstAt(hits, keys[j])
  }

  /** A key is seen exactly if it is among the keys. */
  lemma SeenIffKey(hits: seq<Hit>, k: Key)
    requires k != Raw("")
    ensures FirstAt(hits, k) < |hits| <==> k in Keys(hits)
  {
    KeysOccur(hits, k);
  }

  lemma RiseSnoc(hits: seq<Hit>, h: Hit, order: seq<Key>)
    requires Rising(hits, order) && forall i | 0 <= i < |order| :: FirstAt(hits, order[i]) < |hits|
    ensures Rising(hits + [h], order)
    ensures FirstAt(hits, KeyOf(h)) == |hits| ==> Rising(hits + [h], order + [KeyOf(h)])
  {
    forall i | 0 <= i < |order| ensures FirstAt(hits + [h], order[i]) == FirstAt(hits, order[i]) {
      FirstAtSnoc(hits, h, order[i]);
    }
    FirstAtSnoc(hits, h, KeyOf(h));
  }

  lemma OrderIsSeen(hits: seq<Hit>)
    ensures var order := Firsts(Keys(hits)); forall i | 0 <= i < |order| :: FirstAt(hits, order[i]) < |hits|
  {
    var order := Firsts(Keys(hits));
    FirstsFacts(Keys(hits));
    NoEmptyKey(hits);
    forall i | 0 <= i < |order| ensures FirstAt(hits, order[i]) < |hits| {
      assert order[i] in order;
      SeenIffKey(hits, order[i]);
    }
  }

  /** First occurrences, in order, are first seen in order. */
  lemma {:induction false} KeysRise(hits: seq<Hit>)
    ensures Rising(hits, Firsts(Keys(hits)))
  {
    if hits == [] {
    } else {
      var init, h := hits[..|hits| - 1], hits[|hits| - 1];
      KeysRise(init);
      OrderIsSeen(init);
      NextKeyRises(init, h);
      assert hits == init + [h];
    }
  }

  lemma NextKeyRises(hits: seq<Hit>, h: Hit)
    requires Rising(hits, Firsts(Keys(hits)))
    requires forall i | 0 <= i < |Firsts(Keys(hits))| :: FirstAt(hits, Firsts(Keys(hits))[i]) < |hits|
    ensures Rising(hits + [h], Firsts(Keys(hits + [h])))
  {
    var order, order' := Firsts(Keys(hits)), Firsts(Keys(hits + [h]));
    RiseSnoc(hits, h, order);
    OneMoreKey(hits, h);
    if KeyOf(h) == Raw("") || KeyOf(h) in Keys(hits) {
      assert order' == order;
    } else {
      SeenIffKey(hits, KeyOf(h));
      assert order' == order + [KeyOf(h)];
    }
  }

  lemma {:induction false} ListedRise(hits: seq<Hit>, order: seq<Key>)
    requires Rising(hits, order)
    ensures Rising(hits, ListedKeys(hits, order)) && forall k <- ListedKeys(hits, order) :: k in order
  {
    if order == [] {
    } else {
      var n := |order| - 1;
      ListedRise(hits, order[..n]);
      assert order == order[..n] + [order[n]];
      var listed := ListedKeys(hits, order[..n]);
      forall i | 0 <= i < |listed| ensures FirstAt(hits, listed[i]) < FirstAt(hits, order[n]) {
        assert listed[i] in listed && listed[i] in order[..n];
      }
    }
  }

  lemma ResultsAreShown(hits: seq<Hit>)
    ensures var listed := ListedKeys(hits, Firsts(Keys(hits)));
            |Results(hits)| == |listed|
            && forall i | 0 <= i < |listed| :: Some(Results(hits)[i]) == Shown(hits, listed[i]) && KeyOf(Results(hits)[i]) == listed[i]
  {
    var order := Firsts(Keys(hits));
    FirstsFacts(Keys(hits));
    OrderIsShown(hits);
    ListingFacts(hits, order);
    forall i | 0 <= i < |ListedKeys(hits, order)| ensures KeyOf(Results(hits)[i]) == ListedKeys(hits, order)[i] {
      assert ListedKeys(hits, order)[i] in ListedKeys(hits, order);
    }
  }

  /** Results have different keys and stand in the order in which their keys were first seen. */
  lemma OutputOrder(hits: seq<Hit>, i: nat, j: nat)
    requires i < j < |Results(hits)|
    ensures KeyOf(Results(hits)[i]) != KeyOf(Results(hits)[j])
    ensures FirstAt(hits, KeyOf(Results(hits)[i])) < FirstAt(hits, KeyOf(Results(hits)[j]))
  {
    ResultsAreShown(hits);
    KeysRise(hits);
    ListedRise(hits, Firsts(Keys(hits)));
  }

  /** A result names exactly the engines of all hits with its key. */
  lemma EnginesAreTheUnion(hits: seq<Hit>, i: nat)
    requires i < |Results(hits)|
    ensures forall e :: e in Results(hits)[i].engines <==> FoundBy(hits, KeyOf(Results(hits)[i]), e)
  {
    ResultsAreShown(hits);
    ShownFacts(hits, KeyOf(Results(hits)[i]));
  }

  /** So results with one key name the same engines, whatever the order of arrival. */
  lemma SameEngines(a: seq<Reply>, b: seq<Reply>, i: nat, j: nat)
    requires SameReplies(a, b)
    requires i < |Results(HitsOf(a))| && j < |Results(HitsOf(b))|
    requires KeyOf(Results(HitsOf(a))[i]) == KeyOf(Results(HitsOf(b))[j])
    ensures forall e :: e in Results(HitsOf(a))[i].engines <==> e in Results(HitsOf(b))[j].engines
  {
    SameFinds(a, b, KeyOf(Results(HitsOf(a))[i]));
    EnginesAreTheUnion(HitsOf(a), i);
    EnginesAreTheUnion(HitsOf(b), j);
  }
}
