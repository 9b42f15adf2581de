/** Choosing instances for a search: scored selection with a politeness gap, and the health record
    that probes and failed queries keep. */
module InstancePool {
  import opened Prelude

  const DEMOTED_AT := 3

  /** What the pool knows of an instance. A `lastUsed` of None is the zero time, further back than any gap. */
  datatype Record = Record(healthy: bool, jsonOK: bool, latencyMs: int, fails: int, lastUsed: Option<int>, inFlight: int)

  /** A probe fails or answers after so many milliseconds. */
  datatype Outcome = Failed | Answered(latencyMs: int)

  predicate Eligible(r: Record, now: int, gap: int) {
    r.healthy && r.jsonOK && (r.lastUsed.None? || now - r.lastUsed.value >= gap)
  }

  /** Lower is better. */
  function Score(r: Record): int {
    r.latencyMs + r.fails * 500 + r.inFlight * 2000
  }

  /** A slower, more failed or busier record scores higher, whatever else; a failure weighs as much as half a
      second, a running query as two. */
  lemma ScoreWeighs(r: Record, ms: nat, fails: nat, queries: nat)
    ensures ms > 0 ==> Score(r.(latencyMs := r.latencyMs + ms)) > Score(r)
    ensures fails > 0 ==> Score(r.(fails := r.fails + fails)) > Score(r)
    ensures queries > 0 ==> Score(r.(inFlight := r.inFlight + queries)) > Score(r)
    ensures Score(r.(fails := r.fails + fails)) == Score(r.(latencyMs := r.latencyMs + 500 * fails))
    ensures Score(r.(inFlight := r.inFlight + queries)) == Score(r.(fails := r.fails + 4 * queries))
    ensures Score(Record(r.healthy, r.jsonOK, ms, 0, r.lastUsed, 0)) == ms
  {
  }

  function AfterProbe(r: Record, outcome: Outcome): Record {
    match outcome
    case Failed => r.(healthy := false, jsonOK := false, fails := r.fails + 1)
    case Answered(ms) =>
      r.(healthy := true, jsonOK := true, latencyMs := ms, fails := if r.fails > 0 then r.fails - 1 else r.fails)
  }

  function AfterFailure(r: Record): Record {
    r.(fails := r.fails + 1, healthy := r.healthy && r.fails + 1 < DEMOTED_AT)
  }

  // ---- what probes and failures add up to ----

  function Failing(r: Record, n: nat): Record {
    if n == 0 then r else AfterFailure(Failing(r, n - 1))
  }

  /** n failed queries count n failures, demote exactly if that makes three, and touch nothing else. */
  lemma {:induction false} FailuresAddUp(r: Record, n: nat)
    ensures Failing(r, n) == r.(fails := r.fails + n, healthy := r.healthy && (n == 0 || r.fails + n < 3))
  {
    if n == 0 {
    } else {
      FailuresAddUp(r, n - 1);
    }
  }

  function Probed(r: Record, outcomes: seq<Outcome>): Record {
    if outcomes == [] then r else AfterProbe(Probed(r, outcomes[..|outcomes| - 1]), outcomes[|outcomes| - 1])
  }

  /** After any probes: the instance is fit exactly if the last one was answered, and its latency is that of the
      last answer; when it was used and how busy it is are no concern of probes. */
  lemma {:induction false} ProbesAddUp(r: Record, outcomes: seq<Outcome>)
    requires outcomes != []
    ensures var p, last := Probed(r, outcomes), outcomes[|outcomes| - 1];
      && (p.healthy <==> last.Answered?) && (p.jsonOK <==> last.Answered?)
      && (last.Answered? ==> p.latencyMs == last.latencyMs)
      && p.lastUsed == r.lastUsed && p.inFlight == r.inFlight
  {
    if |outcomes| == 1 {
      assert outcomes[..0] == [];
    } else {
      ProbesAddUp(r, outcomes[..|outcomes| - 1]);
    }
  }

  /** Answered probes forgive one failure each, down to none. */
  lemma {:induction false} AnswersForgive(r: Record, outcomes: seq<Outcome>)
    requires r.fails >= 0 && forall k | 0 <= k < |outcomes| :: outcomes[k].Answered?
    ensures Probed(r, outcomes).fails == if |outcomes| <= r.fails then r.fails - |outcomes| else 0
  {
    if outcomes == [] {
    } else {
      AnswersForgive(r, outcomes[..|outcomes| - 1]);
    }
  }

  /** Failed ones add one each. */
  lemma {:induction false} FailedProbesCount(r: Record, outcomes: seq<Outcome>)
    requires forall k | 0 <= k < |outcomes| :: outcomes[k].Failed?
    ensures Probed(r, outcomes).fails == r.fails + |outcomes| && Probed(r, outcomes).latencyMs == r.latencyMs
  {
    if outcomes == [] {
    } else {
      FailedProbesCount(r, outcomes[..|outcomes| - 1]);
    }
  }

  class Instance {
    const url: string
    var healthy: bool
    var jsonOK: bool
    var latencyMs: int
    var fails: int
    var lastUsed: Option<int>
    var inFlight: int

    function Snap(): Record
      reads this
    {
      Record(healthy, jsonOK, latencyMs, fails, lastUsed, inFlight)
    }

    /** The outcome of a health probe. */
    method RecordProbe(outcome: Outcome)
      modifies this
      ensures Snap() == AfterProbe(old(Snap()), outcome)
    {
      if outcome.Failed? {
        healthy := false;
        jsonOK := false;
        fails := fails + 1;
      } else {
        healthy := true;
        jsonOK := true;
        latencyMs := outcome.latencyMs;
        if fails > 0 {
          fails := fails - 1;
        }
      }
    }

    /** A query of a search failed; at the third failure on record the instance is demoted. */
    method RecordFailure()
      modifies this
      ensures Snap() == AfterFailure(old(Snap()))
    {
      fails := fails + 1;
      if fails >= DEMOTED_AT {
        healthy := false;
      }
    }
  }

  // ---- what a pick promises ----

  /** The eligible positions, in pool order. */
  function Eligibles(rs: seq<Record>, now: int, gap: int): seq<nat> {
    if rs == [] then []
    else
      var n := |rs| - 1;
      Eligibles(rs[..n], now, gap) + if Eligible(rs[n], now, gap) then [n] else []
  }

  lemma {:induction false} EligiblesFacts(rs: seq<Record>, now: int, gap: int)
    ensures Distinct(Eligibles(rs, now, gap))
    ensures forall i: nat :: i in Eligibles(rs, now, gap) <==> i < |rs| && Eligible(rs[i], now, gap)
  {
    if rs == [] {
    } else {
      var n := |rs| - 1;
      EligiblesFacts(rs[..n], now, gap);
      assert forall i | 0 <= i < n :: rs[..n][i] == rs[i];
      assert n !in Eligibles(rs[..n], now, gap);
    }
  }

  predicate InRange(size: nat, picks: seq<nat>) {
    forall k | 0 <= k < |picks| :: picks[k] < size
  }

  predicate Ascending(rs: seq<Record>, picks: seq<nat>)
    requires InRange(|rs|, picks)
  {
    forall j, k | 0 <= j < k < |picks| :: Score(rs[picks[j]]) <= Score(rs[picks[k]])
  }

  function Min(a: nat, b: nat): nat {
    if a <= b then a else b
  }

  /** `picks` are min(n, eligible) different eligible instances, best first, and none of them scores
      above an eligible one that was left out. */
  ghost predicate BestOf(rs: seq<Record>, n: nat, now: int, gap: int, picks: seq<nat>) {
    && InRange(|rs|, picks) && Distinct(picks)
    && |picks| == Min(n, |Eligibles(rs, now, gap)|)
    && (forall i | i in picks :: Eligible(rs[i], now, gap))
    && Ascending(rs, picks)
    && forall i, e: nat | i in picks && e < |rs| && Eligible(rs[e], now, gap) && e !in picks :: Score(rs[i]) <= Score(rs[e])
  }

  /** In terms of the records: everything picked is healthy, speaks JSON and has rested for the gap, and
      anything left out that is and has does not beat it; fewer than n are picked only if no more are fit. */
  lemma PicksAreFit(rs: seq<Record>, n: nat, now: int, gap: int, picks: seq<nat>, e: nat)
    requires BestOf(rs, n, now, gap, picks) && e < |rs|
    ensures e in picks ==> rs[e].healthy && rs[e].jsonOK && (rs[e].lastUsed.None? || rs[e].lastUsed.value + gap <= now)
    ensures e !in picks && rs[e].healthy && rs[e].jsonOK && (rs[e].lastUsed.None? || rs[e].lastUsed.value + gap <= now) ==>
              |picks| == n && forall i | i in picks :: Score(rs[i]) <= Score(rs[e])
  {
    EligiblesFacts(rs, now, gap);
    if e !in picks && Eligible(rs[e], now, gap) && |picks| < n {
      OneLeftOut(picks, Eligibles(rs, now, gap), e);
    }
  }

  ghost function Members(a: seq<nat>): set<nat> {
    set i | i in a
  }

  /** A list of different members of another that misses one of them is shorter. */
  lemma OneLeftOut(a: seq<nat>, b: seq<nat>, e: nat)
    requires Distinct(a) && Distinct(b) && (forall i | i in a :: i in b) && e in b && e !in a
    ensures |a| < |b|
  {
    DistinctCount(a);
    DistinctCount(b);
    var rest := Members(b) - Members(a) - {e};
    assert Members(b) == Members(a) + {e} + rest;
  }

  lemma {:induction false} DistinctCount(a: seq<nat>)
    requires Distinct(a)
    ensures |Members(a)| == |a|
  {
    if a == [] {
    } else {
      var init, last := a[..|a| - 1], a[|a| - 1];
      DistinctCount(init);
      assert a == init + [last] && last !in init;
      assert Members(a) == Members(init) + {last};
    }
  }

  /** Picking stamps the instances picked and touches nothing else. */
  ghost predicate Stamped(rs: seq<Record>, rs': seq<Record>, now: int, picks: seq<nat>) {
    && |rs'| == |rs|
    && forall i: nat | i < |rs| :: rs'[i] == if i in picks then rs[i].(lastUsed := Some(now)) else rs[i]
  }

  class Pool {
    const gap: int
    var instances: seq<Instance>

    /** Instances are different objects. */
    ghost predicate Valid()
      reads this
    {
      Distinct(instances)
    }

    function View(): (rs: seq<Record>)
      reads this, instances
      ensures |rs| == |instances|
      ensures forall i | 0 <= i < |rs| :: rs[i] == instances[i].Snap()
    {
      ViewOf(instances)
    }

    /** The eligible instances, in pool order, as positions. */
    method Candidates(now: int) returns (cands: seq<nat>)
      ensures cands == Eligibles(View(), now, gap)
    {
      cands := [];
      ghost var rs := View();
      for i := 0 to |instances|
        invariant cands == Eligibles(rs[..i], now, gap)
      {
        assert rs[..i + 1][..i] == rs[..i];
        if Eligible(instances[i].Snap(), now, gap) {
          cands := cands + [i];
        }
      }
      assert rs[..|instances|] == rs;
    }

    /** Any ordering by score will do: equal scores may come out either way round. */
    method SortByScore(cands: seq<nat>) returns (sorted: seq<nat>)
      requires InRange(|instances|, cands)
      ensures multiset(sorted) == multiset(cands) && InRange(|instances|, sorted) && Ascending(View(), sorted)
    {
      sorted := [];
      for n := 0 to |cands|
        invariant multiset(sorted) == multiset(cands[..n])
        invariant InRange(|instances|, sorted) && Ascending(View(), sorted)
      {
        var c := cands[n];
        var k := Place(sorted, c);
        Inserted(View(), sorted, k, c);
        assert cands[..n + 1] == cands[..n] + [c];
        sorted := sorted[..k] + [c] + sorted[k..];
      }
      assert cands[..|cands|] == cands;
    }

    /** Where c belongs in a sorted list: after everything that scores no higher. */
    method Place(sorted: seq<nat>, c: nat) returns (k: nat)
      requires c < |instances| && InRange(|instances|, sorted) && Ascending(View(), sorted)
      ensures k <= |sorted|
      ensures forall j | 0 <= j < k :: Score(View()[sorted[j]]) <= Score(View()[c])
      ensures forall j | k <= j < |sorted| :: Score(View()[c]) <= Score(View()[sorted[j]])
    {
      k := 0;
      while k < |sorted| && Score(instances[sorted[k]].Snap()) <= Score(instances[c].Snap())
        invariant k <= |sorted|
        invariant forall j | 0 <= j < k :: Score(View()[sorted[j]]) <= Score(View()[c])
      {
        k := k + 1;
      }
    }

    method Pick(n: nat, now: int) returns (out: seq<Instance>, ghost picks: seq<nat>)
      requires Valid()
      modifies instances`lastUsed
      ensures BestOf(old(View()), n, now, gap, picks)
      ensures Stamped(old(View()), View(), now, picks)
      ensures |out| == |picks| && InRange(|instances|, picks) && forall k | 0 <= k < |out| :: out[k] == instances[picks[k]]
    {
      var sorted := Ranked(n, now);
      picks := sorted[..Min(n, |sorted|)];
      out := Take(sorted, n, now);
    }

    /** The eligible instances, best first. */
    method Ranked(ghost n: nat, now: int) returns (sorted: seq<nat>)
      ensures InRange(|instances|, sorted) && BestOf(View(), n, now, gap, sorted[..Min(n, |sorted|)])
    {
      ghost var rs := View();
      var cands := Candidates(now);
      EligiblesFacts(rs, now, gap);
      assert forall k | 0 <= k < |cands| :: cands[k] in Eligibles(rs, now, gap);
      sorted := SortByScore(cands);
      TakeTheBest(rs, n, now, gap, sorted);
    }

    /** Stamp and hand out the first n of the sorted candidates. */
    method Take(sorted: seq<nat>, n: nat, now: int) returns (out: seq<Instance>)
      requires Valid() && InRange(|instances|, sorted)
      modifies instances`lastUsed
      ensures |out| == Min(n, |sorted|) && forall k | 0 <= k < |out| :: out[k] == instances[sorted[k]]
      ensures Stamped(old(View()), View(), now, sorted[..|out|])
    {
      out := [];
      var k := 0;
      ghost var stamped: set<nat> := {};
      while k < |sorted| && |out| < n
        invariant k == |out| <= Min(n, |sorted|)
        invariant forall j | 0 <= j < k :: out[j] == instances[sorted[j]]
        invariant stamped == Elements(sorted[..k])
        invariant forall i: nat | i < |instances| ::
          instances[i].lastUsed == if i in stamped then Some(now) else old(instances[i].lastUsed)
      {
        var c := instances[sorted[k]];
        c.lastUsed := Some(now);
        out := out + [c];
        ElementsSnoc(sorted, k);
        stamped := stamped + {sorted[k]};
        k := k + 1;
      }
      StampedIfTaken(old(View()), View(), now, sorted[..k]);
    }
  }

  lemma StampedIfTaken(rs: seq<Record>, rs': seq<Record>, now: int, picks: seq<nat>)
    requires |rs'| == |rs|
    requires forall i: nat | i < |rs| ::
      rs'[i] == rs[i].(lastUsed := if i in Elements(picks) then Some(now) else rs[i].lastUsed)
    ensures Stamped(rs, rs', now, picks)
  {
  }

  ghost function Elements(s: seq<nat>): set<nat> {
    set i | i in s
  }

  lemma ElementsSnoc(s: seq<nat>, k: nat)
    requires k < |s|
    ensures Elements(s[..k + 1]) == Elements(s[..k]) + {s[k]}
  {
    assert s[..k + 1] == s[..k] + [s[k]];
  }

  lemma Inserted(rs: seq<Record>, sorted: seq<nat>, k: nat, c: nat)
    requires c < |rs| && InRange(|rs|, sorted) && Ascending(rs, sorted) && k <= |sorted|
    requires forall j | 0 <= j < k :: Score(rs[sorted[j]]) <= Score(rs[c])
    requires forall j | k <= j < |sorted| :: Score(rs[c]) <= Score(rs[sorted[j]])
    ensures var now := sorted[..k] + [c] + sorted[k..];
      InRange(|rs|, now) && Ascending(rs, now) && multiset(now) == multiset(sorted) + multiset{c}
  {
    var now := sorted[..k] + [c] + sorted[k..];
    assert forall j | 0 <= j < |now| :: now[j] == if j < k then sorted[j] else if j == k then c else sorted[j - 1];
    SameContents(sorted, k, c);
  }

  lemma SameContents(s: seq<nat>, k: nat, c: nat)
    requires k <= |s|
    ensures multiset(s[..k] + [c] + s[k..]) == multiset(s) + multiset{c}
  {
    assert s == s[..k] + s[k..];
  }

  function ViewOf(instances: seq<Instance>): (rs: seq<Record>)
    reads instances
    ensures |rs| == |instances|
    ensures forall i | 0 <= i < |rs| :: rs[i] == instances[i].Snap()
  {
    if instances == [] then []
    else
      var n := |instances| - 1;
      ViewOf(instances[..n]) + [instances[n].Snap()]
  }

  lemma TakeTheBest(rs: seq<Record>, n: nat, now: int, gap: int, sorted: seq<nat>)
    requires InRange(|rs|, sorted) && Ascending(rs, sorted)
    requires multiset(sorted) == multiset(Eligibles(rs, now, gap))
    ensures BestOf(rs, n, now, gap, sorted[..Min(n, |sorted|)])
  {
    var all := Eligibles(rs, now, gap);
    var picks := sorted[..Min(n, |sorted|)];
    EligiblesFacts(rs, now, gap);
    assert |sorted| == |multiset(sorted)| == |multiset(all)| == |all|;
    forall i ensures i in sorted <==> i in all {
      assert i in sorted <==> i in multiset(sorted);
      assert i in all <==> i in multiset(all);
    }
    forall i, j | 0 <= i < j < |sorted| ensures sorted[i] != sorted[j] {
      PermutationKeepsDistinct(all, sorted, i, j);
    }
    forall i, e: nat | i in picks && e < |rs| && Eligible(rs[e], now, gap) && e !in picks ensures Score(rs[i]) <= Score(rs[e]) {
      assert e in all;
      var j: nat :| j < |picks| && picks[j] == i;
      var k: nat :| k < |sorted| && sorted[k] == e;
    }
  }

  lemma PermutationKeepsDistinct(all: seq<nat>, sorted: seq<nat>, i: nat, j: nat)
    requires Distinct(all) && multiset(sorted) == multiset(all) && i < j < |sorted|
    ensures sorted[i] != sorted[j]
  {
    if sorted[i] == sorted[j] {
      Once(all, sorted[i]);
      Twice(sorted, i, j);
    }
  }

  lemma Twice(s: seq<nat>, i: nat, j: nat)
    requires i < j < |s| && s[i] == s[j]
    ensures multiset(s)[s[i]] >= 2
  {
    assert s == s[..j] + [s[j]] + s[j + 1..];
    assert s[..j][i] == s[i];
  }

  lemma {:induction false} Once(s: seq<nat>, x: nat)
    requires Distinct(s)
    ensures multiset(s)[x] <= 1
  {
    if s == [] {
    } else {
      var n := |s| - 1;
      Once(s[..n], x);
      assert s == s[..n] + [s[n]];
      if s[n] == x {
        assert x !in s[..n];
      }
    }
  }

  // ---- runs ----

  /** What happens to the pool between two picks, and the picks themselves. */
  datatype Event = Picked(n: nat, now: int, picks: seq<nat>) | Probed(i: nat, outcome: Outcome) | QueryFailed(i: nat)
                 | Flight(i: nat, change: int)

  ghost predicate Happens(rs: seq<Record>, e: Event, rs': seq<Record>, gap: int) {
    match e
    case Picked(n, now, picks) => BestOf(rs, n, now, gap, picks) && Stamped(rs, rs', now, picks)
    case Probed(i, outcome) => i < |rs| && rs' == rs[i := AfterProbe(rs[i], outcome)]
    case QueryFailed(i) => i < |rs| && rs' == rs[i := AfterFailure(rs[i])]
    case Flight(i, change) => i < |rs| && rs' == rs[i := rs[i].(inFlight := rs[i].inFlight + change)]
  }

  ghost predicate IsRun(run: seq<seq<Record>>, events: seq<Event>, gap: int) {
    && |run| == |events| + 1
    && (forall n | 0 <= n < |events| :: Happens(run[n], events[n], run[n + 1], gap))
    && forall n, m | 0 <= n < m < |events| && events[n].Picked? && events[m].Picked? :: events[n].now <= events[m].now
  }

  predicate Picks(e: Event, i: nat) {
    e.Picked? && i in e.picks
  }

  lemma {:induction false} StampIsKept(run: seq<seq<Record>>, events: seq<Event>, gap: int, i: nat, n: nat, m: nat)
    requires IsRun(run, events, gap) && n < m <= |events| && Picks(events[n], i)
    ensures i < |run[m]| && run[m][i].lastUsed.Some? && run[m][i].lastUsed.value >= events[n].now
  {
    assert Happens(run[m - 1], events[m - 1], run[m], gap);
    if m > n + 1 {
      StampIsKept(run, events, gap, i, n, m - 1);
    }
  }

  /** The politeness gap: between two picks of one instance at least `gap` has passed, whatever
      probes, failures and queries happen in between. */
  lemma PicksAreSpaced(run: seq<seq<Record>>, events: seq<Event>, gap: int, i: nat, n: nat, m: nat)
    requires IsRun(run, events, gap) && n < m < |events| && Picks(events[n], i) && Picks(events[m], i)
    ensures events[m].now - events[n].now >= gap
  {
    StampIsKept(run, events, gap, i, n, m);
    assert Happens(run[m], events[m], run[m + 1], gap);
  }

  /** An instance demoted by its third failure is not picked until a probe finds it well. */
  lemma {:induction false} DemotedStaysOut(run: seq<seq<Record>>, events: seq<Event>, gap: int, i: nat, n: nat, m: nat)
    requires IsRun(run, events, gap) && n < m <= |events|
    requires events[n] == QueryFailed(i) && i < |run[n]| && run[n][i].fails + 1 >= DEMOTED_AT
    requires forall k | n < k < m :: !(events[k].Probed? && events[k].i == i && events[k].outcome.Answered?)
    ensures i < |run[m]| && !run[m][i].healthy
    ensures m < |events| ==> !Picks(events[m], i)
  {
    assert Happens(run[m - 1], events[m - 1], run[m], gap);
    if m > n + 1 {
      DemotedStaysOut(run, events, gap, i, n, m - 1);
    }
    if m < |events| {
      assert Happens(run[m], events[m], run[m + 1], gap);
    }
  }
}
