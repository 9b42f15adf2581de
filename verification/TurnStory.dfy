/** What a reader of a turn's requests sees: who was asked, with which messages, and why. */
module TurnStory {
  import opened ToolAssembly
  import opened ToolLoop
  import opened TurnCourse

  ghost function KindAt(e: LoopEvent, r: Reply): Kind {
    if e.Requested? then KindOf(AnswerOf(r, e.offered)) else EndsTurn
  }

  ghost function CallsAt(e: LoopEvent, r: Reply): seq<Call> {
    if e.Requested? then HeardCalls(AnswerOf(r, e.offered)) else []
  }

  ghost predicate IsAt(e: LoopEvent, t: Turn) {
    e == Requested(t.provider, t.messages, t.offered)
  }

  lemma FirstOf(reqs: seq<LoopEvent>, t: Turn, script: seq<Reply>, x: Setting)
    requires Story(reqs, t, script, x) && reqs != []
    ensures script != [] && IsAt(reqs[0], t)
  {
  }

  lemma NextStand(reqs: seq<LoopEvent>, t: Turn, script: seq<Reply>, x: Setting) returns (kind: Kind, calls: seq<Call>, t': Turn)
    requires Story(reqs, t, script, x) && |reqs| > 1
    ensures |script| > 1 && Story(reqs[1..], t', script[1..], x)
    ensures kind == KindAt(reqs[0], script[0]) && calls == CallsAt(reqs[0], script[0]) && LeadsTo(t, kind, calls, t', x)
  {
    kind, calls := KindAt(reqs[0], script[0]), CallsAt(reqs[0], script[0]);
    t' :| LeadsTo(t, kind, calls, t', x) && Story(reqs[1..], t', script[1..], x);
  }

  /** What the replies to the first n requests amounted to. */
  ghost function Heard(reqs: seq<LoopEvent>, script: seq<Reply>, n: nat): (kinds: seq<Kind>)
    requires n <= |reqs| && n <= |script|
    ensures |kinds| == n
  {
    if n == 0 then [] else Heard(reqs, script, n - 1) + [KindAt(reqs[n - 1], script[n - 1])]
  }

  /** How many of them are of this kind. */
  function Count(kind: Kind, kinds: seq<Kind>): nat {
    if kinds == [] then 0 else Count(kind, kinds[..|kinds| - 1]) + if kinds[|kinds| - 1] == kind then 1 else 0
  }

  lemma CountSnoc(kind: Kind, kinds: seq<Kind>, k: Kind)
    ensures Count(kind, kinds + [k]) == Count(kind, kinds) + if k == kind then 1 else 0
  {
    assert (kinds + [k])[..|kinds|] == kinds;
  }

  /** From t on there were so many rounds and failovers; tools stay on offer while a round is left. */
  ghost predicate Keeps(t: Turn, t': Turn, rounds: nat, failovers: nat, maxRounds: int) {
    && t'.round == t.round + rounds
    && failovers <= |t.fallbacks|
    && t'.provider == ([t.provider] + t.fallbacks)[failovers] && t'.fallbacks == t.fallbacks[failovers..]
    && (t'.offered <==> t.offered && (rounds == 0 || t'.round < maxRounds))
  }

  lemma KeepsOn(t: Turn, t1: Turn, kind: Kind, calls: seq<Call>, t2: Turn, rounds: nat, failovers: nat, x: Setting)
    requires Keeps(t, t1, rounds, failovers, x.maxRounds) && LeadsTo(t1, kind, calls, t2, x)
    ensures Keeps(t, t2, rounds + (if kind == CallsSafe then 1 else 0), failovers + (if kind == Unavailable then 1 else 0), x.maxRounds)
  {
    if kind == Unavailable {
      assert t1.fallbacks[0] == t.fallbacks[failovers] == ([t.provider] + t.fallbacks)[failovers + 1];
    }
  }

  ghost predicate KeepsCounted(t: Turn, t': Turn, kinds: seq<Kind>, maxRounds: int) {
    Keeps(t, t', Count(CallsSafe, kinds), Count(Unavailable, kinds), maxRounds)
  }

  lemma KeepsCountedOn(t: Turn, t1: Turn, kinds: seq<Kind>, kind: Kind, calls: seq<Call>, t2: Turn, x: Setting)
    requires KeepsCounted(t, t1, kinds, x.maxRounds) && LeadsTo(t1, kind, calls, t2, x)
    ensures KeepsCounted(t, t2, kinds + [kind], x.maxRounds)
  {
    CountSnoc(CallsSafe, kinds, kind);
    CountSnoc(Unavailable, kinds, kind);
    KeepsOn(t, t1, kind, calls, t2, Count(CallsSafe, kinds), Count(Unavailable, kinds), x);
  }

  /** Where the turn stands before its n-th request, and where it stood before the one before that. */
  lemma {:induction false} StandsAt(reqs: seq<LoopEvent>, t: Turn, script: seq<Reply>, x: Setting, n: nat)
    returns (before: Turn, now: Turn, kinds: seq<Kind>)
    requires Story(reqs, t, script, x) && n < |reqs|
    ensures n < |script| && kinds == Heard(reqs, script, n)
    ensures Story(reqs[n..], now, script[n..], x) && IsAt(reqs[n], now) && KeepsCounted(t, now, kinds, x.maxRounds)
    ensures n == 0 ==> now == t
    ensures n > 0 ==> IsAt(reqs[n - 1], before)
                      && LeadsTo(before, KindAt(reqs[n - 1], script[n - 1]), CallsAt(reqs[n - 1], script[n - 1]), now, x)
    decreases n
  {
    if n == 0 {
      assert reqs[0..] == reqs && script[0..] == script;
      before, now, kinds := t, t, [];
      FirstOf(reqs, t, script, x);
    } else {
      var kind, calls;
      before, now, kinds := StandsAt(reqs, t, script, x, n - 1);
      before := now;
      kind, calls, now := NextStand(reqs[n - 1..], before, script[n - 1..], x);
      assert reqs[n - 1..][1..] == reqs[n..] && script[n - 1..][1..] == script[n..];
      KeepsCountedOn(t, before, kinds, kind, calls, now, x);
      kinds := kinds + [kind];
      FirstOf(reqs[n..], now, script[n..], x);
    }
  }

  /** What request n carries beside the one before it, in a turn that started in this round. */
  ghost predicate Carries(reqs: seq<LoopEvent>, script: seq<Reply>, n: nat, round: nat, x: Setting)
    requires 0 < n < |reqs| && n < |script|
  {
    && reqs[n - 1].Requested? && reqs[n].Requested?
    && var reply, rounds := AnswerOf(script[n - 1], reqs[n - 1].offered), Count(CallsSafe, Heard(reqs, script, n));
    if KindOf(reply) == Unavailable then reqs[n].messages == reqs[n - 1].messages
    else
      && KindOf(reply) == CallsSafe
      && Continues(reqs[n - 1].messages, reqs[n].messages, HeardCalls(reply), round + rounds >= x.maxRounds, x.canon, x.log)
  }

  lemma LeadsToCarries(reqs: seq<LoopEvent>, script: seq<Reply>, n: nat, t: Turn, before: Turn, now: Turn, x: Setting)
    requires 0 < n < |reqs| && n < |script| && IsAt(reqs[n - 1], before) && IsAt(reqs[n], now)
    requires LeadsTo(before, KindAt(reqs[n - 1], script[n - 1]), CallsAt(reqs[n - 1], script[n - 1]), now, x)
    requires KeepsCounted(t, now, Heard(reqs, script, n), x.maxRounds)
    ensures Carries(reqs, script, n, t.round, x)
  {
  }

  /** In every turn, for every request: it goes to the provider reached by the failovers before it, with tools
      while a round is left. The first carries the turn's messages. A later one carries what the one before
      carried, if that one's provider was unavailable; otherwise the reply called read-only tools, and it
      carries those messages, then the calls, then their answers, then the notice exactly if the rounds are
      used up. */
  lemma EveryRequestFollows(reqs: seq<LoopEvent>, t: Turn, script: seq<Reply>, x: Setting, n: nat)
    requires Story(reqs, t, script, x) && n < |reqs|
    ensures n < |script| && reqs[n].Requested?
    ensures var rounds, failovers := Count(CallsSafe, Heard(reqs, script, n)), Count(Unavailable, Heard(reqs, script, n));
      && failovers <= |t.fallbacks| && reqs[n].provider == ([t.provider] + t.fallbacks)[failovers]
      && (reqs[n].offered <==> t.offered && (rounds == 0 || t.round + rounds < x.maxRounds))
    ensures n == 0 ==> reqs[0].messages == t.messages
    ensures n > 0 ==> Carries(reqs, script, n, t.round, x)
  {
    var before, now, kinds := StandsAt(reqs, t, script, x, n);
    if n > 0 {
      LeadsToCarries(reqs, script, n, t, before, now, x);
    }
  }

  lemma FirstDealtWith(reqs: seq<LoopEvent>, t: Turn, script: seq<Reply>, x: Setting)
    requires Story(reqs, t, script, x) && reqs != []
    ensures script != [] && reqs[0].Requested?
    ensures DealtWith(KindAt(reqs[0], script[0]), CallsAt(reqs[0], script[0]), x)
    ensures |reqs| > 1 ==> KindAt(reqs[0], script[0]) in {CallsSafe, Unavailable}
  {
  }

  /** In every turn, for every reply: its read-only calls have run in the turn; if it has gated calls the turn's
      proposals are exactly those, in order, and nothing was requested after it. */
  lemma EveryReplyDealtWith(reqs: seq<LoopEvent>, t: Turn, script: seq<Reply>, x: Setting, n: nat)
    requires Story(reqs, t, script, x) && n < |reqs|
    ensures n < |script| && reqs[n].Requested?
    ensures var kind, calls := KindAt(reqs[n], script[n]), CallsAt(reqs[n], script[n]);
      && (kind == CallsSafe || kind == CallsGated ==> forall k | 0 <= k < |SafeOf(calls)| :: HasRun(SafeOf(calls)[k], x))
      && (kind == CallsGated ==> ProposedSince(x.log, 0) == GatedOf(calls) && n == |reqs| - 1)
      && (kind == EndsTurn ==> n == |reqs| - 1)
  {
    var before, now, kinds := StandsAt(reqs, t, script, x, n);
    FirstDealtWith(reqs[n..], now, script[n..], x);
    assert reqs[n..][0] == reqs[n] && script[n..][0] == script[n];
  }
}
