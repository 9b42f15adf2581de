/** The course of a chat turn as a function of what the providers' answers amount to: how many requests
    it makes, and whether it ends. The loop itself is the subject of ToolLoop. */
module TurnCourse {

  datatype Provider = Provider(name: string, hasKey: bool)

  /** An answer ends the turn, asks for read-only tools only, asks for a gated one, or makes the turn turn
      to the next provider. */
  datatype Kind = EndsTurn | CallsSafe | CallsGated | Unavailable

  /** What whichever provider is asked next answers, by whether it was offered tools. */
  datatype Kinds = Kinds(withTools: Kind, withoutTools: Kind)

  function KindFor(k: Kinds, offered: bool): Kind {
    if offered then k.withTools else k.withoutTools
  }

  /** `bare` counts the answers that asked for read-only tools although none were offered; `finished` is
      false when the turn would have asked again and there is no further answer. */
  datatype Course = Course(requests: nat, bare: nat, finished: bool)

  function CourseOf(offered: bool, provider: Provider, fallbacks: seq<Provider>, round: nat, maxRounds: int,
                    answers: seq<Kinds>): Course
    decreases |answers|, 0
  {
    if !provider.hasKey then Course(0, 0, true)
    else if answers == [] then Course(0, 0, false)
    else
      var c := CourseAfter(KindFor(answers[0], offered), offered, provider, fallbacks, round, maxRounds, answers[1..]);
      c.(requests := 1 + c.requests)
  }

  function CourseAfter(answer: Kind, offered: bool, provider: Provider, fallbacks: seq<Provider>, round: nat, maxRounds: int,
                       answers: seq<Kinds>): Course
    decreases |answers|, 1
  {
    match answer
    case CallsSafe =>
      var c := CourseOf(offered && round + 1 < maxRounds, provider, fallbacks, round + 1, maxRounds, answers);
      if offered then c else c.(bare := 1 + c.bare)
    case Unavailable =>
      if fallbacks == [] then Course(0, 0, true)
      else CourseOf(offered, fallbacks[0], fallbacks[1..], round, maxRounds, answers)
    case _ => Course(0, 0, true)
  }

  // ---- the bound ----

  /** Requests that may still offer tools after this one calls some. */
  function RoundsLeft(round: nat, maxRounds: int): nat {
    if maxRounds - round >= 1 then maxRounds - round else 1
  }

  function Budget(offered: bool, fallbacks: nat, round: nat, maxRounds: int): nat {
    1 + fallbacks + if offered then RoundsLeft(round, maxRounds) else 0
  }

  /** One request, one per fallback, one per round left, and one for every answer that called tools
      although none were offered. A turn that has not ended has used up the answers. */
  lemma {:induction false} BudgetHolds(offered: bool, provider: Provider, fallbacks: seq<Provider>, round: nat, maxRounds: int,
                                       answers: seq<Kinds>)
    ensures var c := CourseOf(offered, provider, fallbacks, round, maxRounds, answers);
      && c.requests <= Budget(offered, |fallbacks|, round, maxRounds) + c.bare
      && c.requests <= |answers|
      && (c.finished || c.requests == |answers|)
    decreases |answers|
  {
    if !provider.hasKey || answers == [] {
    } else {
      var answer := KindFor(answers[0], offered);
      if answer.CallsSafe? {
        BudgetHolds(offered && round + 1 < maxRounds, provider, fallbacks, round + 1, maxRounds, answers[1..]);
      } else if answer.Unavailable? && fallbacks != [] {
        BudgetHolds(offered, fallbacks[0], fallbacks[1..], round, maxRounds, answers[1..]);
      }
    }
  }

  /** Providers that call no tools when none are offered. */
  predicate Quiet(answers: seq<Kinds>) {
    forall k | 0 <= k < |answers| :: !answers[k].withoutTools.CallsSafe?
  }

  /** Quiet providers add nothing to the bound. */
  lemma {:induction false} QuietProvidersAddNothing(offered: bool, provider: Provider, fallbacks: seq<Provider>, round: nat,
                                                    maxRounds: int, answers: seq<Kinds>)
    requires Quiet(answers)
    ensures CourseOf(offered, provider, fallbacks, round, maxRounds, answers).bare == 0
    decreases |answers|
  {
    if !provider.hasKey || answers == [] {
    } else {
      var answer := KindFor(answers[0], offered);
      assert Quiet(answers[1..]) && !answers[0].withoutTools.CallsSafe?;
      if answer.CallsSafe? {
        QuietProvidersAddNothing(offered && round + 1 < maxRounds, provider, fallbacks, round + 1, maxRounds, answers[1..]);
      } else if answer.Unavailable? && fallbacks != [] {
        QuietProvidersAddNothing(offered, fallbacks[0], fallbacks[1..], round, maxRounds, answers[1..]);
      }
    }
  }

  // ---- the bound is met ----

  const LOOP := Kinds(CallsSafe, CallsSafe)
  const BUSY := Kinds(Unavailable, Unavailable)
  const SILENT := Kinds(EndsTurn, EndsTurn)

  function Repeat(n: nat, k: Kinds): (answers: seq<Kinds>)
    ensures |answers| == n
  {
    if n == 0 then [] else [k] + Repeat(n - 1, k)
  }

  lemma RepeatSplits(n: nat, k: Kinds, rest: seq<Kinds>)
    requires n > 0
    ensures (Repeat(n, k) + rest)[0] == k && (Repeat(n, k) + rest)[1..] == Repeat(n - 1, k) + rest
  {
  }

  predicate AllHaveKeys(providers: seq<Provider>) {
    forall i | 0 <= i < |providers| :: providers[i].hasKey
  }

  /** n answers that call read-only tools take n requests and n rounds, the last with tools offered
      exactly if a round is left. */
  lemma {:induction false} LoopsGoRound(n: nat, k: Kinds, offered: bool, provider: Provider, fallbacks: seq<Provider>, round: nat,
                                        maxRounds: int, rest: seq<Kinds>)
    requires provider.hasKey && (offered ==> round + n <= maxRounds)
    requires n == 0 || KindFor(k, offered).CallsSafe?
    ensures var d := CourseOf(offered && (n == 0 || round + n < maxRounds), provider, fallbacks, round + n, maxRounds, rest);
      CourseOf(offered, provider, fallbacks, round, maxRounds, Repeat(n, k) + rest)
      == Course(n + d.requests, d.bare + (if offered then 0 else n), d.finished)
  {
    if n == 0 {
      assert Repeat(n, k) + rest == rest;
    } else {
      RepeatSplits(n, k, rest);
      LoopsGoRound(n - 1, k, offered && round + 1 < maxRounds, provider, fallbacks, round + 1, maxRounds, rest);
    }
  }

  /** Every fallback is asked once when all are busy. */
  lemma {:induction false} FallbacksAreAsked(offered: bool, provider: Provider, fallbacks: seq<Provider>, round: nat, maxRounds: int)
    requires provider.hasKey && AllHaveKeys(fallbacks)
    ensures CourseOf(offered, provider, fallbacks, round, maxRounds, Repeat(|fallbacks|, BUSY) + [SILENT])
         == Course(1 + |fallbacks|, 0, true)
    decreases |fallbacks|
  {
    if fallbacks == [] {
      assert Repeat(0, BUSY) + [SILENT] == [SILENT];
    } else {
      RepeatSplits(|fallbacks|, BUSY, [SILENT]);
      FallbacksAreAsked(offered, fallbacks[0], fallbacks[1..], round, maxRounds);
    }
  }

  /** The bound is met for every number of rounds, fallbacks and unasked calls. */
  lemma BudgetIsMet(provider: Provider, fallbacks: seq<Provider>, maxRounds: nat, bare: nat) returns (answers: seq<Kinds>)
    requires provider.hasKey && AllHaveKeys(fallbacks) && maxRounds >= 1
    ensures CourseOf(true, provider, fallbacks, 0, maxRounds, answers)
         == Course(Budget(true, |fallbacks|, 0, maxRounds) + bare, bare, true)
  {
    var tail := Repeat(|fallbacks|, BUSY) + [SILENT];
    var middle := Repeat(bare, LOOP) + tail;
    answers := Repeat(maxRounds, LOOP) + middle;
    LoopsGoRound(maxRounds, LOOP, true, provider, fallbacks, 0, maxRounds, middle);
    LoopsGoRound(bare, LOOP, false, provider, fallbacks, maxRounds, maxRounds, tail);
    FallbacksAreAsked(false, provider, fallbacks, maxRounds + bare, maxRounds);
  }

  // ---- when exactly the budget holds ----

  predicate FromPool(answers: seq<Kinds>, pool: set<Kinds>) {
    forall k | 0 <= k < |answers| :: answers[k] in pool
  }

  /** Some answer of the pool calls read-only tools when tools are offered, or although none are. */
  predicate CallsWhenOffered(pool: set<Kinds>) {
    exists k | k in pool :: k.withTools.CallsSafe?
  }

  predicate CallsUnasked(pool: set<Kinds>) {
    exists k | k in pool :: k.withoutTools.CallsSafe?
  }

  /** While no answer calls read-only tools the turn only goes from one provider to the next. */
  lemma {:induction false} NoCallNoRound(provider: Provider, fallbacks: seq<Provider>, round: nat, maxRounds: int,
                                         answers: seq<Kinds>, pool: set<Kinds>)
    requires FromPool(answers, pool) && !CallsWhenOffered(pool)
    ensures CourseOf(true, provider, fallbacks, round, maxRounds, answers).requests <= 1 + |fallbacks|
    decreases |answers|
  {
    if !provider.hasKey || answers == [] {
    } else if answers[0].withTools.Unavailable? && fallbacks != [] {
      NoCallNoRound(fallbacks[0], fallbacks[1..], round, maxRounds, answers[1..], pool);
    } else {
      assert answers[0] in pool;
    }
  }

  lemma RepeatIsFromPool(n: nat, k: Kinds, rest: seq<Kinds>, pool: set<Kinds>)
    requires k in pool && FromPool(rest, pool)
    ensures FromPool(Repeat(n, k) + rest, pool)
  {
    if n == 0 {
      assert Repeat(n, k) + rest == rest;
    } else {
      RepeatSplits(n, k, rest);
      RepeatIsFromPool(n - 1, k, rest, pool);
      assert Repeat(n, k) + rest == [k] + (Repeat(n - 1, k) + rest);
    }
  }

  /** A pool with both kinds of calls allows any number of requests: n of them, and the turn would ask again. */
  lemma EndlessScripts(provider: Provider, fallbacks: seq<Provider>, maxRounds: nat, n: nat, pool: set<Kinds>)
    returns (answers: seq<Kinds>)
    requires provider.hasKey && 1 <= maxRounds <= n && CallsWhenOffered(pool) && CallsUnasked(pool)
    ensures FromPool(answers, pool)
    ensures CourseOf(true, provider, fallbacks, 0, maxRounds, answers) == Course(n, n - maxRounds, false)
  {
    var a :| a in pool && a.withTools.CallsSafe?;
    var b :| b in pool && b.withoutTools.CallsSafe?;
    var rest := Repeat(n - maxRounds, b) + [];
    answers := Repeat(maxRounds, a) + rest;
    RepeatIsFromPool(n - maxRounds, b, [], pool);
    RepeatIsFromPool(maxRounds, a, rest, pool);
    LoopsGoRound(maxRounds, a, true, provider, fallbacks, 0, maxRounds, rest);
    LoopsGoRound(n - maxRounds, b, false, provider, fallbacks, maxRounds, maxRounds, []);
  }

  /** A pool without one of the two kinds of calls keeps every turn within the budget. */
  lemma WithinBudget(provider: Provider, fallbacks: seq<Provider>, maxRounds: nat, answers: seq<Kinds>, pool: set<Kinds>)
    requires maxRounds >= 1 && FromPool(answers, pool) && !(CallsWhenOffered(pool) && CallsUnasked(pool))
    ensures CourseOf(true, provider, fallbacks, 0, maxRounds, answers).requests <= 1 + maxRounds + |fallbacks|
  {
    if !CallsWhenOffered(pool) {
      NoCallNoRound(provider, fallbacks, 0, maxRounds, answers, pool);
    } else {
      assert Quiet(answers);
      BudgetHolds(true, provider, fallbacks, 0, maxRounds, answers);
      QuietProvidersAddNothing(true, provider, fallbacks, 0, maxRounds, answers);
    }
  }

  ghost predicate Bounds(bound: nat, provider: Provider, fallbacks: seq<Provider>, maxRounds: nat, pool: set<Kinds>) {
    forall answers: seq<Kinds> | FromPool(answers, pool) ::
      CourseOf(true, provider, fallbacks, 0, maxRounds, answers).requests <= bound
  }

  /** For any set of possible answers: every turn keeps to one request, one per round and one per fallback,
      exactly unless some answer calls read-only tools when offered and some answer calls them although
      none are offered. */
  lemma BudgetHoldsExactlyUnless(provider: Provider, fallbacks: seq<Provider>, maxRounds: nat, pool: set<Kinds>)
    requires provider.hasKey && maxRounds >= 1
    ensures Bounds(1 + maxRounds + |fallbacks|, provider, fallbacks, maxRounds, pool)
       <==> !(CallsWhenOffered(pool) && CallsUnasked(pool))
  {
    if CallsWhenOffered(pool) && CallsUnasked(pool) {
      var answers := EndlessScripts(provider, fallbacks, maxRounds, maxRounds + |fallbacks| + 2, pool);
      assert FromPool(answers, pool);
    } else {
      forall answers: seq<Kinds> | FromPool(answers, pool)
        ensures CourseOf(true, provider, fallbacks, 0, maxRounds, answers).requests <= 1 + maxRounds + |fallbacks|
      {
        WithinBudget(provider, fallbacks, maxRounds, answers, pool);
      }
    }
  }

  /** A pool with both kinds of calls leaves no bound at all; any other pool has one. */
  lemma BoundedExactlyUnless(provider: Provider, fallbacks: seq<Provider>, maxRounds: nat, pool: set<Kinds>)
    requires provider.hasKey && maxRounds >= 1
    ensures (exists bound: nat :: Bounds(bound, provider, fallbacks, maxRounds, pool))
       <==> !(CallsWhenOffered(pool) && CallsUnasked(pool))
  {
    if CallsWhenOffered(pool) && CallsUnasked(pool) {
      forall bound: nat ensures !Bounds(bound, provider, fallbacks, maxRounds, pool) {
        var answers := EndlessScripts(provider, fallbacks, maxRounds, maxRounds + bound + 1, pool);
        assert FromPool(answers, pool);
      }
    } else {
      BudgetHoldsExactlyUnless(provider, fallbacks, maxRounds, pool);
      assert Bounds(1 + maxRounds + |fallbacks|, provider, fallbacks, maxRounds, pool);
    }
  }
}
