/** One chat turn's tool loop: the model is asked, its tool calls are handled, and it is asked again. */
module ToolLoop {
  import opened IndexOrder
  import opened ToolAssembly
  import opened Transcript
  import opened Approvals
  import opened TurnCourse

  /** `finishesCalls` is finish_reason "tool_calls"; `Done` is the [DONE] line. */
  datatype Chunk = Fragments(deltas: seq<Delta>, finishesCalls: bool) | Done

  datatype End = Closed | NetworkFailure | OtherFailure

  /** A refused connection is an empty stream that ends in `NetworkFailure`. */
  datatype Response = RateLimited | ServerError | ClientError | Stream(chunks: seq<Chunk>, end: End)

  /** What whichever provider is asked next answers, by whether it was offered tools. */
  datatype Reply = Reply(withTools: Response, withoutTools: Response)

  datatype LoopEvent = Requested(provider: Provider, messages: seq<Message>, offered: bool)
                     | Ran(name: string, args: string, result: string)
                     | Reused(name: string, args: string, result: string)
                     | Proposed(id: string, row: Approval)

  const CAP_NOTE := Other("system", "maximum of tool-use rounds reached")

  // ---- reading the log ----

  function Init(log: seq<LoopEvent>): seq<LoopEvent>
    requires log != []
  {
    log[..|log| - 1]
  }

  function Last(log: seq<LoopEvent>): LoopEvent
    requires log != []
  {
    log[|log| - 1]
  }

  lemma Snoc(log: seq<LoopEvent>, e: LoopEvent)
    ensures log + [e] != [] && Init(log + [e]) == log && Last(log + [e]) == e
  {
  }

  function Requests(log: seq<LoopEvent>): nat {
    if log == [] then 0 else Requests(Init(log)) + (if Last(log).Requested? then 1 else 0)
  }

  function Signature(name: string, args: string): string {
    name + "|" + args
  }

  /** The results remembered after the log's runs. */
  function SeenOf(log: seq<LoopEvent>): map<string, string> {
    if log == [] then map[]
    else if Last(log).Ran? then SeenOf(Init(log))[Signature(Last(log).name, Last(log).args) := Last(log).result]
    else SeenOf(Init(log))
  }

  /** The approvals after the log's proposals. */
  function RowsAfter(rows: Rows, log: seq<LoopEvent>): Rows {
    if log == [] then rows
    else if Last(log).Proposed? then RowsAfter(rows, Init(log))[Last(log).id := Last(log).row]
    else RowsAfter(rows, Init(log))
  }

  /** Nothing waits for the user yet. */
  predicate Open(log: seq<LoopEvent>) {
    log == [] || !Last(log).Proposed?
  }

  /** Where a turn starts: the approvals, the tenant, and whether the client's transcript pairs up. */
  datatype Start = Start(rows: Rows, workspace: string, user: string, paired: bool)

  ghost predicate LegalEvent(s: Start, before: seq<LoopEvent>, e: LoopEvent) {
    match e
    case Requested(_, messages, _) =>
      Open(before) && (s.paired ==> WellFormed(messages))
    case Ran(name, args, _) =>
      Open(before) && name in SAFE_TOOLS && Signature(name, args) !in SeenOf(before)
    case Reused(name, args, result) =>
      var sig := Signature(name, args);
      Open(before) && name in SAFE_TOOLS && sig in SeenOf(before) && SeenOf(before)[sig] == result
    case Proposed(id, row) =>
      && id != "" && id !in RowsAfter(s.rows, before)
      && NeedsConfirmation(row.call.name)
      && row.workspace == s.workspace && row.user == s.user && row.status == Pending
  }

  ghost predicate Legal(s: Start, log: seq<LoopEvent>) {
    log == [] || (Legal(s, Init(log)) && LegalEvent(s, Init(log), Last(log)))
  }

  // ---- what a legal log guarantees ----

  lemma SafeNamesHaveNoBar(name: string)
    requires name in SAFE_TOOLS
    ensures '|' !in name
  {
  }

  lemma BarInside(n1: string, a1: string, n2: string, a2: string)
    requires |n1| < |n2| && Signature(n1, a1) == Signature(n2, a2)
    ensures n2[|n1|] == '|'
  {
    assert Signature(n1, a1)[|n1|] == '|';
    assert Signature(n2, a2)[|n1|] == n2[|n1|];
  }

  /** The memo key tells calls apart, because no read-only tool's name has a bar. */
  lemma SignatureInjective(n1: string, a1: string, n2: string, a2: string)
    requires n1 in SAFE_TOOLS && n2 in SAFE_TOOLS && Signature(n1, a1) == Signature(n2, a2)
    ensures n1 == n2 && a1 == a2
  {
    SafeNamesHaveNoBar(n1);
    SafeNamesHaveNoBar(n2);
    if |n1| < |n2| { BarInside(n1, a1, n2, a2); }
    if |n2| < |n1| { BarInside(n2, a2, n1, a1); }
    var s := Signature(n1, a1);
    assert s[..|n1|] == n1 && s[..|n2|] == n2;
    assert s[|n1| + 1..] == a1 && s[|n2| + 1..] == a2;
  }

  lemma {:induction false} SeenComesFromARun(s: Start, log: seq<LoopEvent>, sig: string) returns (k: nat)
    requires Legal(s, log) && sig in SeenOf(log)
    ensures k < |log| && log[k].Ran? && log[k].name in SAFE_TOOLS
    ensures Signature(log[k].name, log[k].args) == sig && SeenOf(log)[sig] == log[k].result
  {
    var e := Last(log);
    if e.Ran? && Signature(e.name, e.args) == sig {
      k := |log| - 1;
    } else {
      k := SeenComesFromARun(s, Init(log), sig);
    }
  }

  lemma {:induction false} RunsAreSeen(s: Start, log: seq<LoopEvent>, k: nat)
    requires Legal(s, log) && k < |log| && log[k].Ran?
    ensures Signature(log[k].name, log[k].args) in SeenOf(log)
    decreases |log|
  {
    if k == |log| - 1 {
    } else {
      RunsAreSeen(s, Init(log), k);
    }
  }

  /** A read-only call, by name and canonical arguments, runs at most once in a turn. */
  lemma {:induction false} RunsAtMostOnce(s: Start, log: seq<LoopEvent>, i: nat, j: nat)
    requires Legal(s, log) && i < j < |log| && log[i].Ran? && log[j].Ran?
    ensures log[i].name != log[j].name || log[i].args != log[j].args
    decreases |log|
  {
    if j < |log| - 1 {
      RunsAtMostOnce(s, Init(log), i, j);
    } else {
      RunsAreSeen(s, Init(log), i);
    }
  }

  /** A repeated call gets the result of the one earlier run of the same name and arguments. */
  lemma {:induction false} RepeatsGetTheFirstResult(s: Start, log: seq<LoopEvent>, j: nat) returns (i: nat)
    requires Legal(s, log) && j < |log| && log[j].Reused?
    ensures i < j && log[i].Ran?
    ensures log[i].name == log[j].name && log[i].args == log[j].args && log[i].result == log[j].result
    decreases |log|
  {
    if j < |log| - 1 {
      i := RepeatsGetTheFirstResult(s, Init(log), j);
    } else {
      i := SeenComesFromARun(s, Init(log), Signature(log[j].name, log[j].args));
      SignatureInjective(log[i].name, log[i].args, log[j].name, log[j].args);
    }
  }

  /** Only read-only tools run inline, and nothing is asked or run once a proposal is waiting. */
  lemma {:induction false} GateHolds(s: Start, log: seq<LoopEvent>, i: nat, j: nat)
    requires Legal(s, log) && i <= j < |log|
    ensures (log[j].Ran? || log[j].Reused?) ==> log[j].name in SAFE_TOOLS
    ensures log[j].Proposed? ==> log[j].row.call.name !in SAFE_TOOLS
    ensures log[i].Proposed? ==> log[j].Proposed?
    decreases |log|
  {
    if j < |log| - 1 {
      GateHolds(s, Init(log), i, j);
    } else if i < j {
      GateHolds(s, Init(log), i, j - 1);
    }
  }

  /** A turn only adds approvals: pending ones of its own tenant, each under a new id. */
  lemma {:induction false} ApprovalsOnlyAdded(s: Start, log: seq<LoopEvent>, id: string)
    requires Legal(s, log)
    ensures id in s.rows ==> id in RowsAfter(s.rows, log) && RowsAfter(s.rows, log)[id] == s.rows[id]
    ensures id in RowsAfter(s.rows, log) && id !in s.rows ==>
              exists k :: 0 <= k < |log| && log[k] == Proposed(id, RowsAfter(s.rows, log)[id])
                          && log[k].row.status == Pending && log[k].row.workspace == s.workspace && log[k].row.user == s.user
  {
    if log == [] {
    } else {
      ApprovalsOnlyAdded(s, Init(log), id);
      if id in RowsAfter(s.rows, log) && id !in s.rows {
        if Last(log).Proposed? && Last(log).id == id {
          assert log[|log| - 1] == Proposed(id, RowsAfter(s.rows, log)[id]);
        } else {
          var k :| 0 <= k < |Init(log)| && Init(log)[k] == Proposed(id, RowsAfter(s.rows, Init(log))[id]);
          assert log[k] == Init(log)[k];
        }
      }
    }
  }

  /** Every request of a turn that starts from a paired transcript carries a paired transcript. */
  lemma {:induction false} RequestsStayPaired(s: Start, log: seq<LoopEvent>, j: nat)
    requires Legal(s, log) && s.paired && j < |log| && log[j].Requested?
    ensures WellFormed(log[j].messages)
    decreases |log|
  {
    if j == |log| - 1 {
    } else {
      RequestsStayPaired(s, Init(log), j);
    }
  }

  // ---- provider behaviour ----

  /** What a reply amounts to for the course of the turn. */
  ghost function KindOf(r: Response): Kind {
    if CallsTools(r) then if NeedsNoConfirmation(CallsOf(r)) then CallsSafe else CallsGated
    else if FailsOver(r) then Unavailable
    else EndsTurn
  }

  /** The calls of a reply, if any. */
  ghost function HeardCalls(r: Response): seq<Call> {
    if CallsTools(r) then CallsOf(r) else []
  }

  ghost function KindsOf(script: seq<Reply>): (answers: seq<Kinds>)
    ensures |answers| == |script|
  {
    if script == [] then []
    else [Kinds(KindOf(script[0].withTools), KindOf(script[0].withoutTools))] + KindsOf(script[1..])
  }

  function AnswerOf(r: Reply, offered: bool): Response {
    if offered then r.withTools else r.withoutTools
  }

  predicate NeedsNoConfirmation(calls: seq<Call>) {
    forall k | 0 <= k < |calls| :: !NeedsConfirmation(calls[k].name)
  }

  lemma CourseStarts(offered: bool, provider: Provider, fallbacks: seq<Provider>, round: nat, maxRounds: int, script: seq<Reply>)
    requires provider.hasKey && script != []
    ensures var c := CourseAfter(KindOf(AnswerOf(script[0], offered)), offered, provider, fallbacks, round, maxRounds, KindsOf(script[1..]));
      CourseOf(offered, provider, fallbacks, round, maxRounds, KindsOf(script)) == c.(requests := 1 + c.requests)
  {
    var answers := KindsOf(script);
    assert answers[1..] == KindsOf(script[1..]);
    assert KindFor(answers[0], offered) == KindOf(AnswerOf(script[0], offered));
  }

  const LOOPING := Stream([Fragments([Delta(0, "c", Text("search_leads"), Absent)], true)], Closed)

  const GATED := Stream([Fragments([Delta(0, "c", Text("x"), Absent)], true)], Closed)

  lemma OneCall(name: string)
    requires name != ""
    ensures var r := Stream([Fragments([Delta(0, "c", Text(name), Absent)], true)], Closed);
      CallsTools(r) && CallsOf(r) == [Call("c", name, "{}")]
  {
    var ds := [Delta(0, "c", Text(name), Absent)];
    var r := Stream([Fragments(ds, true)], Closed);
    assert r.chunks[..1] == r.chunks && r.chunks[..1][..0] == [];
    assert DeltasOf(r.chunks[..1]) == DeltasOf([]) + ds == ds;
    SomethingAssembled(map[], ds);
    CallsOfAt(r, 0);
    OneCallAssembled(ds, name);
  }

  lemma OneCallAssembled(ds: seq<Delta>, name: string)
    requires ds == [Delta(0, "c", Text(name), Absent)]
    ensures Reassemble(Assemble(ds)) == [Call("c", name, "{}")]
  {
    assert ds[1..] == [];
    assert AssembleFrom(Step(map[], ds[0]), ds[1..]) == Step(map[], ds[0]);
    assert "" + name == name && "" + Piece(Absent) == "";
    assert Step(map[], ds[0])[0] == Call("c", name, "");
    assert Assemble(ds) == map[0 := Call("c", name, "")];
    assert Assemble(ds).Keys == {0};
    SortedUnique(SortedKeys({0}), [0]);
    assert Reassemble(Assemble(ds))[0] == Filled(Assemble(ds)[0]);
  }

  /** Every course can happen: whatever kinds of answers are asked for, some script gives them. */
  lemma {:induction false} EveryCourseHappens(answers: seq<Kinds>) returns (script: seq<Reply>)
    ensures KindsOf(script) == answers
  {
    if answers == [] {
      script := [];
    } else {
      var rest := EveryCourseHappens(answers[1..]);
      var with, without := Sample(answers[0].withTools), Sample(answers[0].withoutTools);
      SampleHasItsKind(answers[0].withTools);
      SampleHasItsKind(answers[0].withoutTools);
      script := [Reply(with, without)] + rest;
    }
  }

  function Sample(k: Kind): Response {
    match k
    case EndsTurn => Stream([], Closed)
    case CallsSafe => LOOPING
    case CallsGated => GATED
    case Unavailable => RateLimited
  }

  lemma SampleHasItsKind(k: Kind)
    ensures KindOf(Sample(k)) == k
  {
    match k
    case CallsSafe => LoopingIsSafe();
    case CallsGated => GatedIsGated();
    case _ =>
  }

  lemma LoopingIsSafe()
    ensures KindOf(LOOPING) == CallsSafe
  {
    OneCall("search_leads");
    assert CallsOf(LOOPING) == [Call("c", "search_leads", "{}")];
  }

  lemma UnknownToolsAreGated(calls: seq<Call>)
    requires |calls| == 1 && |calls[0].name| == 1
    ensures !NeedsNoConfirmation(calls)
  {
    assert forall name | name in SAFE_TOOLS :: |name| > 1;
    assert NeedsConfirmation(calls[0].name);
  }

  lemma GatedIsGated()
    ensures KindOf(GATED) == CallsGated
  {
    OneCall("x");
    UnknownToolsAreGated(CallsOf(GATED));
  }

  lemma SomethingAssembled(acc: map<int, Call>, ds: seq<Delta>)
    ensures AssembleFrom(acc, ds) == map[] <==> acc == map[] && ds == []
  {
    if ds == [] {
      assert AssembleFrom(acc, ds) == acc;
    } else {
      AssembledGrows(Step(acc, ds[0]), ds[1..], ds[0].index);
    }
  }

  // ---- read-only and gated calls ----

  function SafeOf(calls: seq<Call>): seq<Call> {
    if calls == [] then []
    else
      var n := |calls| - 1;
      SafeOf(calls[..n]) + if NeedsConfirmation(calls[n].name) then [] else [calls[n]]
  }

  function GatedOf(calls: seq<Call>): seq<Call> {
    if calls == [] then []
    else
      var n := |calls| - 1;
      GatedOf(calls[..n]) + if NeedsConfirmation(calls[n].name) then [calls[n]] else []
  }

  lemma SafeSnoc(calls: seq<Call>, n: nat)
    requires n < |calls|
    ensures SafeOf(calls[..n + 1]) == SafeOf(calls[..n]) + if NeedsConfirmation(calls[n].name) then [] else [calls[n]]
  {
    assert calls[..n + 1][..n] == calls[..n];
  }

  /** Every call is on exactly one of the two lists, in its place. */
  lemma {:induction false} SortedOut(calls: seq<Call>, k: nat)
    requires k < |calls|
    ensures var safe, gated := |SafeOf(calls[..k])|, |GatedOf(calls[..k])|;
      if calls[k].name in SAFE_TOOLS then
        && safe < |SafeOf(calls)| && SafeOf(calls)[safe] == calls[k]
        && |SafeOf(calls[..k + 1])| == safe + 1 && |GatedOf(calls[..k + 1])| == gated
      else
        && gated < |GatedOf(calls)| && GatedOf(calls)[gated] == calls[k]
        && |SafeOf(calls[..k + 1])| == safe && |GatedOf(calls[..k + 1])| == gated + 1
  {
    var n := |calls| - 1;
    if k == n {
      assert calls[..k + 1] == calls;
    } else {
      SortedOut(calls[..n], k);
      assert calls[..n][..k] == calls[..k] && calls[..n][..k + 1] == calls[..k + 1] && calls[..n][k] == calls[k];
    }
  }

  lemma {:induction false} AllSafe(calls: seq<Call>)
    ensures NeedsNoConfirmation(calls) ==> SafeOf(calls) == calls
    ensures NeedsNoConfirmation(calls) <==> GatedOf(calls) == []
  {
    if calls == [] {
    } else {
      var n := |calls| - 1;
      AllSafe(calls[..n]);
      assert calls == calls[..n] + [calls[n]];
      assert NeedsNoConfirmation(calls) <==> NeedsNoConfirmation(calls[..n]) && !NeedsConfirmation(calls[n].name);
    }
  }

  /** The calls proposed since the log was `from` events long, in order. */
  function ProposedSince(log: seq<LoopEvent>, from: nat): seq<Call> {
    if |log| <= from || log == [] then []
    else ProposedSince(Init(log), from) + if Last(log).Proposed? then [Last(log).row.call] else []
  }

  /** Every proposal and every request logged from `from` on is listed, in its place, and nothing else is. */
  lemma {:induction false} ListedAt(log: seq<LoopEvent>, from: nat, k: nat)
    requires from <= k < |log|
    ensures var place := |ProposedSince(log[..k], from)|;
      if log[k].Proposed? then
        && place < |ProposedSince(log, from)| && ProposedSince(log, from)[place] == log[k].row.call
        && |ProposedSince(log[..k + 1], from)| == place + 1
      else
        |ProposedSince(log[..k + 1], from)| == place
    ensures var place := |RequestsSince(log[..k], from)|;
      if log[k].Requested? then
        && place < |RequestsSince(log, from)| && RequestsSince(log, from)[place] == log[k]
        && |RequestsSince(log[..k + 1], from)| == place + 1
      else
        |RequestsSince(log[..k + 1], from)| == place
    ensures ProposedSince(log[..from], from) == [] && RequestsSince(log[..from], from) == []
    decreases |log|
  {
    if k == |log| - 1 {
      assert log[..k + 1] == log && log[..k] == Init(log);
    } else {
      ListedAt(Init(log), from, k);
      assert Init(log)[..k] == log[..k] && Init(log)[..k + 1] == log[..k + 1] && Init(log)[..from] == log[..from];
    }
  }

  // ---- the follow-up ----

  function FollowUp(messages: seq<Message>, calls: seq<Call>, answers: seq<Message>, capped: bool): seq<Message> {
    messages + ([Asked(calls)] + answers) + if capped then [CAP_NOTE] else []
  }

  lemma FollowUpWellFormed(messages: seq<Message>, calls: seq<Call>, answers: seq<Message>, capped: bool)
    requires WellFormed(messages) && |answers| == |calls|
    requires forall k | 0 <= k < |calls| :: answers[k].Answer? && answers[k].callId == calls[k].id
    ensures WellFormed(FollowUp(messages, calls, answers, capped))
  {
    ExchangeWellFormed(calls, answers);
    AppendWellFormed(messages, [Asked(calls)] + answers);
    var tail := if capped then [CAP_NOTE] else [];
    assert WellFormed(tail) by {
      if capped { assert tail[1..] == []; }
    }
    AppendWellFormed(messages + ([Asked(calls)] + answers), tail);
  }

  /** This call ran in the turn, with this result. */
  ghost predicate RanWith(log: seq<LoopEvent>, name: string, args: string, result: string) {
    exists j :: 0 <= j < |log| && log[j] == Ran(name, args, result)
  }

  /** One answer per call, in order, under its id: the result of running it, whether now or earlier in the turn. */
  ghost predicate AnsweredByRuns(calls: seq<Call>, answers: seq<Message>, canon: string -> string, log: seq<LoopEvent>) {
    && |answers| == |calls|
    && forall k | 0 <= k < |calls| ::
      && answers[k].Answer? && answers[k].callId == calls[k].id && answers[k].name == calls[k].name
      && RanWith(log, calls[k].name, canon(calls[k].args), answers[k].content)
  }

  lemma AnswersStayRun(calls: seq<Call>, answers: seq<Message>, canon: string -> string, log: seq<LoopEvent>, log': seq<LoopEvent>)
    requires AnsweredByRuns(calls, answers, canon, log) && log <= log'
    ensures AnsweredByRuns(calls, answers, canon, log')
  {
    forall k | 0 <= k < |calls| ensures RanWith(log', calls[k].name, canon(calls[k].args), answers[k].content) {
      var j :| 0 <= j < |log| && log[j] == Ran(calls[k].name, canon(calls[k].args), answers[k].content);
      assert log'[j] == log[j];
    }
  }

  /** `next` goes on from `messages` after these calls: nothing before them is lost or changed, then come the
      calls, their answers, and the notice exactly if the rounds are used up. */
  ghost predicate Continues(messages: seq<Message>, next: seq<Message>, calls: seq<Call>, capped: bool, canon: string -> string,
                            log: seq<LoopEvent>) {
    var n := |messages| + 1 + |calls|;
    && |next| == n + (if capped then 1 else 0)
    && next[..|messages|] == messages
    && next[|messages|] == Asked(calls)
    && AnsweredByRuns(calls, next[|messages| + 1..n], canon, log)
    && (capped ==> next[n] == CAP_NOTE)
  }

  lemma FollowUpContinues(messages: seq<Message>, calls: seq<Call>, answers: seq<Message>, capped: bool, canon: string -> string,
                          log: seq<LoopEvent>)
    requires AnsweredByRuns(calls, answers, canon, log)
    ensures Continues(messages, FollowUp(messages, calls, answers, capped), calls, capped, canon, log)
  {
    var next := FollowUp(messages, calls, answers, capped);
    assert next[|messages| + 1..|messages| + 1 + |calls|] == answers;
  }

  // ---- the requests of a turn ----

  /** The requests logged since the log was `from` events long, in order. */
  function RequestsSince(log: seq<LoopEvent>, from: nat): seq<LoopEvent> {
    if |log| <= from || log == [] then []
    else RequestsSince(Init(log), from) + if Last(log).Requested? then [Last(log)] else []
  }

  lemma {:induction false} RequestsSplit(log: seq<LoopEvent>, from: nat, mid: nat)
    requires from <= mid <= |log|
    ensures RequestsSince(log, from) == RequestsSince(log[..mid], from) + RequestsSince(log, mid)
    decreases |log|
  {
    if |log| == mid {
      assert log[..mid] == log;
    } else {
      assert Init(log)[..mid] == log[..mid];
      RequestsSplit(Init(log), from, mid);
    }
  }

  lemma {:induction false} RequestsCounted(log: seq<LoopEvent>, from: nat)
    requires from <= |log|
    ensures |RequestsSince(log, from)| == Requests(log) - Requests(log[..from])
    decreases |log|
  {
    if |log| == from {
      assert log[..from] == log;
    } else {
      assert Init(log)[..from] == log[..from];
      RequestsCounted(Init(log), from);
    }
  }

  /** Between `from` and `mid` nothing is requested, so counting from either is the same. */
  lemma NoneRequested(log: seq<LoopEvent>, before: seq<LoopEvent>, mid: seq<LoopEvent>)
    requires before <= mid <= log && Requests(mid) == Requests(before)
    ensures RequestsSince(log, |before|) == RequestsSince(log, |mid|)
  {
    assert log[..|mid|] == mid && mid[..|before|] == before;
    RequestsSplit(log, |before|, |mid|);
    RequestsCounted(mid, |before|);
  }

  /** The log grew by a request and went on. */
  lemma OneRequested(log: seq<LoopEvent>, before: seq<LoopEvent>, e: LoopEvent)
    requires before + [e] <= log && e.Requested?
    ensures var reqs := RequestsSince(log, |before|); reqs != [] && reqs[0] == e && reqs[1..] == RequestsSince(log, |before| + 1)
  {
    var mid := before + [e];
    assert log[..|mid|] == mid && Init(mid) == before;
    RequestsSplit(log, |before|, |mid|);
    assert RequestsSince(mid, |before|) == RequestsSince(before, |before|) + [e];
  }

  /** Where a turn stands before a request. */
  datatype Turn = Turn(messages: seq<Message>, offered: bool, provider: Provider, fallbacks: seq<Provider>, round: nat)

  /** What stays the same throughout. */
  datatype Setting = Setting(maxRounds: int, canon: string -> string, log: seq<LoopEvent>)

  /** How one request follows another, by what the reply to the first amounted to: the same messages to the
      next provider, or the continued ones to the same, without tools if the rounds are used up. */
  ghost predicate LeadsTo(t: Turn, kind: Kind, calls: seq<Call>, t': Turn, x: Setting) {
    match kind
    case Unavailable =>
      t.fallbacks != [] && t' == Turn(t.messages, t.offered, t.fallbacks[0], t.fallbacks[1..], t.round)
    case CallsSafe =>
      var capped := t.round + 1 >= x.maxRounds;
      && t' == Turn(t'.messages, t.offered && !capped, t.provider, t.fallbacks, t.round + 1)
      && Continues(t.messages, t'.messages, calls, capped, x.canon, x.log)
    case _ => false
  }

  lemma FollowUpLeads(t: Turn, calls: seq<Call>, answers: seq<Message>, x: Setting)
    requires AnsweredByRuns(calls, answers, x.canon, x.log)
    ensures var capped := t.round + 1 >= x.maxRounds;
      LeadsTo(t, CallsSafe, calls, Turn(FollowUp(t.messages, calls, answers, capped), t.offered && !capped, t.provider, t.fallbacks,
                                        t.round + 1), x)
  {
    FollowUpContinues(t.messages, calls, answers, t.round + 1 >= x.maxRounds, x.canon, x.log);
  }

  /** The requests of a turn, with the replies to them. */
  ghost predicate Story(reqs: seq<LoopEvent>, t: Turn, script: seq<Reply>, x: Setting)
    decreases |script|, 0
  {
    reqs == [] ||
    (&& script != [] && reqs[0] == Requested(t.provider, t.messages, t.offered)
     && var reply := AnswerOf(script[0], t.offered);
     GoesOn(KindOf(reply), HeardCalls(reply), reqs[1..], t, script[1..], x))
  }

  /** What follows a reply: its calls are dealt with, and further requests are made as it leads to. */
  ghost predicate GoesOn(kind: Kind, calls: seq<Call>, reqs: seq<LoopEvent>, t: Turn, script: seq<Reply>, x: Setting)
    decreases |script|, 1
  {
    && DealtWith(kind, calls, x)
    && (reqs == [] || exists t' :: LeadsTo(t, kind, calls, t', x) && Story(reqs, t', script, x))
  }

  /** The read-only ones have run; if there are gated ones, the turn's proposals are exactly those, in order. */
  ghost predicate DealtWith(kind: Kind, calls: seq<Call>, x: Setting) {
    && (kind.CallsSafe? || kind.CallsGated? ==> HaveRun(SafeOf(calls), x))
    && (kind.CallsGated? ==> ProposedSince(x.log, 0) == GatedOf(calls))
  }

  ghost predicate HaveRun(calls: seq<Call>, x: Setting) {
    forall k | 0 <= k < |calls| :: HasRun(calls[k], x)
  }

  ghost predicate HasRun(c: Call, x: Setting) {
    exists result :: RanWith(x.log, c.name, x.canon(c.args), result)
  }

  lemma AnsweredHaveRun(calls: seq<Call>, answers: seq<Message>, x: Setting)
    requires AnsweredByRuns(calls, answers, x.canon, x.log)
    ensures HaveRun(calls, x)
  {
    forall k | 0 <= k < |calls| ensures HasRun(calls[k], x) {
      assert RanWith(x.log, calls[k].name, x.canon(calls[k].args), answers[k].content);
    }
  }

  /** As long as nothing waits for the user, nothing has been proposed. */
  lemma {:induction false} OpenHasNone(s: Start, log: seq<LoopEvent>)
    requires Legal(s, log) && Open(log)
    ensures ProposedSince(log, 0) == []
  {
    if log == [] {
    } else {
      OpenHasNone(s, Init(log));
    }
  }

  lemma {:induction false} SafeAreSafe(calls: seq<Call>)
    ensures NeedsNoConfirmation(SafeOf(calls))
  {
    if calls == [] {
    } else {
      SafeAreSafe(calls[..|calls| - 1]);
    }
  }

  lemma GoesOnTo(t: Turn, kind: Kind, calls: seq<Call>, t': Turn, reqs: seq<LoopEvent>, script: seq<Reply>, x: Setting)
    requires DealtWith(kind, calls, x) && LeadsTo(t, kind, calls, t', x) && Story(reqs, t', script, x)
    ensures GoesOn(kind, calls, reqs, t, script, x)
  {
  }

  /** The state one turn updates. `canon` is the sorted JSON text of parsed arguments, "{}" when they
      do not parse; `toolResults` is whatever the tools return, run after run; `clock` is the time. */
  class ChatTurn {
    const store: ApprovalStore
    ghost const start: Start
    const workspace: string
    const user: string
    const canon: string -> string
    const toolResults: nat -> string
    const clock: nat -> int
    var seenCalls: map<string, string>
    var executed: nat
    var log: seq<LoopEvent>

    constructor (workspace: string, user: string, ghost paired: bool, store: ApprovalStore,
                 canon: string -> string, toolResults: nat -> string, clock: nat -> int)
      requires workspace != "" && store.Valid()
      ensures Valid() && fresh(this) && log == [] && this.store == store && this.canon == canon
      ensures start == Start(store.rows, workspace, user, paired)
    {
      this.start := Start(store.rows, workspace, user, paired);
      this.workspace, this.user, this.store := workspace, user, store;
      this.canon, this.toolResults, this.clock := canon, toolResults, clock;
      seenCalls, executed, log := map[], 0, [];
    }

    ghost predicate Valid()
      reads this, store
    {
      && workspace == start.workspace != "" && user == start.user
      && store.Valid()
      && Legal(start, log)
      && seenCalls == SeenOf(log)
      && store.rows == RowsAfter(start.rows, log)
    }

    function Sig(c: Call): string {
      Signature(c.name, canon(c.args))
    }

    /** The answer to a read-only call that has run. */
    function AnswerTo(c: Call, seen: map<string, string>): Message
      requires Sig(c) in seen
    {
      Answer(c.id, c.name, seen[Sig(c)])
    }

    ghost predicate Answered(calls: seq<Call>, answers: seq<Message>, seen: map<string, string>) {
      && |answers| == |calls|
      && forall k | 0 <= k < |calls| :: Sig(calls[k]) in seen && answers[k] == AnswerTo(calls[k], seen)
    }

    /** Runs one read-only call, or reuses its result. */
    method RunSafeCall(c: Call) returns (result: string)
      requires Valid() && Open(log) && !NeedsConfirmation(c.name)
      modifies this
      ensures Valid() && Open(log)
      ensures old(log) < log && Requests(log) == Requests(old(log))
      ensures Init(log) == old(log) && !Last(log).Proposed?
      ensures Sig(c) in seenCalls && result == seenCalls[Sig(c)]
      ensures Sig(c) in old(seenCalls) ==> executed == old(executed) && seenCalls == old(seenCalls)
      ensures Sig(c) !in old(seenCalls) ==> executed == old(executed) + 1
                                            && seenCalls == old(seenCalls)[Sig(c) := toolResults(old(executed))]
    {
      var args, sig := canon(c.args), Sig(c);
      var e;
      if sig in seenCalls {
        result := seenCalls[sig];
        e := Reused(c.name, args, result);
      } else {
        result := toolResults(executed);
        executed := executed + 1;
        seenCalls := seenCalls[sig := result];
        e := Ran(c.name, args, result);
      }
      Snoc(log, e);
      log := log + [e];
    }

    /** Runs the read-only calls in order, one answer each; gated calls are passed over. */
    method RunSafeCalls(calls: seq<Call>) returns (answers: seq<Message>)
      requires Valid() && Open(log)
      modifies this
      ensures Valid() && Open(log)
      ensures old(log) <= log && Requests(log) == Requests(old(log))
      ensures ProposedSince(log, |old(log)|) == []
      ensures Answered(SafeOf(calls), answers, seenCalls)
    {
      answers := [];
      for n := 0 to |calls|
        invariant Valid() && Open(log)
        invariant old(log) <= log && Requests(log) == Requests(old(log))
        invariant ProposedSince(log, |old(log)|) == []
        invariant Answered(SafeOf(calls[..n]), answers, seenCalls)
      {
        var c := calls[n];
        SafeSnoc(calls, n);
        if NeedsConfirmation(c.name) {
          continue;
        }
        ghost var seen := seenCalls;
        var result := RunSafeCall(c);
        StillAnswered(SafeOf(calls[..n]), answers, seen, seenCalls);
        OneMoreAnswer(SafeOf(calls[..n]), answers, c, seenCalls);
        answers := answers + [Answer(c.id, c.name, result)];
      }
      assert calls[..|calls|] == calls;
    }

    lemma OneMoreAnswer(calls: seq<Call>, answers: seq<Message>, c: Call, seen: map<string, string>)
      requires Answered(calls, answers, seen) && Sig(c) in seen
      ensures Answered(calls + [c], answers + [AnswerTo(c, seen)], seen)
    {
    }

    lemma StillAnswered(calls: seq<Call>, answers: seq<Message>, seen: map<string, string>, seen': map<string, string>)
      requires Answered(calls, answers, seen)
      requires forall sig | sig in seen :: sig in seen' && seen'[sig] == seen[sig]
      ensures Answered(calls, answers, seen')
    {
    }

    /** Stores a proposal for every gated call, in order, and logs nothing else; none of them runs. */
    method ProposeGated(calls: seq<Call>)
      requires Valid()
      modifies this, store
      ensures Valid() && old(log) <= log && Requests(log) == Requests(old(log))
      ensures |log| == |old(log)| + |GatedOf(calls)|
      ensures ProposedSince(log, |old(log)|) == GatedOf(calls)
      ensures seenCalls == old(seenCalls)
    {
      for n := 0 to |calls|
        invariant Valid() && old(log) <= log && Requests(log) == Requests(old(log))
        invariant |log| == |old(log)| + |GatedOf(calls[..n])|
        invariant ProposedSince(log, |old(log)|) == GatedOf(calls[..n])
        invariant seenCalls == old(seenCalls)
      {
        assert calls[..n + 1][..n] == calls[..n];
        if NeedsConfirmation(calls[n].name) {
          Propose(calls[n]);
        }
      }
      assert calls[..|calls|] == calls;
    }

    /** Stores and logs one proposal. */
    method Propose(c: Call)
      requires Valid() && NeedsConfirmation(c.name)
      modifies this, store
      ensures Valid() && seenCalls == old(seenCalls) && Requests(log) == Requests(old(log))
      ensures old(log) < log && Init(log) == old(log) && Last(log).Proposed? && Last(log).row.call == c
    {
      var now := clock(|log|);
      var id := store.Create(workspace, user, c, now);
      var e := Proposed(id.value, Approval(workspace, user, c, Pending, now));
      Snoc(log, e);
      log := log + [e];
    }

    method LogRequest(provider: Provider, messages: seq<Message>, offered: bool)
      requires Valid() && Open(log) && (start.paired ==> WellFormed(messages))
      modifies this`log
      ensures Valid() && Open(log)
      ensures log == old(log) + [Requested(provider, messages, offered)] && Requests(log) == Requests(old(log)) + 1
    {
      Snoc(log, Requested(provider, messages, offered));
      log := log + [Requested(provider, messages, offered)];
    }

    /** Asks the model and follows its answers to the end of the turn, or until `script` — the
        providers' answers to the requests to come — runs out. */
    method StreamChat(messages: seq<Message>, offered: bool, provider: Provider, fallbacks: seq<Provider>,
                      round: nat, maxRounds: int, script: seq<Reply>)
      returns (used: nat, finished: bool)
      requires Valid() && Open(log) && (start.paired ==> WellFormed(messages))
      modifies this, store
      decreases |script|, 0
      ensures Valid() && old(log) <= log && Requests(log) == Requests(old(log)) + used
      ensures var c := CourseOf(offered, provider, fallbacks, round, maxRounds, KindsOf(script));
              used == c.requests && finished == c.finished
      ensures Story(RequestsSince(log, |old(log)|), Turn(messages, offered, provider, fallbacks, round), script,
                    Setting(maxRounds, canon, log))
    {
      if !provider.hasKey {
        return 0, true;
      }
      if script == [] {
        return 0, false;
      }
      CourseStarts(offered, provider, fallbacks, round, maxRounds, script);
      var calls, kind := Hear(AnswerOf(script[0], offered));
      used, finished := Ask(kind, calls, messages, offered, provider, fallbacks, round, maxRounds, script[1..]);
    }

    /** Makes one request, the answer to which amounts to `kind` with these calls, and goes on from there. */
    method Ask(kind: Kind, calls: seq<Call>, messages: seq<Message>, offered: bool, provider: Provider,
               fallbacks: seq<Provider>, round: nat, maxRounds: int, script: seq<Reply>)
      returns (used: nat, finished: bool)
      requires Valid() && Open(log) && (start.paired ==> WellFormed(messages)) && provider.hasKey
      requires kind.CallsSafe? || kind.CallsGated? ==> (kind.CallsSafe? <==> NeedsNoConfirmation(calls))
      modifies this, store
      decreases |script|, 4
      ensures Valid() && old(log) <= log && Requests(log) == Requests(old(log)) + used
      ensures var c := CourseAfter(kind, offered, provider, fallbacks, round, maxRounds, KindsOf(script));
              used == 1 + c.requests && finished == c.finished
      ensures var reqs := RequestsSince(log, |old(log)|);
              && reqs != [] && reqs[0] == Requested(provider, messages, offered)
              && reqs[1..] == RequestsSince(log, |old(log)| + 1)
      ensures GoesOn(kind, calls, RequestsSince(log, |old(log)| + 1), Turn(messages, offered, provider, fallbacks, round), script,
                     Setting(maxRounds, canon, log))
    {
      LogRequest(provider, messages, offered);
      var more;
      more, finished := Follow(kind, calls, messages, offered, provider, fallbacks, round, maxRounds, script);
      OneRequested(log, old(log), Requested(provider, messages, offered));
      used := 1 + more;
    }

    /** Does what the reply to the request just logged calls for. */
    method Follow(kind: Kind, calls: seq<Call>, messages: seq<Message>, offered: bool, provider: Provider,
                  fallbacks: seq<Provider>, round: nat, maxRounds: int, script: seq<Reply>)
      returns (used: nat, finished: bool)
      requires Valid() && Open(log) && log != [] && (start.paired ==> WellFormed(messages))
      requires provider.hasKey && Last(log).Requested?
      requires kind.CallsSafe? || kind.CallsGated? ==> (kind.CallsSafe? <==> NeedsNoConfirmation(calls))
      modifies this, store
      decreases |script|, 3
      ensures Valid() && old(log) <= log && Requests(log) == Requests(old(log)) + used
      ensures var c := CourseAfter(kind, offered, provider, fallbacks, round, maxRounds, KindsOf(script));
              used == c.requests && finished == c.finished
      ensures GoesOn(kind, calls, RequestsSince(log, |old(log)|), Turn(messages, offered, provider, fallbacks, round), script,
                     Setting(maxRounds, canon, log))
    {
      match kind {
        case EndsTurn =>
          return 0, true;
        case CallsSafe =>
          used, finished := HandleCalls(messages, calls, offered, provider, fallbacks, round, maxRounds, script);
        case CallsGated =>
          used, finished := HandleCalls(messages, calls, offered, provider, fallbacks, round, maxRounds, script);
        case Unavailable =>
          if fallbacks == [] {
            return 0, true;
          }
          used, finished := StreamChat(messages, offered, fallbacks[0], fallbacks[1..], round, maxRounds, script);
          GoesOnTo(Turn(messages, offered, provider, fallbacks, round), Unavailable, calls,
                   Turn(messages, offered, fallbacks[0], fallbacks[1..], round), RequestsSince(log, |old(log)|), script,
                   Setting(maxRounds, canon, log));
      }
    }

    /** The model asked for `calls`: run the read-only ones, then either end the turn waiting for
        approvals or go on with the answers. */
    method HandleCalls(messages: seq<Message>, calls: seq<Call>, offered: bool, provider: Provider, fallbacks: seq<Provider>,
                       round: nat, maxRounds: int, script: seq<Reply>) returns (used: nat, finished: bool)
      requires Valid() && Open(log) && log != [] && Last(log).Requested? && (start.paired ==> WellFormed(messages))
      requires provider.hasKey
      modifies this, store
      decreases |script|, 2
      ensures Valid() && old(log) <= log && Requests(log) == Requests(old(log)) + used
      ensures !NeedsNoConfirmation(calls) ==> used == 0 && finished
      ensures NeedsNoConfirmation(calls) ==>
                var c := CourseOf(offered && round + 1 < maxRounds, provider, fallbacks, round + 1, maxRounds, KindsOf(script));
                used == c.requests && finished == c.finished
      ensures GoesOn(if NeedsNoConfirmation(calls) then CallsSafe else CallsGated, calls, RequestsSince(log, |old(log)|),
                     Turn(messages, offered, provider, fallbacks, round), script, Setting(maxRounds, canon, log))
    {
      AllSafe(calls);
      var answers := RunSafeCalls(calls);
      ghost var ran := log;
      SafeAreSafe(calls);
      AnswersRan(SafeOf(calls), answers);
      if !NeedsNoConfirmation(calls) {
        OpenHasNone(start, ran);
        ProposeGated(calls);
        assert log[..|ran|] == ran;
        ProposedFrom(log, 0, |ran|);
        NoneRequested(log, old(log), log);
        used, finished := 0, true;
      } else {
        used, finished := AskAgain(messages, calls, answers, offered, provider, fallbacks, round, maxRounds, script);
        NoneRequested(log, old(log), ran);
      }
      AnswersStayRun(SafeOf(calls), answers, canon, ran, log);
      AnsweredHaveRun(SafeOf(calls), answers, Setting(maxRounds, canon, log));
    }

    /** Asks again with the calls and their answers appended; without tools, and told so, if the rounds are
        used up. */
    method AskAgain(messages: seq<Message>, calls: seq<Call>, answers: seq<Message>, offered: bool, provider: Provider,
                    fallbacks: seq<Provider>, round: nat, maxRounds: int, script: seq<Reply>)
      returns (used: nat, finished: bool)
      requires Valid() && Open(log) && (start.paired ==> WellFormed(messages))
      requires NeedsNoConfirmation(calls) && Answered(calls, answers, seenCalls)
      modifies this, store
      decreases |script|, 1
      ensures Valid() && old(log) <= log && Requests(log) == Requests(old(log)) + used
      ensures var c := CourseOf(offered && round + 1 < maxRounds, provider, fallbacks, round + 1, maxRounds, KindsOf(script));
              used == c.requests && finished == c.finished
      ensures GoesOn(CallsSafe, calls, RequestsSince(log, |old(log)|), Turn(messages, offered, provider, fallbacks, round), script,
                     Setting(maxRounds, canon, log))
    {
      var capped := round + 1 >= maxRounds;
      var followUp := FollowUp(messages, calls, answers, capped);
      if start.paired {
        FollowUpWellFormed(messages, calls, answers, capped);
      }
      AnswersRan(calls, answers);
      used, finished := StreamChat(followUp, offered && !capped, provider, fallbacks, round + 1, maxRounds, script);
      AnswersStayRun(calls, answers, canon, old(log), log);
      ghost var t, x := Turn(messages, offered, provider, fallbacks, round), Setting(maxRounds, canon, log);
      FollowUpLeads(t, calls, answers, x);
      AllSafe(calls);
      AnsweredHaveRun(calls, answers, x);
      GoesOnTo(t, CallsSafe, calls, Turn(followUp, offered && !capped, provider, fallbacks, round + 1),
               RequestsSince(log, |old(log)|), script, x);
    }

    lemma AnswersRan(calls: seq<Call>, answers: seq<Message>)
      requires Legal(start, log) && seenCalls == SeenOf(log) && NeedsNoConfirmation(calls) && Answered(calls, answers, seenCalls)
      ensures AnsweredByRuns(calls, answers, canon, log)
    {
      forall k | 0 <= k < |calls| ensures RanWith(log, calls[k].name, canon(calls[k].args), answers[k].content) {
        var j := SeenComesFromARun(start, log, Sig(calls[k]));
        SignatureInjective(log[j].name, log[j].args, calls[k].name, canon(calls[k].args));
        assert log[j] == Ran(calls[k].name, canon(calls[k].args), answers[k].content);
      }
    }
  }

  /** Nothing is proposed between `from` and `later`, so counting from either is the same. */
  lemma {:induction false} ProposedFrom(log: seq<LoopEvent>, from: nat, later: nat)
    requires from <= later <= |log| && ProposedSince(log[..later], from) == []
    ensures ProposedSince(log, from) == ProposedSince(log, later)
    decreases |log|
  {
    if |log| == later {
      assert log[..later] == log;
    } else {
      assert Init(log)[..later] == log[..later];
      ProposedFrom(Init(log), from, later);
    }
  }

  datatype Outcome = Ended | Calls | Failover

  function DeltasOf(chunks: seq<Chunk>): seq<Delta> {
    if chunks == [] then []
    else DeltasOf(chunks[..|chunks| - 1])
         + (if chunks[|chunks| - 1].Fragments? then chunks[|chunks| - 1].deltas else [])
  }

  predicate CleanChunk(c: Chunk) {
    c.Fragments? && AllClean(c.deltas)
  }

  /** With its n-th chunk the stream completes tool calls. */
  predicate CompletesAt(chunks: seq<Chunk>, n: nat)
    requires n <= |chunks|
  {
    n > 0 && chunks[n - 1].Fragments? && chunks[n - 1].finishesCalls && Assemble(DeltasOf(chunks[..n])) != map[]
  }

  /** Nothing stops the reader within the first n chunks. */
  predicate ReadsOn(chunks: seq<Chunk>, n: nat)
    requires n <= |chunks|
  {
    n == 0 || (ReadsOn(chunks, n - 1) && CleanChunk(chunks[n - 1]) && !CompletesAt(chunks, n))
  }

  /** The n-th chunk is where the response calls tools. */
  predicate CallsToolsAt(r: Response, n: nat)
    requires r.Stream? && n < |r.chunks|
  {
    ReadsOn(r.chunks, n) && CleanChunk(r.chunks[n]) && CompletesAt(r.chunks, n + 1)
  }

  predicate CallsTools(r: Response) {
    r.Stream? && exists n: nat | n < |r.chunks| :: CallsToolsAt(r, n)
  }

  predicate FailsOver(r: Response) {
    match r
    case RateLimited => true
    case ServerError => true
    case ClientError => false
    case Stream(chunks, end) => end.NetworkFailure? && ReadsOn(chunks, |chunks|)
  }

  predicate PassesBy(chunks: seq<Chunk>, m: nat)
    requires m < |chunks|
  {
    CleanChunk(chunks[m]) && !CompletesAt(chunks, m + 1)
  }

  lemma {:induction false} ReadsOnExactlyIf(chunks: seq<Chunk>, n: nat)
    requires n <= |chunks|
    ensures ReadsOn(chunks, n) <==> forall m: nat | m < n :: PassesBy(chunks, m)
  {
    if n == 0 {
    } else {
      ReadsOnExactlyIf(chunks, n - 1);
      assert ReadsOn(chunks, n) <==> ReadsOn(chunks, n - 1) && PassesBy(chunks, n - 1);
    }
  }

  /** A turn fails over when the provider is busy or broken, or when the network fails before the stream has
      ended by itself, come to a fragment that cannot be read, or completed any calls. */
  lemma FailsOverExactlyIf(r: Response)
    ensures r == RateLimited || r == ServerError ==> FailsOver(r)
    ensures r == ClientError ==> !FailsOver(r)
    ensures r.Stream? ==>
      (FailsOver(r) <==>
        && r.end == NetworkFailure
        && (forall n | 0 <= n < |r.chunks| :: r.chunks[n].Fragments?)
        && (forall n, d | 0 <= n < |r.chunks| && d in r.chunks[n].deltas :: !d.name.Null? && !d.args.Null?)
        && (forall n | 0 <= n < |r.chunks| && r.chunks[n].finishesCalls :: Assemble(DeltasOf(r.chunks[..n + 1])) == map[]))
  {
    if r.Stream? {
      ReadsOnExactlyIf(r.chunks, |r.chunks|);
      forall n: nat | n < |r.chunks|
        ensures PassesBy(r.chunks, n) <==>
          && r.chunks[n].Fragments? && (forall d | d in r.chunks[n].deltas :: !d.name.Null? && !d.args.Null?)
          && (r.chunks[n].finishesCalls ==> Assemble(DeltasOf(r.chunks[..n + 1])) == map[])
      {
      }
    }
  }

  lemma OneMoreChunk(chunks: seq<Chunk>, n: nat)
    requires n < |chunks| && chunks[n].Fragments?
    ensures Assemble(DeltasOf(chunks[..n + 1])) == AssembleFrom(Assemble(DeltasOf(chunks[..n])), chunks[n].deltas)
  {
    assert chunks[..n + 1][..n] == chunks[..n] && chunks[..n + 1][n] == chunks[n];
    AssembleConcat(map[], DeltasOf(chunks[..n]), chunks[n].deltas);
  }

  /** There is one place at most where a response calls tools. */
  lemma CallsToolsOnce(r: Response, m: nat, n: nat)
    requires r.Stream? && m < |r.chunks| && n < |r.chunks| && CallsToolsAt(r, m) && CallsToolsAt(r, n)
    ensures m == n
  {
    var chunks := r.chunks;
    if m < n { NotYet(chunks, n, m); }
    if n < m { NotYet(chunks, m, n); }
  }

  lemma {:induction false} NotYet(chunks: seq<Chunk>, n: nat, m: nat)
    requires m < n <= |chunks| && ReadsOn(chunks, n)
    ensures CleanChunk(chunks[m]) && !CompletesAt(chunks, m + 1)
  {
    if m == n - 1 {
    } else {
      NotYet(chunks, n - 1, m);
    }
  }

  /** The calls a response makes. */
  ghost function CallsOf(r: Response): seq<Call>
    requires CallsTools(r)
  {
    var n: nat :| n < |r.chunks| && CallsToolsAt(r, n);
    Reassemble(Assemble(DeltasOf(r.chunks[..n + 1])))
  }

  lemma CallsOfAt(r: Response, n: nat)
    requires r.Stream? && n < |r.chunks| && CallsToolsAt(r, n)
    ensures CallsTools(r) && CallsOf(r) == Reassemble(Assemble(DeltasOf(r.chunks[..n + 1])))
  {
    var m: nat :| m < |r.chunks| && CallsToolsAt(r, m) && CallsOf(r) == Reassemble(Assemble(DeltasOf(r.chunks[..m + 1])));
    CallsToolsOnce(r, m, n);
  }

  /** Reads one response: chunk after chunk until calls are complete or the stream is over. */
  method ReadReply(reply: Response) returns (calls: seq<Call>, outcome: Outcome)
    ensures outcome.Calls? <==> CallsTools(reply)
    ensures outcome.Failover? <==> FailsOver(reply)
    ensures reply.RateLimited? || reply.ServerError? ==> outcome.Failover?
    ensures reply.ClientError? ==> outcome.Ended?
    ensures outcome.Calls? ==> calls == CallsOf(reply)
  {
    match reply {
      case ClientError => return [], Ended;
      case RateLimited => return [], Failover;
      case ServerError => return [], Failover;
      case Stream(chunks, end) =>
        var acc: map<int, Call> := map[];
        for n := 0 to |chunks|
          invariant acc == Assemble(DeltasOf(chunks[..n])) && ReadsOn(chunks, n)
        {
          var stop;
          acc, stop := ReadChunk(chunks, n, acc);
          if stop {
            StopsReading(reply, n);
            return [], Ended;
          }
          if chunks[n].finishesCalls && acc != map[] {
            CallsHere(reply, n);
            CallsOfAt(reply, n);
            return Reassemble(acc), Calls;
          }
        }
        ReadToTheEnd(reply);
        return [], if end.NetworkFailure? then Failover else Ended;
    }
  }

  /** Reads one response, and what it amounts to. */
  method Hear(reply: Response) returns (calls: seq<Call>, kind: Kind)
    ensures kind == KindOf(reply) && calls == HeardCalls(reply)
    ensures kind.CallsSafe? || kind.CallsGated? ==> (kind.CallsSafe? <==> NeedsNoConfirmation(calls))
  {
    var outcome;
    calls, outcome := ReadReply(reply);
    match outcome {
      case Ended => return [], EndsTurn;
      case Failover => return [], Unavailable;
      case Calls =>
        kind := if exists k | 0 <= k < |calls| :: NeedsConfirmation(calls[k].name) then CallsGated else CallsSafe;
    }
  }

  method ReadChunk(chunks: seq<Chunk>, n: nat, acc0: map<int, Call>) returns (acc: map<int, Call>, stop: bool)
    requires n < |chunks| && acc0 == Assemble(DeltasOf(chunks[..n]))
    ensures stop <==> !CleanChunk(chunks[n])
    ensures !stop ==> acc == Assemble(DeltasOf(chunks[..n + 1]))
  {
    match chunks[n] {
      case Done => return acc0, true;
      case Fragments(deltas, _) =>
        OneMoreChunk(chunks, n);
        acc, stop := Absorb(acc0, deltas);
    }
  }

  lemma CallsHere(r: Response, n: nat)
    requires r.Stream? && n < |r.chunks| && CallsToolsAt(r, n)
    ensures CallsTools(r) && !FailsOver(r)
  {
    var chunks := r.chunks;
    var all := |chunks|;
    if ReadsOn(chunks, all) { NotYet(chunks, all, n); }
  }

  lemma ReadToTheEnd(r: Response)
    requires r.Stream? && ReadsOn(r.chunks, |r.chunks|)
    ensures !CallsTools(r) && (FailsOver(r) <==> r.end.NetworkFailure?)
  {
    forall n: nat | n < |r.chunks| ensures !CallsToolsAt(r, n) {
      NotYet(r.chunks, |r.chunks|, n);
    }
  }

  /** A chunk the reader stops at without calls: no later chunk is read. */
  lemma StopsReading(r: Response, n: nat)
    requires r.Stream? && n < |r.chunks| && !CleanChunk(r.chunks[n]) && ReadsOn(r.chunks, n)
    ensures !CallsTools(r) && !FailsOver(r)
  {
    var chunks := r.chunks;
    var all := |chunks|;
    if ReadsOn(chunks, all) { NotYet(chunks, all, n); }
    forall m: nat | m < |chunks| ensures !CallsToolsAt(r, m) {
      if CallsToolsAt(r, m) {
        if m < n { NotYet(chunks, n, m); }
        if n < m { NotYet(chunks, m, n); }
      }
    }
  }
}
