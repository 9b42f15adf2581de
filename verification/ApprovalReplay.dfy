/** Acting on the decisions a client sends back: consume them all, then run what was approved. */
module ApprovalReplay {
  import opened Numerals
  import opened Prelude
  import opened ToolAssembly
  import opened Transcript
  import opened Approvals
  import opened ApprovalGate

  datatype Act = RanTool(id: string, name: string, args: string, result: string) | Refused(id: string)

  /** Whose decisions these are, and when each is consumed. */
  datatype Caller = Caller(workspace: string, user: string, clock: nat -> int)

  function RowsAt(rows: Rows, c: Caller, items: seq<Item>, n: nat): Rows
    requires n <= |items|
  {
    if n == 0 then rows
    else Consumed(RowsAt(rows, c, items, n - 1), items[n - 1].id, c.workspace, c.user, items[n - 1].decision, c.clock(n - 1))
  }

  function TicketAt(rows: Rows, c: Caller, items: seq<Item>, n: nat): Ticket
    requires n < |items|
  {
    var it := items[n];
    Ticket(it.id, it.decision, StoredCall(RowsAt(rows, c, items, n), it.id, c.workspace, c.user, it.decision, c.clock(n)), c.clock(n))
  }

  /** The call replayed for the n-th ticket; an invalid one gets a placeholder. */
  function ReplayedCall(t: Ticket, n: nat): Call {
    match t.call
    case Some(call) => call
    case None => Call(if t.id != "" then t.id else "invalid-" + Render(n, 10), "invalid_approval", "{}")
  }

  function AnswerId(t: Ticket): string {
    match t.call
    case Some(call) => call.id
    case None => if t.id != "" then t.id else "invalid-approval"
  }

  ghost predicate ActsOn(a: Act, t: Ticket) {
    if MayRun(t)
    then a.RanTool? && a.id == t.id && a.name == t.call.value.name && a.args == t.call.value.args
    else a == Refused(t.id)
  }

  const INVALID := "invalid approval"
  const DECLINED := "declined"
  const UNCLASSIFIED := "not a classified mutation"

  /** Why a ticket is refused. */
  function Refusal(t: Ticket): string {
    if t.call.None? then INVALID else if t.decision == "deny" then DECLINED else UNCLASSIFIED
  }

  /** Consumes every decision, then acts on the tickets in order and extends the transcript.
      `toolResults` is whatever the tools return. */
  method ResolveApproved(cleaned0: seq<Message>, items: seq<Item>, store: ApprovalStore, c: Caller, toolResults: nat -> string)
    returns (cleaned: seq<Message>, acts: seq<Act>)
    requires store.Valid()
    modifies store
    ensures store.Valid() && store.rows == RowsAt(old(store.rows), c, items, |items|)
    ensures |acts| == |items| && forall n | 0 <= n < |items| :: ActsOn(acts[n], TicketAt(old(store.rows), c, items, n))
    ensures items == [] ==> cleaned == cleaned0
    ensures items != [] ==> Replayed(cleaned0, cleaned, acts, old(store.rows), c, items)
    ensures items != [] && WellFormed(cleaned0) ==> (WellFormed(cleaned) <==> forall n | 0 <= n < |items| :: items[n].id != "")
  {
    cleaned, acts := cleaned0, [];
    if items == [] {
      return;
    }
    ghost var rows0 := store.rows;
    var tickets := ConsumeAll(items, store, c);
    var calls := Replays(tickets);
    ReplaysAre(tickets, rows0, c, items);
    var answers;
    acts, answers := ActOnAll(tickets, toolResults);
    cleaned := cleaned0 + ([Asked(calls)] + answers);
    ReplayedPairsUp(cleaned0, cleaned, acts, rows0, c, items);
  }

  /** The transcript grew by the replayed calls and one answer for each. */
  ghost predicate Replayed(cleaned0: seq<Message>, cleaned: seq<Message>, acts: seq<Act>, rows: Rows, c: Caller, items: seq<Item>)
    requires |acts| == |items|
  {
    exists answers: seq<Message> ::
      && cleaned == cleaned0 + ([Asked(ReplayedCalls(rows, c, items))] + answers)
      && |answers| == |items|
      && forall n | 0 <= n < |items| :: IsAnswer(answers[n], TicketAt(rows, c, items, n), acts[n])
  }

  lemma ReplayedPairsUp(cleaned0: seq<Message>, cleaned: seq<Message>, acts: seq<Act>, rows: Rows, c: Caller, items: seq<Item>)
    requires |acts| == |items| && Replayed(cleaned0, cleaned, acts, rows, c, items)
    ensures WellFormed(cleaned0) ==> (WellFormed(cleaned) <==> forall n | 0 <= n < |items| :: items[n].id != "")
  {
    if WellFormed(cleaned0) {
      var answers: seq<Message> :|
        && cleaned == cleaned0 + ([Asked(ReplayedCalls(rows, c, items))] + answers)
        && |answers| == |items|
        && forall n | 0 <= n < |items| :: IsAnswer(answers[n], TicketAt(rows, c, items, n), acts[n]);
      ReplayPairsUp(cleaned0, ReplayedCalls(rows, c, items), answers, rows, c, items);
    }
  }

  /** The calls replayed for the tickets. */
  function Replays(tickets: seq<Ticket>): (calls: seq<Call>)
    ensures |calls| == |tickets| && forall n | 0 <= n < |calls| :: calls[n] == ReplayedCall(tickets[n], n)
  {
    seq(|tickets|, n requires 0 <= n < |tickets| => ReplayedCall(tickets[n], n))
  }

  lemma ReplaysAre(tickets: seq<Ticket>, rows: Rows, c: Caller, items: seq<Item>)
    requires |tickets| == |items| && forall k | 0 <= k < |items| :: tickets[k] == TicketAt(rows, c, items, k)
    ensures Replays(tickets) == ReplayedCalls(rows, c, items)
  {
  }

  /** First loop: every decision is consumed. */
  method ConsumeAll(items: seq<Item>, store: ApprovalStore, c: Caller) returns (tickets: seq<Ticket>)
    requires store.Valid()
    modifies store
    ensures store.Valid() && store.rows == RowsAt(old(store.rows), c, items, |items|)
    ensures |tickets| == |items| && forall k | 0 <= k < |items| :: tickets[k] == TicketAt(old(store.rows), c, items, k)
  {
    ghost var rows0 := store.rows;
    tickets := [];
    for n := 0 to |items|
      invariant store.Valid() && store.rows == RowsAt(rows0, c, items, n)
      invariant |tickets| == n && forall k | 0 <= k < n :: tickets[k] == TicketAt(rows0, c, items, k)
    {
      var call := store.Consume(items[n].id, c.workspace, c.user, items[n].decision, c.clock(n));
      tickets := tickets + [Ticket(items[n].id, items[n].decision, call, c.clock(n))];
    }
  }

  /** Second loop: run what was approved, refuse the rest, and answer each. */
  method ActOnAll(tickets: seq<Ticket>, toolResults: nat -> string) returns (acts: seq<Act>, answers: seq<Message>)
    ensures |acts| == |answers| == |tickets|
    ensures forall k | 0 <= k < |tickets| :: ActsOn(acts[k], tickets[k]) && IsAnswer(answers[k], tickets[k], acts[k])
  {
    acts, answers := [], [];
    for n := 0 to |tickets|
      invariant |acts| == |answers| == n
      invariant forall k | 0 <= k < n :: ActsOn(acts[k], tickets[k]) && IsAnswer(answers[k], tickets[k], acts[k])
    {
      var t := tickets[n];
      if MayRun(t) {
        var result := toolResults(n);
        acts := acts + [RanTool(t.id, t.call.value.name, t.call.value.args, result)];
        answers := answers + [Answer(AnswerId(t), t.call.value.name, result)];
      } else {
        acts := acts + [Refused(t.id)];
        answers := answers + [Answer(AnswerId(t), if t.call.Some? then t.call.value.name else "invalid_approval", Refusal(t))];
      }
    }
  }

  function ReplayedCalls(rows: Rows, c: Caller, items: seq<Item>): (r: seq<Call>)
    ensures |r| == |items| && forall n | 0 <= n < |r| :: r[n] == ReplayedCall(TicketAt(rows, c, items, n), n)
  {
    seq(|items|, n requires 0 <= n < |items| => ReplayedCall(TicketAt(rows, c, items, n), n))
  }

  /** The tool message for a ticket: its result if it ran, a refusal otherwise. */
  ghost predicate IsAnswer(m: Message, t: Ticket, a: Act) {
    && m.Answer? && m.callId == AnswerId(t)
    && m.name == (if t.call.Some? then t.call.value.name else "invalid_approval")
    && m.content == (if a.RanTool? then a.result else Refusal(t))
  }

  lemma AnswerIdMatches(rows: Rows, c: Caller, items: seq<Item>, n: nat)
    requires n < |items|
    ensures var t := TicketAt(rows, c, items, n);
            AnswerId(t) == ReplayedCall(t, n).id <==> items[n].id != ""
  {
    if items[n].id == "" {
      assert ("invalid-" + Render(n, 10))[8] == Render(n, 10)[0];
      assert DigitValue("invalid-approval"[8]) == 10;
    }
  }

  lemma ReplayPairsUp(cleaned: seq<Message>, calls: seq<Call>, answers: seq<Message>, rows: Rows, c: Caller, items: seq<Item>)
    requires WellFormed(cleaned) && |calls| == |answers| == |items|
    requires calls == ReplayedCalls(rows, c, items)
    requires forall n | 0 <= n < |items| :: answers[n].Answer? && answers[n].callId == AnswerId(TicketAt(rows, c, items, n))
    ensures WellFormed(cleaned + ([Asked(calls)] + answers)) <==> forall n | 0 <= n < |items| :: items[n].id != ""
  {
    AppendWellFormed(cleaned, [Asked(calls)] + answers);
    ExchangeWellFormed(calls, answers);
    forall n | 0 <= n < |items| ensures answers[n].callId == calls[n].id <==> items[n].id != "" {
      AnswerIdMatches(rows, c, items, n);
    }
  }

  // ---- what a resubmission can run ----

  lemma {:induction false} OnlyStatusChanges(rows: Rows, c: Caller, items: seq<Item>, n: nat, id: string)
    requires n <= |items|
    ensures id in RowsAt(rows, c, items, n) <==> id in rows
    ensures id in rows ==> RowsAt(rows, c, items, n)[id].(status := Pending) == rows[id].(status := Pending)
  {
    if n == 0 {
    } else {
      OnlyStatusChanges(rows, c, items, n - 1, id);
    }
  }

  predicate IsPending(rows: Rows, id: string) {
    id in rows && rows[id].status == Pending
  }

  /** A proposal still pending after some decisions was pending before, and none of them consumed it. */
  lemma {:induction false} StillPending(rows: Rows, c: Caller, items: seq<Item>, n: nat, k: nat, id: string)
    requires k <= n <= |items| && IsPending(RowsAt(rows, c, items, n), id)
    ensures IsPending(RowsAt(rows, c, items, k), id)
    ensures k < n && items[k].id == id ==> TicketAt(rows, c, items, k).call.None?
  {
    if k == n {
    } else {
      StillPending(rows, c, items, n - 1, k, id);
    }
  }

  /** What runs is the proposal as it was stored — this tenant's, still pending, not expired — and
      never what the client echoes. */
  lemma RunsWhatWasStored(rows: Rows, c: Caller, items: seq<Item>, n: nat)
    requires n < |items| && MayRun(TicketAt(rows, c, items, n))
    ensures var t := TicketAt(rows, c, items, n);
            && t.id in rows && rows[t.id].status == Pending
            && rows[t.id].workspace == c.workspace && rows[t.id].user == c.user
            && t.call.value.name == rows[t.id].call.name && t.call.value.args == rows[t.id].call.args
            && c.clock(n) - rows[t.id].createdAt <= TTL_SECONDS
            && rows[t.id].call.name in DANGEROUS_TOOLS
  {
    OnlyStatusChanges(rows, c, items, n, items[n].id);
    StillPending(rows, c, items, n, 0, items[n].id);
  }

  /** A proposal the client repeats in one resubmission runs once. */
  lemma RepeatsRunOnce(rows: Rows, c: Caller, items: seq<Item>, m: nat, n: nat)
    requires m < n < |items| && MayRun(TicketAt(rows, c, items, m)) && MayRun(TicketAt(rows, c, items, n))
    ensures items[m].id != items[n].id
  {
    StillPending(rows, c, items, n, m, items[n].id);
  }

  /** A decision that, while the row is pending, settles it. */
  predicate Settles(row: Approval, it: Item, id: string, now: int) {
    it.id == id && it.decision in {"approve", "deny"} && now - row.createdAt <= 3600
  }

  /** A proposal is still pending exactly if no earlier decision of its tenant settled it. */
  lemma {:induction false} PendingExactlyIfUnsettled(rows: Rows, c: Caller, items: seq<Item>, n: nat, id: string)
    requires n <= |items| && IsPending(rows, id) && id != ""
    requires rows[id].workspace == c.workspace != "" && rows[id].user == c.user
    ensures IsPending(RowsAt(rows, c, items, n), id) <==> forall k | 0 <= k < n :: !Settles(rows[id], items[k], id, c.clock(k))
  {
    if n == 0 {
    } else {
      PendingExactlyIfUnsettled(rows, c, items, n - 1, id);
      OnlyStatusChanges(rows, c, items, n - 1, id);
      var it := items[n - 1];
      DecisionsTakeEffect(RowsAt(rows, c, items, n - 1), it.id, c.workspace, c.user, it.decision, c.clock(n - 1));
    }
  }

  /** The n-th decision settles the tenant's own pending proposal, and is the first to. */
  ghost predicate SettlesFirst(rows: Rows, c: Caller, items: seq<Item>, n: nat)
    requires n < |items|
  {
    var id := items[n].id;
    && id != "" && c.workspace != "" && IsPending(rows, id)
    && rows[id].workspace == c.workspace && rows[id].user == c.user
    && Settles(rows[id], items[n], id, c.clock(n))
    && forall k | 0 <= k < n :: !Settles(rows[id], items[k], id, c.clock(k))
  }

  /** A ticket carries a call exactly if its decision is the first to settle the proposal, and then the
      stored one. */
  lemma TicketsExactlyIf(rows: Rows, c: Caller, items: seq<Item>, n: nat)
    requires n < |items|
    ensures var t := TicketAt(rows, c, items, n);
      && t.id == items[n].id && t.decision == items[n].decision
      && (t.call.Some? <==> SettlesFirst(rows, c, items, n))
      && (t.call.Some? ==> t.call == Some(Call(t.id, rows[t.id].call.name, rows[t.id].call.args)))
  {
    var id := items[n].id;
    OnlyStatusChanges(rows, c, items, n, id);
    DecisionsTakeEffect(RowsAt(rows, c, items, n), id, c.workspace, c.user, items[n].decision, c.clock(n));
    if IsPending(RowsAt(rows, c, items, n), id) {
      StillPending(rows, c, items, n, 0, id);
    }
    if id != "" && c.workspace != "" && IsPending(rows, id) && rows[id].workspace == c.workspace && rows[id].user == c.user {
      PendingExactlyIfUnsettled(rows, c, items, n, id);
    }
  }

  /** When a tool runs: the n-th act is a run, of the stored name and arguments, if and only if its decision
      is an approve, the first to settle the tenant's own pending proposal, and of a listed mutation. */
  lemma RunsExactlyIf(rows: Rows, c: Caller, items: seq<Item>, n: nat, a: Act)
    requires n < |items| && ActsOn(a, TicketAt(rows, c, items, n))
    ensures a.RanTool? <==> SettlesFirst(rows, c, items, n) && items[n].decision == "approve"
                            && rows[items[n].id].call.name in DANGEROUS_TOOLS
    ensures a.RanTool? ==> a.id == items[n].id && a.name == rows[a.id].call.name && a.args == rows[a.id].call.args
  {
    TicketsExactlyIf(rows, c, items, n);
  }

  /** What the transcript says of the n-th decision: the stored call and its result, or the refusal, under the
      approval id; or, if it settled nothing, a placeholder and a refusal. */
  lemma ReplaySays(rows: Rows, c: Caller, items: seq<Item>, n: nat, a: Act, m: Message)
    requires n < |items| && ActsOn(a, TicketAt(rows, c, items, n)) && IsAnswer(m, TicketAt(rows, c, items, n), a)
    ensures var id, call := items[n].id, ReplayedCalls(rows, c, items)[n];
      if SettlesFirst(rows, c, items, n) then
        && call == Call(id, rows[id].call.name, rows[id].call.args)
        && m == Answer(id, rows[id].call.name, if a.RanTool? then a.result
                                                else if items[n].decision == "deny" then DECLINED else UNCLASSIFIED)
      else
        && call.name == m.name == "invalid_approval" && call.args == "{}" && m.content == INVALID
        && (id != "" ==> call.id == m.callId == id)
        && (id == "" ==> call.id != m.callId)
  {
    TicketsExactlyIf(rows, c, items, n);
    AnswerIdMatches(rows, c, items, n);
  }

  /** The echoed name and arguments make no difference. */
  lemma {:induction false} EchoIsIgnored(rows: Rows, c: Caller, items: seq<Item>, items': seq<Item>, n: nat)
    requires |items| == |items'| && n <= |items|
    requires forall k | 0 <= k < |items| :: items[k].id == items'[k].id && items[k].decision == items'[k].decision
    ensures RowsAt(rows, c, items, n) == RowsAt(rows, c, items', n)
    ensures n < |items| ==> TicketAt(rows, c, items, n) == TicketAt(rows, c, items', n)
  {
    if n == 0 {
    } else {
      EchoIsIgnored(rows, c, items, items', n - 1);
    }
  }
}
