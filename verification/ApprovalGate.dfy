/** The human-in-the-loop gate under concurrency: any number of chat requests, of any tenants,
    whose steps interleave at every atomic access to the approvals table. */
module ApprovalGate {
  import opened Prelude
  import opened ToolAssembly
  import opened Approvals

  /** One entry of `approved_tool_calls`; name and arguments are what the client echoes back. */
  datatype Item = Item(id: string, decision: string, echoedName: string, echoedArgs: string)

  datatype Ticket = Ticket(id: string, decision: string, call: Option<Call>, takenAt: int)

  /** A resubmission: first every decision is consumed, then the tickets are acted on. */
  datatype Session = Session(workspace: string, user: string, items: seq<Item>, tickets: seq<Ticket>)

  datatype Event = Issued(id: string, workspace: string, user: string, call: Call, at: int)
                 | RanInline(workspace: string, user: string, name: string, args: string)
                 | RanApproved(id: string, workspace: string, user: string, name: string, args: string, takenAt: int)

  datatype State = State(rows: Rows, sessions: map<nat, Session>, log: seq<Event>)

  datatype Action = Propose(workspace: string, user: string, call: Call, id: string, at: int)
                  | RunSafe(workspace: string, user: string, name: string, args: string)
                  | Resubmit(sid: nat, workspace: string, user: string, items: seq<Item>)
                  | ConsumeNext(sid: nat, now: int)
                  | ActOnNext(sid: nat)
                  | Disconnect(sid: nat)

  ghost predicate Init(s: State) {
    s == State(map[], map[], [])
  }

  predicate MayRun(t: Ticket) {
    t.decision == "approve" && t.call.Some? && t.call.value.name in DANGEROUS_TOOLS
  }

  ghost predicate Step(s: State, a: Action, s': State) {
    match a
    case Propose(ws, user, call, id, at) =>
      && NeedsConfirmation(call.name) && ws != ""
      && id != "" && id !in s.rows
      && s' == s.(rows := s.rows[id := Approval(ws, user, call, Pending, at)],
                  log := s.log + [Issued(id, ws, user, call, at)])
    case RunSafe(ws, user, name, args) =>
      && !NeedsConfirmation(name)
      && s' == s.(log := s.log + [RanInline(ws, user, name, args)])
    case Resubmit(sid, ws, user, items) =>
      && sid !in s.sessions
      && s' == s.(sessions := s.sessions[sid := Session(ws, user, items, [])])
    case ConsumeNext(sid, now) =>
      && sid in s.sessions && s.sessions[sid].items != []
      && var ss := s.sessions[sid];
      && var it := ss.items[0];
      && var t := Ticket(it.id, it.decision,
                         StoredCall(s.rows, it.id, ss.workspace, ss.user, it.decision, now), now);
      && s' == s.(rows := Consumed(s.rows, it.id, ss.workspace, ss.user, it.decision, now),
                  sessions := s.sessions[sid := ss.(items := ss.items[1..], tickets := ss.tickets + [t])])
    case ActOnNext(sid) =>
      && sid in s.sessions && s.sessions[sid].items == [] && s.sessions[sid].tickets != []
      && var ss := s.sessions[sid];
      && var t := ss.tickets[0];
      && s' == s.(sessions := s.sessions[sid := ss.(tickets := ss.tickets[1..])],
                  log := if MayRun(t)
                         then s.log + [RanApproved(t.id, ss.workspace, ss.user, t.call.value.name, t.call.value.args, t.takenAt)]
                         else s.log)
    case Disconnect(sid) =>
      s' == s.(sessions := s.sessions - {sid})
  }

  ghost predicate IsRun(run: seq<State>, acts: seq<Action>) {
    && |run| == |acts| + 1 && Init(run[0])
    && forall i | 0 <= i < |acts| :: Step(run[i], acts[i], run[i + 1])
  }

  // ---- what must hold of every log ----

  /** Event j ran what event i stored: same tenant, same name, same arguments, still fresh. */
  ghost predicate Authorises(i: Event, j: Event) {
    && i.Issued? && j.RanApproved?
    && i.id == j.id && i.workspace == j.workspace && i.user == j.user
    && i.call.name == j.name && i.call.args == j.args
    && j.takenAt - i.at <= TTL_SECONDS
  }

  ghost predicate SafeLog(log: seq<Event>) {
    && (forall j | 0 <= j < |log| && log[j].RanInline? :: log[j].name in SAFE_TOOLS)
    && (forall j | 0 <= j < |log| && log[j].RanApproved? ::
          log[j].name in DANGEROUS_TOOLS && log[j].name !in SAFE_TOOLS
          && exists i :: 0 <= i < j && Authorises(log[i], log[j]))
    && (forall i, j | 0 <= i < j < |log| && log[i].RanApproved? && log[j].RanApproved? :: log[i].id != log[j].id)
    && (forall i, j | 0 <= i < j < |log| && log[i].Issued? && log[j].Issued? :: log[i].id != log[j].id)
  }

  // ---- the invariant ----

  ghost predicate IssuedFor(log: seq<Event>, id: string, row: Approval) {
    exists i :: 0 <= i < |log| && log[i] == Issued(id, row.workspace, row.user, row.call, row.createdAt)
  }

  ghost predicate RowsMatchLog(s: State) {
    && (forall id | id in s.rows :: IssuedFor(s.log, id, s.rows[id]))
    && (forall i | 0 <= i < |s.log| && s.log[i].Issued? :: s.log[i].id in s.rows)
    && (forall i | 0 <= i < |s.log| && s.log[i].RanApproved? ::
          s.log[i].id in s.rows && s.rows[s.log[i].id].status == Approved)
  }

  ghost predicate Live(s: State, sid: nat, k: nat) {
    sid in s.sessions && k < |s.sessions[sid].tickets| && s.sessions[sid].tickets[k].call.Some?
  }

  function TicketId(s: State, sid: nat, k: nat): string
    requires sid in s.sessions && k < |s.sessions[sid].tickets|
  {
    s.sessions[sid].tickets[k].id
  }

  /** A live ticket is the one claim on its row, and carries the row's call. */
  ghost predicate TicketBacked(s: State, ss: Session, t: Ticket) {
    && t.id in s.rows
    && var row := s.rows[t.id];
    && row.status == StatusOf(t.decision)
    && row.workspace == ss.workspace && row.user == ss.user
    && t.call == Some(row.call.(id := t.id))
    && t.takenAt - row.createdAt <= TTL_SECONDS
    && forall i | 0 <= i < |s.log| && s.log[i].RanApproved? :: s.log[i].id != t.id
  }

  ghost predicate TicketsBacked(s: State) {
    forall sid: nat, k: nat | Live(s, sid, k) :: TicketBacked(s, s.sessions[sid], s.sessions[sid].tickets[k])
  }

  ghost predicate ClaimsUnique(s: State) {
    forall a: nat, i: nat, b: nat, j: nat | Live(s, a, i) && Live(s, b, j) && TicketId(s, a, i) == TicketId(s, b, j) ::
      a == b && i == j
  }

  ghost predicate Inv(s: State) {
    SafeLog(s.log) && RowsMatchLog(s) && TicketsBacked(s) && ClaimsUnique(s)
  }

  lemma ToolSetsAreDisjoint(name: string)
    requires name in DANGEROUS_TOOLS
    ensures NeedsConfirmation(name)
  {
  }

  lemma ProposeKeepsInv(s: State, a: Action, s': State)
    requires Inv(s) && a.Propose? && Step(s, a, s')
    ensures Inv(s')
  {
    var e := Issued(a.id, a.workspace, a.user, a.call, a.at);
    assert s'.log[|s.log|] == e;
    forall id | id in s'.rows ensures IssuedFor(s'.log, id, s'.rows[id]) {
      if id != a.id {
        var i :| 0 <= i < |s.log| && s.log[i] == Issued(id, s.rows[id].workspace, s.rows[id].user, s.rows[id].call, s.rows[id].createdAt);
        assert s'.log[i] == s.log[i];
      }
    }
    SafeLogExtends(s.log, e);
    ProposeKeepsTickets(s, a, s');
  }

  lemma ProposeKeepsTickets(s: State, a: Action, s': State)
    requires TicketsBacked(s) && ClaimsUnique(s) && a.Propose? && Step(s, a, s')
    ensures TicketsBacked(s') && ClaimsUnique(s')
  {
    forall sid: nat, k: nat | Live(s', sid, k)
      ensures Live(s, sid, k) && TicketId(s', sid, k) == TicketId(s, sid, k)
      ensures TicketBacked(s', s'.sessions[sid], s'.sessions[sid].tickets[k])
    {
      assert Live(s, sid, k) && TicketBacked(s, s.sessions[sid], s.sessions[sid].tickets[k]);
    }
  }

  /** Appending one event keeps a safe log safe when the event itself is in order. */
  lemma SafeLogExtends(log: seq<Event>, e: Event)
    requires SafeLog(log)
    requires e.RanInline? ==> e.name in SAFE_TOOLS
    requires e.RanApproved? ==> e.name in DANGEROUS_TOOLS
                                && (exists i :: 0 <= i < |log| && Authorises(log[i], e))
                                && forall i | 0 <= i < |log| && log[i].RanApproved? :: log[i].id != e.id
    requires e.Issued? ==> forall i | 0 <= i < |log| && log[i].Issued? :: log[i].id != e.id
    ensures SafeLog(log + [e])
  {
    var log' := log + [e];
    forall j | 0 <= j < |log'| && log'[j].RanApproved?
      ensures log'[j].name in DANGEROUS_TOOLS && log'[j].name !in SAFE_TOOLS
      ensures exists i :: 0 <= i < j && Authorises(log'[i], log'[j])
    {
      if j < |log| {
        var i :| 0 <= i < j && Authorises(log[i], log[j]);
        assert Authorises(log'[i], log'[j]);
      } else {
        ToolSetsAreDisjoint(e.name);
        var i :| 0 <= i < |log| && Authorises(log[i], e);
        assert Authorises(log'[i], log'[j]);
      }
    }
  }

  lemma ConsumeKeepsRowsMatched(s: State, a: Action, s': State)
    requires RowsMatchLog(s) && a.ConsumeNext? && Step(s, a, s')
    ensures RowsMatchLog(s')
  {
    forall id | id in s'.rows ensures IssuedFor(s'.log, id, s'.rows[id]) {
      assert IssuedFor(s.log, id, s.rows[id]);
    }
  }

  /** Tickets already held have left their rows' pending state, so the one just taken is another. */
  lemma ConsumeKeepsTickets(s: State, a: Action, s': State)
    requires RowsMatchLog(s) && TicketsBacked(s) && ClaimsUnique(s) && a.ConsumeNext? && Step(s, a, s')
    ensures TicketsBacked(s') && ClaimsUnique(s')
  {
    var ss, sid := s.sessions[a.sid], a.sid;
    var it, n := ss.items[0], |ss.tickets|;
    forall b: nat, k: nat | Live(s', b, k)
      ensures TicketBacked(s', s'.sessions[b], s'.sessions[b].tickets[k])
      ensures !(b == sid && k == n) ==>
                Live(s, b, k) && TicketId(s', b, k) == TicketId(s, b, k)
                && (Live(s', sid, n) ==> TicketId(s, b, k) != it.id)
    {
      if !(b == sid && k == n) {
        assert Live(s, b, k) && s'.sessions[b].tickets[k] == s.sessions[b].tickets[k];
        assert TicketBacked(s, s.sessions[b], s.sessions[b].tickets[k]);
      }
    }
  }

  lemma ActShiftsTickets(s: State, a: Action, s': State, b: nat, k: nat)
    requires a.ActOnNext? && Step(s, a, s') && Live(s', b, k)
    ensures var k' := if b == a.sid then k + 1 else k;
            Live(s, b, k') && s'.sessions[b].tickets[k] == s.sessions[b].tickets[k']
            && s'.sessions[b].workspace == s.sessions[b].workspace && s'.sessions[b].user == s.sessions[b].user
  {
  }

  lemma ActKeepsTickets(s: State, a: Action, s': State)
    requires TicketsBacked(s) && ClaimsUnique(s) && a.ActOnNext? && Step(s, a, s')
    ensures TicketsBacked(s') && ClaimsUnique(s')
  {
    var sid := a.sid;
    var t := s.sessions[sid].tickets[0];
    forall b: nat, k: nat | Live(s', b, k)
      ensures TicketBacked(s', s'.sessions[b], s'.sessions[b].tickets[k])
    {
      var k' := if b == sid then k + 1 else k;
      ActShiftsTickets(s, a, s', b, k);
      var u := s.sessions[b].tickets[k'];
      assert TicketBacked(s, s.sessions[b], u);
      if MayRun(t) {
        assert Live(s, sid, 0) && TicketId(s, sid, 0) == t.id && TicketId(s, b, k') == u.id;
        assert u.id != t.id;
      }
    }
    forall b: nat, i: nat, c: nat, j: nat | Live(s', b, i) && Live(s', c, j) && TicketId(s', b, i) == TicketId(s', c, j)
      ensures b == c && i == j
    {
      ActShiftsTickets(s, a, s', b, i);
      ActShiftsTickets(s, a, s', c, j);
      var i', j' := if b == sid then i + 1 else i, if c == sid then j + 1 else j;
      assert TicketId(s, b, i') == TicketId(s, c, j');
    }
  }

  lemma ActKeepsLog(s: State, a: Action, s': State)
    requires SafeLog(s.log) && RowsMatchLog(s) && TicketsBacked(s) && a.ActOnNext? && Step(s, a, s')
    ensures SafeLog(s'.log) && RowsMatchLog(s')
  {
    var ss := s.sessions[a.sid];
    var t := ss.tickets[0];
    if MayRun(t) {
      assert Live(s, a.sid, 0) && TicketBacked(s, ss, t);
      var row := s.rows[t.id];
      var e := s'.log[|s.log|];
      assert IssuedFor(s.log, t.id, row);
      var i :| 0 <= i < |s.log| && s.log[i] == Issued(t.id, row.workspace, row.user, row.call, row.createdAt);
      assert Authorises(s.log[i], e);
      SafeLogExtends(s.log, e);
      IssuedForExtends(s, e);
    }
  }

  lemma IssuedForExtends(s: State, e: Event)
    requires RowsMatchLog(s)
    ensures forall id | id in s.rows :: IssuedFor(s.log + [e], id, s.rows[id])
  {
    forall id | id in s.rows ensures IssuedFor(s.log + [e], id, s.rows[id]) {
      assert IssuedFor(s.log, id, s.rows[id]);
      var i :| 0 <= i < |s.log| && s.log[i] == Issued(id, s.rows[id].workspace, s.rows[id].user, s.rows[id].call, s.rows[id].createdAt);
      assert (s.log + [e])[i] == s.log[i];
    }
  }

  lemma StepKeepsInv(s: State, a: Action, s': State)
    requires Inv(s) && Step(s, a, s')
    ensures Inv(s')
  {
    match a
    case Propose(_, _, _, _, _) => ProposeKeepsInv(s, a, s');
    case ConsumeNext(_, _) =>
      ConsumeKeepsRowsMatched(s, a, s');
      ConsumeKeepsTickets(s, a, s');
    case ActOnNext(_) =>
      ActKeepsLog(s, a, s');
      ActKeepsTickets(s, a, s');
    case RunSafe(_, _, _, _) =>
      SafeLogExtends(s.log, s'.log[|s.log|]);
      IssuedForExtends(s, s'.log[|s.log|]);
      SameTickets(s, s');
    case _ =>
      forall sid: nat, k: nat | Live(s', sid, k)
        ensures Live(s, sid, k) && TicketId(s', sid, k) == TicketId(s, sid, k)
        ensures TicketBacked(s', s'.sessions[sid], s'.sessions[sid].tickets[k])
      {
        assert Live(s, sid, k) && TicketBacked(s, s.sessions[sid], s.sessions[sid].tickets[k]);
      }
  }

  lemma SameTickets(s: State, s': State)
    requires TicketsBacked(s) && ClaimsUnique(s) && s'.sessions == s.sessions && s'.rows == s.rows
    requires forall i | 0 <= i < |s'.log| && s'.log[i].RanApproved? :: i < |s.log| && s.log[i] == s'.log[i]
    ensures TicketsBacked(s') && ClaimsUnique(s')
  {
    forall sid: nat, k: nat | Live(s', sid, k)
      ensures Live(s, sid, k) && TicketId(s', sid, k) == TicketId(s, sid, k)
      ensures TicketBacked(s', s'.sessions[sid], s'.sessions[sid].tickets[k])
    {
      assert Live(s, sid, k) && TicketBacked(s, s.sessions[sid], s.sessions[sid].tickets[k]);
    }
  }

  /** Over every interleaving: inline runs are read-only tools; every other run is a listed mutation
      that one earlier proposal of the same tenant stored, with the stored name and arguments, taken
      within its lifetime; and no proposal is run twice. */
  lemma {:induction false} EveryRunIsSafe(run: seq<State>, acts: seq<Action>)
    requires IsRun(run, acts)
    ensures forall i | 0 <= i < |run| :: Inv(run[i]) && SafeLog(run[i].log)
  {
    for n := 0 to |acts|
      invariant forall i | 0 <= i <= n :: Inv(run[i])
    {
      StepKeepsInv(run[n], acts[n], run[n + 1]);
    }
  }

  // ---- a denied or consumed proposal is spent for good ----

  lemma SpentStaysSpent(s: State, a: Action, s': State, id: string)
    requires Step(s, a, s') && id in s.rows && s.rows[id].status != Pending
    ensures id in s'.rows && s'.rows[id] == s.rows[id]
  {
  }

  /** Once denied, a proposal never runs, whatever is resubmitted later. */
  lemma {:induction false} DeniedNeverRuns(run: seq<State>, acts: seq<Action>, i: nat, id: string)
    requires IsRun(run, acts) && i < |run|
    requires id in run[i].rows && run[i].rows[id].status == Denied
    ensures forall n | i <= n < |run| ::
      forall j | 0 <= j < |run[n].log| && run[n].log[j].RanApproved? :: run[n].log[j].id != id
  {
    EveryRunIsSafe(run, acts);
    for n := i to |acts|
      invariant forall m | i <= m <= n :: id in run[m].rows && run[m].rows[id].status == Denied
    {
      SpentStaysSpent(run[n], acts[n], run[n + 1], id);
    }
  }

  /** This step takes the tenant's deny of its own pending proposal, within the hour. */
  ghost predicate Denies(s: State, a: Action, id: string) {
    && a.ConsumeNext? && a.sid in s.sessions && s.sessions[a.sid].items != []
    && var ss := s.sessions[a.sid];
    && ss.items[0].id == id && ss.items[0].decision == "deny"
    && id != "" && ss.workspace != "" && id in s.rows
    && s.rows[id].workspace == ss.workspace && s.rows[id].user == ss.user
    && s.rows[id].status == Pending && a.now - s.rows[id].createdAt <= 3600
  }

  /** From then on the proposal is denied, and no later state has run it. */
  lemma DenyingIsFinal(run: seq<State>, acts: seq<Action>, k: nat, id: string)
    requires IsRun(run, acts) && k < |acts| && Denies(run[k], acts[k], id)
    ensures id in run[k + 1].rows && run[k + 1].rows[id].status == Denied
    ensures forall n | k < n < |run| ::
      forall j | 0 <= j < |run[n].log| && run[n].log[j].RanApproved? :: run[n].log[j].id != id
  {
    var ss := run[k].sessions[acts[k].sid];
    DecisionsTakeEffect(run[k].rows, id, ss.workspace, ss.user, "deny", acts[k].now);
    DeniedNeverRuns(run, acts, k + 1, id);
  }
}
