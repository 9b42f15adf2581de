/** Chat requests under concurrency. Each request is a small machine: it consumes its decisions, acts on
    them, then goes through its tool loop. Any interleaving of the steps of any requests is a run of the
    approval gate, so the gate's safety theorem speaks of what chat requests do together. */
module ChatIsGated {
  import opened Approvals
  import opened ApprovalGate
  import opened ApprovalReplay
  import Loop = ToolLoop

  /** A request in progress: the tickets taken so far, how many were acted on, and its loop's log. */
  datatype Request = Request(c: Caller, paired: bool, items: seq<Item>, tickets: seq<Ticket>, acted: nat, events: seq<Loop.LoopEvent>)

  datatype Mix = Mix(rows: Rows, requests: map<nat, Request>, log: seq<Event>)

  datatype Move = Arrive(rid: nat, c: Caller, paired: bool, items: seq<Item>)
                | Decide(rid: nat)
                | ActOn(rid: nat, a: Act)
                | Speak(rid: nat, e: Loop.LoopEvent)
                | Leave(rid: nat)

  /** What the gate's log records of one act on a decision. */
  function ActEvents(a: Act, c: Caller, takenAt: int): seq<Event> {
    if a.RanTool? then [RanApproved(a.id, c.workspace, c.user, a.name, a.args, takenAt)] else []
  }

  /** What it records of one event of a tool loop: inline runs and proposals. */
  function LoopEvents(e: Loop.LoopEvent, c: Caller): seq<Event> {
    match e
    case Ran(name, args, _) => [RanInline(c.workspace, c.user, name, args)]
    case Proposed(id, row) => [Issued(id, c.workspace, c.user, row.call, row.createdAt)]
    case _ => []
  }

  function RowsWith(rows: Rows, e: Loop.LoopEvent): Rows {
    if e.Proposed? then rows[e.id := e.row] else rows
  }

  predicate Fits(r: Request) {
    r.c.workspace != "" && r.acted <= |r.tickets| <= |r.items|
  }

  /** The next decision is consumed from the rows as they are now. */
  function Decided(m: Mix, r: Request): Ticket
    requires |r.tickets| < |r.items|
  {
    var it, now := r.items[|r.tickets|], r.c.clock(|r.tickets|);
    Ticket(it.id, it.decision, StoredCall(m.rows, it.id, r.c.workspace, r.c.user, it.decision, now), now)
  }

  function RowsDecided(m: Mix, r: Request): Rows
    requires |r.tickets| < |r.items|
  {
    var it := r.items[|r.tickets|];
    Consumed(m.rows, it.id, r.c.workspace, r.c.user, it.decision, r.c.clock(|r.tickets|))
  }

  ghost predicate Moves(m: Mix, r: Request, v: Move, m': Mix)
    requires Fits(r)
  {
    match v
    case Decide(rid) =>
      && |r.tickets| < |r.items|
      && m' == Mix(RowsDecided(m, r), m.requests[rid := r.(tickets := r.tickets + [Decided(m, r)])], m.log)
    case ActOn(rid, a) =>
      && r.acted < |r.tickets| == |r.items| && ActsOn(a, r.tickets[r.acted])
      && m' == Mix(m.rows, m.requests[rid := r.(acted := r.acted + 1)], m.log + ActEvents(a, r.c, r.tickets[r.acted].takenAt))
    case Speak(rid, e) =>
      && r.acted == |r.items| && Loop.LegalEvent(Loop.Start(m.rows, r.c.workspace, r.c.user, r.paired), r.events, e)
      && m' == Mix(RowsWith(m.rows, e), m.requests[rid := r.(events := r.events + [e])], m.log + LoopEvents(e, r.c))
    case Leave(rid) =>
      m' == m.(requests := m.requests - {rid})
    case _ => false
  }

  ghost predicate Step(m: Mix, v: Move, m': Mix) {
    if v.Arrive? then
      && v.rid !in m.requests && v.c.workspace != ""
      && m' == m.(requests := m.requests[v.rid := Request(v.c, v.paired, v.items, [], 0, [])])
    else
      v.rid in m.requests && Fits(m.requests[v.rid]) && Moves(m, m.requests[v.rid], v, m')
  }

  ghost predicate Happens(mixes: seq<Mix>, moves: seq<Move>, i: nat)
    requires i < |moves| < |mixes|
  {
    Step(mixes[i], moves[i], mixes[i + 1])
  }

  ghost predicate IsMixture(mixes: seq<Mix>, moves: seq<Move>) {
    && |mixes| == |moves| + 1 && mixes[0] == Mix(map[], map[], [])
    && forall i: nat | i < |moves| :: Happens(mixes, moves, i)
  }

  // ---- every interleaving is a run of the gate ----

  /** The decisions still to consume and the tickets still to act on. */
  function SessionOf(r: Request): Session {
    if Fits(r) then Session(r.c.workspace, r.c.user, r.items[|r.tickets|..], r.tickets[r.acted..])
    else Session(r.c.workspace, r.c.user, [], [])
  }

  function GateOf(m: Mix): State {
    State(m.rows, map rid | rid in m.requests :: SessionOf(m.requests[rid]), m.log)
  }

  lemma GateOfUpdate(m: Mix, m': Mix, rid: nat, r: Request)
    requires m'.requests == m.requests[rid := r]
    ensures GateOf(m').sessions == GateOf(m).sessions[rid := SessionOf(r)]
  {
  }

  lemma DecideIsAStep(m: Mix, rid: nat, m': Mix)
    requires Step(m, Decide(rid), m')
    ensures ApprovalGate.Step(GateOf(m), ConsumeNext(rid, m.requests[rid].c.clock(|m.requests[rid].tickets|)), GateOf(m'))
  {
    var r := m.requests[rid];
    var n := |r.tickets|;
    GateOfUpdate(m, m', rid, r.(tickets := r.tickets + [Decided(m, r)]));
    assert r.items[n..][0] == r.items[n] && r.items[n..][1..] == r.items[n + 1..];
    assert (r.tickets + [Decided(m, r)])[r.acted..] == r.tickets[r.acted..] + [Decided(m, r)];
  }

  lemma ActOnIsAStep(m: Mix, rid: nat, a: Act, m': Mix)
    requires Step(m, ActOn(rid, a), m')
    ensures ApprovalGate.Step(GateOf(m), ActOnNext(rid), GateOf(m'))
  {
    var r := m.requests[rid];
    var k := r.acted;
    GateOfUpdate(m, m', rid, r.(acted := k + 1));
    assert r.items[|r.tickets|..] == [];
    assert r.tickets[k..][0] == r.tickets[k] && r.tickets[k..][1..] == r.tickets[k + 1..];
    assert m.log + [] == m.log;
  }

  /** Rows a turn finds at any moment include those it proposed before. */
  lemma {:induction false} KeysKept(rows: Rows, log: seq<Loop.LoopEvent>, id: string)
    requires id in rows
    ensures id in Loop.RowsAfter(rows, log)
  {
    if log == [] {
    } else {
      KeysKept(rows, Loop.Init(log), id);
    }
  }

  /** An inline run and a proposal are steps of the gate; the turn's other events are none. */
  lemma SpeakIsAStep(m: Mix, rid: nat, e: Loop.LoopEvent, m': Mix)
    requires Step(m, Speak(rid, e), m')
    ensures match e
            case Ran(name, args, _) =>
              ApprovalGate.Step(GateOf(m), RunSafe(m.requests[rid].c.workspace, m.requests[rid].c.user, name, args), GateOf(m'))
            case Proposed(id, row) =>
              ApprovalGate.Step(GateOf(m), Propose(row.workspace, row.user, row.call, id, row.createdAt), GateOf(m'))
            case _ => GateOf(m') == GateOf(m)
  {
    var r := m.requests[rid];
    GateOfUpdate(m, m', rid, r.(events := r.events + [e]));
    assert SessionOf(r.(events := r.events + [e])) == SessionOf(r);
    assert GateOf(m').sessions == GateOf(m).sessions;
    assert m.log + [] == m.log;
    if e.Proposed? {
      if e.id in m.rows {
        KeysKept(m.rows, r.events, e.id);
      }
      assert e.row == Approval(r.c.workspace, r.c.user, e.row.call, Pending, e.row.createdAt);
    }
  }

  lemma ArriveIsAStep(m: Mix, v: Move, m': Mix)
    requires v.Arrive? && Step(m, v, m')
    ensures ApprovalGate.Step(GateOf(m), Resubmit(v.rid, v.c.workspace, v.c.user, v.items), GateOf(m'))
  {
    var r := Request(v.c, v.paired, v.items, [], 0, []);
    GateOfUpdate(m, m', v.rid, r);
    assert r.items[0..] == r.items && r.tickets[0..] == [];
  }

  lemma LeaveIsAStep(m: Mix, rid: nat, m': Mix)
    requires Step(m, Leave(rid), m')
    ensures ApprovalGate.Step(GateOf(m), Disconnect(rid), GateOf(m'))
  {
    assert GateOf(m').sessions == GateOf(m).sessions - {rid};
  }

  lemma ExtendGate(run: seq<State>, acts: seq<Action>, a: Action, s: State) returns (run': seq<State>, acts': seq<Action>)
    requires IsRun(run, acts) && ApprovalGate.Step(run[|run| - 1], a, s)
    ensures IsRun(run', acts') && run'[|run'| - 1] == s
  {
    run', acts' := run + [s], acts + [a];
  }

  /** After any number of moves of any requests the gate has a run that ends in the same rows and log. */
  lemma {:induction false} MixtureIsARun(mixes: seq<Mix>, moves: seq<Move>, n: nat) returns (run: seq<State>, acts: seq<Action>)
    requires IsMixture(mixes, moves) && n < |mixes|
    ensures IsRun(run, acts) && run[|run| - 1] == GateOf(mixes[n])
  {
    if n == 0 {
      run, acts := [GateOf(mixes[0])], [];
    } else {
      run, acts := MixtureIsARun(mixes, moves, n - 1);
      assert Happens(mixes, moves, n - 1);
      run, acts := MoveExtends(run, acts, mixes[n - 1], moves[n - 1], mixes[n]);
    }
  }

  lemma MoveExtends(run: seq<State>, acts: seq<Action>, m: Mix, v: Move, m': Mix) returns (run': seq<State>, acts': seq<Action>)
    requires IsRun(run, acts) && run[|run| - 1] == GateOf(m) && Step(m, v, m')
    ensures IsRun(run', acts') && run'[|run'| - 1] == GateOf(m')
  {
    match v
    case Arrive(rid, c, _, items) =>
      ArriveIsAStep(m, v, m');
      run', acts' := ExtendGate(run, acts, Resubmit(rid, c.workspace, c.user, items), GateOf(m'));
    case Decide(rid) =>
      DecideIsAStep(m, rid, m');
      run', acts' := ExtendGate(run, acts, ConsumeNext(rid, m.requests[rid].c.clock(|m.requests[rid].tickets|)), GateOf(m'));
    case ActOn(rid, a) =>
      ActOnIsAStep(m, rid, a, m');
      run', acts' := ExtendGate(run, acts, ActOnNext(rid), GateOf(m'));
    case Speak(rid, e) =>
      SpeakIsAStep(m, rid, e, m');
      var c := m.requests[rid].c;
      if e.Ran? {
        run', acts' := ExtendGate(run, acts, RunSafe(c.workspace, c.user, e.name, e.args), GateOf(m'));
      } else if e.Proposed? {
        run', acts' := ExtendGate(run, acts, Propose(e.row.workspace, e.row.user, e.row.call, e.id, e.row.createdAt), GateOf(m'));
      } else {
        run', acts' := run, acts;
      }
    case Leave(rid) =>
      LeaveIsAStep(m, rid, m');
      run', acts' := ExtendGate(run, acts, Disconnect(rid), GateOf(m'));
  }

  /** Whatever requests do together, in any interleaving: read-only tools alone run inline, a mutating tool
      runs at most once per approval and as its own tenant stored it, within the lifetime. */
  lemma EveryMixtureIsSafe(mixes: seq<Mix>, moves: seq<Move>)
    requires IsMixture(mixes, moves)
    ensures SafeLog(mixes[|mixes| - 1].log)
  {
    var run, acts := MixtureIsARun(mixes, moves, |mixes| - 1);
    EveryRunIsSafe(run, acts);
  }

  // ---- what the chat endpoint does is such a sequence of moves ----

  function ActLog(acts: seq<Act>, c: Caller): seq<Event> {
    if acts == [] then []
    else
      var n := |acts| - 1;
      ActLog(acts[..n], c) + ActEvents(acts[n], c, c.clock(n))
  }

  function LoopLog(log: seq<Loop.LoopEvent>, c: Caller): seq<Event> {
    if log == [] then [] else LoopLog(Loop.Init(log), c) + LoopEvents(Loop.Last(log), c)
  }

  function Tickets(rows: Rows, c: Caller, items: seq<Item>, n: nat): (tickets: seq<Ticket>)
    requires n <= |items|
    ensures |tickets| == n && forall k | 0 <= k < n :: tickets[k] == TicketAt(rows, c, items, k)
  {
    seq(n, k requires 0 <= k < n => TicketAt(rows, c, items, k))
  }

  lemma Extend(mixes: seq<Mix>, moves: seq<Move>, v: Move, m: Mix) returns (mixes': seq<Mix>, moves': seq<Move>)
    requires IsMixture(mixes, moves) && Step(mixes[|mixes| - 1], v, m)
    ensures IsMixture(mixes', moves') && mixes' == mixes + [m] && moves' == moves + [v]
  {
    mixes', moves' := mixes + [m], moves + [v];
    forall i: nat | i < |moves'| ensures Happens(mixes', moves', i) {
      assert i < |moves| ==> Happens(mixes, moves, i);
    }
  }

  /** Consuming every decision, one move each. */
  lemma {:induction false} Deciding(mixes: seq<Mix>, moves: seq<Move>, rid: nat, c: Caller, paired: bool, items: seq<Item>, n: nat)
    returns (mixes': seq<Mix>, moves': seq<Move>)
    requires IsMixture(mixes, moves) && rid !in mixes[|mixes| - 1].requests && c.workspace != "" && n <= |items|
    ensures IsMixture(mixes', moves') && mixes <= mixes'
    ensures var m := mixes[|mixes| - 1];
      mixes'[|mixes'| - 1] ==
        Mix(RowsAt(m.rows, c, items, n), m.requests[rid := Request(c, paired, items, Tickets(m.rows, c, items, n), 0, [])], m.log)
  {
    var m := mixes[|mixes| - 1];
    var next := Mix(RowsAt(m.rows, c, items, n), m.requests[rid := Request(c, paired, items, Tickets(m.rows, c, items, n), 0, [])], m.log);
    if n == 0 {
      mixes', moves' := Extend(mixes, moves, Arrive(rid, c, paired, items), next);
    } else {
      mixes', moves' := Deciding(mixes, moves, rid, c, paired, items, n - 1);
      assert Tickets(m.rows, c, items, n) == Tickets(m.rows, c, items, n - 1) + [TicketAt(m.rows, c, items, n - 1)];
      mixes', moves' := Extend(mixes', moves', Decide(rid), next);
    }
  }

  lemma ActsOnce(m: Mix, rid: nat, r: Request, acts: seq<Act>, n: nat, before: Mix, next: Mix)
    requires 0 < n <= |r.tickets| == |r.items| == |acts| && Fits(r) && ActsOn(acts[n - 1], r.tickets[n - 1])
    requires r.tickets[n - 1].takenAt == r.c.clock(n - 1)
    requires before == Mix(m.rows, m.requests[rid := r.(acted := n - 1)], m.log + ActLog(acts[..n - 1], r.c))
    requires next == Mix(m.rows, m.requests[rid := r.(acted := n)], m.log + ActLog(acts[..n], r.c))
    ensures Step(before, ActOn(rid, acts[n - 1]), next)
  {
    assert acts[..n][..n - 1] == acts[..n - 1];
    assert before.requests[rid := r.(acted := n)] == next.requests;
    assert next.log == before.log + ActEvents(acts[n - 1], r.c, r.c.clock(n - 1));
  }

  /** Acting on the tickets, one move each. */
  lemma {:induction false} Acting(mixes: seq<Mix>, moves: seq<Move>, rid: nat, r: Request, acts: seq<Act>, n: nat)
    returns (mixes': seq<Mix>, moves': seq<Move>)
    requires IsMixture(mixes, moves) && n <= |r.tickets| == |r.items| == |acts|
    requires rid in mixes[|mixes| - 1].requests && mixes[|mixes| - 1].requests[rid] == r && r.acted == 0 && r.c.workspace != ""
    requires forall k | 0 <= k < |acts| :: ActsOn(acts[k], r.tickets[k]) && r.tickets[k].takenAt == r.c.clock(k)
    ensures IsMixture(mixes', moves') && mixes <= mixes'
    ensures var m := mixes[|mixes| - 1];
      mixes'[|mixes'| - 1] == Mix(m.rows, m.requests[rid := r.(acted := n)], m.log + ActLog(acts[..n], r.c))
  {
    var m := mixes[|mixes| - 1];
    if n == 0 {
      mixes', moves' := mixes, moves;
      assert m.requests[rid := r] == m.requests && m.log + [] == m.log;
    } else {
      mixes', moves' := Acting(mixes, moves, rid, r, acts, n - 1);
      var next := Mix(m.rows, m.requests[rid := r.(acted := n)], m.log + ActLog(acts[..n], r.c));
      ActsOnce(m, rid, r, acts, n, mixes'[|mixes'| - 1], next);
      mixes', moves' := Extend(mixes', moves', ActOn(rid, acts[n - 1]), next);
    }
  }

  /** What a turn proposed itself is among the rows it finds, as long as nobody else intervenes. */
  lemma {:induction false} NothingNew(rows: Rows, log: seq<Loop.LoopEvent>, rows': Rows, id: string)
    requires forall i | i in Loop.RowsAfter(rows, log) :: i in rows'
    ensures id in Loop.RowsAfter(rows', log) ==> id in rows'
  {
    if log == [] {
    } else {
      forall i | i in Loop.RowsAfter(rows, Loop.Init(log)) ensures i in rows' {
        assert i in Loop.RowsAfter(rows, log);
      }
      NothingNew(rows, Loop.Init(log), rows', id);
    }
  }

  /** An event legal after what the turn did is legal for the rows it finds then. */
  lemma LegalNow(start: Loop.Start, before: seq<Loop.LoopEvent>, e: Loop.LoopEvent)
    requires Loop.LegalEvent(start, before, e)
    ensures Loop.LegalEvent(start.(rows := Loop.RowsAfter(start.rows, before)), before, e)
  {
    if e.Proposed? {
      NothingNew(start.rows, before, Loop.RowsAfter(start.rows, before), e.id);
    }
  }

  lemma SpeaksOnce(m: Mix, rid: nat, r: Request, start: Loop.Start, log: seq<Loop.LoopEvent>, before: Mix, next: Mix)
    requires log != [] && Loop.Legal(start, log) && Fits(r) && r.acted == |r.items|
    requires start == Loop.Start(m.rows, r.c.workspace, r.c.user, r.paired)
    requires before == Mix(Loop.RowsAfter(m.rows, Loop.Init(log)), m.requests[rid := r.(events := Loop.Init(log))],
                           m.log + LoopLog(Loop.Init(log), r.c))
    requires next == Mix(Loop.RowsAfter(m.rows, log), m.requests[rid := r.(events := log)], m.log + LoopLog(log, r.c))
    ensures Step(before, Speak(rid, Loop.Last(log)), next)
  {
    var e := Loop.Last(log);
    LegalNow(start, Loop.Init(log), e);
    assert Loop.Init(log) + [e] == log;
    assert before.requests[rid := r.(events := log)] == next.requests;
    assert next.log == before.log + LoopEvents(e, r.c);
  }

  /** The tool loop, one move for each of its events. */
  lemma {:induction false} Speaking(mixes: seq<Mix>, moves: seq<Move>, rid: nat, r: Request, start: Loop.Start, log: seq<Loop.LoopEvent>)
    returns (mixes': seq<Mix>, moves': seq<Move>)
    requires IsMixture(mixes, moves) && Loop.Legal(start, log)
    requires rid in mixes[|mixes| - 1].requests && mixes[|mixes| - 1].requests[rid] == r && r.events == []
    requires Fits(r) && r.acted == |r.items|
    requires start == Loop.Start(mixes[|mixes| - 1].rows, r.c.workspace, r.c.user, r.paired)
    ensures IsMixture(mixes', moves') && mixes <= mixes'
    ensures var m := mixes[|mixes| - 1];
      mixes'[|mixes'| - 1]
      == Mix(Loop.RowsAfter(start.rows, log), m.requests[rid := r.(events := log)], m.log + LoopLog(log, r.c))
  {
    var m := mixes[|mixes| - 1];
    if log == [] {
      mixes', moves' := mixes, moves;
      assert m.requests[rid := r] == m.requests && m.log + [] == m.log;
    } else {
      mixes', moves' := Speaking(mixes, moves, rid, r, start, Loop.Init(log));
      var next := Mix(Loop.RowsAfter(start.rows, log), m.requests[rid := r.(events := log)], m.log + LoopLog(log, r.c));
      SpeaksOnce(m, rid, r, start, log, mixes'[|mixes'| - 1], next);
      mixes', moves' := Extend(mixes', moves', Speak(rid, Loop.Last(log)), next);
    }
  }

  /** What `ChatEndpoint.Chat` ensures of its acts and its turn is a sequence of moves of one request, from
      whatever state any mixture of requests has led to. */
  lemma ChatIsMoves(mixes: seq<Mix>, moves: seq<Move>, rid: nat, c: Caller, items: seq<Item>, acts: seq<Act>,
                    start: Loop.Start, log: seq<Loop.LoopEvent>)
    returns (mixes': seq<Mix>, moves': seq<Move>)
    requires IsMixture(mixes, moves) && rid !in mixes[|mixes| - 1].requests
    requires |acts| == |items| && forall n | 0 <= n < |items| :: ActsOn(acts[n], TicketAt(mixes[|mixes| - 1].rows, c, items, n))
    requires start.rows == RowsAt(mixes[|mixes| - 1].rows, c, items, |items|)
    requires start.workspace == c.workspace != "" && start.user == c.user && Loop.Legal(start, log)
    ensures IsMixture(mixes', moves') && mixes <= mixes'
    ensures mixes'[|mixes'| - 1].rows == Loop.RowsAfter(start.rows, log)
    ensures mixes'[|mixes'| - 1].log == mixes[|mixes| - 1].log + ActLog(acts, c) + LoopLog(log, c)
  {
    var rows, n := mixes[|mixes| - 1].rows, |items|;
    mixes', moves' := Deciding(mixes, moves, rid, c, start.paired, items, n);
    var r := Request(c, start.paired, items, Tickets(rows, c, items, n), 0, []);
    mixes', moves' := Acting(mixes', moves', rid, r, acts, n);
    assert acts[..n] == acts;
    mixes', moves' := Speaking(mixes', moves', rid, r.(acted := n), start, log);
  }
}
