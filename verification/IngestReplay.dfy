/** The ingest idempotency ledger under concurrent requests: replay, the unique (workbook, key)
    constraint, and pruning by whichever keyed request comes along. */
module IngestReplay {

  const WEEK := 7 * 24 * 60 * 60

  type Key = (string, string)  // workbook, Idempotency-Key

  /** `createdAt` is stamped by the database somewhere between begin and commit — on Postgres at begin. */
  datatype Entry = Entry(response: int, createdAt: int)

  datatype Stage = Arrived(began: int) | Working(began: int, response: int) | Refused(holder: Entry) | Answered | Failed

  datatype Request = Request(key: Key, keyed: bool, stage: Stage)

  /** A `Committed` event added the request's rows; a `Replayed` one only repeated a response. */
  datatype Event = Committed(request: nat, key: Key, keyed: bool, response: int, createdAt: int, at: int)
                 | Replayed(request: nat, key: Key, keyed: bool, response: int, at: int)

  datatype State = State(now: int, ledger: map<Key, Entry>, requests: map<nat, Request>, log: seq<Event>)

  datatype Action = Tick(to: int)
                  | Arrive(r: nat, key: Key, keyed: bool)
                  | LookUp(r: nat, computed: int)
                  | Commit(r: nat, createdAt: int, pruneAt: int, pruned: set<Key>)
                  | LookUpAgain(r: nat)
                  | Fail(r: nat)

  ghost predicate Init(s: State) {
    s.ledger == map[] && s.requests == map[] && s.log == []
  }

  /** Entries of this workbook older than the retention period when the pruner looks at its clock. */
  ghost predicate Stale(s: State, workbook: string, pruneAt: int, k: Key) {
    k in s.ledger && k.0 == workbook && s.ledger[k].createdAt < pruneAt - WEEK
  }

  function Moved(s: State, r: nat, stage: Stage): State
    requires r in s.requests
  {
    s.(requests := s.requests[r := s.requests[r].(stage := stage)])
  }

  function Reply(s: State, r: nat): State
    requires r in s.requests && s.requests[r].key in s.ledger
  {
    var q := s.requests[r];
    Moved(s, r, Answered).(log := s.log + [Replayed(r, q.key, q.keyed, s.ledger[q.key].response, s.now)])
  }

  ghost predicate Step(s: State, a: Action, s': State) {
    match a
    case Tick(to) => to >= s.now && s' == s.(now := to)
    case Arrive(r, key, keyed) =>
      r !in s.requests && s' == s.(requests := s.requests[r := Request(key, keyed, Arrived(s.now))])
    case LookUp(r, computed) =>
      && r in s.requests && s.requests[r].stage.Arrived?
      && var q := s.requests[r];
      s' == if q.keyed && q.key in s.ledger then Reply(s, r) else Moved(s, r, Working(q.stage.began, computed))
    case Commit(r, createdAt, pruneAt, pruned) =>
      && r in s.requests && s.requests[r].stage.Working?
      && var q := s.requests[r];
      && q.stage.began <= createdAt <= s.now && q.stage.began <= pruneAt <= s.now
      && var done := Committed(r, q.key, q.keyed, q.stage.response, createdAt, s.now);
      if !q.keyed then
        s' == Moved(s, r, Answered).(log := s.log + [done])
      else
        && (forall k | k in pruned :: Stale(s, q.key.0, pruneAt, k))
        && if q.key in s.ledger && q.key !in pruned then
             s' == Moved(s, r, Refused(s.ledger[q.key]))
           else
             s' == Moved(s, r, Answered).(ledger := (s.ledger - pruned)[q.key := Entry(q.stage.response, createdAt)],
                                          log := s.log + [done])
    case LookUpAgain(r) =>
      && r in s.requests && s.requests[r].stage.Refused?
      && s' == if s.requests[r].key in s.ledger then Reply(s, r) else Moved(s, r, Failed)
    case Fail(r) =>
      r in s.requests && !s.requests[r].stage.Answered? && s' == Moved(s, r, Failed)
  }

  ghost predicate IsRun(run: seq<State>, acts: seq<Action>) {
    && |run| == |acts| + 1 && Init(run[0])
    && forall i | 0 <= i < |acts| :: Step(run[i], acts[i], run[i + 1])
  }

  ghost predicate RecordOf(e: Event, k: Key, entry: Entry) {
    e.Committed? && e.keyed && e.key == k && Entry(e.response, e.createdAt) == entry
  }

  /** Within a week of a record's timestamp, later answers for its key repeat it. */
  ghost predicate Repeats(first: Event, later: Event) {
    (first.Committed? && first.keyed && later.keyed && later.key == first.key && later.at <= first.createdAt + WEEK)
    ==> (later.Replayed? && later.response == first.response)
  }

  ghost predicate HasSource(log: seq<Event>, j: nat)
    requires j < |log|
  {
    exists i :: 0 <= i < j && log[i].Committed? && log[i].keyed && log[i].key == log[j].key && log[i].response == log[j].response
  }

  ghost predicate LogOK(log: seq<Event>) {
    && (forall i, j | 0 <= i < j < |log| :: Repeats(log[i], log[j]))
    && (forall j | 0 <= j < |log| && log[j].Replayed? :: HasSource(log, j))
  }

  ghost predicate Inv(s: State) {
    && LogOK(s.log)
    // a record is in the ledger until a week after its timestamp
    && (forall i | 0 <= i < |s.log| && s.log[i].Committed? && s.log[i].keyed ::
          (s.log[i].key in s.ledger && RecordOf(s.log[i], s.log[i].key, s.ledger[s.log[i].key]))
          || s.now > s.log[i].createdAt + WEEK)
    // the ledger holds nothing but records
    && (forall k | k in s.ledger :: exists i :: 0 <= i < |s.log| && RecordOf(s.log[i], k, s.ledger[k]))
    // only keyed requests are refused or replayed
    && (forall r | r in s.requests && s.requests[r].stage.Refused? :: s.requests[r].keyed)
  }

  lemma LogExtends(log: seq<Event>, e: Event)
    requires LogOK(log) && forall i | 0 <= i < |log| :: Repeats(log[i], e)
    requires e.Replayed? ==> exists i :: 0 <= i < |log| && log[i].Committed? && log[i].keyed && log[i].key == e.key && log[i].response == e.response
    ensures LogOK(log + [e])
  {
    var log' := log + [e];
    forall j | 0 <= j < |log'| && log'[j].Replayed? ensures HasSource(log', j) {
      if j < |log| {
        assert HasSource(log, j);
        var i :| 0 <= i < j && log[i].Committed? && log[i].keyed && log[i].key == log[j].key && log[i].response == log[j].response;
        assert log'[i] == log[i];
      } else {
        var i :| 0 <= i < |log| && log[i].Committed? && log[i].keyed && log[i].key == e.key && log[i].response == e.response;
        assert log'[i] == log[i];
      }
    }
  }

  lemma RecordsKept(s: State, e: Event, k: Key)
    requires Inv(s) && k in s.ledger
    ensures exists i :: 0 <= i < |s.log + [e]| && RecordOf((s.log + [e])[i], k, s.ledger[k])
  {
    var i :| 0 <= i < |s.log| && RecordOf(s.log[i], k, s.ledger[k]);
    assert (s.log + [e])[i] == s.log[i];
  }

  lemma ReplyKeepsInv(s: State, r: nat)
    requires Inv(s) && r in s.requests && s.requests[r].keyed && s.requests[r].key in s.ledger
    ensures Inv(Reply(s, r))
  {
    var s', k := Reply(s, r), s.requests[r].key;
    var e := s'.log[|s.log|];
    var i :| 0 <= i < |s.log| && RecordOf(s.log[i], k, s.ledger[k]);
    LogExtends(s.log, e);
    forall k | k in s'.ledger ensures exists i :: 0 <= i < |s'.log| && RecordOf(s'.log[i], k, s'.ledger[k]) {
      RecordsKept(s, e, k);
    }
  }

  lemma CommitKeepsInv(s: State, a: Action, s': State)
    requires Inv(s) && a.Commit? && Step(s, a, s') && s'.log != s.log
    ensures Inv(s')
  {
    var q := s.requests[a.r];
    var e := s'.log[|s.log|];
    LogExtends(s.log, e);
    forall k | k in s'.ledger ensures exists i :: 0 <= i < |s'.log| && RecordOf(s'.log[i], k, s'.ledger[k]) {
      if q.keyed && k == q.key {
        assert RecordOf(s'.log[|s.log|], k, s'.ledger[k]);
      } else {
        RecordsKept(s, e, k);
      }
    }
  }

  lemma StepKeepsInv(s: State, a: Action, s': State)
    requires Inv(s) && Step(s, a, s')
    ensures Inv(s')
  {
    match a
    case LookUp(r, _) => if s'.log != s.log { ReplyKeepsInv(s, r); }
    case LookUpAgain(r) => if s'.log != s.log { ReplyKeepsInv(s, r); }
    case Commit(_, _, _, _) => if s'.log != s.log { CommitKeepsInv(s, a, s'); }
    case _ =>
  }

  lemma {:induction false} InvHolds(run: seq<State>, acts: seq<Action>)
    requires IsRun(run, acts)
    ensures forall i | 0 <= i < |run| :: Inv(run[i])
  {
    for n := 0 to |acts|
      invariant forall i | 0 <= i <= n :: Inv(run[i])
    {
      StepKeepsInv(run[n], acts[n], run[n + 1]);
    }
  }

  /** Replay: every answer given for a key up to a week after the first record's timestamp is that
      record's response, and its rows are added by that one request alone — race losers included. */
  lemma AnswersRepeat(run: seq<State>, acts: seq<Action>, n: nat, i: nat, j: nat)
    requires IsRun(run, acts) && n < |run| && i < j < |run[n].log|
    requires var first, later := run[n].log[i], run[n].log[j];
             first.Committed? && first.keyed && later.keyed && later.key == first.key && later.at <= first.createdAt + WEEK
    ensures run[n].log[j].Replayed? && run[n].log[j].response == run[n].log[i].response
  {
    InvHolds(run, acts);
    assert Inv(run[n]) && Repeats(run[n].log[i], run[n].log[j]);
  }

  /** No pruner removes a record within a week of its timestamp, and nobody overwrites it. */
  lemma {:induction false} RecordsOutliveTheWindow(run: seq<State>, acts: seq<Action>, i: nat, j: nat, k: Key)
    requires IsRun(run, acts) && i <= j < |run| && k in run[i].ledger && run[j].now <= run[i].ledger[k].createdAt + WEEK
    ensures k in run[j].ledger && run[j].ledger[k] == run[i].ledger[k]
    decreases j
  {
    if i == j {
    } else {
      assert Step(run[j - 1], acts[j - 1], run[j]);
      RecordsOutliveTheWindow(run, acts, i, j - 1, k);
    }
  }

  /** A race loser is answered, not failed, when it looks again within the window. */
  lemma LoserIsAnswered(run: seq<State>, acts: seq<Action>, i: nat, j: nat, r: nat)
    requires IsRun(run, acts) && i < j < |acts| && acts[i].Commit? && acts[i].r == r && acts[j] == LookUpAgain(r)
    requires r in run[i + 1].requests && run[i + 1].requests[r].stage.Refused?
    requires r in run[j].requests && run[j].requests[r].key == run[i].requests[r].key
    requires run[j].now <= run[i + 1].requests[r].stage.holder.createdAt + WEEK
    ensures |run[j].log| < |run[j + 1].log| && run[j + 1].log[|run[j].log|].Replayed?
    ensures run[j + 1].log[|run[j].log|].response == run[i + 1].requests[r].stage.holder.response
  {
    var k := run[i].requests[r].key;
    assert Step(run[i], acts[i], run[i + 1]) && Step(run[j], acts[j], run[j + 1]);
    RecordsOutliveTheWindow(run, acts, i + 1, j, k);
  }

  // ---- the window is exact ----

  /** Log entries are in time order, none in the future, and no record is stamped after its commit. */
  ghost predicate Timed(s: State) {
    && (forall i, j | 0 <= i <= j < |s.log| :: s.log[i].at <= s.log[j].at)
    && (forall i | 0 <= i < |s.log| :: s.log[i].at <= s.now)
    && (forall i | 0 <= i < |s.log| && s.log[i].Committed? :: s.log[i].createdAt <= s.log[i].at)
  }

  lemma TimedStep(s: State, a: Action, s': State)
    requires Timed(s) && Step(s, a, s')
    ensures Timed(s')
  {
    if s'.log != s.log {
      var e := s'.log[|s.log|];
      assert s'.log == s.log + [e] && e.at == s.now == s'.now;
    }
  }

  lemma {:induction false} RunsAreTimed(run: seq<State>, acts: seq<Action>, n: nat)
    requires IsRun(run, acts) && n < |run|
    ensures Timed(run[n])
  {
    if n == 0 {
    } else {
      RunsAreTimed(run, acts, n - 1);
      TimedStep(run[n - 1], acts[n - 1], run[n]);
    }
  }

  /** A record stamped `stamp` and committed at p, and an answer for its key at t that is not its replay. */
  ghost predicate Contradicts(log: seq<Event>, stamp: int, p: int, t: int) {
    exists i, j :: 0 <= i < j < |log| && IsContradiction(log[i], log[j], stamp, p, t)
  }

  predicate IsContradiction(first: Event, later: Event, stamp: int, p: int, t: int) {
    && first.Committed? && first.keyed && first.createdAt == stamp && first.at == p
    && later.keyed && later.key == first.key && later.at == t
    && !(later.Replayed? && later.response == first.response)
  }

  /** The replay window, exactly: an answer at t can differ from a record stamped `stamp` and committed
      at p exactly if it comes later than a week after the stamp. The time of the commit only has to
      lie between the two, so within a week of the commit the answer may still differ. */
  lemma WindowIsExact(stamp: int, p: int, t: int)
    ensures (exists run: seq<State>, acts: seq<Action> :: IsRun(run, acts) && Contradicts(run[|run| - 1].log, stamp, p, t))
       <==> stamp <= p <= t && t > stamp + WEEK
  {
    if run: seq<State>, acts: seq<Action> :| IsRun(run, acts) && Contradicts(run[|run| - 1].log, stamp, p, t) {
      var n := |run| - 1;
      var i, j :| 0 <= i < j < |run[n].log| && IsContradiction(run[n].log[i], run[n].log[j], stamp, p, t);
      RunsAreTimed(run, acts, n);
      if t <= stamp + WEEK {
        AnswersRepeat(run, acts, n, i, j);
      }
    }
    if stamp <= p <= t && t > stamp + WEEK {
      var run, acts := AddedAgain(("wb", "k"), ("wb", "other"), stamp, p, t);
      var log := run[|run| - 1].log;
      assert IsContradiction(log[0], log[2], stamp, p, t);
    }
  }

  /** Whatever the times: once a week has passed since the stamp, a request with another key prunes the
      record, and the same request sent again adds its rows again. */
  lemma AddedAgain(k: Key, other: Key, stamp: int, p: int, t: int) returns (run: seq<State>, acts: seq<Action>)
    requires k.0 == other.0 && k != other && stamp <= p <= t && t > stamp + WEEK
    ensures IsRun(run, acts)
    ensures run[|run| - 1].log ==
      [Committed(0, k, true, 7, stamp, p), Committed(1, other, true, 8, t, t), Committed(2, k, true, 9, t, t)]
  {
    var s0 := State(stamp, map[], map[], []);
    run, acts := [s0], [];
    var s1;
    run, acts, s1 := OneCommit(run, acts, 0, k, 7, stamp, p, {});
    run, acts, s1 := OneCommit(run, acts, 1, other, 8, t, t, {k});
    run, acts, s1 := OneCommit(run, acts, 2, k, 9, t, t, {});
  }

  /** A keyed request arrives at its stamp, finds no record, and commits at p, pruning `pruned`. */
  lemma OneCommit(run: seq<State>, acts: seq<Action>, r: nat, k: Key, response: int, stamp: int, p: int, pruned: set<Key>)
    returns (run': seq<State>, acts': seq<Action>, s': State)
    requires IsRun(run, acts)
    requires var s := run[|run| - 1];
      s.now <= stamp <= p && r !in s.requests && k !in s.ledger && forall x | x in pruned :: Stale(s, k.0, stamp, x)
    ensures IsRun(run', acts') && s' == run'[|run'| - 1]
    ensures var s := run[|run| - 1];
      && s'.log == s.log + [Committed(r, k, true, response, stamp, p)] && s'.now == p
      && s'.ledger == (s.ledger - pruned)[k := Entry(response, stamp)]
      && s'.requests.Keys == s.requests.Keys + {r}
  {
    var s := run[|run| - 1];
    var s1 := s.(now := stamp);
    var s2 := s1.(requests := s1.requests[r := Request(k, true, Arrived(stamp))]);
    var s3 := Moved(s2, r, Working(stamp, response));
    var s4 := s3.(now := p);
    s' := Moved(s4, r, Answered).(ledger := (s4.ledger - pruned)[k := Entry(response, stamp)],
                                  log := s4.log + [Committed(r, k, true, response, stamp, p)]);
    run', acts' := Extend(run, acts, Tick(stamp), s1);
    run', acts' := Extend(run', acts', Arrive(r, k, true), s2);
    run', acts' := Extend(run', acts', LookUp(r, response), s3);
    run', acts' := Extend(run', acts', Tick(p), s4);
    forall x | x in pruned ensures Stale(s4, k.0, stamp, x) {
      assert Stale(s, k.0, stamp, x);
    }
    run', acts' := Extend(run', acts', Commit(r, stamp, stamp, pruned), s');
  }

  lemma Extend(run: seq<State>, acts: seq<Action>, a: Action, s: State) returns (run': seq<State>, acts': seq<Action>)
    requires IsRun(run, acts) && Step(run[|run| - 1], a, s)
    ensures IsRun(run', acts') && run'[|run'| - 1] == s
  {
    run', acts' := run + [s], acts + [a];
  }

  /** In particular within a week of the commit: a record whose transaction stayed open for d seconds
      can be forgotten, and its rows added again, d - 1 seconds before a week after the commit. */
  lemma WindowIsNotFromCommit(d: int) returns (run: seq<State>, acts: seq<Action>)
    requires 0 < d <= WEEK
    ensures IsRun(run, acts)
    ensures var log := run[|run| - 1].log;
            |log| == 3 && log[0].Committed? && log[2].Committed? && log[0].keyed && log[2].keyed && log[0].key == log[2].key
            && log[0].at == log[0].createdAt + d && log[2].at == log[0].at + WEEK - (d - 1)
  {
    run, acts := AddedAgain(("wb", "k"), ("wb", "other"), 0, d, WEEK + 1);
  }
}
