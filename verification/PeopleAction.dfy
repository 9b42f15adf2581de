/** Concurrent runs of the save-people action against one database with a unique index on
    (workspace, action key). Transactions are invisible until they commit. */
module PeopleAction {
  import opened Prelude

  /** `creator` is the run that committed it: history, not a column. */
  datatype Workbook = Workbook(workspace: string, key: string, selected: seq<string>, totalRows: nat, creator: nat)

  datatype Row = Row(workbook: string, person: string, position: nat)

  datatype Receipt = Receipt(reused: bool, workbook: string, persisted: bool, totalRows: nat, selected: seq<string>)

  /** Where a run is: about to look the key up; with its rows pending; refused by the index; committed
      but not yet answered; answered. */
  datatype Stage = Start | Pending(id: string) | Refused | Committed(id: string) | Done(receipt: Receipt) | Failed

  datatype Run = Run(workspace: string, key: string, selected: seq<string>, stage: Stage)

  datatype Db = Db(workbooks: map<string, Workbook>, rows: set<Row>)

  datatype State = State(db: Db, runs: map<nat, Run>)

  datatype Action = Arrive(r: nat, workspace: string, key: string, selected: seq<string>)
                  | LookUp(r: nat, id: string)
                  | FlushRefused(r: nat)
                  | Commit(r: nat)
                  | LookUpAgain(r: nat)
                  | Answer(r: nat)
                  | Crash(r: nat)

  /** What the index and the lookups see: committed workbooks under the key. */
  ghost predicate Holds(db: Db, id: string, workspace: string, key: string) {
    id in db.workbooks && db.workbooks[id].workspace == workspace && db.workbooks[id].key == key
  }

  ghost predicate Taken(db: Db, workspace: string, key: string) {
    exists id :: Holds(db, id, workspace, key)
  }

  function RowsFor(id: string, selected: seq<string>): set<Row> {
    set i | 0 <= i < |selected| :: Row(id, selected[i], i)
  }

  function RowsOf(db: Db, id: string): set<Row> {
    set r | r in db.rows && r.workbook == id
  }

  function ReceiptFor(db: Db, id: string, reused: bool): Receipt
    requires id in db.workbooks
  {
    var wb, n := db.workbooks[id], |RowsOf(db, id)|;
    Receipt(reused, id, n == wb.totalRows, n, wb.selected)
  }

  function At(s: State, r: nat, stage: Stage): State
    requires r in s.runs
  {
    s.(runs := s.runs[r := s.runs[r].(stage := stage)])
  }

  ghost predicate Init(s: State) {
    s == State(Db(map[], {}), map[])
  }

  ghost predicate Step(s: State, a: Action, s': State) {
    match a
    case Arrive(r, ws, key, selected) =>
      r !in s.runs && selected != [] && Distinct(selected)
      && s' == s.(runs := s.runs[r := Run(ws, key, selected, Start)])
    case LookUp(r, id) =>
      && r in s.runs && s.runs[r].stage == Start
      && var run := s.runs[r];
      if Taken(s.db, run.workspace, run.key)
      then Holds(s.db, id, run.workspace, run.key) && s' == At(s, r, Done(ReceiptFor(s.db, id, true)))
      else // a new id is generated and the workbook flushed with its rows
        && id !in s.db.workbooks && (forall q | q in s.runs && s.runs[q].stage.Pending? :: s.runs[q].stage.id != id)
        && s' == At(s, r, Pending(id))
    case FlushRefused(r) =>
      // an index checked at once raises at the flush, outside the handler for the commit
      && r in s.runs && s.runs[r].stage.Pending?
      && Taken(s.db, s.runs[r].workspace, s.runs[r].key)
      && s' == At(s, r, Failed)
    case Commit(r) =>
      && r in s.runs && s.runs[r].stage.Pending?
      && var run, id := s.runs[r], s.runs[r].stage.id;
      if Taken(s.db, run.workspace, run.key)
      then s' == At(s, r, Refused)
      else
        var wb := Workbook(run.workspace, run.key, run.selected, |run.selected|, r);
        s' == At(s.(db := Db(s.db.workbooks[id := wb], s.db.rows + RowsFor(id, run.selected))), r, Committed(id))
    case LookUpAgain(r) =>
      && r in s.runs && s.runs[r].stage == Refused
      && var run := s.runs[r];
      if Taken(s.db, run.workspace, run.key)
      then exists id :: Holds(s.db, id, run.workspace, run.key) && s' == At(s, r, Done(ReceiptFor(s.db, id, true)))
      else s' == At(s, r, Failed)
    case Answer(r) =>
      && r in s.runs && s.runs[r].stage.Committed? && s.runs[r].stage.id in s.db.workbooks
      && s' == At(s, r, Done(ReceiptFor(s.db, s.runs[r].stage.id, false)))
    case Crash(r) =>
      r in s.runs && !s.runs[r].stage.Done? && s' == At(s, r, Failed)
  }

  ghost predicate IsRun(run: seq<State>, acts: seq<Action>) {
    && |run| == |acts| + 1 && Init(run[0])
    && forall i | 0 <= i < |acts| :: Step(run[i], acts[i], run[i + 1])
  }

  // ---- the invariant ----

  /** One workbook per key, and its rows are its selection at positions 0, 1, 2, ... */
  ghost predicate DbOK(db: Db) {
    && (forall i, j | i in db.workbooks && j in db.workbooks
          && db.workbooks[i].workspace == db.workbooks[j].workspace && db.workbooks[i].key == db.workbooks[j].key :: i == j)
    && (forall r | r in db.rows :: r.workbook in db.workbooks)
    && (forall i | i in db.workbooks ::
          && RowsOf(db, i) == RowsFor(i, db.workbooks[i].selected)
          && Distinct(db.workbooks[i].selected)
          && db.workbooks[i].totalRows == |db.workbooks[i].selected|)
  }

  /** A new receipt comes from the workbook's creator, a reused one from anybody with its key. */
  ghost predicate RunOK(db: Db, r: nat, run: Run) {
    && Distinct(run.selected)
    && match run.stage
       case Pending(id) => id !in db.workbooks
       case Committed(id) => Holds(db, id, run.workspace, run.key) && db.workbooks[id].creator == r
       case Done(receipt) =>
         && Holds(db, receipt.workbook, run.workspace, run.key)
         && receipt.persisted
         && receipt.selected == db.workbooks[receipt.workbook].selected
         && receipt.totalRows == |receipt.selected|
         && (!receipt.reused ==> db.workbooks[receipt.workbook].creator == r && receipt.selected == run.selected)
       case _ => true
  }

  ghost predicate CreatorOK(s: State, id: string)
    requires id in s.db.workbooks
  {
    var wb := s.db.workbooks[id];
    && wb.creator in s.runs
    && var run := s.runs[wb.creator];
    && run.workspace == wb.workspace && run.key == wb.key && run.selected == wb.selected
    && (run.stage == Failed || run.stage == Committed(id)
        || (run.stage.Done? && !run.stage.receipt.reused && run.stage.receipt.workbook == id))
  }

  ghost predicate Inv(s: State) {
    && DbOK(s.db)
    && (forall r | r in s.runs :: RunOK(s.db, r, s.runs[r]))
    && (forall p, q | p in s.runs && q in s.runs && p != q && s.runs[p].stage.Pending? && s.runs[q].stage.Pending? ::
          s.runs[p].stage.id != s.runs[q].stage.id)
    && (forall id | id in s.db.workbooks :: CreatorOK(s, id))
  }

  lemma {:induction false} RowCount(id: string, selected: seq<string>)
    ensures |RowsFor(id, selected)| == |selected|
  {
    if selected != [] {
      var n := |selected| - 1;
      RowCount(id, selected[..n]);
      assert RowsFor(id, selected) == RowsFor(id, selected[..n]) + {Row(id, selected[n], n)};
    } else {
      assert RowsFor(id, selected) == {};
    }
  }

  lemma ReceiptIsTrue(db: Db, id: string, reused: bool)
    requires DbOK(db) && id in db.workbooks
    ensures var rc := ReceiptFor(db, id, reused);
            rc == Receipt(reused, id, true, |db.workbooks[id].selected|, db.workbooks[id].selected)
  {
    RowCount(id, db.workbooks[id].selected);
  }

  /** A run that moves without touching the database. */
  lemma MoveKeepsInv(s: State, r: nat, stage: Stage)
    requires Inv(s) && r in s.runs && RunOK(s.db, r, s.runs[r].(stage := stage))
    requires stage.Pending? ==> forall q | q in s.runs && s.runs[q].stage.Pending? :: s.runs[q].stage.id != stage.id
    requires forall id | id in s.db.workbooks && s.db.workbooks[id].creator == r ::
               stage == Failed || (s.runs[r].stage == Committed(id) && stage.Done? && !stage.receipt.reused && stage.receipt.workbook == id)
    ensures Inv(At(s, r, stage))
  {
    var s' := At(s, r, stage);
    forall id | id in s'.db.workbooks ensures CreatorOK(s', id) {
      assert CreatorOK(s, id);
    }
  }

  lemma CommitKeepsInv(s: State, a: Action, s': State)
    requires Inv(s) && a.Commit? && Step(s, a, s') && !Taken(s.db, s.runs[a.r].workspace, s.runs[a.r].key)
    ensures Inv(s')
  {
    var run, id := s.runs[a.r], s.runs[a.r].stage.id;
    var wb := s'.db.workbooks[id];
    forall i | i in s.db.workbooks ensures !(s.db.workbooks[i].workspace == wb.workspace && s.db.workbooks[i].key == wb.key) {
      assert !Holds(s.db, i, run.workspace, run.key);
    }
    forall i | i in s'.db.workbooks ensures RowsOf(s'.db, i) == RowsFor(i, s'.db.workbooks[i].selected) {
      if i == id {
        assert RowsOf(s.db, id) == {};
      } else {
        assert RowsOf(s'.db, i) == RowsOf(s.db, i);
      }
    }
    forall q | q in s'.runs ensures RunOK(s'.db, q, s'.runs[q]) {
      assert RunOK(s.db, q, s.runs[q]);
    }
    forall i | i in s'.db.workbooks ensures CreatorOK(s', i) {
      if i != id { assert CreatorOK(s, i); }
    }
  }

  lemma StepKeepsInv(s: State, a: Action, s': State)
    requires Inv(s) && Step(s, a, s')
    ensures Inv(s')
  {
    match a
    case Arrive(_, _, _, _) => ArriveKeepsInv(s, a, s');
    case LookUp(_, _) => LookUpKeepsInv(s, a, s');
    case Commit(r) =>
      if Taken(s.db, s.runs[r].workspace, s.runs[r].key) { NotCommittedKeepsInv(s, r, Refused); } else { CommitKeepsInv(s, a, s'); }
    case LookUpAgain(_) => LookUpAgainKeepsInv(s, a, s');
    case Answer(r) =>
      ReceiptIsTrue(s.db, s.runs[r].stage.id, false);
      assert CreatorOK(s, s.runs[r].stage.id) && RunOK(s.db, r, s.runs[r]);
      MoveKeepsInv(s, r, s'.runs[r].stage);
    case FlushRefused(r) => MoveKeepsInv(s, r, Failed);
    case Crash(r) => MoveKeepsInv(s, r, Failed);
  }

  lemma ArriveKeepsInv(s: State, a: Action, s': State)
    requires Inv(s) && a.Arrive? && Step(s, a, s')
    ensures Inv(s')
  {
    forall id | id in s'.db.workbooks ensures CreatorOK(s', id) {
      assert CreatorOK(s, id);
    }
  }

  /** A run that has committed nothing moves on. */
  lemma NotCommittedKeepsInv(s: State, r: nat, stage: Stage)
    requires Inv(s) && r in s.runs && RunOK(s.db, r, s.runs[r].(stage := stage))
    requires s.runs[r].stage == Start || s.runs[r].stage.Pending? || s.runs[r].stage == Refused
    requires stage.Pending? ==> forall q | q in s.runs && s.runs[q].stage.Pending? :: s.runs[q].stage.id != stage.id
    ensures Inv(At(s, r, stage))
  {
    forall id | id in s.db.workbooks ensures s.db.workbooks[id].creator != r {
      assert CreatorOK(s, id);
    }
    MoveKeepsInv(s, r, stage);
  }

  lemma LookUpKeepsInv(s: State, a: Action, s': State)
    requires Inv(s) && a.LookUp? && Step(s, a, s')
    ensures Inv(s')
  {
    var r := a.r;
    assert RunOK(s.db, r, s.runs[r]);
    if Taken(s.db, s.runs[r].workspace, s.runs[r].key) { ReceiptIsTrue(s.db, a.id, true); }
    NotCommittedKeepsInv(s, r, s'.runs[r].stage);
  }

  lemma LookUpAgainKeepsInv(s: State, a: Action, s': State)
    requires Inv(s) && a.LookUpAgain? && Step(s, a, s')
    ensures Inv(s')
  {
    var r := a.r;
    assert RunOK(s.db, r, s.runs[r]);
    if Taken(s.db, s.runs[r].workspace, s.runs[r].key) {
      var id :| Holds(s.db, id, s.runs[r].workspace, s.runs[r].key) && s' == At(s, r, Done(ReceiptFor(s.db, id, true)));
      ReceiptIsTrue(s.db, id, true);
    }
    NotCommittedKeepsInv(s, r, s'.runs[r].stage);
  }

  lemma {:induction false} InvHolds(run: seq<State>, acts: seq<Action>)
    requires IsRun(run, acts)
    ensures forall i | 0 <= i < |run| :: Inv(run[i])
  {
    for n := 0 to |acts|
      invariant forall i | 0 <= i <= n :: Inv(run[i])
    {
      StepKeepsInv(run[n], acts[n], run[n + 1]);
    }
  }

  /** Any two receipts for one key name one workbook, whose rows are the creator's selection, one row
      per person at positions 0..n-1; and two receipts that both claim to have created it are one. */
  lemma OneWorkbookPerKey(run: seq<State>, acts: seq<Action>, i: nat, p: nat, q: nat)
    requires IsRun(run, acts) && i < |run| && p in run[i].runs && q in run[i].runs
    requires run[i].runs[p].stage.Done? && run[i].runs[q].stage.Done?
    requires run[i].runs[p].workspace == run[i].runs[q].workspace && run[i].runs[p].key == run[i].runs[q].key
    ensures var db, a, b := run[i].db, run[i].runs[p].stage.receipt, run[i].runs[q].stage.receipt;
            && a.workbook == b.workbook && a.workbook in db.workbooks
            && a.selected == b.selected && a.persisted && b.persisted
            && RowsOf(db, a.workbook) == RowsFor(a.workbook, a.selected) && Distinct(a.selected)
            && (!a.reused && !b.reused ==> p == q)
            && (!a.reused ==> a.selected == run[i].runs[p].selected)
  {
    InvHolds(run, acts);
    assert Inv(run[i]) && RunOK(run[i].db, p, run[i].runs[p]) && RunOK(run[i].db, q, run[i].runs[q]);
  }

  /** Exactly one run answers "created", unless the one that committed crashed before answering. */
  lemma SomebodyCreatedIt(run: seq<State>, acts: seq<Action>, i: nat, id: string) returns (c: nat)
    requires IsRun(run, acts) && i < |run| && id in run[i].db.workbooks
    requires forall r | r in run[i].runs :: run[i].runs[r].stage.Done? || run[i].runs[r].stage.Failed?
    ensures c in run[i].runs && c == run[i].db.workbooks[id].creator
    ensures run[i].runs[c].stage.Failed?
         || (run[i].runs[c].stage.Done? && !run[i].runs[c].stage.receipt.reused && run[i].runs[c].stage.receipt.workbook == id)
    ensures forall r | r in run[i].runs && run[i].runs[r].stage.Done? && !run[i].runs[r].stage.receipt.reused
                       && run[i].runs[r].stage.receipt.workbook == id :: r == c
  {
    InvHolds(run, acts);
    assert Inv(run[i]) && CreatorOK(run[i], id);
    c := run[i].db.workbooks[id].creator;
    forall r | r in run[i].runs ensures RunOK(run[i].db, r, run[i].runs[r]) {}
  }

  /** What is committed stays as it is: a losing run leaves no trace. */
  lemma CommittedIsFinal(s: State, a: Action, s': State, id: string)
    requires Inv(s) && Step(s, a, s') && id in s.db.workbooks
    ensures id in s'.db.workbooks && s'.db.workbooks[id] == s.db.workbooks[id] && RowsOf(s'.db, id) == RowsOf(s.db, id)
  {
    if a.Commit? && s'.db != s.db {
      assert RunOK(s.db, a.r, s.runs[a.r]);
      assert forall r | r in s'.db.rows && r.workbook == id :: r in s.db.rows;
    }
  }

  // ---- whose people a receipt reports ----

  /** A receipt reports the people its caller selected exactly if the workbook's creator selected them. */
  lemma ReceiptReportsTheCreators(run: seq<State>, acts: seq<Action>, i: nat, q: nat)
    requires IsRun(run, acts) && i < |run| && q in run[i].runs && run[i].runs[q].stage.Done?
    ensures run[i].runs[q].stage.receipt.workbook in run[i].db.workbooks
    ensures var creator := run[i].db.workbooks[run[i].runs[q].stage.receipt.workbook].creator;
            creator in run[i].runs
            && run[i].runs[q].stage.receipt.selected == run[i].runs[creator].selected
  {
    InvHolds(run, acts);
    assert Inv(run[i]) && RunOK(run[i].db, q, run[i].runs[q]);
    assert CreatorOK(run[i], run[i].runs[q].stage.receipt.workbook);
  }

  /** What a caller sends. */
  type Request = (string, string, seq<string>)  // workspace, action key, selected people

  function RequestOf(run: Run): Request {
    (run.workspace, run.key, run.selected)
  }

  ghost predicate Sendable(requests: set<Request>) {
    forall q | q in requests :: q.2 != [] && Distinct(q.2)
  }

  /** Equal keys carry equal selections. */
  ghost predicate Consistent(requests: set<Request>) {
    forall p, q | p in requests && q in requests && p.0 == q.0 && p.1 == q.1 :: p.2 == q.2
  }

  ghost predicate SendsOnly(acts: seq<Action>, requests: set<Request>) {
    forall i | 0 <= i < |acts| && acts[i].Arrive? :: (acts[i].workspace, acts[i].key, acts[i].selected) in requests
  }

  /** Every receipt given so far reports the people its own caller selected. */
  ghost predicate ReportsOwn(s: State) {
    forall q | q in s.runs && s.runs[q].stage.Done? :: s.runs[q].stage.receipt.selected == s.runs[q].selected
  }

  lemma {:induction false} RunsWereSent(run: seq<State>, acts: seq<Action>, requests: set<Request>, n: nat)
    requires IsRun(run, acts) && SendsOnly(acts, requests) && n < |run|
    ensures forall r | r in run[n].runs :: RequestOf(run[n].runs[r]) in requests
  {
    if n == 0 {
    } else {
      RunsWereSent(run, acts, requests, n - 1);
      assert Step(run[n - 1], acts[n - 1], run[n]);
      forall r | r in run[n].runs ensures RequestOf(run[n].runs[r]) in requests {
        if r in run[n - 1].runs {
          assert RequestOf(run[n].runs[r]) == RequestOf(run[n - 1].runs[r]);
        }
      }
    }
  }

  lemma ConsistentKeysReportOwn(run: seq<State>, acts: seq<Action>, requests: set<Request>, n: nat)
    requires IsRun(run, acts) && SendsOnly(acts, requests) && Consistent(requests) && n < |run|
    ensures ReportsOwn(run[n])
  {
    RunsWereSent(run, acts, requests, n);
    InvHolds(run, acts);
    forall q | q in run[n].runs && run[n].runs[q].stage.Done?
      ensures run[n].runs[q].stage.receipt.selected == run[n].runs[q].selected
    {
      ReceiptReportsTheCreators(run, acts, n, q);
      var id := run[n].runs[q].stage.receipt.workbook;
      assert Inv(run[n]) && RunOK(run[n].db, q, run[n].runs[q]) && CreatorOK(run[n], id);
      assert RequestOf(run[n].runs[run[n].db.workbooks[id].creator]) in requests && RequestOf(run[n].runs[q]) in requests;
    }
  }

  /** One run that saves the people a and gets as far as its commit. */
  lemma OneCommits(workspace: string, key: string, a: seq<string>) returns (run: seq<State>, acts: seq<Action>)
    requires a != [] && Distinct(a)
    ensures IsRun(run, acts) && SendsOnly(acts, {(workspace, key, a)})
    ensures run[|run| - 1] == State(Db(map["w" := Workbook(workspace, key, a, |a|, 0)], RowsFor("w", a)),
                                    map[0 := Run(workspace, key, a, Committed("w"))])
  {
    var s0 := State(Db(map[], {}), map[]);
    var s1 := s0.(runs := map[0 := Run(workspace, key, a, Start)]);
    var s2 := s0.(runs := map[0 := Run(workspace, key, a, Pending("w"))]);
    var db := Db(map["w" := Workbook(workspace, key, a, |a|, 0)], RowsFor("w", a));
    var s3 := State(db, map[0 := Run(workspace, key, a, Committed("w"))]);
    run, acts := Extend([s0], [], Arrive(0, workspace, key, a), s1);
    assert s2 == At(s1, 0, Pending("w"));
    run, acts := Extend(run, acts, LookUp(0, "w"), s2);
    assert {} + RowsFor("w", a) == RowsFor("w", a) && s2.db.workbooks["w" := Workbook(workspace, key, a, |a|, 0)] == db.workbooks;
    assert s3 == At(s2.(db := db), 0, Committed("w"));
    run, acts := Extend(run, acts, Commit(0), s3);
  }

  /** The key alone decides: with any two selections under one key some run gives the second caller a
      reused receipt that reports the first caller's people. */
  lemma ReuseIgnoresTheSelection(workspace: string, key: string, a: seq<string>, b: seq<string>)
    returns (run: seq<State>, acts: seq<Action>)
    requires a != [] && Distinct(a) && b != [] && Distinct(b)
    ensures IsRun(run, acts) && SendsOnly(acts, {(workspace, key, a), (workspace, key, b)})
    ensures var s := run[|run| - 1];
            1 in s.runs && s.runs[1].selected == b && s.runs[1].stage == Done(Receipt(true, "w", true, |a|, a))
  {
    run, acts := OneCommits(workspace, key, a);
    var n, s := |run| - 1, run[|run| - 1];
    InvHolds(run, acts);
    assert Inv(run[n]);
    ReceiptIsTrue(s.db, "w", true);
    assert Holds(s.db, "w", workspace, key);
    var s1 := s.(runs := s.runs[1 := Run(workspace, key, b, Start)]);
    run, acts := Extend(run, acts, Arrive(1, workspace, key, b), s1);
    var s2 := At(s1, 1, Done(ReceiptFor(s.db, "w", true)));
    run, acts := Extend(run, acts, LookUp(1, "w"), s2);
  }

  lemma Extend(run: seq<State>, acts: seq<Action>, a: Action, s: State) returns (run': seq<State>, acts': seq<Action>)
    requires IsRun(run, acts) && Step(run[|run| - 1], a, s)
    ensures IsRun(run', acts') && run' == run + [s] && acts' == acts + [a]
  {
    run', acts' := run + [s], acts + [a];
  }

  /** Whatever happens, every receipt reports its own caller's people exactly if callers never send two
      different selections under one key. */
  lemma OwnPeopleExactlyIfConsistent(requests: set<Request>)
    requires Sendable(requests)
    ensures (forall run: seq<State>, acts: seq<Action> | IsRun(run, acts) && SendsOnly(acts, requests) :: ReportsOwn(run[|run| - 1]))
       <==> Consistent(requests)
  {
    if Consistent(requests) {
      forall run: seq<State>, acts: seq<Action> | IsRun(run, acts) && SendsOnly(acts, requests)
        ensures ReportsOwn(run[|run| - 1])
      {
        ConsistentKeysReportOwn(run, acts, requests, |run| - 1);
      }
    } else {
      var p, q :| p in requests && q in requests && p.0 == q.0 && p.1 == q.1 && p.2 != q.2;
      var run, acts := ReuseIgnoresTheSelection(p.0, p.1, p.2, q.2);
      assert (p.0, p.1, p.2) == p && (p.0, p.1, q.2) == q;
      assert SendsOnly(acts, requests);
      assert !ReportsOwn(run[|run| - 1]);
    }
  }
}
