/** The resumable create-and-source action: one workbook per key, one sourcing job per workbook. */
module SourceAction {
  import opened Prelude

  /** `brief` identifies the account-discovery brief, if the workbook was created with one;
      `column` is its source column; `job` the recorded source_job_id. */
  datatype Workbook = Workbook(workspace: string, key: string, description: string, brief: Option<string>,
                               column: Option<string>, job: Option<nat>, queueFailed: bool)

  datatype Job = Job(fireKey: (string, string), workbook: string, active: bool)

  /** `missed` counts enqueues that inserted a job nobody recorded: history, not data. */
  datatype Db = Db(workbooks: map<string, Workbook>, jobs: map<nat, Job>, missed: map<(string, string), nat>)

  /** `briefId` is None unless account discovery was asked for; `complete` is the brief's own verdict. */
  datatype Args = Args(workspace: string, key: string, description: string, briefId: Option<string>, complete: bool, autoRun: bool)

  /** What happens around one call: the process dies after the workbook is committed and before the
      enqueue, the queue is down before the insert, the insert's acknowledgement is lost, or the
      process dies between the enqueue and recording it. */
  datatype Fault = NoFault | CrashBeforeEnqueue | QueueDown | AckLost | CrashAfterEnqueue

  datatype Receipt = Error | Conflict
                   | Receipt(ok: bool, reused: bool, workbook: string, job: Option<nat>)

  const MAX_KEY := 255

  predicate Holds(db: Db, id: string, workspace: string, key: string) {
    id in db.workbooks && db.workbooks[id].workspace == workspace && db.workbooks[id].key == key
  }

  ghost predicate Taken(db: Db, workspace: string, key: string) {
    exists id :: Holds(db, id, workspace, key)
  }

  predicate Valid(a: Args) {
    a.description != "" && (a.briefId.Some? ==> a.complete) && |a.key| <= MAX_KEY
  }

  /** The key already belongs to a different sourcing request. */
  predicate Conflicts(a: Args, wb: Workbook) {
    match a.briefId
    case Some(_) => wb.brief != a.briefId
    case None => wb.description != a.description
  }

  predicate Queued(db: Db, fireKey: (string, string)) {
    exists j | j in db.jobs :: db.jobs[j].fireKey == fireKey && db.jobs[j].active
  }

  /** The unique index lets one active job per fire key in. */
  predicate Inserts(db: Db, fireKey: (string, string), fault: Fault) {
    fault != QueueDown && !Queued(db, fireKey)
  }

  function Misses(db: Db, fireKey: (string, string)): nat {
    if fireKey in db.missed then db.missed[fireKey] else 0
  }

  /** The call's enqueue step for a stored workbook without a recorded job. */
  ghost predicate Enqueues(db: Db, db': Db, a: Args, id: string, j: nat, fault: Fault, reused: bool, r: Receipt)
    requires id in db.workbooks
  {
    var fk := (a.workspace, a.key);
    if fault == CrashBeforeEnqueue then
      r == Error && db' == db
    else if !Inserts(db, fk, fault) then
      && r == Receipt(false, reused, id, None)
      && db' == (if reused then db else db.(workbooks := db.workbooks[id := db.workbooks[id].(queueFailed := true)]))
    else
      && j !in db.jobs
      && var db1 := db.(jobs := db.jobs[j := Job(fk, id, true)]);
      var unrecorded := db1.(missed := db.missed[fk := Misses(db, fk) + 1]);
      if fault == CrashAfterEnqueue then r == Error && db' == unrecorded
      else if fault == AckLost then
        && r == Receipt(false, reused, id, None)
        && db' == (if reused then unrecorded
                   else unrecorded.(workbooks := db.workbooks[id := db.workbooks[id].(queueFailed := true)]))
      else
        && r == Receipt(true, reused, id, Some(j))
        && db' == db1.(workbooks := db.workbooks[id := db.workbooks[id].(job := Some(j), queueFailed := false)])
  }

  ghost predicate Calls(db: Db, db': Db, a: Args, newId: string, column: string, j: nat, fault: Fault, r: Receipt) {
    if !Valid(a) then r == Error && db' == db
    else if Taken(db, a.workspace, a.key) then
      exists id :: Holds(db, id, a.workspace, a.key) && ResumesAt(db, db', a, id, j, fault, r)
    else
      && newId !in db.workbooks
      && var wb := Workbook(a.workspace, a.key, a.description, a.briefId, Some(column), None, false);
      var db1 := db.(workbooks := db.workbooks[newId := wb]);
      if a.autoRun || fault == CrashBeforeEnqueue then Enqueues(db1, db', a, newId, j, fault, false, r)
      else r == Receipt(true, false, newId, None) && db' == db1
  }

  ghost predicate ResumesAt(db: Db, db': Db, a: Args, id: string, j: nat, fault: Fault, r: Receipt)
    requires id in db.workbooks
  {
    var wb := db.workbooks[id];
    if Conflicts(a, wb) then r == Conflict && db' == db
    else if a.autoRun && wb.job == None then
      if wb.column == None then r == Error && db' == db
      else Enqueues(db, db', a, id, j, fault, true, r)
    else r == Receipt(true, true, id, wb.job) && db' == db
  }

  // ---- the action itself ----

  class Store {
    var db: Db

    /** Adds a job unless the index or a fault forbids it; `None` is the exception. */
    method AddJob(workspace: string, key: string, workbook: string, j: nat, fault: Fault) returns (job: Option<nat>)
      requires j !in db.jobs
      modifies this
      ensures var fk := (workspace, key);
              var db1 := old(db).(jobs := old(db).jobs[j := Job(fk, workbook, true)]);
              if !Inserts(old(db), fk, fault) then job == None && db == old(db)
              else if fault == AckLost then job == None && db == db1.(missed := db1.missed[fk := Misses(db1, fk) + 1])
              else job == Some(j) && db == db1
    {
      var fk := (workspace, key);
      if fault == QueueDown || Queued(db, fk) {
        return None;
      }
      db := db.(jobs := db.jobs[j := Job(fk, workbook, true)]);
      if fault == AckLost {
        db := db.(missed := db.missed[fk := Misses(db, fk) + 1]);
        return None;
      }
      return Some(j);
    }

    method Find(workspace: string, key: string) returns (id: Option<string>)
      ensures id.Some? <==> Taken(db, workspace, key)
      ensures id.Some? ==> Holds(db, id.value, workspace, key)
    {
      if i :| i in db.workbooks && Holds(db, i, workspace, key) {
        return Some(i);
      }
      return None;
    }

    /** A call that finds its key taken: it conflicts, reports, or enqueues the job that is missing. */
    method Resume(a: Args, id: string, j: nat, fault: Fault) returns (r: Receipt)
      requires id in db.workbooks && j !in db.jobs
      modifies this
      ensures ResumesAt(old(db), db, a, id, j, fault, r)
    {
      var wb := db.workbooks[id];
      if (a.briefId.Some? && wb.brief != a.briefId) || (a.briefId.None? && wb.description != a.description) {
        return Conflict;
      }
      if !a.autoRun || wb.job != None {
        return Receipt(true, true, id, wb.job);
      }
      if wb.column == None || fault == CrashBeforeEnqueue {
        return Error;
      }
      var queued := AddJob(a.workspace, a.key, id, j, fault);
      if queued == None {
        return Receipt(false, true, id, None);
      }
      if fault == CrashAfterEnqueue {
        db := db.(missed := db.missed[(a.workspace, a.key) := Misses(db, (a.workspace, a.key)) + 1]);
        return Error;
      }
      db := db.(workbooks := db.workbooks[id := wb.(job := queued, queueFailed := false)]);
      return Receipt(true, true, id, queued);
    }

    method CreateSourceWorkbook(a: Args, newId: string, column: string, j: nat, fault: Fault) returns (r: Receipt)
      requires newId !in db.workbooks && j !in db.jobs
      modifies this
      ensures Calls(old(db), db, a, newId, column, j, fault, r)
    {
      if a.description == "" || (a.briefId.Some? && !a.complete) || |a.key| > MAX_KEY {
        return Error;
      }
      var existing := Find(a.workspace, a.key);
      if existing.Some? {
        r := Resume(a, existing.value, j, fault);
        return;
      }
      var wb := Workbook(a.workspace, a.key, a.description, a.briefId, Some(column), None, false);
      db := db.(workbooks := db.workbooks[newId := wb]);
      if fault == CrashBeforeEnqueue {
        return Error;
      }
      if a.autoRun {
        var queued := AddJob(a.workspace, a.key, newId, j, fault);
        if queued == None {
          db := db.(workbooks := db.workbooks[newId := wb.(queueFailed := true)]);
          return Receipt(false, false, newId, None);
        }
        if fault == CrashAfterEnqueue {
          db := db.(missed := db.missed[(a.workspace, a.key) := Misses(db, (a.workspace, a.key)) + 1]);
          return Error;
        }
        db := db.(workbooks := db.workbooks[newId := wb.(job := queued)]);
        return Receipt(true, false, newId, queued);
      }
      return Receipt(true, false, newId, None);
    }
  }

  // ---- any sequence of calls and job completions ----

  datatype Event = Call(a: Args, newId: string, column: string, j: nat, fault: Fault, r: Receipt) | JobEnds(j: nat)

  ghost predicate Step(db: Db, e: Event, db': Db) {
    match e
    case Call(a, newId, column, j, fault, r) => Calls(db, db', a, newId, column, j, fault, r)
    case JobEnds(j) => j in db.jobs && db' == db.(jobs := db.jobs[j := db.jobs[j].(active := false)])
  }

  ghost predicate Happens(run: seq<Db>, events: seq<Event>, i: nat)
    requires i < |events| < |run|
  {
    Step(run[i], events[i], run[i + 1])
  }

  ghost predicate IsRun(run: seq<Db>, events: seq<Event>) {
    && |run| == |events| + 1 && run[0] == Db(map[], map[], map[])
    && forall i: nat | i < |events| :: Happens(run, events, i)
  }

  function JobsOf(db: Db, fireKey: (string, string)): set<nat> {
    set j | j in db.jobs && db.jobs[j].fireKey == fireKey
  }

  /** One workbook per key. */
  ghost predicate OnePerKey(db: Db) {
    forall p, q | p in db.workbooks && q in db.workbooks
      && db.workbooks[p].workspace == db.workbooks[q].workspace && db.workbooks[p].key == db.workbooks[q].key :: p == q
  }

  ghost predicate JobsBelong(db: Db) {
    && (forall j | j in db.jobs :: Taken(db, db.jobs[j].fireKey.0, db.jobs[j].fireKey.1))
    && (forall fk | fk in db.missed :: Taken(db, fk.0, fk.1))
  }

  /** The unique index: at most one active job per fire key. */
  ghost predicate OneActive(db: Db) {
    forall i, j | i in db.jobs && j in db.jobs && db.jobs[i].active && db.jobs[j].active
      && db.jobs[i].fireKey == db.jobs[j].fireKey :: i == j
  }

  ghost predicate Counted(db: Db, wb: Workbook) {
    var fk := (wb.workspace, wb.key);
    && |JobsOf(db, fk)| == Misses(db, fk) + (if wb.job.Some? then 1 else 0)
    && (wb.job.Some? ==> wb.job.value in JobsOf(db, fk))
  }

  /** Every job of a key is the recorded one or a missed one. */
  ghost predicate AllCounted(db: Db) {
    forall id | id in db.workbooks :: Counted(db, db.workbooks[id])
  }

  ghost predicate Inv(db: Db) {
    OnePerKey(db) && JobsBelong(db) && OneActive(db) && AllCounted(db)
  }

  predicate SameRequest(w: Workbook, w': Workbook) {
    w'.workspace == w.workspace && w'.key == w.key && w'.description == w.description && w'.brief == w.brief && w'.column == w.column
  }

  /** What an enqueue step may change: the workbook's job and flag, and one job with its miss. */
  ghost predicate Shape(db: Db, db': Db, id: string, j: nat, fk: (string, string), added: bool, recorded: bool)
    requires id in db.workbooks
  {
    && (recorded ==> added)
    && id in db'.workbooks && SameRequest(db.workbooks[id], db'.workbooks[id])
    && db'.workbooks[id].job == (if recorded then Some(j) else None)
    && db'.workbooks == db.workbooks[id := db'.workbooks[id]]
    && (if added then j !in db.jobs && !Queued(db, fk) && db'.jobs == db.jobs[j := Job(fk, id, true)] else db'.jobs == db.jobs)
    && db'.missed == (if added && !recorded then db.missed[fk := Misses(db, fk) + 1] else db.missed)
  }

  lemma EnqueueShape(db: Db, db': Db, a: Args, id: string, j: nat, fault: Fault, reused: bool, r: Receipt)
    returns (added: bool, recorded: bool)
    requires id in db.workbooks && db.workbooks[id].job == None && Enqueues(db, db', a, id, j, fault, reused, r)
    ensures Shape(db, db', id, j, (a.workspace, a.key), added, recorded)
    ensures added ==> (recorded <==> fault != AckLost && fault != CrashAfterEnqueue)
    ensures r == (if recorded then Receipt(true, reused, id, Some(j))
                  else if fault == CrashBeforeEnqueue || (added && fault == CrashAfterEnqueue) then Error
                  else Receipt(false, reused, id, None))
  {
    added := fault != CrashBeforeEnqueue && Inserts(db, (a.workspace, a.key), fault);
    recorded := added && fault != AckLost && fault != CrashAfterEnqueue;
    assert db.workbooks[id := db.workbooks[id]] == db.workbooks;
  }

  lemma ShapeKeepsTaken(db: Db, db': Db, id: string, j: nat, fk: (string, string), added: bool, recorded: bool, ws: string, key: string)
    requires id in db.workbooks && Shape(db, db', id, j, fk, added, recorded) && Taken(db, ws, key)
    ensures Taken(db', ws, key)
  {
    var w :| Holds(db, w, ws, key);
    assert Holds(db', w, ws, key);
  }

  lemma ShapeJobs(db: Db, db': Db, id: string, j: nat, fk: (string, string), added: bool, recorded: bool, k: (string, string))
    requires id in db.workbooks && Shape(db, db', id, j, fk, added, recorded)
    ensures JobsOf(db', k) == if added && k == fk then JobsOf(db, k) + {j} else JobsOf(db, k)
    ensures j !in JobsOf(db, k) || !added
    ensures Misses(db', k) == Misses(db, k) + if added && !recorded && k == fk then 1 else 0
  {
  }

  lemma ShapeKeepsCounts(db: Db, db': Db, id: string, j: nat, fk: (string, string), added: bool, recorded: bool, i: string)
    requires OnePerKey(db) && Holds(db, id, fk.0, fk.1) && db.workbooks[id].job == None
    requires Shape(db, db', id, j, fk, added, recorded) && i in db.workbooks && Counted(db, db.workbooks[i])
    ensures Counted(db', db'.workbooks[i])
  {
    var k := (db.workbooks[i].workspace, db.workbooks[i].key);
    ShapeJobs(db, db', id, j, fk, added, recorded, k);
    if i != id {
      assert k != fk;
    }
  }

  lemma ShapeKeepsInv(db: Db, db': Db, id: string, j: nat, fk: (string, string), added: bool, recorded: bool)
    requires Inv(db) && Holds(db, id, fk.0, fk.1) && db.workbooks[id].job == None
    requires Shape(db, db', id, j, fk, added, recorded)
    ensures Inv(db')
  {
    assert AllCounted(db') by {
      forall i | i in db'.workbooks ensures Counted(db', db'.workbooks[i]) {
        ShapeKeepsCounts(db, db', id, j, fk, added, recorded, i);
      }
    }
    assert JobsBelong(db') by {
      forall ws, key | Taken(db, ws, key) ensures Taken(db', ws, key) {
        ShapeKeepsTaken(db, db', id, j, fk, added, recorded, ws, key);
      }
      assert Taken(db, fk.0, fk.1);
    }
    ShapeKeepsIndexes(db, db', id, j, fk, added, recorded);
  }

  lemma ShapeKeepsIndexes(db: Db, db': Db, id: string, j: nat, fk: (string, string), added: bool, recorded: bool)
    requires OnePerKey(db) && OneActive(db) && Holds(db, id, fk.0, fk.1)
    requires Shape(db, db', id, j, fk, added, recorded)
    ensures OnePerKey(db') && OneActive(db')
  {
  }

  lemma NoJobs(db: Db, k: (string, string))
    requires JobsBelong(db) && !Taken(db, k.0, k.1)
    ensures JobsOf(db, k) == {} && Misses(db, k) == 0
  {
  }

  lemma NewWorkbookKeepsInv(db: Db, db1: Db, id: string, wb: Workbook)
    requires Inv(db) && id !in db.workbooks && wb.job == None && !Taken(db, wb.workspace, wb.key)
    requires db1 == db.(workbooks := db.workbooks[id := wb])
    ensures Inv(db1) && Holds(db1, id, wb.workspace, wb.key)
  {
    forall ws, key | Taken(db, ws, key) ensures Taken(db1, ws, key) {
      var w :| Holds(db, w, ws, key);
      assert Holds(db1, w, ws, key);
    }
    forall i | i in db.workbooks ensures !(db.workbooks[i].workspace == wb.workspace && db.workbooks[i].key == wb.key) {
      assert !Holds(db, i, wb.workspace, wb.key);
    }
    forall i | i in db1.workbooks ensures Counted(db1, db1.workbooks[i]) {
      var k := (db1.workbooks[i].workspace, db1.workbooks[i].key);
      assert JobsOf(db1, k) == JobsOf(db, k);
      if i == id {
        NoJobs(db, k);
      } else {
        assert Counted(db, db.workbooks[i]);
      }
    }
  }

  lemma JobEndKeepsInv(db: Db, e: Event, db': Db)
    requires Inv(db) && e.JobEnds? && Step(db, e, db')
    ensures Inv(db')
  {
    JobEndKeepsBelong(db, e.j, db');
    forall i | i in db'.workbooks ensures Counted(db', db'.workbooks[i]) {
      assert Counted(db, db.workbooks[i]);
      JobEndKeepsJobs(db, e.j, db', (db.workbooks[i].workspace, db.workbooks[i].key));
    }
    assert OneActive(db');
  }

  predicate Ended(db: Db, j: nat, db': Db) {
    j in db.jobs && db' == db.(jobs := db.jobs[j := db.jobs[j].(active := false)])
  }

  lemma JobEndKeepsJobs(db: Db, j: nat, db': Db, k: (string, string))
    requires Ended(db, j, db')
    ensures JobsOf(db', k) == JobsOf(db, k)
  {
  }

  lemma JobEndKeepsBelong(db: Db, j: nat, db': Db)
    requires JobsBelong(db) && Ended(db, j, db')
    ensures JobsBelong(db')
  {
    forall ws, key | Taken(db, ws, key) ensures Taken(db', ws, key) {
      var w :| Holds(db, w, ws, key);
      assert Holds(db', w, ws, key);
    }
  }

  /** What one call can do to a workbook that is already there. */
  ghost predicate Kept(db: Db, db': Db) {
    forall i | i in db.workbooks ::
      && i in db'.workbooks
      && SameRequest(db.workbooks[i], db'.workbooks[i])
      && (db.workbooks[i].job.Some? ==> db'.workbooks[i].job == db.workbooks[i].job)
  }

  /** A receipt tells the stored truth about its workbook. */
  ghost predicate ReceiptTrue(db: Db, a: Args, r: Receipt) {
    r.Receipt? ==>
      && Holds(db, r.workbook, a.workspace, a.key) && !Conflicts(a, db.workbooks[r.workbook])
      && r.job == db.workbooks[r.workbook].job
  }

  lemma EnqueueKeepsInv(db: Db, db': Db, a: Args, id: string, j: nat, fault: Fault, reused: bool, r: Receipt)
    requires Inv(db) && Holds(db, id, a.workspace, a.key) && db.workbooks[id].job == None
    requires Enqueues(db, db', a, id, j, fault, reused, r)
    ensures Inv(db')
  {
    var added, recorded := EnqueueShape(db, db', a, id, j, fault, reused, r);
    ShapeKeepsInv(db, db', id, j, (a.workspace, a.key), added, recorded);
  }

  lemma EnqueueTells(db: Db, db': Db, a: Args, id: string, j: nat, fault: Fault, reused: bool, r: Receipt)
    requires Holds(db, id, a.workspace, a.key) && db.workbooks[id].job == None && !Conflicts(a, db.workbooks[id])
    requires Enqueues(db, db', a, id, j, fault, reused, r)
    ensures Kept(db, db') && ReceiptTrue(db', a, r)
  {
    var added, recorded := EnqueueShape(db, db', a, id, j, fault, reused, r);
    ShapeTells(db, db', a, id, j, added, recorded, r);
  }

  lemma ShapeTells(db: Db, db': Db, a: Args, id: string, j: nat, added: bool, recorded: bool, r: Receipt)
    requires Holds(db, id, a.workspace, a.key) && db.workbooks[id].job == None && !Conflicts(a, db.workbooks[id])
    requires Shape(db, db', id, j, (a.workspace, a.key), added, recorded)
    requires r.Receipt? ==> r.workbook == id && r.job == if recorded then Some(j) else None
    ensures Kept(db, db') && ReceiptTrue(db', a, r)
  {
  }

  lemma ResumeKeepsInv(db: Db, db': Db, a: Args, id: string, j: nat, fault: Fault, r: Receipt)
    requires Inv(db) && Holds(db, id, a.workspace, a.key) && ResumesAt(db, db', a, id, j, fault, r)
    ensures Inv(db') && Kept(db, db') && ReceiptTrue(db', a, r)
  {
    if !Conflicts(a, db.workbooks[id]) && a.autoRun && db.workbooks[id].job == None && db.workbooks[id].column != None {
      EnqueueKeepsInv(db, db', a, id, j, fault, true, r);
      EnqueueTells(db, db', a, id, j, fault, true, r);
    }
  }

  lemma NewWorkbookTells(db: Db, db1: Db, a: Args, id: string, wb: Workbook)
    requires id !in db.workbooks && db1 == db.(workbooks := db.workbooks[id := wb])
    requires wb.workspace == a.workspace && wb.key == a.key && wb.description == a.description && wb.brief == a.briefId
    ensures Kept(db, db1) && !Conflicts(a, db1.workbooks[id])
  {
  }

  lemma CreateKeepsInv(db: Db, e: Event, db': Db)
    requires Inv(db) && e.Call? && Step(db, e, db') && Valid(e.a) && !Taken(db, e.a.workspace, e.a.key)
    ensures Inv(db') && Kept(db, db') && ReceiptTrue(db', e.a, e.r)
  {
    var a := e.a;
    var wb := Workbook(a.workspace, a.key, a.description, a.briefId, Some(e.column), None, false);
    var db1 := db.(workbooks := db.workbooks[e.newId := wb]);
    NewWorkbookKeepsInv(db, db1, e.newId, wb);
    NewWorkbookTells(db, db1, a, e.newId, wb);
    if a.autoRun || e.fault == CrashBeforeEnqueue {
      EnqueueKeepsInv(db1, db', a, e.newId, e.j, e.fault, false, e.r);
      EnqueueTells(db1, db', a, e.newId, e.j, e.fault, false, e.r);
      KeptCompose(db, db1, db');
    }
  }

  lemma CallKeepsInv(db: Db, e: Event, db': Db)
    requires Inv(db) && e.Call? && Step(db, e, db')
    ensures Inv(db') && Kept(db, db') && ReceiptTrue(db', e.a, e.r)
  {
    var a := e.a;
    if !Valid(a) {
    } else if Taken(db, a.workspace, a.key) {
      var id :| Holds(db, id, a.workspace, a.key) && ResumesAt(db, db', a, id, e.j, e.fault, e.r);
      ResumeKeepsInv(db, db', a, id, e.j, e.fault, e.r);
    } else {
      CreateKeepsInv(db, e, db');
    }
  }

  lemma StepKeeps(db: Db, e: Event, db': Db)
    requires Inv(db) && Step(db, e, db')
    ensures Inv(db') && Kept(db, db')
  {
    if e.Call? { CallKeepsInv(db, e, db'); } else { JobEndKeepsInv(db, e, db'); }
  }

  lemma EmptyInv()
    ensures Inv(Db(map[], map[], map[]))
  {
  }

  lemma {:induction false} InvAt(run: seq<Db>, events: seq<Event>, n: nat)
    requires IsRun(run, events) && n < |run|
    ensures Inv(run[n])
  {
    if n == 0 {
      EmptyInv();
    } else {
      InvAt(run, events, n - 1);
      assert Happens(run, events, n - 1);
      StepKeeps(run[n - 1], events[n - 1], run[n]);
    }
  }

  lemma KeptCompose(a: Db, b: Db, c: Db)
    requires Kept(a, b) && Kept(b, c)
    ensures Kept(a, c)
  {
  }

  /** Each state of the run keeps the workbooks of the one before. */
  ghost predicate KeptThroughout(run: seq<Db>) {
    forall i | 0 < i < |run| :: Kept(run[i - 1], run[i])
  }

  lemma StepsKeep(run: seq<Db>, events: seq<Event>)
    requires IsRun(run, events)
    ensures KeptThroughout(run)
  {
    forall i | 0 < i < |run| ensures Kept(run[i - 1], run[i]) {
      StepAt(run, events, i - 1);
    }
  }

  lemma {:induction false} KeptFrom(run: seq<Db>, i: nat, j: nat)
    requires KeptThroughout(run) && i <= j < |run|
    ensures Kept(run[i], run[j])
    decreases j
  {
    if i == j {
    } else {
      KeptFrom(run, i, j - 1);
      KeptCompose(run[i], run[j - 1], run[j]);
    }
  }

  /** Over any run a workbook keeps its request and, once recorded, its job. */
  lemma WorkbooksKept(run: seq<Db>, events: seq<Event>, i: nat, j: nat)
    requires IsRun(run, events) && i <= j < |run|
    ensures Kept(run[i], run[j])
  {
    StepsKeep(run, events);
    KeptFrom(run, i, j);
  }

  lemma StepAt(run: seq<Db>, events: seq<Event>, i: nat)
    requires IsRun(run, events) && i < |events|
    ensures Kept(run[i], run[i + 1])
  {
    InvAt(run, events, i);
    assert Happens(run, events, i);
    StepKeeps(run[i], events[i], run[i + 1]);
  }

  lemma CallAt(run: seq<Db>, events: seq<Event>, i: nat)
    requires IsRun(run, events) && i < |events| && events[i].Call?
    ensures Kept(run[i], run[i + 1]) && ReceiptTrue(run[i + 1], events[i].a, events[i].r) && OnePerKey(run[i + 1])
  {
    InvAt(run, events, i);
    assert Happens(run, events, i);
    CallKeepsInv(run[i], events[i], run[i + 1]);
  }

  /** Resumption: two receipts for one key name one workbook, and once a receipt shows a job every
      later one shows that job, whatever failed in between. */
  lemma ReceiptsAgree(run: seq<Db>, events: seq<Event>, i: nat, j: nat)
    requires IsRun(run, events) && i < j < |events|
    requires events[i].Call? && events[j].Call? && events[i].r.Receipt? && events[j].r.Receipt?
    requires events[i].a.workspace == events[j].a.workspace && events[i].a.key == events[j].a.key
    ensures events[j].r.workbook == events[i].r.workbook
    ensures events[i].r.job.Some? ==> events[j].r.job == events[i].r.job
  {
    var e, e' := events[i], events[j];
    var db, db1, db2 := run[i + 1], run[j], run[j + 1];
    CallAt(run, events, i);
    CallAt(run, events, j);
    WorkbooksKept(run, events, i + 1, j);
    LaterReceiptAgrees(db, db1, db2, e, e');
  }

  lemma LaterReceiptAgrees(db: Db, db1: Db, db2: Db, e: Event, e': Event)
    requires e.Call? && e'.Call? && e.r.Receipt? && e'.r.Receipt?
    requires e.a.workspace == e'.a.workspace && e.a.key == e'.a.key
    requires ReceiptTrue(db, e.a, e.r) && ReceiptTrue(db2, e'.a, e'.r) && Kept(db, db1) && Kept(db1, db2) && OnePerKey(db2)
    ensures e'.r.workbook == e.r.workbook && (e.r.job.Some? ==> e'.r.job == e.r.job)
  {
    KeptCompose(db, db1, db2);
  }

  /** A key holds one workbook; its jobs are the recorded one, if any, and one for each enqueue whose
      acknowledgement or record was lost. Without such losses there is at most one job, ever. */
  lemma JobsPerKey(run: seq<Db>, events: seq<Event>, i: nat, p: string, q: string)
    requires IsRun(run, events) && i < |run| && p in run[i].workbooks && q in run[i].workbooks
    requires run[i].workbooks[p].workspace == run[i].workbooks[q].workspace && run[i].workbooks[p].key == run[i].workbooks[q].key
    ensures p == q
    ensures var wb := run[i].workbooks[p];
            var fk := (wb.workspace, wb.key);
            && |JobsOf(run[i], fk)| == Misses(run[i], fk) + (if wb.job.Some? then 1 else 0)
            && (wb.job.Some? ==> wb.job.value in JobsOf(run[i], fk))
  {
    InvAt(run, events, i);
    assert Inv(run[i]) && Counted(run[i], run[i].workbooks[p]);
  }

  predicate Reliable(e: Event) {
    e.Call? ==> e.fault == NoFault || e.fault == CrashBeforeEnqueue || e.fault == QueueDown
  }

  /** When no acknowledgement or record is lost, a key is enqueued once at most, ever — however often
      the queue is down, and although the index stops guarding the key when its job ends. */
  lemma {:induction false} ReliableRunsEnqueueOnce(run: seq<Db>, events: seq<Event>, i: nat)
    requires IsRun(run, events) && i < |run| && forall n | 0 <= n < i :: Reliable(events[n])
    ensures run[i].missed == map[]
    ensures forall id | id in run[i].workbooks ::
              |JobsOf(run[i], (run[i].workbooks[id].workspace, run[i].workbooks[id].key))| <= 1
  {
    for n := 0 to i
      invariant run[n].missed == map[]
    {
      assert Happens(run, events, n) && Reliable(events[n]);
    }
    forall id | id in run[i].workbooks
      ensures |JobsOf(run[i], (run[i].workbooks[id].workspace, run[i].workbooks[id].key))| <= 1
    {
      JobsPerKey(run, events, i, id, id);
    }
  }

  // ---- losses ----

  const BRIEF := Args("ws", "k", "companies", None, false, true)

  /** The two faults that insert a job nobody records. */
  predicate Loses(fault: Fault) {
    fault == AckLost || fault == CrashAfterEnqueue
  }

  function LossReceipt(fault: Fault, reused: bool): Receipt {
    if fault == AckLost then Receipt(false, reused, "w", None) else Error
  }

  /** Where a key is after n losses: n finished jobs, none of them recorded. */
  ghost predicate Lossy(db: Db, n: nat) {
    && (exists failed :: db.workbooks == map["w" := Workbook("ws", "k", "companies", None, Some("col"), None, failed)])
    && (forall j | j in db.jobs :: j < n && !db.jobs[j].active)
    && Misses(db, ("ws", "k")) == n
  }

  ghost predicate UsesOnly(events: seq<Event>, faults: set<Fault>) {
    forall i | 0 <= i < |events| && events[i].Call? :: events[i].fault in faults
  }

  lemma Extend(run: seq<Db>, events: seq<Event>, e: Event, db: Db) returns (run': seq<Db>, events': seq<Event>)
    requires IsRun(run, events) && Step(run[|run| - 1], e, db)
    ensures IsRun(run', events') && run' == run + [db] && events' == events + [e]
  {
    run', events' := run + [db], events + [e];
    forall i: nat | i < |events'| ensures Happens(run', events', i) {
      assert i < |events| ==> Happens(run, events, i);
    }
  }

  lemma FirstLoss(fault: Fault) returns (run: seq<Db>, events: seq<Event>)
    requires Loses(fault)
    ensures IsRun(run, events) && Lossy(run[|run| - 1], 1) && UsesOnly(events, {fault})
  {
    var fk := ("ws", "k");
    var wb := Workbook("ws", "k", "companies", None, Some("col"), None, false);
    var wb1 := wb.(queueFailed := fault == AckLost);
    var db0 := Db(map[], map[], map[]);
    var db1 := Db(map["w" := wb1], map[0 := Job(fk, "w", true)], map[fk := 1]);
    var db2 := db1.(jobs := map[0 := Job(fk, "w", false)]);
    FirstLossEnqueues(fault, wb, wb1);
    assert !Taken(db0, "ws", "k");
    run, events := Extend([db0], [], Call(BRIEF, "w", "col", 0, fault, LossReceipt(fault, false)), db1);
    run, events := Extend(run, events, JobEnds(0), db2);
  }

  lemma FirstLossEnqueues(fault: Fault, wb: Workbook, wb1: Workbook)
    requires Loses(fault) && wb1 == wb.(queueFailed := fault == AckLost) && !wb.queueFailed
    ensures Enqueues(Db(map["w" := wb], map[], map[]),
                     Db(map["w" := wb1], map[0 := Job(("ws", "k"), "w", true)], map[("ws", "k") := 1]),
                     BRIEF, "w", 0, fault, false, LossReceipt(fault, false))
  {
    assert map["w" := wb]["w" := wb1] == map["w" := wb1];
    assert !Queued(Db(map["w" := wb], map[], map[]), ("ws", "k"));
  }

  lemma NextLoss(db: Db, n: nat, fault: Fault) returns (db1: Db, db2: Db)
    requires Lossy(db, n) && Loses(fault)
    ensures Step(db, Call(BRIEF, "", "", n, fault, LossReceipt(fault, true)), db1)
    ensures Step(db1, JobEnds(n), db2) && Lossy(db2, n + 1)
  {
    var fk := ("ws", "k");
    db1 := db.(jobs := db.jobs[n := Job(fk, "w", true)], missed := db.missed[fk := n + 1]);
    db2 := db1.(jobs := db1.jobs[n := Job(fk, "w", false)]);
    assert !Queued(db, fk) && n !in db.jobs;
    assert Holds(db, "w", "ws", "k");
    assert ResumesAt(db, db1, BRIEF, "w", n, fault, LossReceipt(fault, true));
  }

  /** Losses pile up: with either of the two faults, and for every n, there is a run of one caller
      repeating one request in which its key has been enqueued n times. */
  lemma {:induction false} LossesPileUp(n: nat, fault: Fault) returns (run: seq<Db>, events: seq<Event>)
    requires n > 0 && Loses(fault)
    ensures IsRun(run, events) && UsesOnly(events, {fault}) && Lossy(run[|run| - 1], n)
    ensures |JobsOf(run[|run| - 1], ("ws", "k"))| == n
  {
    if n == 1 {
      run, events := FirstLoss(fault);
    } else {
      run, events := LossesPileUp(n - 1, fault);
      var db1, db2 := NextLoss(run[|run| - 1], n - 1, fault);
      run, events := Extend(run, events, Call(BRIEF, "", "", n - 1, fault, LossReceipt(fault, true)), db1);
      run, events := Extend(run, events, JobEnds(n - 1), db2);
    }
    assert "w" in run[|run| - 1].workbooks;
    JobsPerKey(run, events, |run| - 1, "w", "w");
  }

  ghost predicate OneJobPerKey(db: Db) {
    forall id | id in db.workbooks :: |JobsOf(db, (db.workbooks[id].workspace, db.workbooks[id].key))| <= 1
  }

  /** Every key is enqueued at most once in every run exactly if no enqueue's acknowledgement or record
      can be lost; crashing earlier, and the queue being down, do no harm. */
  lemma OneJobExactlyIfNothingIsLost(faults: set<Fault>)
    ensures (forall run: seq<Db>, events: seq<Event> | IsRun(run, events) && UsesOnly(events, faults) :: OneJobPerKey(run[|run| - 1]))
       <==> forall fault | fault in faults :: !Loses(fault)
  {
    if fault :| fault in faults && Loses(fault) {
      var run, events := LossesPileUp(2, fault);
      assert UsesOnly(events, faults);
      var db := run[|run| - 1];
      assert "w" in db.workbooks && |JobsOf(db, ("ws", "k"))| == 2;
      assert !OneJobPerKey(db);
    } else {
      forall run: seq<Db>, events: seq<Event> | IsRun(run, events) && UsesOnly(events, faults) ensures OneJobPerKey(run[|run| - 1]) {
        forall n | 0 <= n < |events| ensures Reliable(events[n]) {
          assert events[n].Call? ==> events[n].fault in faults;
        }
        ReliableRunsEnqueueOnce(run, events, |run| - 1);
      }
    }
  }

  /** Under a taken key a valid call conflicts exactly if account discovery is asked for and the stored brief
      is another one or missing, or it is not asked for and the stored description differs. A call that
      conflicts changes nothing. */
  lemma ConflictExactlyIf(db: Db, e: Event, db': Db, id: string)
    requires OnePerKey(db) && e.Call? && Step(db, e, db') && Valid(e.a)
    requires Holds(db, id, e.a.workspace, e.a.key)
    ensures e.r == Conflict <==>
      || (e.a.briefId.Some? && (db.workbooks[id].brief.None? || db.workbooks[id].brief.value != e.a.briefId.value))
      || (e.a.briefId.None? && db.workbooks[id].description != e.a.description)
    ensures e.r == Conflict ==> db' == db
  {
    assert Taken(db, e.a.workspace, e.a.key);
    var w :| Holds(db, w, e.a.workspace, e.a.key) && ResumesAt(db, db', e.a, w, e.j, e.fault, e.r);
    assert w == id;
  }

  /** A call with an empty description, an incomplete brief or too long a key is an error and changes nothing;
      unless something fails around it, or the stored workbook lost its source column, no other call is. */
  lemma TurnedAwayExactlyIf(db: Db, e: Event, db': Db)
    requires e.Call? && Step(db, e, db')
    ensures var invalid := e.a.description == "" || (e.a.briefId.Some? && !e.a.complete) || |e.a.key| > 255;
      && (invalid ==> e.r == Error && db' == db)
      && (!invalid && e.fault == NoFault && (forall id | id in db.workbooks :: db.workbooks[id].column.Some?) ==> e.r != Error)
  {
  }

  /** Over any run two discovery calls under one key that both get receipts carry one brief. */
  lemma ReceiptsShareTheBrief(run: seq<Db>, events: seq<Event>, i: nat, j: nat)
    requires IsRun(run, events) && i < j < |events|
    requires events[i].Call? && events[j].Call? && events[i].r.Receipt? && events[j].r.Receipt?
    requires events[i].a.workspace == events[j].a.workspace && events[i].a.key == events[j].a.key
    ensures events[i].a.briefId.Some? && events[j].a.briefId.Some? ==> events[i].a.briefId == events[j].a.briefId
    ensures events[i].a.briefId.None? && events[j].a.briefId.None? ==> events[i].a.description == events[j].a.description
  {
    CallAt(run, events, i);
    CallAt(run, events, j);
    WorkbooksKept(run, events, i + 1, j);
    KeptCompose(run[i + 1], run[j], run[j + 1]);
    LaterReceiptAgrees(run[i + 1], run[j], run[j + 1], events[i], events[j]);
  }

  /** What a receipt says: reused exactly if the key was taken before the call, and ok exactly if no job was
      asked for or one is recorded. Of a failure a new workbook bears the mark, and an old one no trace. */
  lemma ReceiptSays(db: Db, e: Event, db': Db)
    requires Inv(db) && e.Call? && Step(db, e, db') && e.r.Receipt?
    ensures e.r.reused <==> Taken(db, e.a.workspace, e.a.key)
    ensures e.r.ok <==> !e.a.autoRun || e.r.job.Some?
    ensures e.r.workbook in db'.workbooks && e.r.job == db'.workbooks[e.r.workbook].job
    ensures !e.r.ok && !e.r.reused ==> db'.workbooks[e.r.workbook].queueFailed
    ensures !e.r.ok && e.r.reused ==> e.r.workbook in db.workbooks && db'.workbooks[e.r.workbook] == db.workbooks[e.r.workbook]
  {
    CallKeepsInv(db, e, db');
    var a := e.a;
    if Taken(db, a.workspace, a.key) {
      var id :| Holds(db, id, a.workspace, a.key) && ResumesAt(db, db', a, id, e.j, e.fault, e.r);
      EnqueueSays(db, db', a, id, e.j, e.fault, true, e.r);
    } else {
      var wb := Workbook(a.workspace, a.key, a.description, a.briefId, Some(e.column), None, false);
      EnqueueSays(db.(workbooks := db.workbooks[e.newId := wb]), db', a, e.newId, e.j, e.fault, false, e.r);
    }
  }

  lemma EnqueueSays(db: Db, db': Db, a: Args, id: string, j: nat, fault: Fault, reused: bool, r: Receipt)
    requires id in db.workbooks
    ensures Enqueues(db, db', a, id, j, fault, reused, r) && r.Receipt? ==>
      && r.reused == reused && r.workbook == id && (r.ok <==> r.job.Some?)
      && id in db'.workbooks
      && (!r.ok ==> db'.workbooks[id] == if reused then db.workbooks[id] else db.workbooks[id].(queueFailed := true))
  {
  }
}
