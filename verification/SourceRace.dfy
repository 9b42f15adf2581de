/** Overlapping calls of the create-and-source action with one key, one brief and auto-run on. Each call
    looks the key up, inserts the workbook if it saw none, enqueues the job if it saw none recorded,
    records the job and answers; these steps of different calls interleave. */
module SourceRace {
  import opened Prelude

  /** Where a call is. `Ready` knows a workbook whose configuration showed no job when it looked, its own
      if `creator`; `Failed` is a creator whose enqueue raised, `Marking` one that has read the
      configuration, with the job it showed, to write it back marked as failed. */
  datatype Call = Missing | Ready(creator: bool) | Queued(job: nat) | Failed | Marking(seen: Option<nat>) | Over

  /** `jobs` are this key's jobs, true while active; `shown` is what the receipts showed, in order. */
  datatype State = State(created: bool, recorded: Option<nat>, jobs: map<nat, bool>, calls: map<nat, Call>, shown: seq<Option<nat>>)

  datatype Action = Look(c: nat) | Insert(c: nat) | Enqueue(c: nat, j: nat) | LoseAck(c: nat, j: nat)
                  | Refuse(c: nat, down: bool) | Record(c: nat) | Reread(c: nat) | Mark(c: nat) | Crash(c: nat) | End(j: nat)

  ghost predicate Init(s: State) {
    s == State(false, None, map[], map[], [])
  }

  predicate Active(s: State) {
    exists j | j in s.jobs :: s.jobs[j]
  }

  function Moved(s: State, c: nat, stage: Call): State {
    s.(calls := s.calls[c := stage])
  }

  function Answered(s: State, c: nat, job: Option<nat>): State {
    Moved(s, c, Over).(shown := s.shown + [job])
  }

  function Raised(s: State, c: nat, creator: bool): State {
    if creator then Moved(s, c, Failed) else Answered(s, c, None)
  }

  /** The first step of call c. */
  function Looked(s: State, c: nat): State {
    if !s.created then Moved(s, c, Missing)
    else if s.recorded.Some? then Answered(s, c, s.recorded)
    else Moved(s, c, Ready(false))
  }

  /** A later step of call c, which is at `stage`. */
  ghost predicate Moves(s: State, stage: Call, a: Action, s': State) {
    match a
    case Insert(c) =>
      // the loser of the insert gets the constraint's exception and no receipt
      stage.Missing? && s' == if s.created then Moved(s, c, Over) else Moved(s, c, Ready(true)).(created := true)
    case Enqueue(c, j) =>
      stage.Ready? && j !in s.jobs && !Active(s) && s' == Moved(s, c, Queued(j)).(jobs := s.jobs[j := true])
    case LoseAck(c, j) =>
      stage.Ready? && j !in s.jobs && !Active(s) && s' == Raised(s, c, stage.creator).(jobs := s.jobs[j := true])
    case Refuse(c, down) =>
      // the index lets no second active job in
      stage.Ready? && (down || Active(s)) && s' == Raised(s, c, stage.creator)
    case Record(c) =>
      // the configuration is written as a whole, over whatever was recorded meanwhile
      stage.Queued? && s' == Answered(s, c, Some(stage.job)).(recorded := Some(stage.job))
    case Reread(c) => stage.Failed? && s' == Moved(s, c, Marking(s.recorded))
    case Mark(c) => stage.Marking? && s' == Answered(s, c, None).(recorded := stage.seen)
    case Crash(c) => s' == Moved(s, c, Over)
    case _ => false
  }

  ghost predicate Step(s: State, a: Action, s': State) {
    match a
    case Look(c) => c !in s.calls && s' == Looked(s, c)
    case End(j) => j in s.jobs && s' == s.(jobs := s.jobs[j := false])
    case _ => a.c in s.calls && Moves(s, s.calls[a.c], a, s')
  }

  predicate Idle(s: State) {
    forall c | c in s.calls :: s.calls[c].Over?
  }

  /** Whether calls may overlap, and whether jobs may end while the run lasts. */
  ghost predicate Allowed(s: State, a: Action, overlap: bool, ending: bool) {
    && (a.Look? && !overlap ==> Idle(s))
    && (a.End? ==> ending)
  }

  ghost predicate IsRun(run: seq<State>, acts: seq<Action>, overlap: bool, ending: bool) {
    && |run| == |acts| + 1 && Init(run[0])
    && forall i | 0 <= i < |acts| :: Step(run[i], acts[i], run[i + 1]) && Allowed(run[i], acts[i], overlap, ending)
  }

  /** Receipts that show a job show the same one. */
  ghost predicate OneJobShown(shown: seq<Option<nat>>) {
    forall i, j | 0 <= i < j < |shown| && shown[i].Some? && shown[j].Some? :: shown[i] == shown[j]
  }

  /** Once a receipt shows a job, every later one shows it. */
  ghost predicate ShownFromThenOn(shown: seq<Option<nat>>) {
    forall i, j | 0 <= i < j < |shown| && shown[i].Some? :: shown[j] == shown[i]
  }

  // ---- calls one after another ----

  ghost predicate OneAtATime(calls: map<nat, Call>) {
    forall p, q | p in calls && q in calls && !calls[p].Over? && !calls[q].Over? :: p == q
  }

  /** One call at a time, and nothing recorded before its turn. */
  ghost predicate Serial(s: State) {
    && OneAtATime(s.calls)
    && (!Idle(s) ==> s.recorded == None)
    && (!s.created ==> s.recorded == None && forall c | c in s.calls :: s.calls[c].Missing? || s.calls[c].Over?)
    && (forall c | c in s.calls && s.calls[c].Marking? :: s.calls[c].seen == None)
  }

  /** The jobs shown are the recorded one. */
  ghost predicate ShowsRecorded(s: State) {
    && (forall i | 0 <= i < |s.shown| && s.shown[i].Some? :: s.recorded == s.shown[i])
    && ShownFromThenOn(s.shown)
  }

  /** While a call is not over all others are. */
  lemma OthersAreOver(s: State, c: nat)
    requires Serial(s) && c in s.calls && !s.calls[c].Over?
    ensures s.recorded == None && forall p | p in s.calls && p != c :: s.calls[p].Over?
  {
    assert !Idle(s);
  }

  lemma StepKeepsSerial(s: State, a: Action, s': State, ending: bool)
    requires Serial(s) && Step(s, a, s') && Allowed(s, a, false, ending)
    ensures Serial(s')
  {
    if !a.Look? && !a.End? && !s.calls[a.c].Over? {
      OthersAreOver(s, a.c);
    }
  }

  lemma StepKeepsShown(s: State, a: Action, s': State)
    requires Serial(s) && ShowsRecorded(s) && Step(s, a, s')
    ensures ShowsRecorded(s')
  {
    if !a.Look? && !a.End? && !s.calls[a.c].Over? {
      OthersAreOver(s, a.c);
    }
  }

  // ---- jobs that do not end ----

  /** At most one job, and it is active. */
  ghost predicate OneActive(jobs: map<nat, bool>) {
    && (forall j | j in jobs :: jobs[j])
    && (forall i, j | i in jobs && j in jobs :: i == j)
  }

  predicate Known(jobs: map<nat, bool>, job: Option<nat>) {
    job.Some? ==> job.value in jobs
  }

  predicate KnownAt(jobs: map<nat, bool>, stage: Call) {
    match stage
    case Queued(j) => j in jobs
    case Marking(seen) => Known(jobs, seen)
    case _ => true
  }

  ghost predicate CallsKnow(s: State) {
    Known(s.jobs, s.recorded) && forall c | c in s.calls :: KnownAt(s.jobs, s.calls[c])
  }

  ghost predicate ShowsKnown(s: State) {
    forall i | 0 <= i < |s.shown| :: Known(s.jobs, s.shown[i])
  }

  lemma StepKeepsOneActive(s: State, a: Action, s': State, overlap: bool)
    requires OneActive(s.jobs) && Step(s, a, s') && Allowed(s, a, overlap, false)
    ensures OneActive(s'.jobs)
  {
  }

  lemma StepKeepsCallsKnow(s: State, a: Action, s': State)
    requires CallsKnow(s) && Step(s, a, s')
    ensures CallsKnow(s')
  {
  }

  lemma StepKeepsShowsKnown(s: State, a: Action, s': State)
    requires CallsKnow(s) && ShowsKnown(s) && Step(s, a, s')
    ensures ShowsKnown(s')
  {
  }

  lemma {:induction false} SerialHolds(run: seq<State>, acts: seq<Action>, ending: bool, n: nat)
    requires IsRun(run, acts, false, ending) && n < |run|
    ensures Serial(run[n]) && ShowsRecorded(run[n])
  {
    if n == 0 {
    } else {
      SerialHolds(run, acts, ending, n - 1);
      StepKeepsSerial(run[n - 1], acts[n - 1], run[n], ending);
      StepKeepsShown(run[n - 1], acts[n - 1], run[n]);
    }
  }

  lemma {:induction false} OneJobHolds(run: seq<State>, acts: seq<Action>, overlap: bool, n: nat)
    requires IsRun(run, acts, overlap, false) && n < |run|
    ensures OneActive(run[n].jobs) && CallsKnow(run[n]) && ShowsKnown(run[n])
  {
    if n == 0 {
    } else {
      OneJobHolds(run, acts, overlap, n - 1);
      StepKeepsOneActive(run[n - 1], acts[n - 1], run[n], overlap);
      StepKeepsCallsKnow(run[n - 1], acts[n - 1], run[n]);
      StepKeepsShowsKnown(run[n - 1], acts[n - 1], run[n]);
    }
  }

  // ---- what goes wrong otherwise ----

  lemma Extend(run: seq<State>, acts: seq<Action>, overlap: bool, ending: bool, a: Action, s: State)
    returns (run': seq<State>, acts': seq<Action>)
    requires IsRun(run, acts, overlap, ending) && Step(run[|run| - 1], a, s) && Allowed(run[|run| - 1], a, overlap, ending)
    ensures IsRun(run', acts', overlap, ending) && run' == run + [s] && acts' == acts + [a]
  {
    run', acts' := run + [s], acts + [a];
  }

  /** Two calls that both saw a workbook without a job, the first of which has enqueued its own. */
  lemma BothReady(ending: bool) returns (run: seq<State>, acts: seq<Action>)
    ensures IsRun(run, acts, true, ending)
    ensures run[|run| - 1] == State(true, None, map[0 := true], map[0 := Queued(0), 1 := Ready(false)], [])
  {
    var s0 := State(false, None, map[], map[], []);
    var s1 := State(false, None, map[], map[0 := Missing], []);
    var s2 := State(true, None, map[], map[0 := Ready(true)], []);
    var s3 := State(true, None, map[], map[0 := Ready(true), 1 := Ready(false)], []);
    var s4 := State(true, None, map[0 := true], map[0 := Queued(0), 1 := Ready(false)], []);
    run, acts := Extend([s0], [], true, ending, Look(0), s1);
    run, acts := Extend(run, acts, true, ending, Insert(0), s2);
    run, acts := Extend(run, acts, true, ending, Look(1), s3);
    run, acts := Extend(run, acts, true, ending, Enqueue(0, 0), s4);
  }

  /** The first call's job ends before the second call enqueues: two jobs are inserted. */
  lemma BothQueued() returns (run: seq<State>, acts: seq<Action>)
    ensures IsRun(run, acts, true, true)
    ensures run[|run| - 1] == State(true, None, map[0 := false, 1 := true], map[0 := Queued(0), 1 := Queued(1)], [])
  {
    var s1 := State(true, None, map[0 := false], map[0 := Queued(0), 1 := Ready(false)], []);
    var s2 := State(true, None, map[0 := false, 1 := true], map[0 := Queued(0), 1 := Queued(1)], []);
    run, acts := BothReady(true);
    run, acts := Extend(run, acts, true, true, End(0), s1);
    run, acts := Extend(run, acts, true, true, Enqueue(1, 1), s2);
  }

  /** The second record overwrites the first, and the two receipts differ. */
  lemma SecondJobReplacesFirst() returns (run: seq<State>, acts: seq<Action>)
    ensures IsRun(run, acts, true, true) && run[|run| - 1].jobs.Keys == {0, 1}
    ensures run[|run| - 1].shown == [Some(0), Some(1)] && run[|run| - 1].recorded == Some(1)
  {
    var s1 := State(true, Some(0), map[0 := false, 1 := true], map[0 := Over, 1 := Queued(1)], [Some(0)]);
    var s2 := State(true, Some(1), map[0 := false, 1 := true], map[0 := Over, 1 := Over], [Some(0), Some(1)]);
    run, acts := BothQueued();
    run, acts := Extend(run, acts, true, true, Record(0), s1);
    run, acts := Extend(run, acts, true, true, Record(1), s2);
  }

  /** The second call is refused by the index after the first has answered: its receipt shows no job. */
  lemma RefusedAfterShown(ending: bool) returns (run: seq<State>, acts: seq<Action>)
    ensures IsRun(run, acts, true, ending) && run[|run| - 1].shown == [Some(0), None]
  {
    var s1 := State(true, Some(0), map[0 := true], map[0 := Over, 1 := Ready(false)], [Some(0)]);
    var s2 := State(true, Some(0), map[0 := true], map[0 := Over, 1 := Over], [Some(0), None]);
    run, acts := BothReady(ending);
    run, acts := Extend(run, acts, true, ending, Record(0), s1);
    assert s1.jobs[0];
    run, acts := Extend(run, acts, true, ending, Refuse(1, false), s2);
  }

  // ---- when exactly receipts agree ----

  /** In every run the receipts that show a job show the same one, exactly unless calls may overlap and
      jobs may also end meanwhile. */
  lemma OneJobShownExactlyUnless(overlap: bool, ending: bool)
    ensures (forall run: seq<State>, acts: seq<Action> | IsRun(run, acts, overlap, ending) :: OneJobShown(run[|run| - 1].shown))
       <==> !(overlap && ending)
  {
    if overlap && ending {
      var run, acts := SecondJobReplacesFirst();
      var shown := run[|run| - 1].shown;
      assert shown[0] != shown[1];
      assert !OneJobShown(run[|run| - 1].shown);
    } else {
      forall run: seq<State>, acts: seq<Action> | IsRun(run, acts, overlap, ending) ensures OneJobShown(run[|run| - 1].shown) {
        if overlap {
          OneJobHolds(run, acts, overlap, |run| - 1);
        } else {
          SerialHolds(run, acts, ending, |run| - 1);
        }
      }
    }
  }

  /** In every run all receipts after one that shows a job show it too, exactly if calls may not overlap. */
  lemma ShownFromThenOnExactlyIf(overlap: bool, ending: bool)
    ensures (forall run: seq<State>, acts: seq<Action> | IsRun(run, acts, overlap, ending) :: ShownFromThenOn(run[|run| - 1].shown))
       <==> !overlap
  {
    if overlap {
      var run, acts := RefusedAfterShown(ending);
      var shown := run[|run| - 1].shown;
      assert shown[0] != shown[1];
      assert !ShownFromThenOn(run[|run| - 1].shown);
    } else {
      forall run: seq<State>, acts: seq<Action> | IsRun(run, acts, overlap, ending) ensures ShownFromThenOn(run[|run| - 1].shown) {
        SerialHolds(run, acts, ending, |run| - 1);
      }
    }
  }
}
