/** The concurrent skeleton of one search: a goroutine per instance, one buffered channel, a closer,
    and a collector that may stop reading early. */
module FanOut {
  import opened Prelude

  /** A sender starts its query, gets an answer, sends it once, and signs off the wait group. */
  datatype Stage = Spawned | Querying | Answered | Sent | Finished

  datatype Collector = Reading | BrokeOff | SawClose

  /** Sender i queries `instances[i]`. `others` are the queries other goroutines have running. */
  datatype State = State(instances: seq<string>, stages: seq<Stage>, buffer: seq<nat>, received: seq<nat>, closed: bool,
                         waiting: int, collector: Collector, others: multiset<string>, inFlight: map<string, int>)

  datatype Action = StartQuery(i: nat) | EndQuery(i: nat) | Send(i: nat) | SignOff(i: nat) | Close
                  | Receive(enough: bool) | SeeClose | OtherStart(instance: string) | OtherEnd(instance: string)

  ghost predicate Init(s: State) {
    && |s.stages| == |s.instances| == s.waiting
    && (forall i | 0 <= i < |s.stages| :: s.stages[i] == Spawned)
    && s.buffer == [] && s.received == [] && !s.closed && s.collector == Reading
    && (forall x :: InFlight(s, x) == s.others[x])
  }

  function InFlight(s: State, instance: string): int {
    if instance in s.inFlight then s.inFlight[instance] else 0
  }

  function Count(s: State, instance: string, change: int): map<string, int> {
    s.inFlight[instance := InFlight(s, instance) + change]
  }

  /** The channel was made with room for every sender. */
  function Capacity(s: State): nat {
    |s.instances|
  }

  predicate At(s: State, i: nat, stage: Stage) {
    i < |s.stages| == |s.instances| && s.stages[i] == stage
  }

  predicate Enabled(s: State, a: Action) {
    match a
    case StartQuery(i) => At(s, i, Spawned)
    case EndQuery(i) => At(s, i, Querying)
    case Send(i) => At(s, i, Answered) && !s.closed && |s.buffer| < Capacity(s)
    case SignOff(i) => At(s, i, Sent)
    case Close => s.waiting == 0 && !s.closed
    case Receive(_) => s.collector == Reading && s.buffer != []
    case SeeClose => s.collector == Reading && s.buffer == [] && s.closed
    case OtherStart(_) => true
    case OtherEnd(x) => x in s.others
  }

  function After(s: State, a: Action): State
    requires Enabled(s, a)
  {
    match a
    case StartQuery(i) => s.(stages := s.stages[i := Querying], inFlight := Count(s, s.instances[i], 1))
    case EndQuery(i) => s.(stages := s.stages[i := Answered], inFlight := Count(s, s.instances[i], -1))
    case Send(i) => s.(stages := s.stages[i := Sent], buffer := s.buffer + [i])
    case SignOff(i) => s.(stages := s.stages[i := Finished], waiting := s.waiting - 1)
    case Close => s.(closed := true)
    case Receive(enough) =>
      s.(buffer := s.buffer[1..], received := s.received + [s.buffer[0]], collector := if enough then BrokeOff else Reading)
    case SeeClose => s.(collector := SawClose)
    case OtherStart(x) => s.(others := s.others + multiset{x}, inFlight := Count(s, x, 1))
    case OtherEnd(x) => s.(others := s.others - multiset{x}, inFlight := Count(s, x, -1))
  }

  ghost predicate IsRun(run: seq<State>, acts: seq<Action>) {
    && |run| == |acts| + 1 && Init(run[0])
    && forall n | 0 <= n < |acts| :: Enabled(run[n], acts[n]) && run[n + 1] == After(run[n], acts[n])
  }

  // ---- the invariant ----

  predicate HasSent(stage: Stage) {
    stage == Sent || stage == Finished
  }

  predicate Unfinished(stage: Stage) {
    stage != Finished
  }

  /** How many of the search's queries are running on `instance`. */
  function Running(instances: seq<string>, stages: seq<Stage>, instance: string): nat
    requires |instances| == |stages|
  {
    if stages == [] then 0
    else
      var n := |stages| - 1;
      Running(instances[..n], stages[..n], instance) + if stages[n] == Querying && instances[n] == instance then 1 else 0
  }

  lemma {:induction false} RunningUpdate(instances: seq<string>, stages: seq<Stage>, x: string, i: nat, stage: Stage)
    requires |instances| == |stages| && i < |stages|
    ensures Running(instances, stages[i := stage], x) == Running(instances, stages, x)
      + (if stage == Querying && instances[i] == x then 1 else 0)
      - (if stages[i] == Querying && instances[i] == x then 1 else 0)
  {
    var n := |stages| - 1;
    if i < n {
      assert stages[i := stage][..n] == stages[..n][i := stage];
      RunningUpdate(instances[..n], stages[..n], x, i, stage);
    } else {
      assert stages[i := stage][..n] == stages[..n];
    }
  }

  lemma {:induction false} NobodyRuns(instances: seq<string>, stages: seq<Stage>, x: string)
    requires |instances| == |stages| && forall i | 0 <= i < |stages| :: stages[i] == Spawned
    ensures Running(instances, stages, x) == 0
  {
    if stages == [] {
    } else {
      var n := |stages| - 1;
      NobodyRuns(instances[..n], stages[..n], x);
    }
  }

  /** Wait group and channel: the group counts the senders that have not signed off, the channel has
      seen one message from every sender that has sent, and closing waited for all of them. */
  ghost predicate ChannelInv(s: State) {
    && |s.stages| == |s.instances|
    && |s.received| + |s.buffer| == Tally(s.stages, HasSent)
    && s.waiting == Tally(s.stages, Unfinished)
    && (s.closed ==> s.waiting == 0)
    && (s.collector == SawClose ==> s.closed && s.buffer == [])
  }

  /** Messages in the channel and those already read: one from each sender that sent, none twice. */
  ghost predicate MailInv(s: State) {
    var mail := s.received + s.buffer;
    && Distinct(mail)
    && forall i: nat :: i in mail <==> i < |s.stages| && HasSent(s.stages[i])
  }

  /** An instance's counter is the number of queries running on it, this search's and the others'. */
  ghost predicate CounterInv(s: State) {
    && |s.stages| == |s.instances|
    && forall x :: InFlight(s, x) == Running(s.instances, s.stages, x) + s.others[x]
  }

  ghost predicate Inv(s: State) {
    ChannelInv(s) && MailInv(s) && CounterInv(s)
  }

  lemma InitInv(s: State)
    requires Init(s)
    ensures Inv(s)
  {
    TallyBounds(s.stages, HasSent);
    TallyBounds(s.stages, Unfinished);
    forall x ensures InFlight(s, x) == Running(s.instances, s.stages, x) + s.others[x] {
      NobodyRuns(s.instances, s.stages, x);
    }
  }

  predicate OwnStep(a: Action) {
    a.StartQuery? || a.EndQuery? || a.Send? || a.SignOff? || a.Close?
  }

  predicate SenderStep(a: Action) {
    OwnStep(a) && !a.Close?
  }

  lemma StepKeepsChannelInv(s: State, a: Action)
    requires ChannelInv(s) && Enabled(s, a)
    ensures ChannelInv(After(s, a))
  {
    if SenderStep(a) {
      var stage := After(s, a).stages[a.i];
      TallyUpdate(s.stages, HasSent, a.i, stage);
      TallyUpdate(s.stages, Unfinished, a.i, stage);
      TallyBounds(s.stages, Unfinished);
    }
  }

  lemma StepKeepsMailInv(s: State, a: Action)
    requires MailInv(s) && Enabled(s, a)
    ensures MailInv(After(s, a))
  {
    var s' := After(s, a);
    var mail, mail' := s.received + s.buffer, s'.received + s'.buffer;
    if a.Send? {
      assert mail' == mail + [a.i];
      assert a.i !in mail;
      assert forall i :: i in mail' <==> i in mail || i == a.i;
    } else {
      assert mail' == mail;
    }
  }

  lemma SenderKeepsCounterInv(s: State, a: Action)
    requires CounterInv(s) && Enabled(s, a) && SenderStep(a)
    ensures CounterInv(After(s, a))
  {
    var s' := After(s, a);
    forall x ensures InFlight(s', x) == Running(s'.instances, s'.stages, x) + s'.others[x] {
      assert InFlight(s, x) == Running(s.instances, s.stages, x) + s.others[x];
      RunningUpdate(s.instances, s.stages, x, a.i, s'.stages[a.i]);
    }
  }

  lemma StepKeepsCounterInv(s: State, a: Action)
    requires CounterInv(s) && Enabled(s, a)
    ensures CounterInv(After(s, a))
  {
    var s' := After(s, a);
    if SenderStep(a) {
      SenderKeepsCounterInv(s, a);
    } else {
      forall x ensures InFlight(s', x) == Running(s'.instances, s'.stages, x) + s'.others[x] {
        assert InFlight(s, x) == Running(s.instances, s.stages, x) + s.others[x];
      }
    }
  }

  lemma {:induction false} InvHolds(run: seq<State>, acts: seq<Action>)
    requires IsRun(run, acts)
    ensures forall n | 0 <= n < |run| :: Inv(run[n])
  {
    InitInv(run[0]);
    for n := 0 to |acts|
      invariant forall m | 0 <= m <= n :: Inv(run[m])
    {
      StepKeepsChannelInv(run[n], acts[n]);
      StepKeepsMailInv(run[n], acts[n]);
      StepKeepsCounterInv(run[n], acts[n]);
    }
  }

  /** Sending never blocks and never hits a closed channel, whether or not the collector is still
      reading; the channel is closed only after every sender has sent and signed off. */
  lemma SendersNeverBlock(run: seq<State>, acts: seq<Action>, n: nat)
    requires IsRun(run, acts) && n < |run|
    ensures forall i | At(run[n], i, Answered) :: Enabled(run[n], Send(i))
    ensures run[n].closed ==> forall i | 0 <= i < |run[n].stages| :: run[n].stages[i] == Finished
  {
    InvHolds(run, acts);
    var s := run[n];
    assert Inv(s);
    TallyBounds(s.stages, HasSent);
    TallyBounds(s.stages, Unfinished);
  }

  /** Nothing is lost or read twice on the way: what the collector has read and what still lies in
      the channel is one message from each sender that has sent. */
  lemma EachAnswerTravelsOnce(run: seq<State>, acts: seq<Action>, n: nat)
    requires IsRun(run, acts) && n < |run|
    ensures Distinct(run[n].received + run[n].buffer)
    ensures forall i: nat :: i in run[n].received + run[n].buffer <==> i < |run[n].stages| && HasSent(run[n].stages[i])
    ensures run[n].collector == SawClose ==> forall i: nat :: i < |run[n].stages| <==> i in run[n].received
  {
    InvHolds(run, acts);
    SendersNeverBlock(run, acts, n);
    var s := run[n];
    assert Inv(s);
    if s.collector == SawClose {
      assert s.received + s.buffer == s.received;
    }
  }

  /** Every in-flight counter is the number of queries running on that instance, and never negative. */
  lemma CountersCountQueries(run: seq<State>, acts: seq<Action>, n: nat, instance: string)
    requires IsRun(run, acts) && n < |run|
    ensures |run[n].stages| == |run[n].instances|
    ensures InFlight(run[n], instance) == Running(run[n].instances, run[n].stages, instance) + run[n].others[instance] >= 0
  {
    InvHolds(run, acts);
    assert Inv(run[n]);
  }

  // ---- nothing is left behind ----

  function Steps(stage: Stage): nat {
    match stage
    case Spawned => 4
    case Querying => 3
    case Answered => 2
    case Sent => 1
    case Finished => 0
  }

  /** What the search's own goroutines have left to do. */
  function Left(s: State): nat {
    Sum(s.stages, Steps) + if s.closed then 0 else 1
  }

  lemma OwnStepsUseUpWork(s: State, a: Action)
    requires Enabled(s, a)
    ensures OwnStep(a) ==> Left(After(s, a)) == Left(s) - 1
    ensures !OwnStep(a) ==> Left(After(s, a)) == Left(s)
  {
    if SenderStep(a) {
      SumUpdate(s.stages, Steps, a.i, After(s, a).stages[a.i]);
    }
  }

  /** Some sender with work left, when there is any. */
  lemma {:induction false} Busy(stages: seq<Stage>) returns (i: nat)
    ensures Sum(stages, Steps) > 0 ==> i < |stages| && stages[i] != Finished
    ensures Sum(stages, Steps) == 0 ==> forall j | 0 <= j < |stages| :: stages[j] == Finished
  {
    i := 0;
    if stages == [] {
    } else {
      var n := |stages| - 1;
      i := Busy(stages[..n]);
      if stages[n] != Finished {
        i := n;
      }
    }
  }

  /** No leak: as long as anything is left to do, one of the search's goroutines can do it, although
      the collector may have broken off; when nothing is left every sender has finished and the channel
      is closed; and then a collector still reading can go on. OwnStepsUseUpWork bounds how long that
      takes. */
  lemma NothingIsLeftBehind(run: seq<State>, acts: seq<Action>, n: nat) returns (a: Action)
    requires IsRun(run, acts) && n < |run|
    ensures Left(run[n]) > 0 ==> OwnStep(a) && Enabled(run[n], a)
    ensures Left(run[n]) == 0 ==> run[n].closed && forall i | 0 <= i < |run[n].stages| :: run[n].stages[i] == Finished
    ensures run[n].closed && run[n].collector == Reading ==> Enabled(run[n], Receive(false)) || Enabled(run[n], SeeClose)
  {
    InvHolds(run, acts);
    SendersNeverBlock(run, acts, n);
    var s := run[n];
    assert Inv(s);
    var i := Busy(s.stages);
    if Sum(s.stages, Steps) == 0 {
      TallyBounds(s.stages, Unfinished);
      a := Close;
    } else {
      a := match s.stages[i]
           case Spawned => StartQuery(i)
           case Querying => EndQuery(i)
           case Answered => Send(i)
           case _ => SignOff(i);
      assert At(s, i, s.stages[i]);
    }
  }
}
