/** One health pass over the pool: a probe per instance, at most PROBES of them at a time. */
module HealthCheck {
  import opened Prelude

  const PROBES := 12

  /** Where the loop that starts the probes is; `Acquiring` has counted itself into the wait group. */
  datatype Loop = Counting | Acquiring | Starting | Waiting | Returned

  /** A probe runs; it gives its slot back and then signs off, in that order. */
  datatype Probe = Probing | Probed | SlotReturned | SignedOff

  /** `probes` are those started so far; `slots` is what lies in the semaphore channel. */
  datatype State = State(total: nat, loop: Loop, probes: seq<Probe>, slots: int, waiting: int)

  datatype Action = Count | Acquire | Start | Wait | Return | EndProbe(i: nat) | ReturnSlot(i: nat) | SignOff(i: nat)

  ghost predicate Init(s: State) {
    s.loop == Counting && s.probes == [] && s.slots == 0 && s.waiting == 0
  }

  predicate At(s: State, i: nat, probe: Probe) {
    i < |s.probes| && s.probes[i] == probe
  }

  predicate Enabled(s: State, a: Action) {
    match a
    case Count => s.loop == Counting && |s.probes| < s.total
    case Acquire => s.loop == Acquiring && s.slots < PROBES
    case Start => s.loop == Starting
    case Wait => s.loop == Counting && |s.probes| >= s.total
    case Return => s.loop == Waiting && s.waiting == 0
    case EndProbe(i) => At(s, i, Probing)
    case ReturnSlot(i) => At(s, i, Probed) && s.slots > 0
    case SignOff(i) => At(s, i, SlotReturned)
  }

  function After(s: State, a: Action): State
    requires Enabled(s, a)
  {
    match a
    case Count => s.(loop := Acquiring, waiting := s.waiting + 1)
    case Acquire => s.(loop := Starting, slots := s.slots + 1)
    case Start => s.(loop := Counting, probes := s.probes + [Probing])
    case Wait => s.(loop := Waiting)
    case Return => s.(loop := Returned)
    case EndProbe(i) => s.(probes := s.probes[i := Probed])
    case ReturnSlot(i) => s.(probes := s.probes[i := SlotReturned], slots := s.slots - 1)
    case SignOff(i) => s.(probes := s.probes[i := SignedOff], waiting := s.waiting - 1)
  }

  ghost predicate IsRun(run: seq<State>, acts: seq<Action>) {
    && |run| == |acts| + 1 && Init(run[0])
    && forall n | 0 <= n < |acts| :: Enabled(run[n], acts[n]) && run[n + 1] == After(run[n], acts[n])
  }

  // ---- the invariant ----

  predicate IsProbing(probe: Probe) {
    probe == Probing
  }

  predicate HoldsSlot(probe: Probe) {
    probe == Probing || probe == Probed
  }

  predicate NotSignedOff(probe: Probe) {
    probe != SignedOff
  }

  /** A slot is taken by each probe that has not given it back and by the loop between taking it and
      starting the probe; the wait group counts the probes not signed off and the one being started. */
  ghost predicate Inv(s: State) {
    && s.slots == Tally(s.probes, HoldsSlot) + (if s.loop == Starting then 1 else 0)
    && s.slots <= PROBES
    && s.waiting == Tally(s.probes, NotSignedOff) + (if s.loop == Acquiring || s.loop == Starting then 1 else 0)
    && |s.probes| + (if s.loop == Acquiring || s.loop == Starting then 1 else 0) <= s.total
    && (s.loop == Waiting || s.loop == Returned ==> |s.probes| == s.total)
    && (s.loop == Returned ==> s.waiting == 0)
  }

  predicate ProbeStep(a: Action) {
    a.EndProbe? || a.ReturnSlot? || a.SignOff?
  }

  lemma StepKeepsInv(s: State, a: Action)
    requires Inv(s) && Enabled(s, a)
    ensures Inv(After(s, a))
  {
    if ProbeStep(a) {
      var probe := After(s, a).probes[a.i];
      TallyUpdate(s.probes, HoldsSlot, a.i, probe);
      TallyUpdate(s.probes, NotSignedOff, a.i, probe);
      TallyBounds(s.probes, NotSignedOff);
    } else if a.Start? {
      TallySnoc(s.probes, HoldsSlot, Probing);
      TallySnoc(s.probes, NotSignedOff, Probing);
    }
  }

  lemma {:induction false} InvHolds(run: seq<State>, acts: seq<Action>)
    requires IsRun(run, acts)
    ensures forall n | 0 <= n < |run| :: Inv(run[n])
  {
    for n := 0 to |acts|
      invariant forall m | 0 <= m <= n :: Inv(run[m])
    {
      StepKeepsInv(run[n], acts[n]);
    }
  }

  /** Never more than PROBES probes run at a time, no probe blocks on giving its slot back, and when
      the pass returns every instance has been probed, every probe has ended and the semaphore is empty. */
  lemma ProbesAreBounded(run: seq<State>, acts: seq<Action>, n: nat)
    requires IsRun(run, acts) && n < |run|
    ensures Tally(run[n].probes, IsProbing) <= PROBES
    ensures forall i | At(run[n], i, Probed) :: Enabled(run[n], ReturnSlot(i))
    ensures run[n].loop == Returned ==>
      (run[n].slots == 0 && |run[n].probes| == run[n].total && forall i | 0 <= i < |run[n].probes| :: run[n].probes[i] == SignedOff)
  {
    InvHolds(run, acts);
    var s := run[n];
    assert Inv(s);
    TallyMonotone(s.probes, IsProbing, HoldsSlot);
    TallyBounds(s.probes, HoldsSlot);
    TallyBounds(s.probes, NotSignedOff);
  }

  // ---- the pass comes to an end ----

  function Steps(probe: Probe): nat {
    match probe
    case Probing => 3
    case Probed => 2
    case SlotReturned => 1
    case SignedOff => 0
  }

  /** Six steps for each instance not started, fewer for what is under way, two to wait and return. */
  function Left(s: State): int {
    Sum(s.probes, Steps) + 6 * (s.total - |s.probes|) +
    match s.loop
    case Counting => 2
    case Acquiring => 1
    case Starting => 0
    case Waiting => 1
    case Returned => 0
  }

  /** No deadlock: until the pass has returned some step is possible, also with every slot taken, and
      each step brings the end nearer. */
  lemma AlwaysAStep(run: seq<State>, acts: seq<Action>, n: nat) returns (a: Action)
    requires IsRun(run, acts) && n < |run|
    ensures Left(run[n]) >= 0
    ensures run[n].loop != Returned ==> Enabled(run[n], a) && Left(After(run[n], a)) < Left(run[n])
  {
    InvHolds(run, acts);
    var s := run[n];
    assert Inv(s);
    match s.loop {
      case Counting => a := if |s.probes| < s.total then Count else Wait;
      case Acquiring =>
        if s.slots < PROBES {
          a := Acquire;
        } else {
          var i := TallyPick(s.probes, HoldsSlot);
          a := if s.probes[i] == Probing then EndProbe(i) else ReturnSlot(i);
          assert At(s, i, s.probes[i]);
        }
      case Starting => a := Start;
      case Waiting =>
        if s.waiting == 0 {
          a := Return;
        } else {
          var i := TallyPick(s.probes, NotSignedOff);
          a := NextOf(s.probes[i], i);
          ProbesAreBounded(run, acts, n);
          assert At(s, i, s.probes[i]);
        }
      case Returned => a := Return;
    }
    if s.loop != Returned {
      StepsBringTheEndNearer(s, a);
    }
  }

  function NextOf(probe: Probe, i: nat): Action {
    match probe
    case Probing => EndProbe(i)
    case Probed => ReturnSlot(i)
    case _ => SignOff(i)
  }

  lemma StepsBringTheEndNearer(s: State, a: Action)
    requires Inv(s) && Enabled(s, a)
    ensures Left(After(s, a)) < Left(s)
  {
    if ProbeStep(a) {
      SumUpdate(s.probes, Steps, a.i, After(s, a).probes[a.i]);
    } else if a.Start? {
      assert (s.probes + [Probing])[..|s.probes|] == s.probes;
    }
  }
}
