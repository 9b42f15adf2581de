/** Tenant binding: a context variable per task, a transaction-local setting per pooled connection,
    and row policies that compare rows with that setting. */
module Tenancy {
  import opened Prelude

  // ---- one task, one connection ----

  /** `app.workspace_id` as SQL sees it. A connection whose setting has expired shows "" or NULL. */
  datatype Setting = Null | Text(text: string)

  predicate Unset(s: Setting) {
    s == Null || s == Text("")
  }

  /** The row policy, for reading and for writing: equality, which NULL never satisfies. */
  predicate Admits(s: Setting, rowTenant: string) {
    s == Text(rowTenant)
  }

  /** A task's context variable, with the values its open scopes will restore. */
  datatype Context = Context(bound: Option<string>, saved: seq<Option<string>>)

  function Entered(c: Context, ws: string): Context {
    Context(Some(ws), c.saved + [c.bound])
  }

  function Left(c: Context): Context
    requires c.saved != []
  {
    Context(c.saved[|c.saved| - 1], c.saved[..|c.saved| - 1])
  }

  function Published(c: Context, ws: string): Context {
    c.(bound := Some(ws))
  }

  /** The begin hook's effect: without a workspace it leaves the connection as it finds it. */
  function AfterBegin(s: Setting, bound: Option<string>): Setting {
    match bound
    case Some(ws) => if ws != "" then Text(ws) else s
    case None => s
  }

  class Task {
    var bound: Option<string>
    var saved: seq<Option<string>>

    function Now(): Context
      reads this
    {
      Context(bound, saved)
    }

    method Publish(ws: string)
      modifies this
      ensures Now() == Published(old(Now()), ws)
    {
      bound := Some(ws);
    }

    /** Entering a scope without a workspace raises and binds nothing. */
    method EnterScope(ws: string) returns (raised: bool)
      modifies this
      ensures raised <==> ws == ""
      ensures Now() == if raised then old(Now()) else Entered(old(Now()), ws)
    {
      if ws == "" {
        return true;
      }
      saved := saved + [bound];
      bound := Some(ws);
      return false;
    }

    /** The scope's `finally`. */
    method LeaveScope()
      requires saved != []
      modifies this
      ensures Now() == Left(old(Now()))
    {
      bound := saved[|saved| - 1];
      saved := saved[..|saved| - 1];
    }
  }

  class Connection {
    var setting: Setting

    method SetWorkspace(task: Task)
      modifies this
      ensures setting == AfterBegin(old(setting), task.bound)
    {
      match task.bound {
        case None => return;
        case Some(ws) =>
          if ws == "" {
            return;
          }
          setting := Text(ws);
      }
    }
  }

  // ---- all tasks and connections together ----

  /** `owner` runs the transaction; `tenant` is the binding the owner had when the transaction began
      or was last rebound; `moved` says whether the owner's binding has been touched since. */
  datatype Conn = Idle(setting: Setting)
                | Open(setting: Setting, owner: nat, tenant: Option<string>, moved: bool, pending: map<nat, string>)

  /** One row read or written: by whom, under which binding, and the row's tenant. */
  datatype Access = Access(task: nat, tenant: Option<string>, rowTenant: string)

  datatype State = State(tasks: map<nat, Context>, conns: map<nat, Conn>, rows: map<nat, string>, log: seq<Access>)

  datatype Action = Spawn(parent: nat, child: nat)
                  | Publish(t: nat, ws: string)
                  | Enter(t: nat, ws: string)
                  | Leave(t: nat)
                  | Begin(t: nat, c: nat)
                  | Rebind(t: nat, c: nat, ws: string)
                  | Finish(c: nat, commit: bool, residue: Setting)
                  | Read(c: nat, row: nat)
                  | Write(c: nat, row: nat, rowTenant: string)
                  | Other

  ghost predicate Init(s: State) {
    && s.log == [] && s.rows == map[]
    && (forall t | t in s.tasks :: s.tasks[t] == Context(None, []))
    && (forall c | c in s.conns :: s.conns[c] == Idle(Null))
  }

  /** The owner's transactions now run under a binding the task no longer has. */
  function Touch(conns: map<nat, Conn>, t: nat): map<nat, Conn> {
    map c | c in conns :: if conns[c].Open? && conns[c].owner == t then conns[c].(moved := true) else conns[c]
  }

  function WithContext(s: State, t: nat, ctx: Context): State {
    s.(tasks := s.tasks[t := ctx], conns := Touch(s.conns, t))
  }

  ghost predicate Step(s: State, a: Action, s': State) {
    match a
    case Spawn(p, t) =>
      p in s.tasks && t !in s.tasks && s' == s.(tasks := s.tasks[t := Context(s.tasks[p].bound, [])])
    case Publish(t, ws) =>
      t in s.tasks && ws != "" && s' == WithContext(s, t, Published(s.tasks[t], ws))
    case Enter(t, ws) =>
      t in s.tasks && ws != "" && s' == WithContext(s, t, Entered(s.tasks[t], ws))
    case Leave(t) =>
      t in s.tasks && s.tasks[t].saved != [] && s' == WithContext(s, t, Left(s.tasks[t]))
    case Begin(t, c) =>
      && t in s.tasks && c in s.conns && s.conns[c].Idle?
      && s' == s.(conns := s.conns[c := Open(AfterBegin(s.conns[c].setting, s.tasks[t].bound), t, s.tasks[t].bound, false, map[])])
    case Rebind(t, c, ws) =>
      && t in s.tasks && ws != "" && c in s.conns && s.conns[c].Open? && s.conns[c].owner == t
      && var s1 := WithContext(s, t, Published(s.tasks[t], ws));
      s' == s1.(conns := s1.conns[c := s1.conns[c].(setting := Text(ws), tenant := Some(ws), moved := false)])
    case Finish(c, commit, residue) =>
      && c in s.conns && s.conns[c].Open? && Unset(residue)
      && s' == s.(conns := s.conns[c := Idle(residue)],
                  rows := if commit then s.rows + s.conns[c].pending else s.rows)
    case Read(c, row) =>
      && c in s.conns && s.conns[c].Open? && row in s.rows && Admits(s.conns[c].setting, s.rows[row])
      && s' == s.(log := s.log + [Access(s.conns[c].owner, s.conns[c].tenant, s.rows[row])])
    case Write(c, row, rowTenant) =>
      // The application stamps the tenant it was authorised for, never an empty one.
      && c in s.conns && s.conns[c].Open? && rowTenant != "" && Admits(s.conns[c].setting, rowTenant)
      && (row in s.rows ==> Admits(s.conns[c].setting, s.rows[row]))
      && s' == s.(conns := s.conns[c := s.conns[c].(pending := s.conns[c].pending[row := rowTenant])],
                  log := s.log + [Access(s.conns[c].owner, s.conns[c].tenant, rowTenant)])
    case Other => s' == s
  }

  ghost predicate IsRun(run: seq<State>, acts: seq<Action>) {
    && |run| == |acts| + 1 && Init(run[0])
    && forall i | 0 <= i < |acts| :: Step(run[i], acts[i], run[i + 1])
  }

  ghost predicate ConnOK(s: State, c: Conn) {
    match c
    case Idle(setting) => Unset(setting)
    case Open(setting, owner, tenant, moved, pending) =>
      && owner in s.tasks
      && (if tenant.Some? then tenant.value != "" && setting == Text(tenant.value) else Unset(setting))
      && (!moved ==> tenant == s.tasks[owner].bound)
      && (forall r | r in pending :: pending[r] != "")
  }

  ghost predicate ContextOK(c: Context) {
    && c.bound != Some("")
    && forall i | 0 <= i < |c.saved| :: c.saved[i] != Some("")
  }

  ghost predicate Inv(s: State) {
    && (forall t | t in s.tasks :: ContextOK(s.tasks[t]))
    && (forall c | c in s.conns :: ConnOK(s, s.conns[c]))
    && (forall r | r in s.rows :: s.rows[r] != "")
    && (forall i | 0 <= i < |s.log| :: s.log[i].tenant == Some(s.log[i].rowTenant))
  }

  lemma ContextChangeKeepsInv(s: State, t: nat, ctx: Context)
    requires Inv(s) && t in s.tasks && ContextOK(ctx)
    ensures Inv(WithContext(s, t, ctx))
  {
    var s' := WithContext(s, t, ctx);
    forall c | c in s'.conns ensures ConnOK(s', s'.conns[c]) {
      assert ConnOK(s, s.conns[c]);
    }
  }

  lemma RebindKeepsInv(s: State, a: Action, s': State)
    requires Inv(s) && a.Rebind? && Step(s, a, s')
    ensures Inv(s')
  {
    var s1 := WithContext(s, a.t, Published(s.tasks[a.t], a.ws));
    ContextChangeKeepsInv(s, a.t, Published(s.tasks[a.t], a.ws));
    forall d | d in s'.conns ensures ConnOK(s', s'.conns[d]) {
      assert ConnOK(s1, s1.conns[d]);
    }
  }

  lemma StepKeepsInv(s: State, a: Action, s': State)
    requires Inv(s) && Step(s, a, s')
    ensures Inv(s')
  {
    match a
    case Publish(t, ws) => ContextChangeKeepsInv(s, t, Published(s.tasks[t], ws));
    case Enter(t, ws) => ContextChangeKeepsInv(s, t, Entered(s.tasks[t], ws));
    case Leave(t) => ContextChangeKeepsInv(s, t, Left(s.tasks[t]));
    case Rebind(_, _, _) => RebindKeepsInv(s, a, s');
    case _ =>
      forall d | d in s'.conns ensures ConnOK(s', s'.conns[d]) {
        assert d in s.conns && ConnOK(s, s.conns[d]);
      }
  }

  /** Over every interleaving: an idle connection carries no tenant; whatever a transaction reads or
      writes belongs to the workspace its own task was bound to; and a transaction no task bound a
      workspace for can touch no row at all. */
  lemma {:induction false} TenantsNeverMix(run: seq<State>, acts: seq<Action>)
    requires IsRun(run, acts)
    ensures forall i | 0 <= i < |run| :: Inv(run[i])
    ensures forall i, c | 0 <= i < |run| && c in run[i].conns && run[i].conns[c].Idle? :: Unset(run[i].conns[c].setting)
    ensures forall i, k | 0 <= i < |run| && 0 <= k < |run[i].log| ::
              run[i].log[k].tenant == Some(run[i].log[k].rowTenant)
    ensures forall i, c, r | 0 <= i < |run| && c in run[i].conns && r in run[i].rows
              && run[i].conns[c].Open? && run[i].conns[c].tenant == None :: !Admits(run[i].conns[c].setting, run[i].rows[r])
  {
    for n := 0 to |acts|
      invariant forall i | 0 <= i <= n :: Inv(run[i])
    {
      StepKeepsInv(run[n], acts[n], run[n + 1]);
    }
    forall i, c | 0 <= i < |run| && c in run[i].conns ensures ConnOK(run[i], run[i].conns[c]) {
      assert Inv(run[i]);
    }
  }

  // ---- scopes ----

  lemma {:induction false} OuterScopesUntouched(run: seq<State>, acts: seq<Action>, t: nat, d: nat, i: nat, j: nat)
    requires |run| == |acts| + 1 && forall n | 0 <= n < |acts| :: Step(run[n], acts[n], run[n + 1])
    requires i <= j < |run| && forall n | i <= n <= j :: t in run[n].tasks && |run[n].tasks[t].saved| > d
    ensures run[j].tasks[t].saved[..d + 1] == run[i].tasks[t].saved[..d + 1]
    decreases j
  {
    if i == j {
    } else {
      OuterScopesUntouched(run, acts, t, d, i, j - 1);
      ScopesInOneStep(run[j - 1], acts[j - 1], run[j], t, d);
    }
  }

  lemma ScopesInOneStep(s: State, a: Action, s': State, t: nat, d: nat)
    requires Step(s, a, s') && t in s.tasks && t in s'.tasks
    requires |s.tasks[t].saved| > d && |s'.tasks[t].saved| > d
    ensures s'.tasks[t].saved[..d + 1] == s.tasks[t].saved[..d + 1]
  {
  }

  /** Well-nested scopes restore: from a task's `Enter` to the `Leave` that matches it — whatever it
      publishes or nests in between, and whatever other tasks do — its binding comes back as it was. */
  lemma ScopeRestoresBinding(run: seq<State>, acts: seq<Action>, t: nat, i: nat, j: nat)
    requires |run| == |acts| + 1 && forall n | 0 <= n < |acts| :: Step(run[n], acts[n], run[n + 1])
    requires i < j < |acts| && acts[i].Enter? && acts[i].t == t && acts[j] == Leave(t) && t in run[i].tasks
    requires forall n | i < n <= j :: t in run[n].tasks && |run[n].tasks[t].saved| > |run[i].tasks[t].saved|
    requires |run[j].tasks[t].saved| == |run[i].tasks[t].saved| + 1
    ensures t in run[j + 1].tasks && run[j + 1].tasks[t] == run[i].tasks[t]
  {
    var c := run[i].tasks[t];
    assert Step(run[i], acts[i], run[i + 1]) && Step(run[j], acts[j], run[j + 1]);
    OuterScopesUntouched(run, acts, t, |c.saved|, i + 1, j);
    var e := run[j].tasks[t];
    assert e.saved[..|e.saved|] == e.saved == c.saved + [c.bound];
  }

  /** A scope entered inside a transaction does not retarget it: the rows stay the old workspace's. */
  lemma ScopeInsideTransactionKeepsOldTenant() returns (run: seq<State>, acts: seq<Action>)
    ensures IsRun(run, acts)
    ensures var s := run[|run| - 1];
            0 in s.tasks && 0 in s.conns && s.tasks[0].bound == Some("b")
            && s.conns[0].Open? && s.conns[0].owner == 0 && s.conns[0].setting == Text("a")
  {
    var s0 := State(map[0 := Context(None, [])], map[0 := Idle(Null)], map[], []);
    var s1 := WithContext(s0, 0, Entered(s0.tasks[0], "a"));
    var s2 := s1.(conns := s1.conns[0 := Open(Text("a"), 0, Some("a"), false, map[])]);
    var s3 := WithContext(s2, 0, Entered(s2.tasks[0], "b"));
    run, acts := [s0, s1, s2, s3], [Enter(0, "a"), Begin(0, 0), Enter(0, "b")];
    assert Step(s0, acts[0], s1) && Step(s1, acts[1], s2) && Step(s2, acts[2], s3);
  }

  /** Until its owner rebinds, enters or leaves a scope, a transaction's tenant is its owner's. */
  lemma UnmovedTransactionIsItsOwners(run: seq<State>, acts: seq<Action>, i: nat, c: nat)
    requires IsRun(run, acts) && i < |run| && c in run[i].conns && run[i].conns[c].Open? && !run[i].conns[c].moved
    ensures run[i].conns[c].owner in run[i].tasks
    ensures run[i].conns[c].tenant == run[i].tasks[run[i].conns[c].owner].bound
  {
    TenantsNeverMix(run, acts);
    assert Inv(run[i]) && ConnOK(run[i], run[i].conns[c]);
  }

  /** The setting a transaction needs to serve a task bound like this. */
  predicate Shows(setting: Setting, bound: Option<string>) {
    match bound
    case Some(ws) => setting == Text(ws)
    case None => Unset(setting)
  }

  /** The transaction reads and writes for the binding: exactly the bound workspace's rows. */
  ghost predicate Serves(setting: Setting, bound: Option<string>) {
    forall rowTenant | rowTenant != "" :: Admits(setting, rowTenant) <==> bound == Some(rowTenant)
  }

  /** A transaction serves a binding exactly if its setting shows it. */
  lemma ServesExactlyWhatItShows(setting: Setting, bound: Option<string>)
    requires bound != Some("")
    ensures Serves(setting, bound) <==> Shows(setting, bound)
  {
    if Serves(setting, bound) {
      match bound
      case Some(ws) => assert Admits(setting, ws);
      case None => assert setting.Text? && setting.text != "" ==> Admits(setting, setting.text);
    }
  }

  /** What a step does to its task's binding. */
  function NewBinding(c: Context, a: Action): Option<string>
    requires a.Publish? || a.Enter? || (a.Leave? && c.saved != [])
  {
    if a.Leave? then c.saved[|c.saved| - 1] else Some(a.ws)
  }

  /** When a task's binding changes inside its open transaction — it publishes, enters or leaves — the
      transaction has the task's workspace, and serves it, exactly if its setting already showed the
      new binding before the change. */
  lemma ChangeInsideTransaction(run: seq<State>, acts: seq<Action>, i: nat, t: nat, c: nat)
    requires IsRun(run, acts) && i < |acts| && c in run[i].conns && run[i].conns[c].Open? && run[i].conns[c].owner == t
    requires acts[i].Publish? || acts[i].Enter? || acts[i].Leave?
    requires acts[i].t == t
    ensures t in run[i].tasks && (acts[i].Leave? ==> run[i].tasks[t].saved != [])
    ensures c in run[i + 1].conns && run[i + 1].conns[c].Open? && t in run[i + 1].tasks
    ensures run[i + 1].tasks[t].bound == NewBinding(run[i].tasks[t], acts[i])
    ensures run[i + 1].conns[c].tenant == run[i + 1].tasks[t].bound
       <==> Shows(run[i].conns[c].setting, NewBinding(run[i].tasks[t], acts[i]))
    ensures Serves(run[i + 1].conns[c].setting, run[i + 1].tasks[t].bound)
       <==> Shows(run[i].conns[c].setting, NewBinding(run[i].tasks[t], acts[i]))
  {
    TenantsNeverMix(run, acts);
    assert Step(run[i], acts[i], run[i + 1]) && Inv(run[i]) && Inv(run[i + 1]);
    assert ConnOK(run[i + 1], run[i + 1].conns[c]) && ContextOK(run[i + 1].tasks[t]);
    ServesExactlyWhatItShows(run[i + 1].conns[c].setting, run[i + 1].tasks[t].bound);
  }

  /** At any time: an open transaction has its owner's workspace exactly if its setting shows it. */
  lemma TransactionIsItsOwnersExactlyIf(run: seq<State>, acts: seq<Action>, i: nat, c: nat)
    requires IsRun(run, acts) && i < |run| && c in run[i].conns && run[i].conns[c].Open?
    ensures run[i].conns[c].owner in run[i].tasks
    ensures run[i].conns[c].tenant == run[i].tasks[run[i].conns[c].owner].bound
       <==> Shows(run[i].conns[c].setting, run[i].tasks[run[i].conns[c].owner].bound)
  {
    TenantsNeverMix(run, acts);
    assert Inv(run[i]) && ConnOK(run[i], run[i].conns[c]);
    assert ContextOK(run[i].tasks[run[i].conns[c].owner]);
  }

  // ---- what is stored ----

  /** What a transaction wrote is stored only if it commits: over any stretch of a run without a commit the rows
      stay as they are, and a commit stores exactly what its transaction wrote. */
  lemma {:induction false} OnlyCommitsStore(run: seq<State>, acts: seq<Action>, i: nat, j: nat)
    requires IsRun(run, acts) && i <= j < |run|
    requires forall k | i <= k < j :: acts[k].Finish? ==> !acts[k].commit
    ensures run[j].rows == run[i].rows
    ensures j < |acts| && acts[j].Finish? && acts[j].commit ==>
              forall r ::
                && (r in run[j + 1].rows <==> r in run[i].rows || r in run[j].conns[acts[j].c].pending)
                && (r in run[j].conns[acts[j].c].pending ==> run[j + 1].rows[r] == run[j].conns[acts[j].c].pending[r])
                && (r in run[i].rows && r !in run[j].conns[acts[j].c].pending ==> run[j + 1].rows[r] == run[i].rows[r])
    decreases j
  {
    if j < |acts| {
      assert Step(run[j], acts[j], run[j + 1]);
    }
    if i < j {
      OnlyCommitsStore(run, acts, i, j - 1);
      assert Step(run[j - 1], acts[j - 1], run[j]);
    }
  }
}
