/** Any number of processes bringing one database up to date at the same time.

    Each process applies the scripts in name order, one transaction a script: take the lock, look the
    script up in schema_migrations, run it if it is not there, record it, commit.  SQLite takes the lock
    when the transaction begins, Postgres with an advisory lock inside the transaction.  A process may
    fail or die between any two steps.
 */
module Migrations {
  import opened Sequences

  datatype Locking = AtBegin | Advisory

  datatype Process =
    | Starting
    | Ready(next: nat)
    | Open(next: nat)
    | Locked(next: nat)
    | Present(next: nat)
    | Absent(next: nat)
    | Ran(next: nat)
    | Recorded(next: nat)
    | Failing(locked: bool)
    | Returned(ok: bool)

  /** `scripts` are the scripts whose effects are committed, in the order they ran; `versions` is the record table. */
  datatype State = State(
    scripts: seq<string>,
    versions: set<string>,
    tableExists: bool,
    lock: int,
    processes: map<int, Process>)

  /** The lock column holds this when nobody has the lock; process numbers are not negative. */
  const NOBODY := -1

  datatype Action =
    | Arrive
    | EnsureTable
    | Begin
    | TakeLock
    | Check
    | RunScript
    | Record
    | Commit
    | CommitUnnoticed
    | Fail
    | Rollback
    | Return
    | Die

  predicate InTransaction(x: Process) {
    x.Open? || x.Locked? || x.Present? || x.Absent? || x.Ran? || x.Recorded? || x.Failing?
  }

  predicate HoldsLock(x: Process) {
    x.Locked? || x.Present? || x.Absent? || x.Ran? || x.Recorded? || (x.Failing? && x.locked)
  }

  predicate Writes(x: Process) {
    x.Absent? || x.Ran? || x.Recorded?
  }

  predicate Enabled(names: seq<string>, locking: Locking, s: State, p: nat, a: Action) {
    if a.Arrive? then p !in s.processes || s.processes[p].Returned?
    else
      && p in s.processes
      && var x := s.processes[p];
         match a
         case Arrive => false
         case EnsureTable => x.Starting?
         case Begin => x.Ready? && x.next < |names| && (locking.AtBegin? ==> s.lock == NOBODY)
         case TakeLock => x.Open? && s.lock == NOBODY
         case Check => x.Locked? && x.next < |names|
         case RunScript => x.Absent?
         case Record => x.Ran? && x.next < |names| && names[x.next] !in s.versions
         case Commit => x.Recorded? || x.Present?
         case CommitUnnoticed => x.Recorded? || x.Present?
         case Fail => !x.Returned? && !x.Failing?
         case Rollback => x.Failing?
         case Return => x.Ready? && x.next == |names|
         case Die => true
  }

  /** A commit publishes the script's effects and its record together, and releases the lock. */
  function Publish(names: seq<string>, s: State, x: Process): State {
    var t := s.(lock := NOBODY);
    if x.Recorded? && x.next < |names| then
      t.(scripts := s.scripts + [names[x.next]], versions := s.versions + {names[x.next]})
    else t
  }

  function Release(s: State, x: Process): State {
    if HoldsLock(x) then s.(lock := NOBODY) else s
  }

  function Become(s: State, p: nat, x: Process): State {
    s.(processes := s.processes[p := x])
  }

  function Step(names: seq<string>, locking: Locking, s: State, p: nat, a: Action): State
    requires Enabled(names, locking, s, p, a)
  {
    if a.Arrive? then Become(s, p, Starting)
    else
      var x := s.processes[p];
      match a
      case Arrive => s
      case EnsureTable => Become(s, p, Ready(0)).(tableExists := true)
      case Begin =>
        if locking.AtBegin? then Become(s, p, Locked(x.next)).(lock := p) else Become(s, p, Open(x.next))
      case TakeLock => Become(s, p, Locked(x.next)).(lock := p)
      case Check => Become(s, p, if names[x.next] in s.versions then Present(x.next) else Absent(x.next))
      case RunScript => Become(s, p, Ran(x.next))
      case Record => Become(s, p, Recorded(x.next))
      case Commit => Become(Publish(names, s, x), p, Ready(x.next + 1))
      case CommitUnnoticed => Become(Publish(names, s, x), p, Returned(false))
      case Fail =>
        if InTransaction(x) then Become(s, p, Failing(HoldsLock(x))) else Become(s, p, Returned(false))
      case Rollback => Become(Release(s, x), p, Returned(false))
      case Return => Become(s, p, Returned(true))
      case Die => Release(s, x).(processes := s.processes - {p})
  }

  const INIT := State([], {}, false, NOBODY, map[])

  // ----- The invariant -----

  /** The committed scripts are a prefix of the list, and the record table holds exactly them. */
  ghost predicate IsPrefix(names: seq<string>, s: State) {
    && |s.scripts| <= |names|
    && s.scripts == names[..|s.scripts|]
    && s.versions == (set x | x in s.scripts)
    && (s.scripts != [] ==> s.tableExists)
  }

  ghost predicate LockIsExclusive(s: State) {
    && (s.lock != NOBODY ==> s.lock in s.processes)
    && forall p | p in s.processes :: p >= 0 && (HoldsLock(s.processes[p]) <==> s.lock == p)
  }

  /** A process never gets ahead of the table, and the one that is about to write is exactly at its end. */
  ghost predicate InStep(names: seq<string>, s: State, x: Process) {
    && (x.Returned? && x.ok ==> s.scripts == names)
    && (!x.Starting? && !x.Failing? && !x.Returned? ==> s.tableExists && x.next <= |s.scripts|)
    && (InTransaction(x) && !x.Failing? ==> x.next < |names|)
    && (x.Present? ==> x.next < |s.scripts|)
    && (Writes(x) ==> x.next == |s.scripts|)
  }

  ghost predicate Inv(names: seq<string>, s: State) {
    && Distinct(names)
    && IsPrefix(names, s)
    && LockIsExclusive(s)
    && forall p | p in s.processes :: InStep(names, s, s.processes[p])
  }

  /** A name is recorded exactly if the prefix has reached it. */
  lemma {:induction false} RecordedMeansApplied(names: seq<string>, s: State, i: nat)
    requires Distinct(names) && IsPrefix(names, s) && i < |names|
    ensures names[i] in s.versions <==> i < |s.scripts|
  {
    if i < |s.scripts| {
      assert s.scripts[i] == names[i];
    }
  }

  lemma {:induction false} PublishKeepsPrefix(names: seq<string>, s: State, x: Process)
    requires Distinct(names) && IsPrefix(names, s) && InStep(names, s, x) && (x.Recorded? || x.Present?)
    ensures IsPrefix(names, Publish(names, s, x))
    ensures |s.scripts| <= |Publish(names, s, x).scripts| && x.next < |Publish(names, s, x).scripts|
  {
    if x.Recorded? {
      var t := Publish(names, s, x);
      assert t.scripts == names[..x.next + 1];
      assert s.scripts + [names[x.next]] == t.scripts;
      forall n | n in t.scripts
        ensures n in t.versions
      {
        var i :| 0 <= i < |t.scripts| && t.scripts[i] == n;
        assert i < |s.scripts| ==> s.scripts[i] == n;
      }
    }
  }

  lemma {:induction false} CommitKeepsInv(names: seq<string>, locking: Locking, s: State, p: nat, a: Action)
    requires Inv(names, s) && Enabled(names, locking, s, p, a) && (a.Commit? || a.CommitUnnoticed?)
    ensures Inv(names, Step(names, locking, s, p, a))
  {
    var x := s.processes[p];
    PublishKeepsPrefix(names, s, x);
    var t := Step(names, locking, s, p, a);
    forall q | q in t.processes
      ensures InStep(names, t, t.processes[q])
    {
      if q != p {
        assert !HoldsLock(s.processes[q]);
      }
    }
  }

  lemma {:induction false} CheckKeepsInv(names: seq<string>, locking: Locking, s: State, p: nat)
    requires Inv(names, s) && Enabled(names, locking, s, p, Check)
    ensures Inv(names, Step(names, locking, s, p, Check))
  {
    RecordedMeansApplied(names, s, s.processes[p].next);
  }

  /** Every step of every process, under either way of locking, keeps the invariant. */
  lemma {:induction false} StepKeepsInv(names: seq<string>, locking: Locking, s: State, p: nat, a: Action)
    requires Inv(names, s) && Enabled(names, locking, s, p, a)
    ensures Inv(names, Step(names, locking, s, p, a))
  {
    hide Inv, Enabled, Step;
    match a
    case Commit => CommitKeepsInv(names, locking, s, p, a);
    case CommitUnnoticed => CommitKeepsInv(names, locking, s, p, a);
    case Check => CheckKeepsInv(names, locking, s, p);
    case Fail => EndKeepsInv(names, locking, s, p, a);
    case Rollback => EndKeepsInv(names, locking, s, p, a);
    case Return => EndKeepsInv(names, locking, s, p, a);
    case Die => EndKeepsInv(names, locking, s, p, a);
    case _ => WorkKeepsInv(names, locking, s, p, a);
  }

  lemma {:induction false} EndKeepsInv(names: seq<string>, locking: Locking, s: State, p: nat, a: Action)
    requires Inv(names, s) && Enabled(names, locking, s, p, a) && (a.Fail? || a.Rollback? || a.Return? || a.Die?)
    ensures Inv(names, Step(names, locking, s, p, a))
  {
    hide Publish, Distinct;
  }

  lemma {:induction false} WorkKeepsInv(names: seq<string>, locking: Locking, s: State, p: nat, a: Action)
    requires Inv(names, s) && Enabled(names, locking, s, p, a)
    requires a.Arrive? || a.EnsureTable? || a.Begin? || a.TakeLock? || a.RunScript? || a.Record?
    ensures Inv(names, Step(names, locking, s, p, a))
  {
    hide Publish, Distinct;
  }

  // ----- Runs -----

  datatype Event = Event(p: nat, action: Action)

  ghost predicate IsRun(names: seq<string>, locking: Locking, states: seq<State>, events: seq<Event>) {
    && |states| == |events| + 1
    && states[0] == INIT
    && forall i | 0 <= i < |events| ::
         && Enabled(names, locking, states[i], events[i].p, events[i].action)
         && states[i + 1] == Step(names, locking, states[i], events[i].p, events[i].action)
  }

  /** In every state of every interleaving: the committed scripts are a prefix of the list without a repetition,
      the record table is exactly that prefix, and a call that returned without an error left nothing out. */
  lemma {:induction false} ScriptsAreAPrefix(names: seq<string>, locking: Locking, states: seq<State>, events: seq<Event>, k: nat)
    requires Distinct(names) && IsRun(names, locking, states, events) && k <= |events|
    ensures Inv(names, states[k])
    ensures states[k].scripts <= names && Distinct(states[k].scripts)
    ensures states[k].versions == set x | x in states[k].scripts
    ensures forall p | p in states[k].processes && states[k].processes[p] == Returned(true) :: states[k].scripts == names
  {
    if k > 0 {
      ScriptsAreAPrefix(names, locking, states, events, k - 1);
      StepKeepsInv(names, locking, states[k - 1], events[k - 1].p, events[k - 1].action);
    }
  }

  /** Nothing that was applied is ever lost or repeated: the list only grows, by one script at a commit. */
  lemma {:induction false} ScriptsOnlyGrow(names: seq<string>, locking: Locking, states: seq<State>, events: seq<Event>, j: nat, k: nat)
    requires Distinct(names) && IsRun(names, locking, states, events) && j <= k <= |events|
    ensures states[j].scripts <= states[k].scripts
  {
    if j < k {
      ScriptsOnlyGrow(names, locking, states, events, j, k - 1);
      var s, e := states[k - 1], events[k - 1];
      assert s.scripts <= Step(names, locking, s, e.p, e.action).scripts;
    }
  }

  /** Under the lock, recording a script never meets a record that is already there. */
  lemma {:induction false} RecordNeverConflicts(names: seq<string>, locking: Locking, s: State, p: nat)
    requires Inv(names, s) && p in s.processes && s.processes[p].Ran?
    ensures Enabled(names, locking, s, p, Record)
  {
    RecordedMeansApplied(names, s, s.processes[p].next);
  }

  /** What is applied changes only when a process commits the script it ran, and then by exactly the next script and its
      record. */
  lemma {:induction false} OnlyCommitsApply(names: seq<string>, locking: Locking, s: State, p: nat, a: Action)
    requires Inv(names, s) && Enabled(names, locking, s, p, a)
    ensures var t := Step(names, locking, s, p, a);
            if (a == Commit || a == CommitUnnoticed) && s.processes[p].Recorded? then
              && |s.scripts| < |names|
              && t.scripts == s.scripts + [names[|s.scripts|]] && t.versions == s.versions + {names[|s.scripts|]}
            else t.scripts == s.scripts && t.versions == s.versions
  {
    hide Distinct, IsPrefix;
  }

  // ----- A process on its own -----

  /** p alone can take the state from s to t. */
  ghost predicate Reaches(names: seq<string>, locking: Locking, p: nat, s: State, t: State) {
    exists actions :: Leads(names, locking, p, s, actions, t)
  }

  ghost predicate Leads(names: seq<string>, locking: Locking, p: nat, s: State, actions: seq<Action>, t: State) {
    if actions == [] then s == t
    else
      var n := |actions| - 1;
      exists m :: Leads(names, locking, p, s, actions[..n], m)
                  && Enabled(names, locking, m, p, actions[n]) && Step(names, locking, m, p, actions[n]) == t
  }

  lemma {:induction false} Stay(names: seq<string>, locking: Locking, p: nat, s: State)
    ensures Reaches(names, locking, p, s, s)
  {
    assert Leads(names, locking, p, s, [], s);
  }

  lemma {:induction false} OneMoreStep(names: seq<string>, locking: Locking, p: nat, s: State, m: State, a: Action)
    requires Reaches(names, locking, p, s, m) && Enabled(names, locking, m, p, a)
    ensures Reaches(names, locking, p, s, Step(names, locking, m, p, a))
  {
    var actions :| Leads(names, locking, p, s, actions, m);
    assert (actions + [a])[..|actions|] == actions;
    assert Leads(names, locking, p, s, actions + [a], Step(names, locking, m, p, a));
  }

  /** The state once p has been through the first i scripts. */
  ghost function Through(names: seq<string>, s: State, p: nat, i: nat): State
    requires i <= |names|
  {
    var scripts := if i <= |s.scripts| then s.scripts else names[..i];
    State(scripts, set x | x in scripts, true, NOBODY, s.processes[p := Ready(i)])
  }

  /** One transaction: the script is looked up, run and recorded if it is missing, and committed. */
  lemma {:induction false} OneScript(names: seq<string>, locking: Locking, s: State, p: nat, i: nat)
    requires Distinct(names) && IsPrefix(names, s) && i < |names|
    requires Reaches(names, locking, p, s, Through(names, s, p, i))
    ensures Reaches(names, locking, p, s, Through(names, s, p, i + 1))
  {
    var m := Through(names, s, p, i);
    var locked := m.(lock := p, processes := m.processes[p := Locked(i)]);
    TakesTheLock(names, locking, s, p, m, i);
    var scripts := m.scripts;
    if i < |s.scripts| {
      assert scripts[i] == names[i] && names[i] in scripts;
      hide Reaches, IsPrefix, Distinct;
      SkipsTheScript(names, locking, s, p, i, m, locked);
    } else {
      assert scripts == names[..i] && names[i] !in scripts;
      hide Reaches, IsPrefix, Distinct;
      RunsTheScript(names, locking, s, p, i, m, locked);
    }
  }

  lemma {:induction false} TakesTheLock(names: seq<string>, locking: Locking, s: State, p: nat, m: State, i: nat)
    requires i < |names| && m.lock == NOBODY && p in m.processes && m.processes[p] == Ready(i) && Reaches(names, locking, p, s, m)
    ensures Reaches(names, locking, p, s, m.(lock := p, processes := m.processes[p := Locked(i)]))
  {
    hide Reaches;
    OneMoreStep(names, locking, p, s, m, Begin);
    if locking.Advisory? {
      var open := Step(names, locking, m, p, Begin);
      assert open.processes[p := Locked(i)] == m.processes[p := Locked(i)];
      OneMoreStep(names, locking, p, s, open, TakeLock);
    }
  }

  lemma {:induction false} SkipsTheScript(names: seq<string>, locking: Locking, s: State, p: nat, i: nat, m: State, locked: State)
    requires i < |names| && i < |s.scripts| && m == Through(names, s, p, i) && names[i] in m.scripts
    requires locked == m.(lock := p, processes := m.processes[p := Locked(i)]) && Reaches(names, locking, p, s, locked)
    ensures Reaches(names, locking, p, s, Through(names, s, p, i + 1))
  {
    var present := m.(lock := p, processes := m.processes[p := Present(i)]);
    assert locked.processes[p := Present(i)] == present.processes && present.processes[p := Ready(i + 1)] == s.processes[p := Ready(i + 1)];
    assert Enabled(names, locking, locked, p, Check) && Step(names, locking, locked, p, Check) == present;
    assert Enabled(names, locking, present, p, Commit) && Step(names, locking, present, p, Commit) == Through(names, s, p, i + 1);
    hide Reaches, Enabled, Step, Through;
    OneMoreStep(names, locking, p, s, locked, Check);
    OneMoreStep(names, locking, p, s, present, Commit);
  }

  lemma {:induction false} RunsTheScript(names: seq<string>, locking: Locking, s: State, p: nat, i: nat, m: State, locked: State)
    requires i < |names| && i >= |s.scripts| && m == Through(names, s, p, i) && names[i] !in m.scripts && m.scripts == names[..i]
    requires locked == m.(lock := p, processes := m.processes[p := Locked(i)]) && Reaches(names, locking, p, s, locked)
    ensures Reaches(names, locking, p, s, Through(names, s, p, i + 1))
  {
    var absent := m.(lock := p, processes := m.processes[p := Absent(i)]);
    var ran := m.(lock := p, processes := m.processes[p := Ran(i)]);
    var recorded := m.(lock := p, processes := m.processes[p := Recorded(i)]);
    StepsOfAScript(names, locking, s, p, i, m, locked, absent, ran, recorded);
    hide Reaches, Enabled, Step, Through;
    OneMoreStep(names, locking, p, s, locked, Check);
    OneMoreStep(names, locking, p, s, absent, RunScript);
    OneMoreStep(names, locking, p, s, ran, Record);
    OneMoreStep(names, locking, p, s, recorded, Commit);
  }

  lemma {:induction false} StepsOfAScript(names: seq<string>, locking: Locking, s: State, p: nat, i: nat, m: State, locked: State,
                                          absent: State, ran: State, recorded: State)
    requires i < |names| && i >= |s.scripts| && m == Through(names, s, p, i) && names[i] !in m.scripts && m.scripts == names[..i]
    requires locked == m.(lock := p, processes := m.processes[p := Locked(i)])
    requires absent == m.(lock := p, processes := m.processes[p := Absent(i)])
    requires ran == m.(lock := p, processes := m.processes[p := Ran(i)])
    requires recorded == m.(lock := p, processes := m.processes[p := Recorded(i)])
    ensures Enabled(names, locking, locked, p, Check) && Step(names, locking, locked, p, Check) == absent
    ensures Enabled(names, locking, absent, p, RunScript) && Step(names, locking, absent, p, RunScript) == ran
    ensures Enabled(names, locking, ran, p, Record) && Step(names, locking, ran, p, Record) == recorded
    ensures Enabled(names, locking, recorded, p, Commit) && Step(names, locking, recorded, p, Commit) == Through(names, s, p, i + 1)
  {
    assert names[i] !in m.versions;
    CommitsTheScript(names, locking, s, p, i, m, recorded);
    hide Through, Publish, Release;
  }

  lemma {:induction false} CommitsTheScript(names: seq<string>, locking: Locking, s: State, p: nat, i: nat, m: State, recorded: State)
    requires i < |names| && i >= |s.scripts| && m == Through(names, s, p, i) && m.scripts == names[..i]
    requires recorded == m.(lock := p, processes := m.processes[p := Recorded(i)])
    ensures Enabled(names, locking, recorded, p, Commit) && Step(names, locking, recorded, p, Commit) == Through(names, s, p, i + 1)
  {
    var t := Step(names, locking, recorded, p, Commit);
    var scripts := names[..i + 1];
    assert t.scripts == names[..i] + [names[i]] == scripts;
    assert t.versions == (set x | x in names[..i]) + {names[i]};
    hide Step, Through;
    assert (set x | x in names[..i]) + {names[i]} == set x | x in scripts by {
      assert scripts == names[..i] + [names[i]];
    }
    ThroughIs(names, s, p, i + 1);
    CommitFields(names, locking, recorded, p, i);
    assert m.processes[p := Ready(i + 1)] == s.processes[p := Ready(i + 1)] by {
      ThroughIs(names, s, p, i);
    }
    assert recorded.processes[p := Ready(i + 1)] == m.processes[p := Ready(i + 1)];
    assert m.tableExists by {
      ThroughIs(names, s, p, i);
    }
  }

  lemma {:induction false} ThroughIs(names: seq<string>, s: State, p: nat, i: nat)
    requires i <= |names|
    ensures var t := Through(names, s, p, i);
            && t.processes == s.processes[p := Ready(i)] && t.lock == NOBODY && t.tableExists
            && (i >= |s.scripts| && s.scripts <= names ==> t.scripts == names[..i])
            && (i > |s.scripts| ==> t == State(names[..i], set x | x in names[..i], true, NOBODY, s.processes[p := Ready(i)]))
  {
  }

  lemma {:induction false} CommitFields(names: seq<string>, locking: Locking, s: State, p: nat, i: nat)
    requires p in s.processes && s.processes[p] == Recorded(i)
    ensures Enabled(names, locking, s, p, Commit)
    ensures var t := Step(names, locking, s, p, Commit);
            t.processes == s.processes[p := Ready(i + 1)] && t.lock == NOBODY && t.tableExists == s.tableExists
  {
  }

  lemma {:induction false} Arrives(names: seq<string>, locking: Locking, s: State, p: nat)
    requires Inv(names, s) && s.lock == NOBODY && (p in s.processes ==> s.processes[p].Returned?)
    ensures Reaches(names, locking, p, s, Through(names, s, p, 0))
  {
    var arrived := s.(processes := s.processes[p := Starting]);
    assert arrived.processes[p := Ready(0)] == s.processes[p := Ready(0)];
    assert Step(names, locking, s, p, Arrive) == arrived;
    assert Step(names, locking, arrived, p, EnsureTable) == Through(names, s, p, 0);
    hide Reaches, Through, Inv;
    Stay(names, locking, p, s);
    OneMoreStep(names, locking, p, s, s, Arrive);
    OneMoreStep(names, locking, p, s, arrived, EnsureTable);
  }

  lemma {:induction false} FirstScripts(names: seq<string>, locking: Locking, s: State, p: nat, i: nat)
    requires Inv(names, s) && s.lock == NOBODY && (p in s.processes ==> s.processes[p].Returned?) && i <= |names|
    ensures Reaches(names, locking, p, s, Through(names, s, p, i))
  {
    hide Reaches;
    if i == 0 {
      Arrives(names, locking, s, p);
    } else {
      FirstScripts(names, locking, s, p, i - 1);
      OneScript(names, locking, s, p, i - 1);
    }
  }

  /** Whatever others have applied, left undone or died over: a process that finds the lock free can finish on its own.
      It returns without an error, every script is applied once and in order, and every script is recorded. */
  lemma {:induction false} AloneItMigrates(names: seq<string>, locking: Locking, s: State, p: nat)
    requires Inv(names, s) && s.lock == NOBODY && (p in s.processes ==> s.processes[p].Returned?)
    ensures exists t :: && Reaches(names, locking, p, s, t) && t.processes == s.processes[p := Returned(true)]
                        && t.scripts == names && t.versions == (set x | x in names) && t.tableExists && t.lock == NOBODY
  {
    FirstScripts(names, locking, s, p, |names|);
    var m := Through(names, s, p, |names|);
    assert m.scripts == names;
    hide Reaches;
    OneMoreStep(names, locking, p, s, m, Return);
    var t := Step(names, locking, m, p, Return);
    assert t.processes == s.processes[p := Returned(true)];
  }

  /** A transaction can fail at any point; its rollback then returns an error, gives the lock back if it had it, and
      leaves scripts and records as they were. */
  lemma {:induction false} TransactionsCanFail(names: seq<string>, locking: Locking, s: State, p: nat)
    requires Inv(names, s) && p in s.processes && InTransaction(s.processes[p]) && !s.processes[p].Failing?
    ensures Enabled(names, locking, s, p, Fail)
    ensures var t := Step(names, locking, s, p, Fail);
            && Enabled(names, locking, t, p, Rollback)
            && var u := Step(names, locking, t, p, Rollback);
            && u.processes == s.processes[p := Returned(false)] && u.scripts == s.scripts && u.versions == s.versions
            && u.lock == if s.lock == p then NOBODY else s.lock
  {
    var t := Step(names, locking, s, p, Fail);
    assert Step(names, locking, t, p, Rollback).processes == s.processes[p := Returned(false)];
    hide IsPrefix, Distinct, InStep;
  }

  /** A process can die at any point; the database then gives its lock back and keeps nothing of its transaction. */
  lemma {:induction false} ProcessesCanDie(names: seq<string>, locking: Locking, s: State, p: nat)
    requires Inv(names, s) && p in s.processes
    ensures Enabled(names, locking, s, p, Die)
    ensures var t := Step(names, locking, s, p, Die);
            && p !in t.processes && t.scripts == s.scripts && t.versions == s.versions
            && t.lock == if s.lock == p then NOBODY else s.lock
  {
    hide IsPrefix, Distinct, InStep;
  }
}

/** One process on its own: the loop over the names, with the faults it meets. */
module MigrationRunner {
  import opened Sequences
  import opened Migrations

  datatype Stage = BeginStage | LockStage | CheckStage | RunStage | RecordStage | CommitStage

  /** Which stage of which script fails; the first `applied` scripts are only looked up. */
  type Faults = set<(nat, Stage)>

  predicate Stops(faults: Faults, i: nat, applied: nat) {
    || (i, BeginStage) in faults || (i, LockStage) in faults || (i, CheckStage) in faults || (i, CommitStage) in faults
    || (i >= applied && ((i, RunStage) in faults || (i, RecordStage) in faults))
  }

  class Runner {
    const names: seq<string>
    var scripts: seq<string>
    var versions: set<string>
    var tableExists: bool

    constructor (names: seq<string>)
      requires Distinct(names)
      ensures this.names == names && Valid() && scripts == [] && !tableExists
    {
      this.names, scripts, versions, tableExists := names, [], {}, false;
    }

    ghost predicate Valid()
      reads this
    {
      && Distinct(names)
      && |scripts| <= |names| && scripts == names[..|scripts|]
      && versions == (set x | x in scripts)
      && (scripts != [] ==> tableExists)
    }

    /** CREATE TABLE IF NOT EXISTS: keeps what is there. */
    method EnsureMigrationTable(fails: bool) returns (ok: bool)
      requires Valid()
      modifies this
      ensures Valid() && ok == !fails
      ensures scripts == old(scripts) && versions == old(versions)
      ensures tableExists == (old(tableExists) || ok)
    {
      if !fails {
        tableExists := true;
      }
      ok := !fails;
    }

    /** Applies what is missing, in order.  `stopped` is the script at which it gave up. */
    method Migrate(ensureFails: bool, faults: Faults) returns (ok: bool, stopped: nat)
      requires Valid()
      modifies this
      ensures Valid()
      ensures ensureFails ==> !ok && stopped == 0 && scripts == old(scripts) && tableExists == old(tableExists)
      ensures !ensureFails ==> tableExists
      ensures forall i | 0 <= i < stopped :: !Stops(faults, i, |old(scripts)|)
      ensures ok ==> stopped == |names| && scripts == names
      ensures !ok && !ensureFails ==> stopped < |names| && Stops(faults, stopped, |old(scripts)|)
      ensures !ok && !ensureFails ==> scripts == if stopped < |old(scripts)| then old(scripts) else names[..stopped]
    {
      stopped := 0;
      ok := EnsureMigrationTable(ensureFails);
      if !ok {
        return;
      }
      while stopped < |names|
        invariant stopped <= |names| && Valid() && tableExists
        invariant forall i | 0 <= i < stopped :: !Stops(faults, i, |old(scripts)|)
        invariant |scripts| == if stopped < |old(scripts)| then |old(scripts)| else stopped
      {
        var applied := ApplyMigration(stopped, faults);
        if !applied {
          return false, stopped;
        }
        stopped := stopped + 1;
      }
      ok := true;
    }

    /** One transaction: whatever fails, the script and its record are both there or both absent. */
    method ApplyMigration(i: nat, faults: Faults) returns (ok: bool)
      requires Valid() && tableExists && i < |names| && i <= |scripts|
      modifies this`scripts, this`versions
      ensures Valid()
      ensures ok <==> !Stops(faults, i, |old(scripts)|)
      ensures scripts == if ok && i == |old(scripts)| then old(scripts) + [names[i]] else old(scripts)
    {
      Lookup(i);
      if (i, BeginStage) in faults {
        return false;
      }
      var savedScripts, savedVersions := scripts, versions;
      ok := ApplyWithinTx(i, faults);
      if !ok || (i, CommitStage) in faults {
        scripts, versions := savedScripts, savedVersions;
        return false;
      }
      if i == |savedScripts| {
        assert scripts == names[..i + 1];
        RecordOneMore(savedScripts, names[i]);
      }
    }

    method ApplyWithinTx(i: nat, faults: Faults) returns (ok: bool)
      requires i < |names|
      modifies this`scripts, this`versions
      ensures ok <==> (i, LockStage) !in faults && (i, CheckStage) !in faults
                      && (names[i] in old(versions) || ((i, RunStage) !in faults && (i, RecordStage) !in faults))
      ensures ok && names[i] !in old(versions) ==> scripts == old(scripts) + [names[i]] && versions == old(versions) + {names[i]}
      ensures ok && names[i] in old(versions) ==> scripts == old(scripts) && versions == old(versions)
    {
      if (i, LockStage) in faults || (i, CheckStage) in faults {
        return false;
      }
      if names[i] in versions {
        return true;
      }
      if (i, RunStage) in faults {
        return false;
      }
      scripts := scripts + [names[i]];
      if (i, RecordStage) in faults {
        return false;
      }
      versions := versions + {names[i]};
      ok := true;
    }

    lemma {:induction false} Lookup(i: nat)
      requires Valid() && i < |names|
      ensures names[i] in versions <==> i < |scripts|
    {
      if i < |scripts| {
        assert scripts[i] == names[i];
      }
    }
  }

  lemma {:induction false} RecordOneMore(scripts: seq<string>, name: string)
    ensures (set x | x in scripts) + {name} == set x | x in scripts + [name]
  {
  }
}
