/** What the processes that write one SQLite file get back, over every run: who is told success, what that leaves in
    the table, what a failure leaves, and that a call on its own gets through. */
module PutOutcomes {
  import opened Wrappers
  import opened Records
  import opened Tokenizers
  import opened TokenEncoding
  import opened StoreModel
  import opened StoreLaws
  import opened StoredRows
  import opened PutProtocol

  // ----- Commit and Check -----

  /** A commit returns one id per chunk, and publishes each chunk under its id with its vector and its tokens. */
  lemma {:induction false} CommitReturns(s: State, p: int, i: nat)
    requires Serial(s) && Enabled(s, Commit(p)) && i < |s.processes[p].call.chunks|
    ensures var call, t := s.processes[p].call, Step(s, Commit(p));
            && p in t.processes && t.processes[p].Finished? && t.processes[p].call == call
            && t.processes[p].position == |s.log| && t.log == s.log + [Commits(call)] && t.lock.None?
            && t.processes[p].result.Success?
            && var ids := t.processes[p].result.value;
            && |ids| == |call.chunks| && ids[i] in t.committed.rows
            && call.vectors.Some? && |call.vectors.value| == |call.chunks|
            && var row := t.committed.rows[ids[i]];
            && row.chunk == call.chunks[i].(orgId := call.orgId) && row.vector == call.vectors.value[i]
            && row.embedderId == call.h.identity.embedderId && row.tokenizerId == call.h.identity.tokenizerId
            && (AllTokens(call.h.tokenize(call.chunks[i].content)) ==>
                  Fields(row.lexemeText) == call.h.tokenize(call.chunks[i].content))
  {
    var Inserting(call, ids) := s.processes[p];
    assert WorkingIs(s, s.processes[p]);
    CommittedIsPut(s.committed, call, s.working, ids);
    HistoriesKeepInv(s.log);
    hide WorkingIs, Put, Prepared, Run, LexemeText, Fields, Consistent, OneIdentity;
    PutStores(s.committed, call.h, call.orgId, call.chunks, Env(call), i);
  }

  /** The check lets a call go on to its inserts if and only if every committed row, of every org, has the identity of
      its handle; otherwise it names a row's embedder or tokenizer that differs. */
  lemma {:induction false} CheckDecides(s: State, p: int)
    requires Serial(s) && Enabled(s, Check(p))
    ensures var call, x := s.processes[p].call, Step(s, Check(p)).processes[p];
            if forall r | r in s.committed.rows ::
                 s.committed.rows[r].embedderId == call.h.identity.embedderId && s.committed.rows[r].tokenizerId == call.h.identity.tokenizerId
            then x == Inserting(call, [])
            else
              && x.Failing? && x.call == call && (x.error.EmbedderMismatch? || x.error.TokenizerMismatch?)
              && Justified(s.committed, call.h, call.orgId, call.chunks, Env(call), x.error)
  {
    assert WorkingIs(s, s.processes[p]);
  }

  // ----- Success and the log -----

  function ProcessOf(a: Action): Option<int> {
    if a.DeleteRows? then None else Some(a.p)
  }

  /** What a step adds to the log: a commit its call, a delete itself, nothing else anything. */
  ghost function Logged(s: State, a: Action): seq<Op>
    requires Enabled(s, a)
  {
    match a
    case Commit(p) =>
      var call := s.processes[p].call;
      [OpPut(call.h, call.orgId, call.chunks, Outcome(call.vectors, false, None, false))]
    case DeleteRows(orgId, target) => [OpDelete(orgId, target, false)]
    case _ => []
  }

  /** A step changes the committed table exactly by what it adds to the log. */
  lemma {:induction false} OnlyLoggedStepsPublish(s: State, a: Action)
    requires Serial(s) && Enabled(s, a)
    ensures Step(s, a).log == s.log + Logged(s, a)
    ensures Logged(s, a) == [] ==> Step(s, a).committed == s.committed
    ensures forall op | op in Logged(s, a) :: Step(s, a).committed == Apply(s.committed, op)
  {
    StepKeepsSerial(s, a);
    var t := Step(s, a);
    if a.Commit? || a.DeleteRows? {
      var op := Logged(s, a)[0];
      assert t.log == s.log + [op];
      hide Put, Delete, LockIsExclusive, WorkingIs, ResultIsSerial;
      RunOneMore(s.log, op);
    } else {
      assert s.log + [] == s.log;
    }
  }

  /** A call returns success by its commit and in no other way, and its place in the log is the next one. */
  lemma {:induction false} SuccessIsCommit(s: State, a: Action, p: int)
    requires Serial(s) && Enabled(s, a)
    requires p in Step(s, a).processes && (p in s.processes ==> Step(s, a).processes[p] != s.processes[p])
    ensures var x := Step(s, a).processes[p];
            x.Finished? && x.result.Success? <==> a == Commit(p)
    ensures a == Commit(p) ==> Step(s, a).processes[p].position == |s.log|
  {
    hide Serial, Upsert, IdentityError, Prepared, EncodedOf;
  }

  /** Every Put in the log was returned to its caller as a success, by one commit and no other: the puts in the log and
      the successful returns correspond one to one. */
  lemma {:induction false} EachPutWasReturned(states: seq<State>, actions: seq<Action>, k: nat, n: nat)
    requires IsRun(states, actions) && k <= |actions| && n < |states[k].log| && states[k].log[n].OpPut?
    ensures exists i | 0 <= i < k ::
              && CommitsAt(states, actions, i, n) && states[k].log[n] == Commits(states[i].processes[actions[i].p].call)
              && forall j | 0 <= j < k && CommitsAt(states, actions, j, n) :: i == j
  {
    FindCommit(states, actions, k, n);
    var i :| 0 <= i < k && CommitsAt(states, actions, i, n) && states[k].log[n] == Commits(states[i].processes[actions[i].p].call);
    forall j | 0 <= j < k && CommitsAt(states, actions, j, n)
      ensures i == j
    {
      if i < j {
        LogGrows(states, actions, i + 1, j);
      } else if j < i {
        LogGrows(states, actions, j + 1, i);
      }
    }
  }

  /** Step i returns success to its caller, as entry n of the log. */
  ghost predicate CommitsAt(states: seq<State>, actions: seq<Action>, i: nat, n: nat) {
    && i < |actions| == |states| - 1 && actions[i].Commit?
    && var p := actions[i].p;
    && p in states[i].processes && p in states[i + 1].processes
    && states[i + 1].processes[p].Finished? && states[i + 1].processes[p].result.Success?
    && states[i + 1].processes[p].call == states[i].processes[p].call
    && states[i + 1].processes[p].position == n == |states[i].log| == |states[i + 1].log| - 1
  }

  lemma {:induction false} CommitIsAt(states: seq<State>, actions: seq<Action>, i: nat)
    requires IsRun(states, actions) && i < |actions| && actions[i].Commit?
    ensures CommitsAt(states, actions, i, |states[i].log|)
  {
    RunsAreSerial(states, actions, i);
    OnlyLoggedStepsPublish(states[i], actions[i]);
    hide Serial;
    assert Enabled(states[i], actions[i]) && states[i + 1] == Step(states[i], actions[i]);
  }

  lemma {:induction false} FindCommit(states: seq<State>, actions: seq<Action>, k: nat, n: nat)
    requires IsRun(states, actions) && k <= |actions| && n < |states[k].log| && states[k].log[n].OpPut?
    ensures exists i | 0 <= i < k :: CommitsAt(states, actions, i, n) && states[k].log[n] == Commits(states[i].processes[actions[i].p].call)
  {
    if k == 0 {
      assert false;
    } else {
      RunsAreSerial(states, actions, k - 1);
      var s, a := states[k - 1], actions[k - 1];
      assert Enabled(s, a) && states[k] == Step(s, a);
      OnlyLoggedStepsPublish(s, a);
      hide Serial, Step, Enabled;
      if n < |s.log| {
        FindCommit(states, actions, k - 1, n);
      } else {
        assert a.Commit?;
        CommitIsAt(states, actions, k - 1);
      }
    }
  }

  lemma {:induction false} LogGrows(states: seq<State>, actions: seq<Action>, j: nat, k: nat)
    requires IsRun(states, actions) && j <= k <= |actions|
    ensures states[j].log <= states[k].log
  {
    if j < k {
      LogGrows(states, actions, j, k - 1);
      RunsAreSerial(states, actions, k - 1);
      OnlyLoggedStepsPublish(states[k - 1], actions[k - 1]);
      assert states[k] == Step(states[k - 1], actions[k - 1]);
    }
  }

  // ----- Failure -----

  /** Between arriving and now, this process neither arrived anew nor died. */
  ghost predicate SameCall(actions: seq<Action>, p: int, j: nat, k: nat)
    requires k <= |actions|
  {
    forall i | j < i < k :: actions[i] != Die(p) && !(actions[i].Arrive? && actions[i].p == p)
  }

  lemma {:induction false} FinishedStays(states: seq<State>, actions: seq<Action>, p: int, i: nat, k: nat)
    requires IsRun(states, actions) && i <= k <= |actions| && p in states[i].processes && states[i].processes[p].Finished?
    requires forall l | i <= l < k :: actions[l] != Die(p) && !(actions[l].Arrive? && actions[l].p == p)
    ensures p in states[k].processes && states[k].processes[p] == states[i].processes[p]
  {
    if i < k {
      FinishedStays(states, actions, p, i, k - 1);
      var s, a := states[k - 1], actions[k - 1];
      assert Enabled(s, a) && states[k] == Step(s, a);
    }
  }

  /** A call that was told it failed has published nothing: no step it took since it arrived changed the committed table
      or the log. */
  lemma {:induction false} FailureAddedNothing(states: seq<State>, actions: seq<Action>, p: int, j: nat, k: nat, i: nat)
    requires IsRun(states, actions) && j <= i < k <= |actions| && actions[j].Arrive? && actions[j].p == p && SameCall(actions, p, j, k)
    requires p in states[k].processes && states[k].processes[p].Finished? && states[k].processes[p].result.Failure?
    requires ProcessOf(actions[i]) == Some(p)
    ensures states[i + 1].committed == states[i].committed && states[i + 1].log == states[i].log
  {
    RunsAreSerial(states, actions, i);
    OnlyLoggedStepsPublish(states[i], actions[i]);
    assert Enabled(states[i], actions[i]) && states[i + 1] == Step(states[i], actions[i]);
    if actions[i].Commit? {
      CommitIsAt(states, actions, i);
      hide Serial, Step, Enabled, IsRun;
      FinishedStays(states, actions, p, i + 1, k);
    } else {
      assert states[i].log + [] == states[i].log;
    }
  }

  /** Some moment of the history and some fault explain this failure: Put reports it there. */
  ghost predicate IsPutFailure(log: seq<Op>, call: Call, e: StoreError) {
    exists n, env: Outcome :: 0 <= n <= |log| && env.vectors == call.vectors
      && Put(Run(EMPTY, log[..n]), call.h, call.orgId, call.chunks, env).0 == Failure(e)
  }

  lemma {:induction false} StillPutFailure(log: seq<Op>, more: seq<Op>, call: Call, e: StoreError)
    requires IsPutFailure(log, call, e)
    ensures IsPutFailure(log + more, call, e)
  {
    var n, env: Outcome :| 0 <= n <= |log| && env.vectors == call.vectors
      && Put(Run(EMPTY, log[..n]), call.h, call.orgId, call.chunks, env).0 == Failure(e);
    assert (log + more)[..n] == log[..n];
  }

  ghost predicate FailuresArePut(s: State) {
    forall p | p in s.processes ::
      match s.processes[p]
      case Failing(call, e) => IsPutFailure(s.log, call, e)
      case Finished(call, Failure(e), _) => IsPutFailure(s.log, call, e)
      case _ => true
  }

  lemma {:induction false} FailsNow(s: State, call: Call, env: Outcome, e: StoreError)
    requires s.committed == Run(EMPTY, s.log) && env.vectors == call.vectors
    requires Put(s.committed, call.h, call.orgId, call.chunks, env).0 == Failure(e)
    ensures IsPutFailure(s.log, call, e)
  {
    assert s.log[..|s.log|] == s.log;
  }

  lemma {:induction false} SameEncoding(call: Call, env: Outcome)
    requires env.vectors == call.vectors
    ensures EncodeBatch(call.h, call.chunks, env) == EncodeBatch(call.h, call.chunks, Env(call))
  {
  }

  lemma {:induction false} InsertFailureAt(chunks: seq<Chunk>, env: Outcome, i: nat, n: nat)
    requires i < n <= |chunks| && env.insertFailsAt == Some(i) && forall j | 0 <= j < i :: chunks[j].chunkIndex >= 0
    ensures FirstInsertFailure(chunks, env, n) == Some(i)
  {
    if FirstInsertFailure(chunks, env, n - 1).Some? && n - 1 > i {
      InsertFailureAt(chunks, env, i, n - 1);
    } else if n - 1 > i {
      InsertFailureAt(chunks, env, i, n - 1);
    }
  }

  /** A process that a step makes fail does so with an error that Put reports at this moment. */
  lemma {:induction false} NewFailure(s: State, a: Action)
    requires Serial(s) && Enabled(s, a) && FailuresArePut(s) && !a.DeleteRows? && !a.Die?
    ensures match Step(s, a).processes[a.p]
            case Failing(call, e) => IsPutFailure(s.log, call, e)
            case Finished(call, Failure(e), _) => IsPutFailure(s.log, call, e)
            case _ => true
  {
    match a
    case Arrive(p, call) =>
      if !Prepared(call) {
        hide PutTransaction, Run, IsPutFailure;
        FailsNow(s, call, Env(call), Rejection(call));
      }
    case BeginFails(p) =>
      var call := s.processes[p].call;
      var env := Outcome(call.vectors, true, None, false);
      SameEncoding(call, env);
      hide Run, IsPutFailure, EncodeBatch, BatchError;
      FailsNow(s, call, env, BeginFailed);
    case Check(p) =>
      var call := s.processes[p].call;
      assert WorkingIs(s, s.processes[p]);
      var mismatch := IdentityError(s.committed.rows, call.h.identity);
      if mismatch.Some? {
        hide Run, IsPutFailure, EncodeBatch, BatchError;
        FailsNow(s, call, Env(call), mismatch.value);
      }
    case InsertFails(p) =>
      var call, i := s.processes[p].call, |s.processes[p].ids|;
      assert WorkingIs(s, s.processes[p]);
      var env := Outcome(call.vectors, false, Some(i), false);
      SameEncoding(call, env);
      InsertFailureAt(call.chunks, env, i, |call.chunks|);
      hide Run, IsPutFailure, EncodeBatch, BatchError, InsertFirst;
      FailsNow(s, call, env, InsertFailed(i));
    case CommitFails(p) =>
      var call := s.processes[p].call;
      assert WorkingIs(s, s.processes[p]);
      var env := Outcome(call.vectors, false, None, true);
      SameEncoding(call, env);
      hide Run, IsPutFailure, EncodeBatch, BatchError, InsertFirst;
      assert FirstInsertFailure(call.chunks, env, |call.chunks|).None?;
      FailsNow(s, call, env, CommitFailed);
    case _ => hide Serial, IsPutFailure, Upsert;
  }

  lemma {:induction false} StepKeepsFailures(s: State, a: Action)
    requires Serial(s) && Enabled(s, a) && FailuresArePut(s)
    ensures FailuresArePut(Step(s, a))
  {
    var t := Step(s, a);
    OnlyLoggedStepsPublish(s, a);
    if !a.DeleteRows? && !a.Die? {
      NewFailure(s, a);
    }
    hide Serial, IsPutFailure, Enabled, Logged;
    forall p | p in t.processes
      ensures match t.processes[p]
              case Failing(call, e) => IsPutFailure(t.log, call, e)
              case Finished(call, Failure(e), _) => IsPutFailure(t.log, call, e)
              case _ => true
    {
      if ProcessOf(a) == Some(p) {
        LaterFailure(s.log, Logged(s, a), t.processes[p]);
      } else {
        SameProcess(s, a, p);
        LaterFailure(s.log, Logged(s, a), s.processes[p]);
      }
    }
  }

  lemma {:induction false} SameProcess(s: State, a: Action, p: int)
    requires Enabled(s, a) && ProcessOf(a) != Some(p) && p in Step(s, a).processes
    ensures p in s.processes && Step(s, a).processes[p] == s.processes[p]
  {
  }

  lemma {:induction false} LaterFailure(log: seq<Op>, more: seq<Op>, x: Process)
    requires match x
             case Failing(call, e) => IsPutFailure(log, call, e)
             case Finished(call, Failure(e), _) => IsPutFailure(log, call, e)
             case _ => true
    ensures match x
            case Failing(call, e) => IsPutFailure(log + more, call, e)
            case Finished(call, Failure(e), _) => IsPutFailure(log + more, call, e)
            case _ => true
  {
    hide IsPutFailure;
    match x
    case Failing(call, e) => StillPutFailure(log, more, call, e);
    case Finished(call, Failure(e), _) => StillPutFailure(log, more, call, e);
    case _ =>
  }

  /** In every state of every interleaving, a call that was told it failed was told what Put reports on a table that
      some serial prefix of the history makes, under some fault of the database. */
  lemma {:induction false} FailuresAreSerial(states: seq<State>, actions: seq<Action>, k: nat)
    requires IsRun(states, actions) && k <= |actions|
    ensures FailuresArePut(states[k])
  {
    if k > 0 {
      FailuresAreSerial(states, actions, k - 1);
      RunsAreSerial(states, actions, k - 1);
      assert Enabled(states[k - 1], actions[k - 1]) && states[k] == Step(states[k - 1], actions[k - 1]);
      StepKeepsFailures(states[k - 1], actions[k - 1]);
    }
  }

  // ----- A call on its own -----

  /** These steps can be taken one after the other, and lead there. */
  ghost predicate Leads(s: State, actions: seq<Action>, t: State) {
    if actions == [] then s == t
    else
      var n := |actions| - 1;
      exists m :: Leads(s, actions[..n], m) && Enabled(m, actions[n]) && Step(m, actions[n]) == t
  }

  lemma {:induction false} OneMoreStep(s: State, actions: seq<Action>, m: State, a: Action)
    requires Leads(s, actions, m) && Enabled(m, a)
    ensures Leads(s, actions + [a], Step(m, a))
  {
    assert (actions + [a])[..|actions|] == actions;
  }

  /** The first n inserts of a transaction. */
  ghost function Inserts(p: int, n: nat): seq<Action> {
    if n == 0 then [] else Inserts(p, n - 1) + [Insert(p)]
  }

  /** The state after arriving, beginning, checking and n inserts. */
  ghost function MidCall(s: State, p: int, call: Call, n: nat): State
    requires Prepared(call) && n <= |call.chunks|
  {
    var (working, ids) := InsertFirst(s.committed, call.h, call.orgId, call.chunks, EncodedOf(call), n);
    s.(working := working, lock := Some(p), processes := s.processes[p := Inserting(call, ids)])
  }

  lemma {:induction false} ThreeStepsLead(s: State, a: Action, b: Action, c: Action, s1: State, s2: State)
    requires Enabled(s, a) && s1 == Step(s, a) && Enabled(s1, b) && s2 == Step(s1, b) && Enabled(s2, c)
    ensures Leads(s, [a, b, c], Step(s2, c))
  {
    assert Leads(s, [], s);
    hide Enabled, Step, Leads;
    OneMoreStep(s, [], s, a);
    assert [] + [a] == [a];
    OneMoreStep(s, [a], s1, b);
    assert [a] + [b] == [a, b];
    OneMoreStep(s, [a, b], s2, c);
    assert [a, b] + [c] == [a, b, c];
  }

  lemma {:induction false} ChecksLead(s: State, p: int, call: Call)
    requires Prepared(call) && s.lock.None? && (p in s.processes ==> s.processes[p].Finished?)
    requires AllHaveIdentity(s.committed.rows, call.h.identity)
    ensures Leads(s, [Arrive(p, call), Begin(p), Check(p)], MidCall(s, p, call, 0))
  {
    hide Prepared, Leads;
    var s1 := Step(s, Arrive(p, call));
    var s2 := Step(s1, Begin(p));
    ThreeStepsLead(s, Arrive(p, call), Begin(p), Check(p), s1, s2);
    assert Step(s2, Check(p)).processes == s.processes[p := Inserting(call, [])];
    assert Step(s2, Check(p)) == MidCall(s, p, call, 0);
  }

  lemma {:induction false} InsertsLead(s: State, p: int, call: Call, n: nat)
    requires Prepared(call) && n <= |call.chunks| && s.lock.None? && (p in s.processes ==> s.processes[p].Finished?)
    requires AllHaveIdentity(s.committed.rows, call.h.identity) && forall c | c in call.chunks :: c.chunkIndex >= 0
    ensures Leads(s, [Arrive(p, call), Begin(p), Check(p)] + Inserts(p, n), MidCall(s, p, call, n))
  {
    var begin := [Arrive(p, call), Begin(p), Check(p)];
    hide Leads, Prepared, MidCall, Enabled, Step;
    if n == 0 {
      assert begin + Inserts(p, 0) == begin;
      ChecksLead(s, p, call);
    } else {
      InsertsLead(s, p, call, n - 1);
      assert call.chunks[n - 1] in call.chunks;
      InsertLeads(s, p, call, n);
      OneMoreStep(s, begin + Inserts(p, n - 1), MidCall(s, p, call, n - 1), Insert(p));
      assert begin + Inserts(p, n - 1) + [Insert(p)] == begin + Inserts(p, n);
    }
  }

  lemma {:induction false} InsertLeads(s: State, p: int, call: Call, n: nat)
    requires Prepared(call) && 0 < n <= |call.chunks| && call.chunks[n - 1].chunkIndex >= 0
    ensures var m := MidCall(s, p, call, n - 1);
            Enabled(m, Insert(p)) && Step(m, Insert(p)) == MidCall(s, p, call, n)
  {
    hide Upsert, Prepared;
  }

  /** A call that finds the file unlocked, is accepted and meets no other identity and no fault gets through: its own
      steps lead to its commit, and nothing else has changed. */
  lemma {:induction false} AloneItCommits(s: State, p: int, call: Call)
    requires Prepared(call) && s.lock.None? && (p in s.processes ==> s.processes[p].Finished?)
    requires AllHaveIdentity(s.committed.rows, call.h.identity) && forall c | c in call.chunks :: c.chunkIndex >= 0
    ensures exists t :: && Leads(s, [Arrive(p, call), Begin(p), Check(p)] + Inserts(p, |call.chunks|) + [Commit(p)], t)
                        && var (r, db) := Put(s.committed, call.h, call.orgId, call.chunks, Env(call));
                        && r.Success? && t.committed == db && t.lock.None? && t.log == s.log + [Commits(call)]
                        && t.processes == s.processes[p := Finished(call, r, |s.log|)]
  {
    var n := |call.chunks|;
    InsertsLead(s, p, call, n);
    var m := MidCall(s, p, call, n);
    var (working, ids) := InsertFirst(s.committed, call.h, call.orgId, call.chunks, EncodedOf(call), n);
    CommittedIsPut(s.committed, call, working, ids);
    hide Leads, InsertFirst, Prepared, Put;
    OneMoreStep(s, [Arrive(p, call), Begin(p), Check(p)] + Inserts(p, n), m, Commit(p));
    var t := Step(m, Commit(p));
    assert t.processes == s.processes[p := Finished(call, Success(ids), |s.log|)];
  }

  /** A call that meets another identity in the table is refused on its own steps too: it is told which, and the file
      is left unlocked and as it was. */
  lemma {:induction false} AloneItIsRefused(s: State, p: int, call: Call)
    requires Prepared(call) && s.lock.None? && (p in s.processes ==> s.processes[p].Finished?)
    requires !AllHaveIdentity(s.committed.rows, call.h.identity)
    ensures exists t :: && Leads(s, [Arrive(p, call), Begin(p), Check(p), Rollback(p)], t)
                        && t.committed == s.committed && t.lock.None? && t.log == s.log
                        && t.processes == s.processes[p := Finished(call, Put(s.committed, call.h, call.orgId, call.chunks, Env(call)).0, 0)]
  {
    var e := IdentityError(s.committed.rows, call.h.identity).value;
    assert Put(s.committed, call.h, call.orgId, call.chunks, Env(call)).0 == Failure(e);
    hide Prepared, Put, Leads;
    var s1 := Step(s, Arrive(p, call));
    var s2 := Step(s1, Begin(p));
    var s3 := Step(s2, Check(p));
    ThreeStepsLead(s, Arrive(p, call), Begin(p), Check(p), s1, s2);
    assert s3.processes == s.processes[p := Failing(call, e)];
    OneMoreStep(s, [Arrive(p, call), Begin(p), Check(p)], s3, Rollback(p));
    assert [Arrive(p, call), Begin(p), Check(p)] + [Rollback(p)] == [Arrive(p, call), Begin(p), Check(p), Rollback(p)];
    assert Step(s3, Rollback(p)).processes == s.processes[p := Finished(call, Failure(e), 0)];
  }

  /** A transaction can fail at its next insert, or at its commit when all are done; it then releases the lock with an
      error, and the committed table is as before. */
  lemma {:induction false} TransactionsCanFail(s: State, p: int)
    requires Serial(s) && p in s.processes && s.processes[p].Inserting?
    ensures var call, n := s.processes[p].call, |s.processes[p].ids|;
            if n < |call.chunks| then
              && Enabled(s, InsertFails(p))
              && var t := Step(s, InsertFails(p));
              && Enabled(t, Rollback(p))
              && var u := Step(t, Rollback(p));
              && u.committed == s.committed && u.lock.None? && p in u.processes
              && u.processes[p].Finished? && u.processes[p].call == call && u.processes[p].result == Failure(InsertFailed(n))
            else
              && Enabled(s, CommitFails(p))
              && var u := Step(s, CommitFails(p));
              && u.committed == s.committed && u.lock.None? && p in u.processes
              && u.processes[p].Finished? && u.processes[p].call == call && u.processes[p].result == Failure(CommitFailed)
  {
    assert WorkingIs(s, s.processes[p]);
    hide Prepared, EncodedOf;
  }

  /** A call that is waiting for the file can fail to begin, and has then touched nothing. */
  lemma {:induction false} BeginsCanFail(s: State, p: int)
    requires p in s.processes && s.processes[p].Waiting?
    ensures Enabled(s, BeginFails(p))
    ensures var t := Step(s, BeginFails(p));
            t == s.(processes := t.processes) && t.processes == s.processes[p := Finished(s.processes[p].call, Failure(BeginFailed), 0)]
  {
  }

  /** A process can die at any time, and then holds nothing and has published nothing. */
  lemma {:induction false} ProcessesCanDie(s: State, p: int)
    requires Serial(s) && p in s.processes
    ensures Enabled(s, Die(p))
    ensures var t := Step(s, Die(p));
            p !in t.processes && t.committed == s.committed && t.log == s.log && t.lock != Some(p)
            && (s.lock != Some(p) ==> t.lock == s.lock)
  {
  }

  /** A delete goes through whenever nobody is in a transaction, and changes nothing but the table and the log. */
  lemma {:induction false} DeletesGoThrough(s: State, orgId: int, target: Target)
    requires s.lock.None? && orgId >= 1
    ensures Enabled(s, DeleteRows(orgId, target))
    ensures var t := Step(s, DeleteRows(orgId, target));
            && t.committed == Delete(s.committed, orgId, target, false).1
            && t.log == s.log + [OpDelete(orgId, target, false)] && t.processes == s.processes && t.lock.None?
  {
  }
}
