/** Any number of processes writing one SQLite file at the same time.

    Put validates and embeds before it opens its transaction.  The transaction takes the write lock of
    the whole file at BEGIN IMMEDIATE, checks the identity, inserts row by row into its own working
    copy, and then commits or rolls back.  A process may fail or die between any two steps.  A delete is
    a transaction of one statement.
 */
module PutProtocol {
  import opened Wrappers
  import opened Records
  import opened StoreModel
  import opened StoreLaws

  datatype Call = Call(h: Handle, orgId: int, chunks: seq<Chunk>, vectors: Option<seq<seq<real>>>)

  datatype Process =
    | Waiting(call: Call)
    | Checking(call: Call)
    | Inserting(call: Call, ids: seq<int>)
    | Failing(call: Call, error: StoreError)
    | Finished(call: Call, result: Result<seq<int>, StoreError>, position: nat)

  /** `log` records which calls have committed, in order; no process reads it. */
  datatype State = State(
    committed: Db,
    working: Db,
    lock: Option<int>,
    processes: map<int, Process>,
    log: seq<Op>)

  datatype Action =
    | Arrive(p: int, call: Call)
    | Begin(p: int)
    | BeginFails(p: int)
    | Check(p: int)
    | Insert(p: int)
    | InsertFails(p: int)
    | Commit(p: int)
    | CommitFails(p: int)
    | Rollback(p: int)
    | Die(p: int)
    | DeleteRows(orgId: int, target: Target)

  function Env(call: Call): Outcome {
    Outcome(call.vectors, false, None, false)
  }

  function Commits(call: Call): Op {
    OpPut(call.h, call.orgId, call.chunks, Env(call))
  }

  predicate Prepared(call: Call) {
    BatchError(call.orgId, call.chunks).None? && EncodeBatch(call.h, call.chunks, Env(call)).Success?
  }

  function Rejection(call: Call): StoreError
    requires !Prepared(call)
  {
    var invalid := BatchError(call.orgId, call.chunks);
    if invalid.Some? then invalid.value else EncodeBatch(call.h, call.chunks, Env(call)).error
  }

  function EncodedOf(call: Call): (e: seq<Encoded>)
    requires Prepared(call)
    ensures |e| == |call.chunks|
  {
    EncodeBatch(call.h, call.chunks, Env(call)).value
  }

  predicate HoldsLock(x: Process) {
    x.Checking? || x.Inserting? || x.Failing?
  }

  ghost predicate Enabled(s: State, a: Action) {
    match a
    case Arrive(p, _) => p !in s.processes || s.processes[p].Finished?
    case Begin(p) => p in s.processes && s.processes[p].Waiting? && s.lock.None?
    case BeginFails(p) => p in s.processes && s.processes[p].Waiting?
    case Check(p) => p in s.processes && s.processes[p].Checking?
    case Insert(p) =>
      && p in s.processes && s.processes[p].Inserting? && Prepared(s.processes[p].call)
      && |s.processes[p].ids| < |s.processes[p].call.chunks|
      && s.processes[p].call.chunks[|s.processes[p].ids|].chunkIndex >= 0
    case InsertFails(p) =>
      && p in s.processes && s.processes[p].Inserting?
      && |s.processes[p].ids| < |s.processes[p].call.chunks|
    case Commit(p) =>
      && p in s.processes && s.processes[p].Inserting?
      && |s.processes[p].ids| == |s.processes[p].call.chunks|
    case CommitFails(p) =>
      && p in s.processes && s.processes[p].Inserting?
      && |s.processes[p].ids| == |s.processes[p].call.chunks|
    case Rollback(p) => p in s.processes && s.processes[p].Failing?
    case Die(p) => p in s.processes
    case DeleteRows(orgId, _) => s.lock.None? && orgId >= 1
  }

  ghost function Step(s: State, a: Action): State
    requires Enabled(s, a)
  {
    match a
    case Arrive(p, call) =>
      Become(s, p, if Prepared(call) then Waiting(call) else Finished(call, Failure(Rejection(call)), 0))
    case Begin(p) =>
      Become(s, p, Checking(s.processes[p].call)).(lock := Some(p), working := s.committed)
    case BeginFails(p) =>
      Become(s, p, Finished(s.processes[p].call, Failure(BeginFailed), 0))
    case Check(p) =>
      var call := s.processes[p].call;
      var mismatch := IdentityError(s.working.rows, call.h.identity);
      Become(s, p, if mismatch.Some? then Failing(call, mismatch.value) else Inserting(call, []))
    case Insert(p) =>
      var Inserting(call, ids) := s.processes[p];
      var (after, id) := Upsert(s.working, call.h, call.orgId, call.chunks[|ids|], EncodedOf(call)[|ids|]);
      Become(s, p, Inserting(call, ids + [id])).(working := after)
    case InsertFails(p) =>
      Become(s, p, Failing(s.processes[p].call, InsertFailed(|s.processes[p].ids|)))
    case Commit(p) =>
      var Inserting(call, ids) := s.processes[p];
      Become(s, p, Finished(call, Success(ids), |s.log|)).(
        committed := s.working, lock := None, log := s.log + [Commits(call)])
    case CommitFails(p) =>
      Become(s, p, Finished(s.processes[p].call, Failure(CommitFailed), 0)).(lock := None)
    case Rollback(p) =>
      Become(s, p, Finished(s.processes[p].call, Failure(s.processes[p].error), 0)).(lock := None)
    case Die(p) =>
      s.(processes := s.processes - {p}, lock := if HoldsLock(s.processes[p]) then None else s.lock)
    case DeleteRows(orgId, target) =>
      s.(committed := Delete(s.committed, orgId, target, false).1, log := s.log + [OpDelete(orgId, target, false)])
  }

  function Become(s: State, p: int, x: Process): State {
    s.(processes := s.processes[p := x])
  }

  const INIT := State(EMPTY, EMPTY, None, map[], [])

  // ----- The invariant -----

  ghost predicate LockIsExclusive(s: State) {
    && (s.lock.Some? ==> s.lock.value in s.processes)
    && forall p | p in s.processes :: HoldsLock(s.processes[p]) <==> s.lock == Some(p)
  }

  /** The working copy of the transaction in progress is what its inserts so far make of the committed table. */
  ghost predicate WorkingIs(s: State, x: Process) {
    && Prepared(x.call)
    && (x.Checking? ==> s.working == s.committed)
    && (x.Inserting? ==>
          && |x.ids| <= |x.call.chunks|
          && AllHaveIdentity(s.committed.rows, x.call.h.identity)
          && (forall i | 0 <= i < |x.ids| :: x.call.chunks[i].chunkIndex >= 0)
          && (s.working, x.ids)
             == InsertFirst(s.committed, x.call.h, x.call.orgId, x.call.chunks, EncodedOf(x.call), |x.ids|))
  }

  /** What a call that reported success returned is what it returns in the serial history. */
  ghost predicate ResultIsSerial(log: seq<Op>, x: Process) {
    x.Finished? && x.result.Success? ==>
      && x.position < |log|
      && log[x.position] == Commits(x.call)
      && Put(Run(EMPTY, log[..x.position]), x.call.h, x.call.orgId, x.call.chunks, Env(x.call)).0 == x.result
  }

  ghost predicate Serial(s: State) {
    && s.committed == Run(EMPTY, s.log)
    && LockIsExclusive(s)
    && (forall p | p in s.processes && s.processes[p].Waiting? :: Prepared(s.processes[p].call))
    && (forall p | p in s.processes && HoldsLock(s.processes[p]) :: WorkingIs(s, s.processes[p]))
    && (forall p | p in s.processes :: ResultIsSerial(s.log, s.processes[p]))
  }

  lemma {:induction false} RunOneMore(log: seq<Op>, op: Op)
    ensures Run(EMPTY, log + [op]) == Apply(Run(EMPTY, log), op)
  {
    assert (log + [op])[..|log|] == log;
  }

  lemma {:induction false} ResultStaysSerial(log: seq<Op>, op: Op, x: Process)
    requires ResultIsSerial(log, x)
    ensures ResultIsSerial(log + [op], x)
  {
    if x.Finished? && x.result.Success? {
      assert (log + [op])[..x.position] == log[..x.position];
    }
  }

  /** When the last insert is done, the transaction has done what Put does in one go. */
  lemma {:induction false} CommittedIsPut(db: Db, call: Call, working: Db, ids: seq<int>)
    requires Prepared(call) && |ids| == |call.chunks| && AllHaveIdentity(db.rows, call.h.identity)
    requires forall i | 0 <= i < |ids| :: call.chunks[i].chunkIndex >= 0
    requires (working, ids) == InsertFirst(db, call.h, call.orgId, call.chunks, EncodedOf(call), |ids|)
    ensures Put(db, call.h, call.orgId, call.chunks, Env(call)) == (Success(ids), working)
  {
    hide InsertFirst, BatchError, EncodeBatch;
    assert FirstInsertFailure(call.chunks, Env(call), |call.chunks|).None?;
  }

  lemma {:induction false} CommitIsSerial(s: State, p: int)
    requires Serial(s) && Enabled(s, Commit(p))
    ensures Serial(Step(s, Commit(p)))
  {
    var Inserting(call, ids) := s.processes[p];
    var t := Step(s, Commit(p));
    assert WorkingIs(s, s.processes[p]);
    CommittedIsPut(s.committed, call, s.working, ids);
    hide WorkingIs, Put, Prepared;
    RunOneMore(s.log, Commits(call));
    assert t.log[..|s.log|] == s.log;
    forall q | q in t.processes
      ensures ResultIsSerial(t.log, t.processes[q])
    {
      if q != p {
        ResultStaysSerial(s.log, Commits(call), s.processes[q]);
      }
    }
  }

  lemma {:induction false} DeleteIsSerial(s: State, orgId: int, target: Target)
    requires Serial(s) && Enabled(s, DeleteRows(orgId, target))
    ensures Serial(Step(s, DeleteRows(orgId, target)))
  {
    hide WorkingIs, Put, Prepared, Delete, Run, ResultIsSerial;
    var op := OpDelete(orgId, target, false);
    RunOneMore(s.log, op);
    forall q | q in s.processes
      ensures ResultIsSerial(s.log + [op], s.processes[q])
    {
      ResultStaysSerial(s.log, op, s.processes[q]);
    }
  }

  lemma {:induction false} InsertIsSerial(s: State, p: int)
    requires Serial(s) && Enabled(s, Insert(p))
    ensures Serial(Step(s, Insert(p)))
  {
    hide Run, Put, Prepared;
    assert WorkingIs(s, s.processes[p]);
  }

  lemma {:induction false} CheckIsSerial(s: State, p: int)
    requires Serial(s) && Enabled(s, Check(p))
    ensures Serial(Step(s, Check(p)))
  {
    hide Run, Put, Prepared, AllHaveIdentity;
    assert WorkingIs(s, s.processes[p]);
    var t := Step(s, Check(p));
    var call := s.processes[p].call;
    assert t.processes[p].Inserting? ==> AllHaveIdentity(s.committed.rows, call.h.identity);
    assert WorkingIs(t, t.processes[p]);
  }

  lemma {:induction false} BeginIsSerial(s: State, p: int)
    requires Serial(s) && Enabled(s, Begin(p))
    ensures Serial(Step(s, Begin(p)))
  {
    hide Run, Put, InsertFirst, AllHaveIdentity, Prepared;
  }

  lemma {:induction false} EndIsSerial(s: State, a: Action)
    requires Serial(s) && Enabled(s, a) && (a.CommitFails? || a.Rollback? || a.Die?)
    ensures Serial(Step(s, a))
  {
    hide Run, Put, InsertFirst, AllHaveIdentity, Prepared;
  }

  lemma {:induction false} QuietIsSerial(s: State, a: Action)
    requires Serial(s) && Enabled(s, a) && (a.Arrive? || a.BeginFails? || a.InsertFails?)
    ensures Serial(Step(s, a))
  {
    hide Run, Put, InsertFirst, AllHaveIdentity, BatchError, EncodeBatch;
  }

  /** Every step of every process keeps the invariant. */
  lemma {:induction false} StepKeepsSerial(s: State, a: Action)
    requires Serial(s) && Enabled(s, a)
    ensures Serial(Step(s, a))
  {
    hide Serial, Step;
    match a
    case Insert(p) => InsertIsSerial(s, p);
    case Commit(p) => CommitIsSerial(s, p);
    case DeleteRows(orgId, target) => DeleteIsSerial(s, orgId, target);
    case Check(p) => CheckIsSerial(s, p);
    case Begin(p) => BeginIsSerial(s, p);
    case CommitFails(_) => EndIsSerial(s, a);
    case Rollback(_) => EndIsSerial(s, a);
    case Die(_) => EndIsSerial(s, a);
    case _ => QuietIsSerial(s, a);
  }

  // ----- Runs -----

  ghost predicate IsRun(states: seq<State>, actions: seq<Action>) {
    && |states| == |actions| + 1
    && states[0] == INIT
    && forall i | 0 <= i < |actions| :: Enabled(states[i], actions[i]) && states[i + 1] == Step(states[i], actions[i])
  }

  lemma {:induction false} RunsAreSerial(states: seq<State>, actions: seq<Action>, k: nat)
    requires IsRun(states, actions) && k <= |actions|
    ensures Serial(states[k])
  {
    if k > 0 {
      RunsAreSerial(states, actions, k - 1);
      StepKeepsSerial(states[k - 1], actions[k - 1]);
    }
  }

  /** In every state of every interleaving the committed rows share one embedder and tokenizer, ids and external
      ids are unique, and the table is the one that the committed calls make one after the other. */
  lemma {:induction false} CommittedRowsShareOneIdentity(states: seq<State>, actions: seq<Action>, k: nat)
    requires IsRun(states, actions) && k <= |actions|
    ensures states[k].committed == Run(EMPTY, states[k].log)
    ensures Inv(states[k].committed)
  {
    RunsAreSerial(states, actions, k);
    HistoriesKeepInv(states[k].log);
  }

  /** The lock is what the argument needs: on one empty table the checks of two different identities both pass,
      and after both batches are inserted the table no longer has one identity. */
  lemma {:induction false} WithoutTheLock(a: Call, b: Call)
    requires Prepared(a) && Prepared(b) && a.h.identity != b.h.identity && a.orgId != b.orgId
    ensures AllHaveIdentity(EMPTY.rows, a.h.identity) && AllHaveIdentity(EMPTY.rows, b.h.identity)
    ensures var first := InsertFirst(EMPTY, a.h, a.orgId, a.chunks, EncodedOf(a), |a.chunks|).0;
            !OneIdentity(InsertFirst(first, b.h, b.orgId, b.chunks, EncodedOf(b), |b.chunks|).0.rows)
  {
    BatchErrorMeans(a.orgId, a.chunks);
    BatchErrorMeans(b.orgId, b.chunks);
    var (first, ids) := InsertFirst(EMPTY, a.h, a.orgId, a.chunks, EncodedOf(a), |a.chunks|);
    InsertFirstInserts(EMPTY, a.h, a.orgId, a.chunks, EncodedOf(a), |a.chunks|);
    var (second, more) := InsertFirst(first, b.h, b.orgId, b.chunks, EncodedOf(b), |b.chunks|);
    InsertFirstInserts(first, b.h, b.orgId, b.chunks, EncodedOf(b), |b.chunks|);
    InsertedStaysInItsOrg(first, b.h, b.orgId, b.chunks, EncodedOf(b), second, more, a.orgId);
    assert ids[0] in OrgRows(first, a.orgId) && OrgRows(second, a.orgId)[ids[0]] == first.rows[ids[0]];
    assert more[0] in second.rows && second.rows[more[0]].embedderId == b.h.identity.embedderId;
  }
}
