/**
  What holds over whole runs of the kernel: any number of tasks, queues and workers, with
  old leases replayed at any time. A run is any sequence of legal operations from an
  empty store.
*/
module KernelRuns {
  import opened Common
  import opened Kernel
  import opened KernelInvariant

  function Run(s: State, ops: seq<Op>): State {
    if ops == [] then s else Apply(Run(s, ops[..|ops| - 1]), ops[|ops| - 1]).0
  }

  /** The state before operation `i`. */
  function At(s: State, ops: seq<Op>, i: nat): State
    requires i <= |ops|
  {
    Run(s, ops[..i])
  }

  function ReplyAt(s: State, ops: seq<Op>, i: nat): Reply
    requires i < |ops|
  {
    Apply(At(s, ops, i), ops[i]).1
  }

  ghost predicate LegalRun(s: State, ops: seq<Op>) {
    forall i | 0 <= i < |ops| :: Legal(At(s, ops, i), ops[i])
  }

  predicate NoRetry(ops: seq<Op>) {
    forall i | 0 <= i < |ops| :: !ops[i].AdminRetry?
  }

  lemma AtNext(s: State, ops: seq<Op>, i: nat)
    requires i < |ops|
    ensures At(s, ops, i + 1) == Apply(At(s, ops, i), ops[i]).0
  {
    assert ops[..i + 1][..i] == ops[..i];
  }

  lemma RunPrefix(s: State, ops: seq<Op>)
    requires ops != []
    ensures LegalRun(s, ops) ==> LegalRun(s, ops[..|ops| - 1])
    ensures NoRetry(ops) ==> NoRetry(ops[..|ops| - 1])
    ensures Run(s, ops) == Apply(Run(s, ops[..|ops| - 1]), ops[|ops| - 1]).0
    ensures LegalRun(s, ops) ==> Legal(Run(s, ops[..|ops| - 1]), ops[|ops| - 1])
  {
    var front := ops[..|ops| - 1];
    forall i | 0 <= i <= |front|
      ensures At(s, front, i) == At(s, ops, i)
    {
      assert front[..i] == ops[..i];
    }
    if LegalRun(s, ops) {
      forall i | 0 <= i < |front|
        ensures Legal(At(s, front, i), front[i])
      {
        assert Legal(At(s, ops, i), ops[i]);
      }
      assert Legal(At(s, ops, |front|), ops[|front|]);
    }
  }

  /** Every state of a run satisfies the lease, budget, wait and capacity invariants. */
  lemma {:induction false} RunCore(limits: map<QueueName, nat>, ops: seq<Op>)
    requires LegalRun(Init(limits), ops)
    ensures Core(Run(Init(limits), ops))
  {
    if ops == [] {
      forall q | q in limits
        ensures |Outstanding(Init(limits).tasks, q)| == 0
      {
        assert Outstanding(Init(limits).tasks, q) == {};
      }
    } else {
      RunPrefix(Init(limits), ops);
      RunCore(limits, ops[..|ops| - 1]);
      StepCore(Run(Init(limits), ops[..|ops| - 1]), ops[|ops| - 1]);
    }
  }

  lemma CoreAt(limits: map<QueueName, nat>, ops: seq<Op>, i: nat)
    requires LegalRun(Init(limits), ops) && i <= |ops|
    ensures Core(At(Init(limits), ops, i))
  {
    forall k | 0 <= k < i
      ensures Legal(At(Init(limits), ops[..i], k), ops[..i][k])
    {
      assert ops[..i][..k] == ops[..k];
      assert Legal(At(Init(limits), ops, k), ops[k]);
    }
    RunCore(limits, ops[..i]);
  }

  // ------------------------------------------------- one row through one step

  /** One more claim of `x`. */
  function Grants(op: Op, reply: Reply, x: TaskId): nat {
    if op.Claim? && op.id == x && reply.Granted? then 1 else 0
  }

  /** One more failure charged to `x`: an accepted `fail_task` or a recovered lease. */
  function Charges(op: Op, reply: Reply, x: TaskId): nat {
    if reply.Moved? && ((op.By? && op.write.Fail? && op.lease.task == x) || (op.Recover? && op.id == x)) then 1 else 0
  }

  ghost predicate RowStep(op: Op, reply: Reply, x: TaskId, t: Task, t': Task) {
    && t'.attempt == t.attempt + Grants(op, reply, x)
    && t'.failures == t.failures + Charges(op, reply, x)
    && t'.parent == t.parent && t'.queue == t.queue
    && (op != AdminRetry(x) ==> t'.maxAttempts == t.maxAttempts)
    && (t'.token.Some? ==>
          || (t'.token == t.token && t'.phase == t.phase && t'.attempt == t.attempt)
          || (op == Claim(x, t'.token.value) && reply == Granted(t'.attempt) && !t.phase.Running?))
    && (!t.Unfinished() && op != AdminRetry(x) ==> t' == t)
    && (t.phase.Succeeded? ==> t' == t)
  }

  /** An effect that only updates rows of `s`, and revives none. */
  ghost predicate PutShape(s: State, e: Effect) {
    && e.Put?
    && e.state.tasks == s.tasks
    && e.state.queues == s.queues
    && e.rows.Keys <= s.tasks.Keys
    && forall x | x in e.rows ::
      && e.rows[x].parent == s.tasks[x].parent
      && e.rows[x].queue == s.tasks[x].queue
      && (e.rows[x].Unfinished() ==> s.tasks[x].Unfinished())
  }

  lemma PutKeepsRows(s: State, op: Op)
    requires EffectOf(s, op).Put?
    ensures EffectOf(s, op).state.tasks == s.tasks && EffectOf(s, op).state.queues == s.queues
  {
  }

  lemma PutShapeOf(s: State, op: Op)
    requires Core(s) && Legal(s, op) && EffectOf(s, op).Put?
    ensures PutShape(s, EffectOf(s, op))
  {
    PutKeepsRows(s, op);
    StepCore(s, op);
    hide EffectOf, Core, Apply;
    var e := EffectOf(s, op);
    assert SoundRows(e.state, e.rows);
  }

  lemma PutBystanders(s: State, e: Effect)
    requires PutShape(s, e)
    ensures SameParents(s.tasks, Perform(s, e).0.tasks)
    ensures forall x | x in s.tasks ::
      Bystander(if x in e.rows then e.rows[x] else s.tasks[x], Perform(s, e).0.tasks[x])
  {
    UpdateSettles(e.state, s.tasks + e.rows);
  }

  lemma BystanderStep(op: Op, reply: Reply, x: TaskId, t: Task, t': Task)
    requires Bystander(t, t') && Grants(op, reply, x) == 0 && Charges(op, reply, x) == 0
    requires t.token.Some? ==> t.phase.Running?
    ensures RowStep(op, reply, x, t, t')
  {
  }

  lemma NamedByWrite(s: State, l: Lease, w: Write, t': Task)
    requires Owns(s, l) && WriteEffect(s, l.task, w).Put? && LeaseInv(s, s.tasks[l.task]) && l.task in WriteEffect(s, l.task, w).rows
    requires Bystander(WriteEffect(s, l.task, w).rows[l.task], t')
    ensures RowStep(By(l, w), WriteEffect(s, l.task, w).reply, l.task, s.tasks[l.task], t')
  {
  }

  lemma NamedByRow(s: State, op: Op, x: TaskId, t': Task)
    requires x in s.tasks && !op.By? && !op.Enqueue? && op.id in s.tasks && Legal(s, op) && RowInv(s, x) && RowInv(s, op.id)
    requires RowEffect(s, op).Put? && x in RowEffect(s, op).rows && Bystander(RowEffect(s, op).rows[x], t')
    ensures RowStep(op, RowEffect(s, op).reply, x, s.tasks[x], t')
  {
  }

  lemma WriteNamesOwn(s: State, id: TaskId, w: Write)
    requires id in s.tasks && WriteEffect(s, id, w).Put?
    ensures WriteEffect(s, id, w).rows.Keys == {id}
  {
  }

  /** Named rows move as the operation says; their lease survives only a renewal. */
  lemma NamedRowStep(s: State, op: Op, x: TaskId, t': Task)
    requires Core(s) && Legal(s, op) && EffectOf(s, op).Put? && x in EffectOf(s, op).rows && x in s.tasks
    requires Bystander(EffectOf(s, op).rows[x], t')
    ensures RowStep(op, EffectOf(s, op).reply, x, s.tasks[x], t')
  {
    assert RowInv(s, x);
    hide WriteEffect, RowEffect, RowStep, Bystander;
    if op.By? {
      WriteNamesOwn(s, op.lease.task, op.write);
      NamedByWrite(s, op.lease, op.write, t');
    } else {
      assert RowInv(s, op.id);
      NamedByRow(s, op, x, t');
    }
  }

  lemma PutStepRow(s: State, op: Op, x: TaskId)
    requires Core(s) && Legal(s, op) && x in s.tasks && EffectOf(s, op).Put?
    ensures x in Apply(s, op).0.tasks
    ensures RowStep(op, Apply(s, op).1, x, s.tasks[x], Apply(s, op).0.tasks[x])
  {
    assert RowInv(s, x);
    PutShapeOf(s, op);
    PutBystanders(s, EffectOf(s, op));
    if x in EffectOf(s, op).rows {
      NamedRowStep(s, op, x, Apply(s, op).0.tasks[x]);
    } else {
      OtherRowStep(s, op, x);
      BystanderStep(op, EffectOf(s, op).reply, x, s.tasks[x], Apply(s, op).0.tasks[x]);
    }
  }

  lemma OtherRowStep(s: State, op: Op, x: TaskId)
    requires EffectOf(s, op).Put? && x !in EffectOf(s, op).rows
    ensures Grants(op, EffectOf(s, op).reply, x) == 0 && Charges(op, EffectOf(s, op).reply, x) == 0
  {
  }

  /** No row is ever lost, and each moves only as `RowStep` allows. */
  lemma StepRow(s: State, op: Op, x: TaskId)
    requires Core(s) && Legal(s, op) && x in s.tasks
    ensures x in Apply(s, op).0.tasks
    ensures RowStep(op, Apply(s, op).1, x, s.tasks[x], Apply(s, op).0.tasks[x])
  {
    if EffectOf(s, op).Put? {
      PutStepRow(s, op, x);
    } else {
      assert RowInv(s, x);
    }
  }

  /** A row that appears in a step is freshly pending, with nothing claimed and nothing charged. */
  lemma StepNewRow(s: State, op: Op, x: TaskId)
    requires Core(s) && Legal(s, op) && x !in s.tasks && x in Apply(s, op).0.tasks
    ensures Apply(s, op).0.tasks[x].phase.Pending?
    ensures Apply(s, op).0.tasks[x].attempt == 0 && Apply(s, op).0.tasks[x].failures == 0
    ensures Grants(op, Apply(s, op).1, x) == 0 && Charges(op, Apply(s, op).1, x) == 0
  {
    if EffectOf(s, op).Put? {
      PutShapeOf(s, op);
      PutBystanders(s, EffectOf(s, op));
    }
  }

  // -------------------------------------------------------------- theorems

  /** How often `x` was claimed, and how often it was charged a failure, in a run. */
  function ClaimsOf(s: State, ops: seq<Op>, x: TaskId): nat {
    if ops == [] then 0
    else
      var front := ops[..|ops| - 1];
      ClaimsOf(s, front, x) + Grants(ops[|ops| - 1], Apply(Run(s, front), ops[|ops| - 1]).1, x)
  }

  function ChargesOf(s: State, ops: seq<Op>, x: TaskId): nat {
    if ops == [] then 0
    else
      var front := ops[..|ops| - 1];
      ChargesOf(s, front, x) + Charges(ops[|ops| - 1], Apply(Run(s, front), ops[|ops| - 1]).1, x)
  }

  /**
    The ledger: `attempt` counts exactly the granted claims and `failed_attempts` exactly the accepted
    failures and recovered leases, so suspending, waiting, releasing and cancelling are never charged.
  */
  lemma {:induction false} Ledger(limits: map<QueueName, nat>, ops: seq<Op>, x: TaskId)
    requires LegalRun(Init(limits), ops)
    ensures var s := Run(Init(limits), ops);
      if x in s.tasks
      then s.tasks[x].attempt == ClaimsOf(Init(limits), ops, x) && s.tasks[x].failures == ChargesOf(Init(limits), ops, x)
      else ClaimsOf(Init(limits), ops, x) == 0 && ChargesOf(Init(limits), ops, x) == 0
  {
    if ops != [] {
      var front, op := ops[..|ops| - 1], ops[|ops| - 1];
      RunPrefix(Init(limits), ops);
      Ledger(limits, front, x);
      RunCore(limits, front);
      var s := Run(Init(limits), front);
      if x in s.tasks {
        StepRow(s, op, x);
      } else if x in Apply(s, op).0.tasks {
        StepNewRow(s, op, x);
      } else {
        assert Grants(op, Apply(s, op).1, x) == 0 && Charges(op, Apply(s, op).1, x) == 0;
      }
    }
  }

  /** An unfinished task always has budget left, so a pending one is never stranded: a claim of it is granted. */
  lemma NeverStranded(limits: map<QueueName, nat>, ops: seq<Op>, x: TaskId, token: Token)
    requires LegalRun(Init(limits), ops)
    requires x in Run(Init(limits), ops).tasks && Run(Init(limits), ops).tasks[x].Unfinished()
    ensures ChargesOf(Init(limits), ops, x) < Run(Init(limits), ops).tasks[x].maxAttempts
    ensures var t := Run(Init(limits), ops).tasks[x];
      t.phase.Pending? ==> Apply(Run(Init(limits), ops), Claim(x, token)).1 == Granted(t.attempt + 1)
  {
    RunCore(limits, ops);
    Ledger(limits, ops, x);
    assert RowInv(Run(Init(limits), ops), x);
  }

  /** The claim at `j` issued lease `l`, and the task has been running in every state since. */
  ghost predicate LiveSince(s: State, ops: seq<Op>, l: Lease, j: nat, i: nat)
    requires j < i <= |ops|
  {
    && ops[j] == Claim(l.task, l.token)
    && ReplyAt(s, ops, j) == Granted(l.attempt)
    && forall k | j < k <= i :: l.task in At(s, ops, k).tasks && At(s, ops, k).tasks[l.task].phase.Running?
  }

  lemma GrantOwns(s: State, l: Lease)
    requires Apply(s, Claim(l.task, l.token)).1 == Granted(l.attempt)
    ensures Owns(Apply(s, Claim(l.task, l.token)).0, l)
  {
    var t := s.tasks[l.task];
    NothingEnds(s.(minted := s.minted + {l.token}), l.task,
                t.(phase := Running, attempt := t.attempt + 1, token := Some(l.token)));
  }

  /** An update that ends nothing fires no trigger. */
  lemma NothingEnds(s: State, id: TaskId, row: Task)
    requires id in s.tasks && row.Unfinished()
    ensures Update(s, s.tasks + map[id := row]).tasks[id] == row
  {
    var rows := s.tasks + map[id := row];
    assert NewlyTerminal(s.tasks, rows) == {};
    assert UnfinishedChildren(rows, {}) == {};
    assert Cascade(rows, {}) == rows;
  }

  lemma OwnershipLasts(s: State, op: Op, l: Lease)
    requires Core(s) && Legal(s, op) && Owns(s, l)
    requires l.task in Apply(s, op).0.tasks && Apply(s, op).0.tasks[l.task].phase.Running?
    ensures Owns(Apply(s, op).0, l)
  {
    StepRow(s, op, l.task);
    StepCore(s, op);
    assert RowInv(Apply(s, op).0, l.task);
  }

  lemma {:induction false} LiveLeaseOwns(limits: map<QueueName, nat>, ops: seq<Op>, l: Lease, j: nat, i: nat)
    requires LegalRun(Init(limits), ops) && j < i <= |ops|
    requires LiveSince(Init(limits), ops, l, j, i)
    ensures Owns(At(Init(limits), ops, i), l)
    decreases i
  {
    hide Apply, Legal, Owns;
    AtNext(Init(limits), ops, i - 1);
    CoreAt(limits, ops, i - 1);
    if j == i - 1 {
      GrantOwns(At(Init(limits), ops, j), l);
    } else {
      assert LiveSince(Init(limits), ops, l, j, i - 1);
      LiveLeaseOwns(limits, ops, l, j, i - 1);
      OwnershipLasts(At(Init(limits), ops, i - 1), ops[i - 1], l);
    }
  }

  lemma {:induction false} OwnedLeaseIsLive(limits: map<QueueName, nat>, ops: seq<Op>, l: Lease, i: nat) returns (j: nat)
    requires LegalRun(Init(limits), ops) && i <= |ops|
    requires Owns(At(Init(limits), ops, i), l)
    ensures j < i && LiveSince(Init(limits), ops, l, j, i)
    decreases i
  {
    hide Apply, Legal;
    var s0 := Init(limits);
    j := 0;
    if i > 0 {
      var before := At(s0, ops, i - 1);
      AtNext(s0, ops, i - 1);
      CoreAt(limits, ops, i - 1);
      CoreAt(limits, ops, i);
      assert RowInv(At(s0, ops, i), l.task);
      if l.task !in before.tasks {
        StepNewRow(before, ops[i - 1], l.task);
      }
      StepRow(before, ops[i - 1], l.task);
      if ops[i - 1] == Claim(l.task, l.token) && ReplyAt(s0, ops, i - 1) == Granted(l.attempt) {
        j := i - 1;
      } else {
        j := OwnedLeaseIsLive(limits, ops, l, i - 1);
      }
    }
  }

  /**
    Fencing, exactly. Whatever lease a worker presents, however old, its write is accepted if and only if
    the task has been running without a break since the very claim that issued that lease.
  */
  lemma FencedExactly(limits: map<QueueName, nat>, ops: seq<Op>, i: nat)
    requires LegalRun(Init(limits), ops) && i < |ops| && ops[i].By?
    ensures !ReplyAt(Init(limits), ops, i).Fenced? <==>
      exists j | 0 <= j < i :: LiveSince(Init(limits), ops, ops[i].lease, j, i)
    ensures ReplyAt(Init(limits), ops, i).Fenced? ==> At(Init(limits), ops, i + 1) == At(Init(limits), ops, i)
  {
    var s := At(Init(limits), ops, i);
    AtNext(Init(limits), ops, i);
    WriteNeverFenced(s, ops[i].lease, ops[i].write);
    if Owns(s, ops[i].lease) {
      var j := OwnedLeaseIsLive(limits, ops, ops[i].lease, i);
    } else {
      forall j | 0 <= j < i && LiveSince(Init(limits), ops, ops[i].lease, j, i)
        ensures false
      {
        LiveLeaseOwns(limits, ops, ops[i].lease, j, i);
      }
    }
  }

  lemma WriteNeverFenced(s: State, l: Lease, w: Write)
    ensures Owns(s, l) <==> !Apply(s, By(l, w)).1.Fenced?
  {
  }

  /** `t'` is `t` at some later time: counters only grow, success is final, and any ending is if `fixed`. */
  ghost predicate Later(t: Task, t': Task, fixed: bool) {
    && t.attempt <= t'.attempt
    && t.failures <= t'.failures
    && t.parent == t'.parent
    && (t.phase.Succeeded? ==> t' == t)
    && (!t.Unfinished() && fixed ==> t' == t)
  }

  lemma LaterStep(op: Op, reply: Reply, x: TaskId, t: Task, now: Task, next: Task, fixed: bool)
    requires Later(t, now, fixed) && RowStep(op, reply, x, now, next) && (fixed ==> !op.AdminRetry?)
    ensures Later(t, next, fixed)
  {
  }

  /** Rows are never lost, attempts never decrease, a result is final, and without retries so is any ending. */
  lemma {:induction false} History(limits: map<QueueName, nat>, ops: seq<Op>, x: TaskId, i: nat, j: nat)
    requires LegalRun(Init(limits), ops) && i <= j <= |ops|
    requires x in At(Init(limits), ops, i).tasks
    ensures x in At(Init(limits), ops, j).tasks
    ensures Later(At(Init(limits), ops, i).tasks[x], At(Init(limits), ops, j).tasks[x], NoRetry(ops))
    decreases j
  {
    hide Apply, Core, Run, Legal, Later, RowStep, At;
    if i < j {
      var s, op := At(Init(limits), ops, j - 1), ops[j - 1];
      History(limits, ops, x, i, j - 1);
      AtNext(Init(limits), ops, j - 1);
      CoreAt(limits, ops, j - 1);
      StepRow(s, op, x);
      LaterStep(op, Apply(s, op).1, x, At(Init(limits), ops, i).tasks[x], s.tasks[x], Apply(s, op).0.tasks[x], NoRetry(ops));
    } else {
      SameIsLater(At(Init(limits), ops, i).tasks[x], NoRetry(ops));
    }
  }

  lemma SameIsLater(t: Task, fixed: bool)
    ensures Later(t, t, fixed)
  {
  }

  /** At most one completion of a task is ever accepted, even across administrator retries. */
  lemma CompletesOnce(limits: map<QueueName, nat>, ops: seq<Op>, i: nat, j: nat)
    requires LegalRun(Init(limits), ops) && i < j < |ops|
    requires ops[i].By? && ops[i].write.Complete? && ops[j].By? && ops[j].write.Complete?
    requires ops[i].lease.task == ops[j].lease.task
    requires !ReplyAt(Init(limits), ops, i).Fenced?
    ensures ReplyAt(Init(limits), ops, j).Fenced?
  {
    var s0, x := Init(limits), ops[i].lease.task;
    var s := At(s0, ops, i);
    CoreAt(limits, ops, i);
    AtNext(s0, ops, i);
    WriteNeverFenced(s, ops[i].lease, Complete);
    PutShapeOf(s, ops[i]);
    PutBystanders(s, EffectOf(s, ops[i]));
    assert At(s0, ops, i + 1).tasks[x].phase.Succeeded?;
    History(limits, ops, x, i + 1, j);
    WriteNeverFenced(At(s0, ops, j), ops[j].lease, Complete);
  }

  // ------------------------------------------------------- trees and queues

  lemma PutNoOrphans(s: State, e: Effect)
    requires NoOrphans(s.tasks) && PutShape(s, e)
    ensures NoOrphans(Perform(s, e).0.tasks)
  {
    UpdateNoOrphans(e.state, s.tasks + e.rows);
  }

  lemma AddNoOrphans(s: State, id: TaskId, row: Task)
    requires NoOrphans(s.tasks) && id !in s.tasks && (row.parent.Some? ==> row.parent.value in s.tasks)
    requires forall x | x in s.tasks :: ParentInv(s.tasks, x)
    requires row.parent.Some? ==> s.tasks[row.parent.value].Unfinished()
    ensures NoOrphans(Perform(s, Add(id, row)).0.tasks)
  {
  }

  lemma StepNoOrphans(s: State, op: Op)
    requires Core(s) && NoOrphans(s.tasks) && Legal(s, op) && !op.AdminRetry?
    ensures NoOrphans(Apply(s, op).0.tasks)
  {
    var e := EffectOf(s, op);
    if e.Put? {
      PutShapeOf(s, op);
      PutNoOrphans(s, e);
    } else if e.Add? {
      forall x | x in s.tasks
        ensures ParentInv(s.tasks, x)
      {
        assert RowInv(s, x);
      }
      AddNoOrphans(s, e.id, e.row);
    }
  }

  lemma {:induction false} RunNoOrphans(limits: map<QueueName, nat>, ops: seq<Op>)
    requires LegalRun(Init(limits), ops) && NoRetry(ops)
    ensures NoOrphans(Run(Init(limits), ops).tasks)
  {
    if ops != [] {
      RunPrefix(Init(limits), ops);
      RunCore(limits, ops[..|ops| - 1]);
      RunNoOrphans(limits, ops[..|ops| - 1]);
      StepNoOrphans(Run(Init(limits), ops[..|ops| - 1]), ops[|ops| - 1]);
    }
  }

  /** Without administrator retries a finished task has no unfinished descendant, at any depth. */
  lemma FinishedTrees(limits: map<QueueName, nat>, ops: seq<Op>, a: TaskId, x: TaskId)
    requires LegalRun(Init(limits), ops) && NoRetry(ops)
    requires var tasks := Run(Init(limits), ops).tasks;
      a in tasks && !tasks[a].Unfinished() && Below(tasks, x, {a})
    ensures var tasks := Run(Init(limits), ops).tasks;
      x in tasks && !tasks[x].Unfinished()
  {
    var tasks := Run(Init(limits), ops).tasks;
    RunNoOrphans(limits, ops);
    var path :| |path| >= 2 && path[0] == x && path[|path| - 1] in {a} && IsChain(tasks, path);
    FinishedAbove(tasks, path);
  }

  lemma LimitKept(s: State, op: Op, q: QueueName)
    ensures q in Apply(s, op).0.queues <==> q in s.queues
    ensures q in s.queues ==> Apply(s, op).0.queues[q].limit == s.queues[q].limit
  {
    if EffectOf(s, op).Put? {
      PutKeepsRows(s, op);
    }
    hide EffectOf, Cascade, WakeParents, NewlyTerminal;
  }

  lemma {:induction false} LimitsFixed(s: State, ops: seq<Op>, q: QueueName)
    ensures q in Run(s, ops).queues <==> q in s.queues
    ensures q in s.queues ==> Run(s, ops).queues[q].limit == s.queues[q].limit
  {
    if ops != [] {
      LimitsFixed(s, ops[..|ops| - 1], q);
      LimitKept(Run(s, ops[..|ops| - 1]), ops[|ops| - 1], q);
      hide Apply;
    }
  }

  /**
    Admission. In every reachable state the counter of a limited queue is the true number of its
    unfinished tasks and within the limit, and a new task is refused exactly when the queue is full.
  */
  lemma AdmissionExact(limits: map<QueueName, nat>, ops: seq<Op>, q: QueueName, id: TaskId, maxAttempts: nat)
    requires LegalRun(Init(limits), ops) && q in limits
    ensures var s := Run(Init(limits), ops);
      && q in s.queues && s.queues[q].limit == limits[q]
      && s.queues[q].outstanding == |Outstanding(s.tasks, q)| <= limits[q]
      && (Apply(s, Enqueue(id, q, maxAttempts)).1.Full? <==> |Outstanding(s.tasks, q)| == limits[q])
  {
    RunCore(limits, ops);
    LimitsFixed(Init(limits), ops, q);
  }

  /** Some operation of the run sent `name` to `x`, which existed by then. */
  ghost predicate Emitted(s: State, ops: seq<Op>, x: TaskId, name: SignalName) {
    exists i | 0 <= i < |ops| :: ops[i] == EmitSignal(x, name) && x in At(s, ops, i).tasks
  }

  lemma StepSignals(s: State, op: Op)
    ensures Apply(s, op).0.signals ==
      s.signals + if op.EmitSignal? && op.id in s.tasks then {(op.id, op.name)} else {}
  {
    hide Update;
    var e := EffectOf(s, op);
    if e.Put? {
      UpdateKeepsSignals(e.state, e.state.tasks + e.rows);
    }
  }

  lemma UpdateKeepsSignals(s: State, rows: Tasks)
    ensures Update(s, rows).signals == s.signals
  {
  }

  lemma EmittedMore(s: State, ops: seq<Op>, x: TaskId, name: SignalName)
    requires ops != []
    ensures var front, op := ops[..|ops| - 1], ops[|ops| - 1];
      Emitted(s, ops, x, name) <==> Emitted(s, front, x, name) || (op == EmitSignal(x, name) && x in Run(s, front).tasks)
  {
    var front, op := ops[..|ops| - 1], ops[|ops| - 1];
    hide Run;
    assert forall i | 0 <= i <= |front| :: front[..i] == ops[..i];
    if op == EmitSignal(x, name) && x in Run(s, front).tasks {
      assert ops[|front|] == EmitSignal(x, name) && x in At(s, ops, |front|).tasks;
    }
    if Emitted(s, front, x, name) {
      var i :| 0 <= i < |front| && front[i] == EmitSignal(x, name) && x in At(s, front, i).tasks;
      assert ops[i] == EmitSignal(x, name) && x in At(s, ops, i).tasks;
    }
  }

  /** What is in the signal table is exactly what was sent. */
  lemma {:induction false} SignalsAreEmitted(limits: map<QueueName, nat>, ops: seq<Op>, x: TaskId, name: SignalName)
    ensures (x, name) in Run(Init(limits), ops).signals <==> Emitted(Init(limits), ops, x, name)
  {
    if ops != [] {
      hide Apply, Emitted;
      SignalsAreEmitted(limits, ops[..|ops| - 1], x, name);
      EmittedMore(Init(limits), ops, x, name);
      StepSignals(Run(Init(limits), ops[..|ops| - 1]), ops[|ops| - 1]);
    }
  }

  /** No wake-up is lost: nobody has sent a parked task's signal, and the child it waits for is its own and unfinished. */
  lemma ParkedIsEarly(limits: map<QueueName, nat>, ops: seq<Op>, x: TaskId)
    requires LegalRun(Init(limits), ops)
    requires x in Run(Init(limits), ops).tasks && Run(Init(limits), ops).tasks[x].phase.Waiting?
    ensures var s := Run(Init(limits), ops);
      var source := s.tasks[x].waitsOn;
      && source.Some?
      && (source.value.SignalOf? ==> !Emitted(Init(limits), ops, x, source.value.name))
      && (source.value.ResultOf? ==>
            && source.value.child in s.tasks
            && s.tasks[source.value.child].parent == Some(x) && s.tasks[source.value.child].Unfinished())
  {
    RunCore(limits, ops);
    var source := Run(Init(limits), ops).tasks[x].waitsOn;
    if source.Some? && source.value.SignalOf? {
      SignalsAreEmitted(limits, ops, x, source.value.name);
    }
    assert RowInv(Run(Init(limits), ops), x);
  }
}
