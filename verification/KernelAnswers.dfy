/**
  What every operation answers and leaves behind, told from the run so far: from what was enqueued, spawned,
  claimed, charged and sent before it, over every run with suspensions, releases, waits and retries in it.
*/
module KernelAnswers {
  import opened Common
  import opened Kernel
  import opened KernelInvariant
  import opened KernelRuns
  import opened References
  import opened TransitionBatch

  // ---------------------------------------------------------------- births

  /** The operation asks for a new task `x`. */
  predicate AsksFor(op: Op, x: TaskId) {
    (op.Enqueue? && op.id == x) || (op.By? && op.write.Spawn? && op.write.id == x)
  }

  /** And it was let in. */
  predicate Bears(op: Op, reply: Reply, x: TaskId) {
    AsksFor(op, x) && reply == Moved(Pending)
  }

  function ParentIn(op: Op): Option<TaskId> {
    if op.By? then Some(op.lease.task) else None
  }

  function QueueIn(op: Op, x: TaskId): QueueName
    requires AsksFor(op, x)
  {
    if op.By? then op.write.queue else op.queue
  }

  function BudgetIn(op: Op, x: TaskId): nat
    requires AsksFor(op, x)
  {
    if op.By? then op.write.maxAttempts else op.maxAttempts
  }

  lemma BirthStep(s: State, op: Op, x: TaskId)
    requires Core(s) && Legal(s, op) && x !in s.tasks
    ensures x in Apply(s, op).0.tasks <==> Bears(op, Apply(s, op).1, x)
    ensures Bears(op, Apply(s, op).1, x) ==>
      Apply(s, op).0.tasks[x] == Task(Pending, 0, 0, BudgetIn(op, x), None, ParentIn(op), QueueIn(op, x), None)
  {
    if EffectOf(s, op).Put? {
      PutShapeOf(s, op);
      PutBystanders(s, EffectOf(s, op));
    }
  }

  lemma NoBirth(s: State, op: Op, x: TaskId)
    requires Legal(s, op) && x in s.tasks
    ensures !AsksFor(op, x)
  {
  }

  /** The operation of the run that brought `x` in. */
  function BornBy(s: State, ops: seq<Op>, x: TaskId): (r: Option<Op>)
    ensures r.Some? ==> r.value in ops && AsksFor(r.value, x)
  {
    if ops == [] then None
    else
      var front, op := ops[..|ops| - 1], ops[|ops| - 1];
      if Bears(op, Apply(Run(s, front), op).1, x) then Some(op) else BornBy(s, front, x)
  }

  /** A task is there if and only if it was enqueued or spawned and let in, and whose child and in which queue it is was said then. */
  lemma {:induction false} Birth(limits: map<QueueName, nat>, ops: seq<Op>, x: TaskId)
    requires LegalRun(Init(limits), ops)
    ensures var tasks, born := Run(Init(limits), ops).tasks, BornBy(Init(limits), ops, x);
      && (x in tasks <==> born.Some?)
      && (x in tasks ==> tasks[x].parent == ParentIn(born.value) && tasks[x].queue == QueueIn(born.value, x))
  {
    if ops != [] {
      var front, op := ops[..|ops| - 1], ops[|ops| - 1];
      RunPrefix(Init(limits), ops);
      RunCore(limits, front);
      Birth(limits, front, x);
      var s := Run(Init(limits), front);
      if x in s.tasks {
        NoBirth(s, op, x);
        StepRow(s, op, x);
      } else {
        BirthStep(s, op, x);
      }
      hide Apply, Core, LegalRun;
    }
  }

  // ---------------------------------------------------------------- budgets

  /** The budget `x` was created with, raised by each accepted administrator retry to allow one failure more. */
  function Budget(s: State, ops: seq<Op>, x: TaskId): nat {
    if ops == [] then 0
    else
      var front, op := ops[..|ops| - 1], ops[|ops| - 1];
      var before, reply := Budget(s, front, x), Apply(Run(s, front), op).1;
      if Bears(op, reply, x) then BudgetIn(op, x)
      else if op == AdminRetry(x) && reply == Moved(Pending) then Max(before, ChargesOf(s, front, x) + 1)
      else before
  }

  lemma RetryStep(s: State, x: TaskId)
    requires x in s.tasks
    ensures var s', reply := Apply(s, AdminRetry(x)).0, Apply(s, AdminRetry(x)).1;
      && x in s'.tasks
      && if reply == Moved(Pending)
         then s'.tasks[x].maxAttempts == Max(s.tasks[x].maxAttempts, s.tasks[x].failures + 1)
         else s' == s
  {
  }

  lemma {:induction false} BudgetKept(limits: map<QueueName, nat>, ops: seq<Op>, x: TaskId)
    requires LegalRun(Init(limits), ops) && x in Run(Init(limits), ops).tasks
    ensures Run(Init(limits), ops).tasks[x].maxAttempts == Budget(Init(limits), ops, x)
  {
    if ops != [] {
      var front, op := ops[..|ops| - 1], ops[|ops| - 1];
      RunPrefix(Init(limits), ops);
      RunCore(limits, front);
      var s := Run(Init(limits), front);
      if x in s.tasks {
        BudgetKept(limits, front, x);
        Ledger(limits, front, x);
        NoBirth(s, op, x);
        if op == AdminRetry(x) {
          RetryStep(s, x);
        } else {
          StepRow(s, op, x);
        }
      } else {
        BirthStep(s, op, x);
      }
      hide Apply, Core, Run, LegalRun;
    }
  }

  // -------------------------------------------------------------- ancestors

  /** How many states of the run `x` has been there for. */
  function Since(s: State, ops: seq<Op>, x: TaskId): nat {
    if ops == [] then 0
    else Since(s, ops[..|ops| - 1], x) + if x in Run(s, ops).tasks then 1 else 0
  }

  lemma {:induction false} SinceBirth(limits: map<QueueName, nat>, ops: seq<Op>, x: TaskId)
    requires LegalRun(Init(limits), ops)
    ensures Since(Init(limits), ops, x) > 0 <==> x in Run(Init(limits), ops).tasks
  {
    if ops != [] {
      var front := ops[..|ops| - 1];
      RunPrefix(Init(limits), ops);
      RunCore(limits, front);
      SinceBirth(limits, front, x);
      if x in Run(Init(limits), front).tasks {
        StepRow(Run(Init(limits), front), ops[|ops| - 1], x);
      }
      hide Apply, Core, LegalRun;
    }
  }

  lemma {:induction false} ParentIsOlder(limits: map<QueueName, nat>, ops: seq<Op>, x: TaskId)
    requires LegalRun(Init(limits), ops) && x in Run(Init(limits), ops).tasks && Run(Init(limits), ops).tasks[x].parent.Some?
    ensures Since(Init(limits), ops, x) < Since(Init(limits), ops, Run(Init(limits), ops).tasks[x].parent.value)
  {
    if ops != [] {
      var front, op, p := ops[..|ops| - 1], ops[|ops| - 1], Run(Init(limits), ops).tasks[x].parent.value;
      RunPrefix(Init(limits), ops);
      RunCore(limits, front);
      var s := Run(Init(limits), front);
      SinceBirth(limits, front, x);
      SinceBirth(limits, front, p);
      if x in s.tasks {
        StepRow(s, op, x);
        ParentIsOlder(limits, front, x);
        ParentThere(s, x);
        StepRow(s, op, p);
      } else {
        BirthStep(s, op, x);
        SpawnedByOwner(s, op, x);
        StepRow(s, op, p);
      }
      hide Apply, Core, LegalRun;
    }
  }

  lemma ParentThere(s: State, x: TaskId)
    requires Core(s) && x in s.tasks && s.tasks[x].parent.Some?
    ensures s.tasks[x].parent.value in s.tasks
  {
    assert RowInv(s, x);
  }

  lemma SpawnedByOwner(s: State, op: Op, x: TaskId)
    requires Bears(op, Apply(s, op).1, x) && ParentIn(op).Some?
    ensures ParentIn(op).value in s.tasks
  {
  }

  lemma {:induction false} AncestorsAreOlder(limits: map<QueueName, nat>, ops: seq<Op>, path: seq<TaskId>)
    requires LegalRun(Init(limits), ops) && |path| >= 2 && IsChain(Run(Init(limits), ops).tasks, path)
    ensures Since(Init(limits), ops, path[0]) < Since(Init(limits), ops, path[|path| - 1])
    decreases |path|
  {
    assert Run(Init(limits), ops).tasks[path[0]].parent == Some(path[1]);
    ParentIsOlder(limits, ops, path[0]);
    if |path| > 2 {
      assert IsChain(Run(Init(limits), ops).tasks, path[1..]);
      AncestorsAreOlder(limits, ops, path[1..]);
    }
  }

  /** No task is its own ancestor. */
  lemma NoCycles(limits: map<QueueName, nat>, ops: seq<Op>, x: TaskId)
    requires LegalRun(Init(limits), ops)
    ensures !Below(Run(Init(limits), ops).tasks, x, {x})
  {
    var tasks := Run(Init(limits), ops).tasks;
    if Below(tasks, x, {x}) {
      var path :| |path| >= 2 && path[0] == x && path[|path| - 1] in {x} && IsChain(tasks, path);
      AncestorsAreOlder(limits, ops, path);
    }
  }

  // ---------------------------------------------------------- what is written

  /** One updated row is afterwards what was written. */
  lemma Written(s: State, id: TaskId, row: Task)
    requires id in s.tasks
    ensures id in Update(s, s.tasks + map[id := row]).tasks && Update(s, s.tasks + map[id := row]).tasks[id] == row
  {
    hide Update;
    if row.Unfinished() {
      NothingEnds(s, id, row);
      KeepsRows(s, s.tasks + map[id := row]);
    } else {
      OwnRow(s, id, row);
    }
  }

  lemma KeepsRows(s: State, rows: Tasks)
    requires rows.Keys == s.tasks.Keys
    ensures Update(s, rows).tasks.Keys == rows.Keys
  {
    UpdateSettles(s, rows);
  }

  /** Ends `child`, wakes its parent `id`: both rows are afterwards what was written. */
  lemma BothWritten(s: State, id: TaskId, child: TaskId, row: Task, ended: Task)
    requires id in s.tasks && child in s.tasks && child != id && s.tasks[child].parent == Some(id) && s.tasks[child].Unfinished()
    requires row.phase.Pending? && row.parent == s.tasks[id].parent
    requires !ended.Unfinished() && ended.parent == s.tasks[child].parent
    requires !Below(s.tasks, id, {id})
    ensures var after := Update(s, s.tasks + map[id := row, child := ended]).tasks;
      id in after && child in after && after[id] == row && after[child] == ended
  {
    var rows := s.tasks + map[id := row, child := ended];
    assert NewlyTerminal(s.tasks, rows) == {child};
    assert SameParents(rows, s.tasks);
    if Under(rows, id, {child}) {
      UnderIsBelow(rows, id, {child});
      BelowByParents(rows, s.tasks, id, {child});
      BelowTransitive(s.tasks, id, {child}, {id});
    }
    CascadeExact(rows, {child}, id);
    CascadeExact(rows, {child}, child);
  }

  // ------------------------------------------------------- everybody else

  /** The tasks an operation is about: the one it names or brings in, and the child a timed-out wait was for. */
  predicate About(s: State, op: Op, y: TaskId) {
    match op
    case By(l, w) => y == l.task || (w.Spawn? && y == w.id)
    case ExpireWait(id) => y == id || (id in s.tasks && s.tasks[id].waitsOn == Some(ResultOf(y)))
    case _ => y == op.id
  }

  /** What becomes of a task when these have finished: cancelled with its parent, woken by its child, or nothing. */
  function Touched(t: Task, finished: set<TaskId>): Task {
    if t.Unfinished() && t.ChildOf(finished) then t.Moved(Cancelled)
    else if t.phase.Waiting? && t.waitsOn.Some? && t.waitsOn.value.ResultOf? && t.waitsOn.value.child in finished
    then t.Moved(Pending)
    else t
  }

  /** The row is written by nobody and no row is revived. */
  ghost predicate Leaves(tasks: Tasks, rows: Tasks, y: TaskId) {
    && SameParents(tasks, rows) && y in tasks && rows[y] == tasks[y]
    && forall x | x in rows && rows[x].Unfinished() :: tasks[x].Unfinished()
  }

  /** A row hangs under what ended exactly if its parent is among what has finished once the cascade is through. */
  lemma UnderByParent(tasks: Tasks, rows: Tasks, y: TaskId)
    requires Leaves(tasks, rows, y)
    ensures var ended := NewlyTerminal(tasks, rows);
      Under(rows, y, ended)
      <==> tasks[y].Unfinished() && tasks[y].ChildOf(NewlyTerminal(tasks, Cascade(rows, ended)))
  {
    var ended := NewlyTerminal(tasks, rows);
    var finished := NewlyTerminal(tasks, Cascade(rows, ended));
    if Under(rows, y, ended) {
      var path :| |path| >= 2 && path[0] == y && path[|path| - 1] in ended && LiveChain(rows, path);
      var p := path[1];
      assert rows[y].parent == Some(p) && rows[y].Unfinished();
      if |path| > 2 {
        assert LiveChain(rows, path[1..]);
        UnderPath(rows, path[1..], ended);
        assert path[1] in rows;
      }
      CascadeExact(rows, ended, p);
      if Under(rows, p, ended) {
        UnderUnfinished(rows, p, ended);
      }
      assert p in finished;
    }
    if tasks[y].Unfinished() && tasks[y].ChildOf(finished) {
      var p := tasks[y].parent.value;
      CascadeExact(rows, ended, p);
      if p in ended {
        UnderPath(rows, [y, p], ended);
      } else {
        var path :| |path| >= 2 && path[0] == p && path[|path| - 1] in ended && LiveChain(rows, path);
        var longer := [y] + path;
        forall i | 0 <= i < |longer| - 1
          ensures longer[i] in rows && rows[longer[i]].Unfinished() && rows[longer[i]].parent == Some(longer[i + 1])
        {
          if i > 0 {
            assert path[i - 1] in rows && longer[i] == path[i - 1] && longer[i + 1] == path[i];
          }
        }
        UnderPath(rows, longer, ended);
      }
    }
  }

  lemma UnderUnfinished(rows: Tasks, p: TaskId, ended: set<TaskId>)
    requires Under(rows, p, ended)
    ensures p in rows && rows[p].Unfinished()
  {
    var path :| |path| >= 2 && path[0] == p && path[|path| - 1] in ended && LiveChain(rows, path);
    assert path[0] in rows && rows[path[0]].Unfinished();
  }

  lemma UpdateOthers(s: State, rows: Tasks, y: TaskId)
    requires Leaves(s.tasks, rows, y)
    ensures y in Update(s, rows).tasks
    ensures Update(s, rows).tasks[y] == Touched(s.tasks[y], NewlyTerminal(s.tasks, Update(s, rows).tasks))
  {
    var ended := NewlyTerminal(s.tasks, rows);
    var cascaded := Cascade(rows, ended);
    var finished := NewlyTerminal(s.tasks, cascaded);
    UnderByParent(s.tasks, rows, y);
    CascadeExact(rows, ended, y);
    CascadeKeeps(rows, ended);
    WakingEndsNone(s.tasks, cascaded, finished);
    hide Cascade, Under, NewlyTerminal, Leaves;
  }

  lemma WakingEndsNone(before: Tasks, tasks: Tasks, finished: set<TaskId>)
    requires before.Keys == tasks.Keys
    ensures NewlyTerminal(before, WakeParents(tasks, finished)) == NewlyTerminal(before, tasks)
  {
    forall x | x in tasks
      ensures x in WakeParents(tasks, finished) && (WakeParents(tasks, finished)[x].Unfinished() <==> tasks[x].Unfinished())
    {
      WakingRow(tasks, finished, x);
    }
    hide WakeParents;
  }

  lemma WritesOnlyAbout(s: State, op: Op, y: TaskId)
    requires Core(s) && y in s.tasks && !About(s, op, y)
    ensures EffectOf(s, op).Put? ==> y !in EffectOf(s, op).rows
    ensures EffectOf(s, op).Add? ==> EffectOf(s, op).id != y
    ensures EffectOf(s, op).Keep? ==> EffectOf(s, op).state.tasks == s.tasks
  {
  }

  /**
    Every other task, whatever the operation: it is cancelled if and only if it was unfinished and its parent has
    finished by this operation, otherwise woken if and only if the child it waits for has, and otherwise untouched.
  */
  lemma OthersExact(s: State, op: Op, y: TaskId)
    requires Core(s) && Legal(s, op) && y in s.tasks && !About(s, op, y)
    ensures var after := Apply(s, op).0.tasks;
      y in after && after[y] == Touched(s.tasks[y], NewlyTerminal(s.tasks, after))
  {
    var e := EffectOf(s, op);
    WritesOnlyAbout(s, op, y);
    if e.Put? {
      PutShapeOf(s, op);
      PutLeaves(s, e, y);
      hide EffectOf, Core, Legal, Update;
      UpdateOthers(e.state, s.tasks + e.rows, y);
    } else {
      NothingEnded(s, op);
    }
  }

  lemma PutLeaves(s: State, e: Effect, y: TaskId)
    requires PutShape(s, e) && y in s.tasks && y !in e.rows
    ensures Leaves(s.tasks, s.tasks + e.rows, y)
  {
  }

  lemma NothingEnded(s: State, op: Op)
    requires Legal(s, op) && !EffectOf(s, op).Put?
    ensures NewlyTerminal(s.tasks, Apply(s, op).0.tasks) == {}
  {
  }

  // ---------------------------------------------------------------- charges

  /** A charged task is tried again if a retry was asked for and, this charge counted, its budget is not used up. */
  ghost predicate TriedAgain(s: State, ops: seq<Op>, x: TaskId, retry: bool) {
    retry && ChargesOf(s, ops, x) + 1 < Budget(s, ops, x)
  }

  lemma FailStep(s: State, l: Lease, retry: bool)
    requires Owns(s, l)
    ensures var t, (s', reply) := s.tasks[l.task], Apply(s, By(l, Fail(retry)));
      && reply == Moved(if retry && t.failures + 1 < t.maxAttempts then Pending else Failed)
      && l.task in s'.tasks && s'.tasks[l.task].phase == reply.phase
  {
    Written(s, l.task, Charged(s.tasks[l.task], retry));
    hide Update;
  }

  lemma RecoverStep(s: State, x: TaskId)
    requires x in s.tasks && s.tasks[x].phase.Running?
    ensures var t, (s', reply) := s.tasks[x], Apply(s, Recover(x));
      && reply == Moved(if t.failures + 1 < t.maxAttempts then Pending else Failed)
      && x in s'.tasks && s'.tasks[x].phase == reply.phase
  {
    Written(s, x, Charged(s.tasks[x], true));
    hide Update;
  }

  /**
    Whatever was suspended, released, parked and retried before: an accepted failure makes the task pending if and
    only if a retry was asked for and the failures and recoveries so far, with this one, are fewer than its budget.
  */
  lemma FailExact(limits: map<QueueName, nat>, ops: seq<Op>, l: Lease, retry: bool)
    requires LegalRun(Init(limits), ops) && Owns(Run(Init(limits), ops), l)
    ensures var (s', reply) := Apply(Run(Init(limits), ops), By(l, Fail(retry)));
      && reply == Moved(if TriedAgain(Init(limits), ops, l.task, retry) then Pending else Failed)
      && l.task in s'.tasks && s'.tasks[l.task].phase == reply.phase
  {
    Ledger(limits, ops, l.task);
    BudgetKept(limits, ops, l.task);
    hide Apply;
    FailStep(Run(Init(limits), ops), l, retry);
  }

  /** And recovering an expired lease is a failure with a retry; what does not run is not recovered. */
  lemma RecoverExact(limits: map<QueueName, nat>, ops: seq<Op>, x: TaskId)
    requires LegalRun(Init(limits), ops)
    ensures var s, (s', reply) := Run(Init(limits), ops), Apply(Run(Init(limits), ops), Recover(x));
      if x in s.tasks && s.tasks[x].phase.Running?
      then
        && reply == Moved(if TriedAgain(Init(limits), ops, x, true) then Pending else Failed)
        && x in s'.tasks && s'.tasks[x].phase == reply.phase
      else reply == Rejected && s' == s
  {
    var s := Run(Init(limits), ops);
    if x in s.tasks && s.tasks[x].phase.Running? {
      Ledger(limits, ops, x);
      BudgetKept(limits, ops, x);
      hide Apply;
      RecoverStep(s, x);
    }
  }

  // ------------------------------------------------------- claims and endings

  lemma NotClaimed(s: State, x: TaskId, token: Token)
    requires x in s.tasks ==> !s.tasks[x].phase.Pending?
    ensures Apply(s, Claim(x, token)) == (s, Rejected)
  {
  }

  /** A claim is granted exactly to a pending task; it is numbered one more than those before, and its lease owns the task. */
  lemma ClaimExact(limits: map<QueueName, nat>, ops: seq<Op>, x: TaskId, token: Token)
    requires LegalRun(Init(limits), ops)
    ensures var s, (s', reply) := Run(Init(limits), ops), Apply(Run(Init(limits), ops), Claim(x, token));
      if x in s.tasks && s.tasks[x].phase.Pending?
      then
        && reply == Granted(ClaimsOf(Init(limits), ops, x) + 1)
        && Owns(s', Lease(x, ClaimsOf(Init(limits), ops, x) + 1, token))
      else reply == Rejected && s' == s
  {
    hide Apply, Owns, Run, ClaimsOf;
    var s := Run(Init(limits), ops);
    if x in s.tasks && s.tasks[x].phase.Pending? {
      NeverStranded(limits, ops, x, token);
      Ledger(limits, ops, x);
      GrantOwns(s, Lease(x, ClaimsOf(Init(limits), ops, x) + 1, token));
    } else {
      NotClaimed(s, x, token);
    }
  }

  /** Renewing changes nothing; completing ends the task; releasing and suspending make it pending again. */
  lemma WriteExact(s: State, l: Lease, w: Write)
    requires Owns(s, l) && (w.Renew? || w.Complete? || w.Release? || w.Suspend?)
    ensures var (s', reply) := Apply(s, By(l, w));
      && reply == Moved(if w.Renew? then Running else if w.Complete? then Succeeded else Pending)
      && l.task in s'.tasks && s'.tasks[l.task].phase == reply.phase
      && (w.Renew? ==> s' == s)
  {
    Written(s, l.task, s.tasks[l.task].Moved(Succeeded));
    Written(s, l.task, s.tasks[l.task].Moved(Pending));
    hide Update;
  }

  /** Cancelling ends exactly what is unfinished. */
  lemma CancelExact(s: State, x: TaskId)
    ensures var (s', reply) := Apply(s, Cancel(x));
      if x in s.tasks && s.tasks[x].Unfinished()
      then reply == Moved(Cancelled) && x in s'.tasks && s'.tasks[x].phase == Cancelled
      else reply == Rejected && s' == s
  {
    if x in s.tasks {
      Written(s, x, s.tasks[x].Moved(Cancelled));
    }
    hide Update;
  }

  // ------------------------------------------------------------------ waits

  lemma WaitSignalStep(s: State, l: Lease, name: SignalName)
    requires Owns(s, l)
    ensures var (s', reply) := Apply(s, By(l, WaitSignal(name)));
      if (l.task, name) in s.signals then reply == Ready && s' == s
      else
        && reply == Moved(Waiting) && l.task in s'.tasks
        && s'.tasks[l.task].phase == Waiting && s'.tasks[l.task].waitsOn == Some(SignalOf(name))
  {
    Written(s, l.task, s.tasks[l.task].Moved(Waiting).(waitsOn := Some(SignalOf(name))));
    hide Update;
  }

  /** An accepted wait for a signal is ready if and only if it was sent earlier in the run; otherwise the task is parked on it. */
  lemma WaitSignalExact(limits: map<QueueName, nat>, ops: seq<Op>, l: Lease, name: SignalName)
    requires Owns(Run(Init(limits), ops), l)
    ensures var s, (s', reply) := Run(Init(limits), ops), Apply(Run(Init(limits), ops), By(l, WaitSignal(name)));
      if Emitted(Init(limits), ops, l.task, name) then reply == Ready && s' == s
      else
        && reply == Moved(Waiting) && l.task in s'.tasks
        && s'.tasks[l.task].phase == Waiting && s'.tasks[l.task].waitsOn == Some(SignalOf(name))
  {
    SignalsAreEmitted(limits, ops, l.task, name);
    hide Apply, Emitted, Owns;
    WaitSignalStep(Run(Init(limits), ops), l, name);
  }

  /** Sending a signal makes a task that waits for it pending, and touches no task otherwise. */
  lemma EmitExact(s: State, x: TaskId, name: SignalName)
    ensures var (s', reply) := Apply(s, EmitSignal(x, name));
      if x !in s.tasks then reply == Rejected && s' == s
      else if s.tasks[x].phase.Waiting? && s.tasks[x].waitsOn == Some(SignalOf(name))
      then reply == Moved(Pending) && x in s'.tasks && s'.tasks[x].phase == Pending
      else reply == Ready && s'.tasks == s.tasks
  {
    if x in s.tasks {
      Written(s.(signals := s.signals + {(x, name)}), x, s.tasks[x].Moved(Pending));
    }
    hide Update;
  }

  lemma WaitResultStep(s: State, l: Lease, child: TaskId)
    requires Owns(s, l)
    ensures var (s', reply) := Apply(s, By(l, WaitResult(child)));
      if child !in s.tasks || s.tasks[child].parent != Some(l.task) then reply == Rejected && s' == s
      else if !s.tasks[child].Unfinished() then reply == Ready && s' == s
      else
        && reply == Moved(Waiting) && l.task in s'.tasks
        && s'.tasks[l.task].phase == Waiting && s'.tasks[l.task].waitsOn == Some(ResultOf(child))
  {
    Written(s, l.task, s.tasks[l.task].Moved(Waiting).(waitsOn := Some(ResultOf(child))));
    hide Update;
  }

  /** A wait for a result is let in only for a task the waiter itself spawned, and is ready if and only if that has finished. */
  lemma WaitResultExact(limits: map<QueueName, nat>, ops: seq<Op>, l: Lease, child: TaskId)
    requires LegalRun(Init(limits), ops) && Owns(Run(Init(limits), ops), l)
    ensures var s, (s', reply) := Run(Init(limits), ops), Apply(Run(Init(limits), ops), By(l, WaitResult(child)));
      var born := BornBy(Init(limits), ops, child);
      if born.None? || ParentIn(born.value) != Some(l.task) then reply == Rejected && s' == s
      else
        && child in s.tasks
        && if !s.tasks[child].Unfinished() then reply == Ready && s' == s
           else
             && reply == Moved(Waiting) && l.task in s'.tasks
             && s'.tasks[l.task].phase == Waiting && s'.tasks[l.task].waitsOn == Some(ResultOf(child))
  {
    Birth(limits, ops, child);
    hide Apply, Owns;
    WaitResultStep(Run(Init(limits), ops), l, child);
  }

  lemma ExpireStep(s: State, x: TaskId)
    requires Core(s) && x in s.tasks && !Below(s.tasks, x, {x})
    ensures var t, (s', reply) := s.tasks[x], Apply(s, ExpireWait(x));
      if !t.phase.Waiting? then reply == Rejected && s' == s
      else
        && reply == Moved(Pending) && x in s'.tasks && s'.tasks[x].phase == Pending
        && (t.waitsOn.Some? && t.waitsOn.value.ResultOf? ==>
              t.waitsOn.value.child in s'.tasks && s'.tasks[t.waitsOn.value.child].phase == Cancelled)
  {
    var t := s.tasks[x];
    assert RowInv(s, x);
    if t.phase.Waiting? {
      if t.waitsOn.value.ResultOf? {
        var child := t.waitsOn.value.child;
        assert RowInv(s, child);
        BothWritten(s, x, child, t.Moved(Pending), s.tasks[child].Moved(Cancelled));
      } else {
        Written(s, x, t.Moved(Pending));
      }
    }
    hide Update, Core;
  }

  /** A wait that times out makes its task pending; if it was for a child's result, the child is cancelled. */
  lemma ExpireExact(limits: map<QueueName, nat>, ops: seq<Op>, x: TaskId)
    requires LegalRun(Init(limits), ops)
    ensures var s, (s', reply) := Run(Init(limits), ops), Apply(Run(Init(limits), ops), ExpireWait(x));
      if x !in s.tasks || !s.tasks[x].phase.Waiting? then reply == Rejected && s' == s
      else
        var source := s.tasks[x].waitsOn;
        && reply == Moved(Pending) && x in s'.tasks && s'.tasks[x].phase == Pending
        && (source.Some? && source.value.ResultOf? ==>
              source.value.child in s'.tasks && s'.tasks[source.value.child].phase == Cancelled)
  {
    var s := Run(Init(limits), ops);
    if x in s.tasks {
      RunCore(limits, ops);
      NoCycles(limits, ops, x);
      hide Apply, Core, Below;
      ExpireStep(s, x);
    }
  }

  // -------------------------------------------------------------- admission

  /** The queue has a limit and as many unfinished tasks. */
  ghost predicate IsFull(limits: map<QueueName, nat>, s: State, q: QueueName) {
    q in limits && |Outstanding(s.tasks, q)| == limits[q]
  }

  lemma RoomIffNotFull(limits: map<QueueName, nat>, ops: seq<Op>, q: QueueName)
    requires LegalRun(Init(limits), ops)
    ensures HasRoom(Run(Init(limits), ops), q) <==> !IsFull(limits, Run(Init(limits), ops), q)
  {
    RunCore(limits, ops);
    LimitsFixed(Init(limits), ops, q);
  }

  lemma AdmitStep(s: State, op: Op, x: TaskId)
    requires AsksFor(op, x) && (op.By? ==> Owns(s, op.lease))
    ensures var (s', reply) := Apply(s, op);
      if !HasRoom(s, QueueIn(op, x)) then reply == Full && s' == s
      else
        && reply == Moved(Pending)
        && s'.tasks == s.tasks[x := Task(Pending, 0, 0, BudgetIn(op, x), None, ParentIn(op), QueueIn(op, x), None)]
  {
  }

  /** A new task is let in, with nothing claimed or charged, unless its queue is full; one that is not leaves no trace. */
  lemma AdmitExact(limits: map<QueueName, nat>, ops: seq<Op>, op: Op, x: TaskId)
    requires LegalRun(Init(limits), ops) && AsksFor(op, x) && (op.By? ==> Owns(Run(Init(limits), ops), op.lease))
    ensures var s, (s', reply) := Run(Init(limits), ops), Apply(Run(Init(limits), ops), op);
      if IsFull(limits, s, QueueIn(op, x)) then reply == Full && s' == s
      else
        && reply == Moved(Pending)
        && s'.tasks == s.tasks[x := Task(Pending, 0, 0, BudgetIn(op, x), None, ParentIn(op), QueueIn(op, x), None)]
  {
    hide Apply, HasRoom, IsFull, Run, LegalRun;
    RoomIffNotFull(limits, ops, QueueIn(op, x));
    AdmitStep(Run(Init(limits), ops), op, x);
  }

  lemma ReviveStep(s: State, x: TaskId)
    requires x in s.tasks
    ensures var t, (s', reply) := s.tasks[x], Apply(s, AdminRetry(x));
      if t.Unfinished() || t.phase.Succeeded? then reply == Rejected && s' == s
      else if !HasRoom(s, t.queue) then reply == Full && s' == s
      else
        && reply == Moved(Pending)
        && s'.tasks == s.tasks[x := Task(Pending, t.attempt, t.failures, Max(t.maxAttempts, t.failures + 1),
                                         None, t.parent, t.queue, None)]
  {
  }

  /**
    An administrator's retry takes a failed or cancelled task back in, if its queue has room, with a budget that
    allows one failure more; its claims and failures stay counted.
  */
  lemma RetryExact(limits: map<QueueName, nat>, ops: seq<Op>, x: TaskId)
    requires LegalRun(Init(limits), ops)
    ensures var s, (s', reply) := Run(Init(limits), ops), Apply(Run(Init(limits), ops), AdminRetry(x));
      if x !in s.tasks || s.tasks[x].Unfinished() || s.tasks[x].phase.Succeeded? then reply == Rejected && s' == s
      else if IsFull(limits, s, s.tasks[x].queue) then reply == Full && s' == s
      else
        && reply == Moved(Pending)
        && s'.tasks == s.tasks[x := Task(Pending, ClaimsOf(Init(limits), ops, x), ChargesOf(Init(limits), ops, x),
                                         Max(Budget(Init(limits), ops, x), ChargesOf(Init(limits), ops, x) + 1),
                                         None, s.tasks[x].parent, s.tasks[x].queue, None)]
  {
    hide Apply, Run, LegalRun, ClaimsOf, ChargesOf, Budget, IsFull, HasRoom;
    var s := Run(Init(limits), ops);
    if x in s.tasks {
      RoomIffNotFull(limits, ops, s.tasks[x].queue);
      Ledger(limits, ops, x);
      BudgetKept(limits, ops, x);
      ReviveStep(s, x);
    } else {
      NothingToRetry(s, x);
    }
  }

  lemma NothingToRetry(s: State, x: TaskId)
    requires x !in s.tasks
    ensures Apply(s, AdminRetry(x)) == (s, Rejected)
  {
  }
}
