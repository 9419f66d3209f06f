/**
  The reference machines the repository checks its database against, and the proof that the
  kernel simulates each of them: the lease machine with unknown outcomes, the per-task
  lifecycle model, and the bounded admission counter.

  The two task machines decide retries by counting attempts. The kernel counts failures.
  `CountersAgree` is where the two meet.
*/
module References {
  import opened Common
  import opened Kernel
  import opened KernelInvariant
  import opened KernelRuns

  // ------------------------------------------------------ the lease machine

  datatype LeaseState = LeaseState(phase: Phase, attempt: nat, token: Option<Token>)

  datatype LeaseInput = InClaim | InComplete | InFail | InRenew | InRecover

  datatype LeaseOutput =
    | Unknown
    | Known(ok: bool, attempt: nat, token: Option<Token>, phase: Phase)

  predicate OwnsLease(s: LeaseState, attempt: nat, token: Token) {
    s.phase.Running? && s.attempt == attempt && s.token == Some(token)
  }

  /** Where a successful write leaves the machine. */
  function Applied(maxAttempts: nat, s: LeaseState, op: LeaseInput): LeaseState {
    match op
    case InComplete => LeaseState(Succeeded, s.attempt, None)
    case InFail => LeaseState(if s.attempt < maxAttempts then Pending else Failed, s.attempt, None)
    case InRecover => LeaseState(if s.attempt < maxAttempts then Pending else Failed, s.attempt, None)
    case InRenew => s
    case InClaim => s
  }

  /** The states that explain this output; none means the output is wrong. */
  function LeaseSteps(maxAttempts: nat, s: LeaseState, op: LeaseInput, attempt: nat, token: Token, out: LeaseOutput)
    : set<LeaseState>
  {
    match out
    case Unknown =>
      if op.InClaim? then {}
      else if op.InRecover? then (if s.phase.Running? then {s, Applied(maxAttempts, s, op)} else {s})
      else if OwnsLease(s, attempt, token) then {s, Applied(maxAttempts, s, op)} else {s}
    case Known(ok, granted, minted, phase) =>
      match op
      case InClaim =>
        if s.phase.Pending? && s.attempt < maxAttempts && granted == s.attempt + 1
        then {LeaseState(Running, granted, minted)} else {}
      case InComplete =>
        if ok then (if OwnsLease(s, attempt, token) then {Applied(maxAttempts, s, op)} else {})
        else if OwnsLease(s, attempt, token) then {} else {s}
      case InFail =>
        if ok then
          (if OwnsLease(s, attempt, token) && phase == Applied(maxAttempts, s, op).phase
           then {Applied(maxAttempts, s, op)} else {})
        else if OwnsLease(s, attempt, token) then {} else {s}
      case InRenew => if ok == OwnsLease(s, attempt, token) then {s} else {}
      case InRecover =>
        if ok then (if s.phase.Running? then {Applied(maxAttempts, s, op)} else {}) else {s}
  }

  function Abs(t: Task): LeaseState {
    LeaseState(t.phase, t.attempt, t.token)
  }

  /** The operations on task `x` that the lease machine knows. */
  function InputOf(op: Op, x: TaskId): Option<LeaseInput> {
    match op
    case Claim(id, _) => if id == x then Some(InClaim) else None
    case Recover(id) => if id == x then Some(InRecover) else None
    case By(l, Complete) => if l.task == x then Some(InComplete) else None
    case By(l, Fail(true)) => if l.task == x then Some(InFail) else None
    case By(l, Renew) => if l.task == x then Some(InRenew) else None
    case _ => None
  }

  function OutputOf(op: Op, reply: Reply): LeaseOutput {
    match reply
    case Granted(attempt) => Known(true, attempt, if op.Claim? then Some(op.token) else None, Running)
    case Moved(phase) => Known(true, 0, None, phase)
    case _ => Known(false, 0, None, Pending)
  }

  function AttemptOf(op: Op): nat {
    if op.By? then op.lease.attempt else 0
  }

  function TokenOf(op: Op): Token {
    if op.By? then op.lease.token else 0
  }

  // ----------------------------------------------------- the lifecycle model

  datatype ModelTask = ModelTask(phase: Phase, attempt: nat, hasStale: bool)

  datatype Transition = MClaim | MComplete(live: bool) | MFail(live: bool, retry: bool) | MRecover | MCancel

  predicate ModelClaimable(maxAttempts: nat, t: ModelTask) {
    t.phase.Pending? && t.attempt < maxAttempts
  }

  predicate Precondition(t: ModelTask, tr: Transition) {
    match tr
    case MClaim => true
    case MComplete(live) => t.phase.Running? && (live || t.hasStale)
    case MFail(live, _) => t.phase.Running? && (live || t.hasStale)
    case MRecover => t.phase.Running?
    case MCancel => t.phase.Pending?
  }

  function ModelApply(maxAttempts: nat, t: ModelTask, tr: Transition): ModelTask {
    match tr
    case MClaim =>
      if ModelClaimable(maxAttempts, t) then ModelTask(Running, t.attempt + 1, true) else t
    case MComplete(live) => if live then t.(phase := Succeeded) else t
    case MFail(live, retry) =>
      if live then t.(phase := if retry && t.attempt < maxAttempts then Pending else Failed) else t
    case MRecover => t.(phase := if t.attempt < maxAttempts then Pending else Failed)
    case MCancel => t.(phase := Cancelled)
  }

  /** The transition the lifecycle model makes for this operation on `x`. */
  function TransitionOf(s: State, op: Op, x: TaskId): Option<Transition> {
    match op
    case Claim(id, _) => if id == x then Some(MClaim) else None
    case Recover(id) => if id == x then Some(MRecover) else None
    case Cancel(id) => if id == x then Some(MCancel) else None
    case By(l, Complete) => if l.task == x then Some(MComplete(Owns(s, l))) else None
    case By(l, Fail(retry)) => if l.task == x then Some(MFail(Owns(s, l), retry)) else None
    case _ => None
  }

  // ------------------------------------------------------- where they agree

  /** Nothing in the run gives `x` a claim without a failure to go with it. */
  ghost predicate EveryClaimCounts(ops: seq<Op>, x: TaskId) {
    forall i | 0 <= i < |ops| :: ClaimCounts(ops[i], x)
  }

  predicate ClaimCounts(op: Op, x: TaskId) {
    && op != AdminRetry(x)
    && (op.By? && op.lease.task == x ==>
          !op.write.Suspend? && !op.write.Release? && !op.write.WaitSignal? && !op.write.WaitResult?)
  }

  /** A pending task has failed once per claim; a running one is one claim ahead. */
  ghost predicate CountersInv(t: Task) {
    && (t.phase.Pending? ==> t.failures == t.attempt)
    && (t.phase.Running? ==> t.failures + 1 == t.attempt)
    && !t.phase.Waiting?
  }

  lemma NamedCounters(s: State, op: Op, x: TaskId)
    requires Core(s) && Legal(s, op) && x in s.tasks && CountersInv(s.tasks[x]) && ClaimCounts(op, x)
    requires EffectOf(s, op).Put? && x in EffectOf(s, op).rows
    ensures CountersInv(EffectOf(s, op).rows[x])
    ensures EffectOf(s, op).rows[x].maxAttempts == s.tasks[x].maxAttempts
  {
    assert RowInv(s, x);
  }

  lemma CountersStep(s: State, op: Op, x: TaskId)
    requires Core(s) && Legal(s, op) && x in s.tasks && CountersInv(s.tasks[x]) && ClaimCounts(op, x)
    ensures x in Apply(s, op).0.tasks
    ensures CountersInv(Apply(s, op).0.tasks[x]) && Apply(s, op).0.tasks[x].maxAttempts == s.tasks[x].maxAttempts
  {
    var e := EffectOf(s, op);
    if e.Put? {
      PutShapeOf(s, op);
      PutBystanders(s, e);
      if x in e.rows {
        NamedCounters(s, op, x);
      }
    }
  }

  /**
    On any run without suspension, release, waiting or administrator retry of `x`, counting attempts and
    counting failures take the same decisions about `x`.
  */
  lemma {:induction false} CountersAgree(limits: map<QueueName, nat>, ops: seq<Op>, x: TaskId)
    requires LegalRun(Init(limits), ops) && EveryClaimCounts(ops, x) && x in Run(Init(limits), ops).tasks
    ensures var t := Run(Init(limits), ops).tasks[x];
      && CountersInv(t)
      && (t.phase.Pending? ==> (t.failures < t.maxAttempts <==> t.attempt < t.maxAttempts))
      && (t.phase.Running? ==> (t.failures + 1 < t.maxAttempts <==> t.attempt < t.maxAttempts))
  {
    if ops != [] {
      var front, op := ops[..|ops| - 1], ops[|ops| - 1];
      var s := Run(Init(limits), front);
      RunPrefix(Init(limits), ops);
      RunCore(limits, front);
      if x in s.tasks {
        CountersAgree(limits, front, x);
        CountersStep(s, op, x);
      } else {
        StepNewRow(s, op, x);
      }
    }
  }

  /** An UPDATE of one row leaves in it what it wrote: no row hangs under its own ending. */
  lemma OwnRow(s: State, x: TaskId, row: Task)
    requires x in s.tasks && !row.phase.Waiting?
    ensures x in Update(s, s.tasks + map[x := row]).tasks && Update(s, s.tasks + map[x := row]).tasks[x] == row
  {
    var rows := s.tasks + map[x := row];
    var ended := NewlyTerminal(s.tasks, rows);
    assert forall e | e in ended :: e == x;
    CascadeExact(rows, ended, x);
  }

  /** The operations both machines know write one row, the task's own. */
  lemma OwnStep(s: State, op: Op, x: TaskId)
    requires Core(s) && Legal(s, op) && x in s.tasks && CountersInv(s.tasks[x]) && ClaimCounts(op, x)
    requires InputOf(op, x).Some? || TransitionOf(s, op, x).Some?
    ensures x in Apply(s, op).0.tasks && Apply(s, op).0.tasks[x] == After(s, op, x)
  {
    var e := EffectOf(s, op);
    if e.Put? {
      OwnEffect(s, op, x);
      OwnRow(e.state, x, e.rows[x]);
    }
  }

  lemma OwnEffect(s: State, op: Op, x: TaskId)
    requires x in s.tasks && EffectOf(s, op).Put? && ClaimCounts(op, x)
    requires InputOf(op, x).Some? || TransitionOf(s, op, x).Some?
    ensures var e := EffectOf(s, op);
      e.state.tasks == s.tasks && x in e.rows && e.rows == map[x := e.rows[x]] && !e.rows[x].phase.Waiting?
  {
  }

  /** The row of `x` as the operation itself leaves it. */
  function After(s: State, op: Op, x: TaskId): Task
    requires x in s.tasks
  {
    var e := EffectOf(s, op);
    if e.Put? && x in e.rows then e.rows[x] else s.tasks[x]
  }

  /** Cancelled, by itself or with an ancestor, or failed for good: endings the lease machine does not have. */
  ghost predicate EndedOutside(t: Task, after: Task) {
    t.Unfinished() && after.attempt == t.attempt && (after.phase.Cancelled? || after.phase.Failed?)
  }

  ghost predicate LeaseExplains(s: State, op: Op, x: TaskId, after: Task)
    requires x in s.tasks
  {
    var t, reply := s.tasks[x], Apply(s, op).1;
    match InputOf(op, x)
    case None => Abs(after) == Abs(t) || EndedOutside(t, after)
    case Some(input) =>
      if input.InClaim? then
        if reply == Rejected then after == t
        else Abs(after) in LeaseSteps(t.maxAttempts, Abs(t), input, 0, 0, OutputOf(op, reply))
      else
        && Abs(after) in LeaseSteps(t.maxAttempts, Abs(t), input, AttemptOf(op), TokenOf(op), OutputOf(op, reply))
        && Abs(after) in LeaseSteps(t.maxAttempts, Abs(t), input, AttemptOf(op), TokenOf(op), Unknown)
        && Abs(t) in LeaseSteps(t.maxAttempts, Abs(t), input, AttemptOf(op), TokenOf(op), Unknown)
  }

  lemma OtherRow(s: State, op: Op, x: TaskId)
    requires x in s.tasks && InputOf(op, x).None? && ClaimCounts(op, x) && CountersInv(s.tasks[x])
    requires EffectOf(s, op).Put? && x in EffectOf(s, op).rows
    ensures var t, row := s.tasks[x], EffectOf(s, op).rows[x];
      Abs(row) == Abs(t) || (t.Unfinished() && row.attempt == t.attempt && (row.phase.Cancelled? || row.phase.Failed?))
  {
  }

  /** Any other operation leaves `x` as it is, or ends it. */
  lemma OthersLeaveOrEnd(s: State, op: Op, x: TaskId)
    requires Core(s) && Legal(s, op) && x in s.tasks && CountersInv(s.tasks[x]) && ClaimCounts(op, x) && InputOf(op, x).None?
    ensures x in Apply(s, op).0.tasks
    ensures Abs(Apply(s, op).0.tasks[x]) == Abs(s.tasks[x]) || EndedOutside(s.tasks[x], Apply(s, op).0.tasks[x])
  {
    var e := EffectOf(s, op);
    if e.Put? {
      PutShapeOf(s, op);
      PutBystanders(s, e);
      if x in e.rows {
        OtherRow(s, op, x);
      }
    } else if e.Add? {
      assert e.id != x by { AddsOther(s, op, x); }
    }
  }

  lemma AddsOther(s: State, op: Op, x: TaskId)
    requires Legal(s, op) && x in s.tasks && ClaimCounts(op, x) && EffectOf(s, op).Add?
    ensures EffectOf(s, op).id != x
  {
  }

  lemma CompleteExplained(s: State, l: Lease)
    requires l.task in s.tasks
    requires LeaseInv(s, s.tasks[l.task]) && BudgetInv(s.tasks[l.task]) && CountersInv(s.tasks[l.task])
    ensures LeaseExplains(s, By(l, Complete), l.task, After(s, By(l, Complete), l.task))
  {
  }

  lemma FailExplained(s: State, l: Lease)
    requires l.task in s.tasks
    requires LeaseInv(s, s.tasks[l.task]) && BudgetInv(s.tasks[l.task]) && CountersInv(s.tasks[l.task])
    ensures LeaseExplains(s, By(l, Fail(true)), l.task, After(s, By(l, Fail(true)), l.task))
  {
  }

  lemma RenewExplained(s: State, l: Lease)
    requires l.task in s.tasks
    requires LeaseInv(s, s.tasks[l.task]) && BudgetInv(s.tasks[l.task]) && CountersInv(s.tasks[l.task])
    ensures LeaseExplains(s, By(l, Renew), l.task, After(s, By(l, Renew), l.task))
  {
  }

  lemma WritesExplained(s: State, op: Op, x: TaskId)
    requires x in s.tasks && op.By? && InputOf(op, x).Some?
    requires LeaseInv(s, s.tasks[x]) && BudgetInv(s.tasks[x]) && CountersInv(s.tasks[x])
    ensures LeaseExplains(s, op, x, After(s, op, x))
  {
    hide LeaseExplains, After, LeaseInv, BudgetInv, CountersInv;
    match op.write
    case Complete => CompleteExplained(s, op.lease);
    case Fail(_) => FailExplained(s, op.lease);
    case Renew => RenewExplained(s, op.lease);
    case _ =>
  }

  lemma LeaseExplained(s: State, op: Op, x: TaskId)
    requires x in s.tasks && InputOf(op, x).Some?
    requires LeaseInv(s, s.tasks[x]) && BudgetInv(s.tasks[x]) && CountersInv(s.tasks[x])
    ensures LeaseExplains(s, op, x, After(s, op, x))
  {
    if op.By? {
      WritesExplained(s, op, x);
    }
  }

  /**
    The kernel simulates the lease machine. Whatever else the run does, each operation on a task that the machine
    knows has an answer the machine explains, and if the answer was lost the machine allows for both what
    happened and nothing having happened. Any other operation leaves the task alone or ends it unsuccessfully.
  */
  lemma SimulatesLeaseMachine(limits: map<QueueName, nat>, ops: seq<Op>, op: Op, x: TaskId)
    requires LegalRun(Init(limits), ops) && EveryClaimCounts(ops, x) && ClaimCounts(op, x)
    requires Legal(Run(Init(limits), ops), op) && x in Run(Init(limits), ops).tasks
    ensures x in Apply(Run(Init(limits), ops), op).0.tasks
    ensures LeaseExplains(Run(Init(limits), ops), op, x, Apply(Run(Init(limits), ops), op).0.tasks[x])
  {
    var s := Run(Init(limits), ops);
    RunCore(limits, ops);
    CountersAgree(limits, ops, x);
    assert RowInv(s, x);
    if InputOf(op, x).Some? {
      OwnStep(s, op, x);
      LeaseExplained(s, op, x);
    } else {
      OthersLeaveOrEnd(s, op, x);
    }
  }

  /** A lease to replay exists once the task has been claimed. */
  function ModelOf(t: Task): ModelTask {
    ModelTask(t.phase, t.attempt, t.attempt > 0)
  }

  lemma ModelExplained(s: State, op: Op, x: TaskId)
    requires x in s.tasks && LeaseInv(s, s.tasks[x]) && BudgetInv(s.tasks[x]) && CountersInv(s.tasks[x])
    requires TransitionOf(s, op, x).Some? && Precondition(ModelOf(s.tasks[x]), TransitionOf(s, op, x).value)
    ensures ModelOf(After(s, op, x)) == ModelApply(s.tasks[x].maxAttempts, ModelOf(s.tasks[x]), TransitionOf(s, op, x).value)
  {
  }

  /** The kernel simulates the lifecycle model: a task's state, attempt and stale lease after every transition of it. */
  lemma SimulatesLifecycleModel(limits: map<QueueName, nat>, ops: seq<Op>, op: Op, x: TaskId)
    requires LegalRun(Init(limits), ops) && EveryClaimCounts(ops, x)
    requires Legal(Run(Init(limits), ops), op) && x in Run(Init(limits), ops).tasks
    requires TransitionOf(Run(Init(limits), ops), op, x).Some?
    requires Precondition(ModelOf(Run(Init(limits), ops).tasks[x]), TransitionOf(Run(Init(limits), ops), op, x).value)
    ensures var s := Run(Init(limits), ops);
      && x in Apply(s, op).0.tasks
      && ModelOf(Apply(s, op).0.tasks[x])
         == ModelApply(s.tasks[x].maxAttempts, ModelOf(s.tasks[x]), TransitionOf(s, op, x).value)
      && Apply(s, op).0.tasks[x].attempt <= s.tasks[x].maxAttempts
  {
    var s := Run(Init(limits), ops);
    RunCore(limits, ops);
    CountersAgree(limits, ops, x);
    assert RowInv(s, x);
    OwnStep(s, op, x);
    AttemptsBounded(limits, ops, x);
    ModelExplained(s, op, x);
  }

  /** On such runs no task is claimed more often than its budget. */
  lemma {:induction false} AttemptsBounded(limits: map<QueueName, nat>, ops: seq<Op>, x: TaskId)
    requires LegalRun(Init(limits), ops) && EveryClaimCounts(ops, x) && x in Run(Init(limits), ops).tasks
    ensures var t := Run(Init(limits), ops).tasks[x]; t.attempt <= t.maxAttempts
  {
    if ops != [] {
      var front, op := ops[..|ops| - 1], ops[|ops| - 1];
      var s := Run(Init(limits), front);
      RunPrefix(Init(limits), ops);
      RunCore(limits, front);
      if x in s.tasks {
        AttemptsBounded(limits, front, x);
        CountersAgree(limits, front, x);
        CountersAgree(limits, ops, x);
        CountersStep(s, op, x);
        StepRow(s, op, x);
        RunCore(limits, ops);
        assert RowInv(Run(Init(limits), ops), x);
      } else {
        StepNewRow(s, op, x);
      }
    }
  }

  // ---------------------------------------------------- the admission counter

  /** The bounded counter, asked for a slot and answering `ok`: the new count, or none if the answer is wrong. */
  function CounterStep(capacity: nat, outstanding: nat, ok: bool): Option<nat> {
    if ok then (if outstanding >= capacity then None else Some(outstanding + 1))
    else if outstanding < capacity then None else Some(outstanding)
  }

  /** The queue an operation asks a slot of, if it does. */
  function AdmissionQueue(s: State, op: Op): Option<QueueName> {
    if EffectOf(s, op).Add? then Some(EffectOf(s, op).row.queue) else None
  }

  /**
    The kernel simulates the admission counter. A request for a slot gets the answer the counter gives, and
    any other operation gives back exactly one slot per task of the queue that it finished, through
    cascades of any depth.
  */
  lemma SimulatesAdmissionCounter(limits: map<QueueName, nat>, ops: seq<Op>, op: Op, q: QueueName)
    requires LegalRun(Init(limits), ops) && q in limits
    requires Legal(Run(Init(limits), ops), op)
    ensures var s, (s', reply) := Run(Init(limits), ops), Apply(Run(Init(limits), ops), op);
      && q in s.queues && q in s'.queues
      && if AdmissionQueue(s, op) == Some(q)
         then CounterStep(limits[q], s.queues[q].outstanding, !reply.Full?) == Some(s'.queues[q].outstanding)
         else s.queues[q].outstanding
              == s'.queues[q].outstanding + |InQueue(s.tasks, NewlyTerminal(s.tasks, s'.tasks), q)|
  {
    var s := Run(Init(limits), ops);
    RunCore(limits, ops);
    LimitsFixed(Init(limits), ops, q);
    StepCore(s, op);
    var s' := Apply(s, op).0;
    if AdmissionQueue(s, op) != Some(q) {
      FreedSlots(s, op, q);
    }
  }

  lemma FreedSlots(s: State, op: Op, q: QueueName)
    requires Core(s) && Legal(s, op) && q in s.queues && AdmissionQueue(s, op) != Some(q)
    ensures var s' := Apply(s, op).0;
      q in s'.queues && s.queues[q].outstanding
                        == s'.queues[q].outstanding + |InQueue(s.tasks, NewlyTerminal(s.tasks, s'.tasks), q)|
  {
    StepCore(s, op);
    if EffectOf(s, op).Put? {
      PutShapeOf(s, op);
      FreedByPut(s, EffectOf(s, op), q);
    } else {
      FreedByNone(s, op, q);
    }
  }

  lemma FreedByNone(s: State, op: Op, q: QueueName)
    requires !EffectOf(s, op).Put? && q in s.queues && AdmissionQueue(s, op) != Some(q)
    requires EffectOf(s, op).Add? && EffectOf(s, op).id in s.tasks ==> !s.tasks[EffectOf(s, op).id].Unfinished()
    ensures var s' := Apply(s, op).0;
      && q in s'.queues && s'.queues[q] == s.queues[q]
      && InQueue(s.tasks, NewlyTerminal(s.tasks, s'.tasks), q) == {}
  {
  }

  lemma FreedByPut(s: State, e: Effect, q: QueueName)
    requires CapacityInv(s) && PutShape(s, e) && q in s.queues && CapacityInv(Perform(s, e).0)
    ensures var s' := Perform(s, e).0;
      q in s'.queues && s.queues[q].outstanding
                        == s'.queues[q].outstanding + |InQueue(s.tasks, NewlyTerminal(s.tasks, s'.tasks), q)|
  {
    PutBystanders(s, e);
    var after := Perform(s, e).0.tasks;
    BystandersKeepQueues(s, e, after);
    CountFreed(s.tasks, after, q);
    assert q in FreeSlots(e.state.queues, e.state.tasks, {});
  }

  lemma BystandersKeepQueues(s: State, e: Effect, after: Tasks)
    requires PutShape(s, e) && SameParents(s.tasks, after)
    requires forall x | x in s.tasks :: Bystander(if x in e.rows then e.rows[x] else s.tasks[x], after[x])
    ensures forall x | x in after ::
      after[x].queue == s.tasks[x].queue && (after[x].Unfinished() ==> s.tasks[x].Unfinished())
  {
  }

  lemma CountFreed(before: Tasks, after: Tasks, q: QueueName)
    requires before.Keys == after.Keys
    requires forall x | x in after ::
      after[x].queue == before[x].queue && (after[x].Unfinished() ==> before[x].Unfinished())
    ensures |Outstanding(before, q)|
            == |Outstanding(after, q)| + |InQueue(before, NewlyTerminal(before, after), q)|
  {
    OutstandingAfter(before, after, q);
    var freed := InQueue(before, NewlyTerminal(before, after), q);
    assert freed <= Outstanding(before, q);
    SubsetSize(freed, Outstanding(before, q));
  }
}
