/**
  How far a task's claims and its charged failures come apart. A claim is given back without a charge
  when its holder suspends, releases, or parks the task; every other way out of running ends the task or
  charges it.
*/
module CounterRuns {
  import opened Common
  import opened Kernel
  import opened KernelInvariant
  import opened KernelRuns
  import opened References
  import opened BatchWitness

  /** One more claim of `x` given back without a charge. */
  function GivesBack(op: Op, reply: Reply, x: TaskId): nat {
    if op.By? && op.lease.task == x && reply.Moved?
       && (op.write.Suspend? || op.write.Release? || op.write.WaitSignal? || op.write.WaitResult?)
    then 1 else 0
  }

  function GivenBack(s: State, ops: seq<Op>, x: TaskId): nat {
    if ops == [] then 0
    else
      var front := ops[..|ops| - 1];
      GivenBack(s, front, x) + GivesBack(ops[|ops| - 1], Apply(Run(s, front), ops[|ops| - 1]).1, x)
  }

  predicate Apart(t: Task, n: nat) {
    && (t.Unfinished() ==> t.attempt == t.failures + n + if t.phase.Running? then 1 else 0)
    && (t.phase.Waiting? ==> n > 0)
  }

  lemma WriteApart(s: State, l: Lease, w: Write, n: nat)
    requires Owns(s, l) && Apart(s.tasks[l.task], n) && WriteEffect(s, l.task, w).Put?
    ensures var e := WriteEffect(s, l.task, w);
      e.rows.Keys == {l.task} && Apart(e.rows[l.task], n + GivesBack(By(l, w), e.reply, l.task))
  {
  }

  lemma RowApart(s: State, op: Op, x: TaskId, n: nat)
    requires x in s.tasks && !op.By? && !op.Enqueue? && op.id in s.tasks && op != AdminRetry(x) && Apart(s.tasks[x], n)
    requires RowEffect(s, op).Put? && x in RowEffect(s, op).rows
    ensures Apart(RowEffect(s, op).rows[x], n)
  {
  }

  lemma NamedApart(s: State, op: Op, x: TaskId, n: nat)
    requires x in s.tasks && op != AdminRetry(x) && Apart(s.tasks[x], n)
    requires EffectOf(s, op).Put? && x in EffectOf(s, op).rows
    ensures Apart(EffectOf(s, op).rows[x], n + GivesBack(op, EffectOf(s, op).reply, x))
  {
    hide WriteEffect, RowEffect, Apart;
    if op.By? {
      WriteRows(s, op.lease, op.write);
      WriteApart(s, op.lease, op.write, n);
    } else {
      RowApart(s, op, x, n);
    }
  }

  lemma WriteRows(s: State, l: Lease, w: Write)
    requires l.task in s.tasks && WriteEffect(s, l.task, w).Put?
    ensures WriteEffect(s, l.task, w).rows.Keys == {l.task}
  {
  }

  lemma ApartStep(s: State, op: Op, x: TaskId, n: nat)
    requires Core(s) && Legal(s, op) && x in s.tasks && op != AdminRetry(x) && Apart(s.tasks[x], n)
    ensures x in Apply(s, op).0.tasks && Apart(Apply(s, op).0.tasks[x], n + GivesBack(op, Apply(s, op).1, x))
  {
    var e := EffectOf(s, op);
    if e.Put? {
      PutShapeOf(s, op);
      PutBystanders(s, e);
      if x in e.rows {
        NamedApart(s, op, x, n);
      } else {
        OtherGivesNothing(s, op, x);
      }
      hide EffectOf, Core, Legal, Update, GivesBack;
      BystanderApart(if x in e.rows then e.rows[x] else s.tasks[x], Apply(s, op).0.tasks[x], n + GivesBack(op, e.reply, x));
    } else {
      OtherKeeps(s, op, x);
    }
  }

  lemma BystanderApart(t: Task, t': Task, n: nat)
    requires Bystander(t, t') && Apart(t, n)
    ensures Apart(t', n)
  {
  }

  lemma OtherGivesNothing(s: State, op: Op, x: TaskId)
    requires EffectOf(s, op).Put? && x !in EffectOf(s, op).rows
    ensures GivesBack(op, EffectOf(s, op).reply, x) == 0
  {
  }

  lemma OtherKeeps(s: State, op: Op, x: TaskId)
    requires Legal(s, op) && x in s.tasks && op != AdminRetry(x) && !EffectOf(s, op).Put?
    ensures x in Apply(s, op).0.tasks && Apply(s, op).0.tasks[x] == s.tasks[x]
    ensures GivesBack(op, Apply(s, op).1, x) == 0
  {
  }

  lemma NewGivesNothing(s: State, op: Op, x: TaskId)
    requires x !in s.tasks
    ensures GivesBack(op, Apply(s, op).1, x) == 0
  {
  }

  /**
    Over every run without an administrator retry of it, an unfinished task has been claimed once per charged
    failure, once per claim given back, and once more if it is running.
  */
  lemma {:induction false} ComeApart(limits: map<QueueName, nat>, ops: seq<Op>, x: TaskId)
    requires LegalRun(Init(limits), ops) && forall i | 0 <= i < |ops| :: ops[i] != AdminRetry(x)
    ensures var s := Run(Init(limits), ops);
      if x in s.tasks then Apart(s.tasks[x], GivenBack(Init(limits), ops, x)) else GivenBack(Init(limits), ops, x) == 0
  {
    if ops != [] {
      var front, op := ops[..|ops| - 1], ops[|ops| - 1];
      RunPrefix(Init(limits), ops);
      ComeApart(limits, front, x);
      RunCore(limits, front);
      var s := Run(Init(limits), front);
      if x in s.tasks {
        ApartStep(s, op, x, GivenBack(Init(limits), front, x));
      } else {
        NewGivesNothing(s, op, x);
        if x in Apply(s, op).0.tasks {
          StepNewRow(s, op, x);
        }
      }
    }
  }

  /** So the two counters of an unfinished task agree if and only if no claim of it was ever given back. */
  lemma AgreeIffNoneGivenBack(limits: map<QueueName, nat>, ops: seq<Op>, x: TaskId)
    requires LegalRun(Init(limits), ops) && forall i | 0 <= i < |ops| :: ops[i] != AdminRetry(x)
    requires x in Run(Init(limits), ops).tasks && Run(Init(limits), ops).tasks[x].Unfinished()
    ensures CountersInv(Run(Init(limits), ops).tasks[x]) <==> GivenBack(Init(limits), ops, x) == 0
  {
    ComeApart(limits, ops, x);
    hide Run, GivenBack, LegalRun;
  }

  // ------------------------------------------------------------ a suspension

  /** A task with a budget of one is claimed and suspended. */
  const Suspension: seq<Op> := [Enqueue(0, 0, 1), Claim(0, 0), By(Parent, Suspend)]

  const Resting := Task(Pending, 1, 0, 1, None, None, 0, None)
  const Suspended := State(map[0 := Resting], map[], {}, {0})

  lemma Suspends(s: State, l: Lease)
    requires s.queues == map[] && Owns(s, l)
    ensures Apply(s, By(l, Suspend)) == (s.(tasks := s.tasks[l.task := s.tasks[l.task].Moved(Pending)]), Moved(Pending))
  {
    var row := s.tasks[l.task].Moved(Pending);
    assert s.tasks + map[l.task := row] == s.tasks[l.task := row];
    QuietUpdate(s, s.tasks[l.task := row]);
    hide Update;
  }

  lemma SuspendStep()
    ensures Apply(OneRunning, By(Parent, Suspend)) == (Suspended, Moved(Pending))
  {
    hide Apply;
    Suspends(OneRunning, Parent);
    assert OneRunning.tasks[0 := Resting] == map[0 := Resting];
  }

  lemma SuspensionRuns()
    ensures Init(map[]) == Empty && LegalRun(Empty, Suspension) && Run(Empty, Suspension) == Suspended
  {
    StepsFirst();
    SuspendStep();
    hide Apply;
    AtNext(Empty, Suspension, 0);
    AtNext(Empty, Suspension, 1);
    AtNext(Empty, Suspension, 2);
    assert Suspension[..3] == Suspension;
  }

  lemma RestingClaim()
    ensures Apply(Suspended, Claim(0, 1)).1 == Granted(2)
  {
  }

  /**
    Suspension alone takes the counters apart: the kernel, which counts failures, grants the next claim, and
    the machines that count attempts have no such claim.
  */
  lemma SuspensionComesApart()
    ensures LegalRun(Init(map[]), Suspension) && Run(Init(map[]), Suspension) == Suspended
    ensures Suspended.tasks[0] == Resting && Resting.attempt == 1 && Resting.failures == 0
    ensures Apply(Suspended, Claim(0, 1)).1 == Granted(2)
    ensures !ModelClaimable(Resting.maxAttempts, ModelOf(Resting))
    ensures LeaseSteps(Resting.maxAttempts, Abs(Resting), InClaim, 0, 0, OutputOf(Claim(0, 1), Granted(2))) == {}
  {
    hide Apply, Run, LegalRun;
    SuspensionRuns();
    RestingClaim();
  }
}
