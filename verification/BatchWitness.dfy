/** A run at whose end a batch of completions is not the same as the completions one by one, nor one whose reply is lost. */
module BatchWitness {
  import opened Common
  import opened Kernel
  import opened KernelInvariant
  import opened KernelRuns
  import opened TransitionBatch
  import opened TransitionWriter

  const Parent := Lease(0, 1, 0)
  const Child := Lease(1, 1, 1)

  /** A task is claimed, starts a child, and the child is claimed too. */
  const Prelude: seq<Op> := [Enqueue(0, 0, 1), Claim(0, 0), By(Parent, Spawn(1, 0, 1)), Claim(1, 1)]

  const Both: seq<Request> := [Request(Parent, Complete), Request(Child, Complete)]

  function Row(lease: Lease, parent: Option<TaskId>): Task {
    Task(Running, lease.attempt, 0, 1, Some(lease.token), parent, 0, None)
  }

  const Empty := State(map[], map[], {}, {})
  const OnePending := State(map[0 := NewTask(0, 1, None)], map[], {}, {})
  const OneRunning := State(map[0 := Row(Parent, None)], map[], {}, {0})
  const Spawned := State(map[0 := Row(Parent, None), 1 := NewTask(0, 1, Some(0))], map[], {}, {0})
  const BothRunning := State(map[0 := Row(Parent, None), 1 := Row(Child, Some(0))], map[], {}, {0, 1})

  /** An UPDATE that ends no row fires no trigger. */
  lemma QuietUpdate(s: State, rows: Tasks)
    requires s.queues == map[] && NewlyTerminal(s.tasks, rows) == {}
    ensures Update(s, rows) == s.(tasks := rows)
  {
    assert UnfinishedChildren(rows, {}) == {};
    assert Cascade(rows, {}) == rows;
    assert WakeParents(rows, {}) == rows;
    assert FreeSlots(s.queues, s.tasks, {}) == map[];
  }

  lemma Claimed(s: State, id: TaskId, token: Token)
    requires s.queues == map[] && id in s.tasks && s.tasks[id] == NewTask(0, 1, s.tasks[id].parent)
    ensures Apply(s, Claim(id, token)).0
      == s.(tasks := s.tasks[id := Row(Lease(id, 1, token), s.tasks[id].parent)], minted := s.minted + {token})
  {
    var row := Row(Lease(id, 1, token), s.tasks[id].parent);
    var rows := s.tasks + map[id := row];
    assert rows == s.tasks[id := row];
    QuietUpdate(s.(minted := s.minted + {token}), rows);
  }

  lemma StepsFirst()
    ensures Init(map[]) == Empty
    ensures Apply(Empty, Enqueue(0, 0, 1)).0 == OnePending
    ensures Apply(OnePending, Claim(0, 0)).0 == OneRunning
  {
    Claimed(OnePending, 0, 0);
  }

  lemma StepsThen()
    ensures Apply(OneRunning, By(Parent, Spawn(1, 0, 1))).0 == Spawned
    ensures Apply(Spawned, Claim(1, 1)).0 == BothRunning
  {
    Claimed(Spawned, 1, 1);
  }

  lemma States()
    ensures At(Empty, Prelude, 0) == Empty && At(Empty, Prelude, 1) == OnePending && At(Empty, Prelude, 2) == OneRunning
    ensures At(Empty, Prelude, 3) == Spawned && At(Empty, Prelude, 4) == BothRunning
  {
    StepsFirst();
    StepsThen();
    hide Apply;
    AtNext(Empty, Prelude, 0);
    AtNext(Empty, Prelude, 1);
    AtNext(Empty, Prelude, 2);
    AtNext(Empty, Prelude, 3);
  }

  lemma PreludeRuns()
    ensures Init(map[]) == Empty && LegalRun(Empty, Prelude) && Run(Empty, Prelude) == BothRunning
  {
    StepsFirst();
    States();
    hide Apply, Run;
    assert Prelude[..4] == Prelude;
  }

  lemma BothAreFinishing()
    ensures AllFinishing(Both) && Distinct(Both)
  {
  }

  lemma ChildIsShadowed()
    ensures Shadowed(BothRunning, Both, 1) && !Shadowed(BothRunning, Both, 0)
    ensures BatchAnswers(BothRunning, Both)[1] == Moved(Succeeded)
  {
    UnderPath(BothRunning.tasks, [1, 0], {0});
    hide Under;
    assert Ends(BothRunning, Both[0]) && Owns(BothRunning, Both[1].lease);
  }

  /**
    Both run, and both are completed in one batch, the parent first: the batch accepts the child's completion.
    Written one by one it is fenced, the parent's completion having cancelled the child.
  */
  lemma ShadowedBatchHappens()
    ensures LegalRun(Init(map[]), Prelude) && Run(Init(map[]), Prelude) == BothRunning
    ensures Shadowed(BothRunning, Both, 1)
    ensures |SeqAnswers(BothRunning, Both)| == 2 && SeqAnswers(BothRunning, Both)[1] == Fenced
    ensures BatchAnswers(BothRunning, Both)[1] == Moved(Succeeded)
  {
    hide Apply, Run, Shadowed, BatchAnswers, SeqAnswers, Core, LegalRun, Distinct, AllFinishing;
    PreludeRuns();
    BothAreFinishing();
    ChildIsShadowed();
    RunCore(map[], Prelude);
    ShadowedDiffers(BothRunning, Both, 1);
  }

  const ChildOnly: seq<Ticketed> := [Ticketed(Request(Child, Complete), 0)]

  /** There too, the child's completion commits, its reply is lost, and its handler is told that the lease was. */
  lemma LostReplyHappens()
    ensures LegalRun(Init(map[]), Prelude) && Run(Init(map[]), Prelude) == BothRunning
    ensures PartAnswer(BothRunning, ChildOnly, Fine, AllFine, 0) == Answered(Moved(Succeeded))
    ensures PartAnswer(BothRunning, ChildOnly, ReplyLost, AllFine, 0) == Answered(Fenced)
  {
    assert BatchAnswer(BothRunning, ChildOnly[0].request) == Moved(Succeeded);
    assert Requests(ChildOnly) == [Request(Child, Complete)];
    hide Apply, Run, BatchAnswer, Core, LegalRun, BatchState, AloneState, AloneAnswer;
    PreludeRuns();
    RunCore(map[], Prelude);
    LostReply(BothRunning, ChildOnly, AllFine);
  }
}
