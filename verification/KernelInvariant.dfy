/** Every kernel operation keeps the kernel's invariants. */
module KernelInvariant {
  import opened Common
  import opened Kernel

  /** A row some row's update may have cancelled or woken. */
  ghost predicate Bystander(t: Task, t': Task) {
    || t' == t
    || (t.Unfinished() && t' == t.Moved(Cancelled))
    || (t.phase.Waiting? && t' == t.Moved(Pending))
  }

  /** What an UPDATE leaves in each row: the new value, its cancellation, or its wake-up. */
  ghost predicate Settled(before: Tasks, rows: Tasks, after: Tasks) {
    && SameParents(rows, after)
    && (forall x | x in rows :: Bystander(rows[x], after[x]))
    && (forall x, c | x in after && c in before && before[c].Unfinished() && c in after ::
          after[x].phase.Waiting? && after[x].waitsOn == Some(ResultOf(c)) ==> after[c].Unfinished())
  }

  lemma UpdateSettles(s: State, rows: Tasks)
    requires rows.Keys == s.tasks.Keys
    ensures Settled(s.tasks, rows, Update(s, rows).tasks)
  {
    CascadeKeeps(rows, NewlyTerminal(s.tasks, rows));
    WakingSettles(s.tasks, rows, Cascade(rows, NewlyTerminal(s.tasks, rows)));
  }

  /** What a cascade leaves in each row: its value, or its cancellation. */
  ghost predicate CascadedRow(t: Task, t': Task) {
    t' == t || (t.Unfinished() && t' == t.Moved(Cancelled))
  }

  ghost predicate CascadedRows(rows: Tasks, cascaded: Tasks) {
    SameParents(rows, cascaded) && forall x | x in rows :: CascadedRow(rows[x], cascaded[x])
  }

  lemma CascadeKeeps(rows: Tasks, ended: set<TaskId>)
    ensures CascadedRows(rows, Cascade(rows, ended))
  {
    CascadeShape(rows, ended);
  }

  lemma WakingKeeps(tasks: Tasks, finished: set<TaskId>)
    ensures SameParents(tasks, WakeParents(tasks, finished))
  {
  }

  lemma WakingRow(tasks: Tasks, finished: set<TaskId>, x: TaskId)
    requires x in tasks
    ensures var t, after := tasks[x], WakeParents(tasks, finished);
      && x in after
      && (after[x] == t || (t.phase.Waiting? && after[x] == t.Moved(Pending)))
      && (after[x].phase.Waiting? && after[x].waitsOn.Some? && after[x].waitsOn.value.ResultOf? ==>
            after[x] == t && after[x].waitsOn.value.child !in finished)
      && (after[x].Unfinished() <==> t.Unfinished())
  {
  }

  lemma SettlesRow(rows: Tasks, cascaded: Tasks, finished: set<TaskId>, x: TaskId)
    requires x in rows && x in cascaded && CascadedRow(rows[x], cascaded[x])
    ensures x in WakeParents(cascaded, finished)
    ensures Bystander(rows[x], WakeParents(cascaded, finished)[x])
  {
    WakingRow(cascaded, finished, x);
    hide WakeParents;
  }

  lemma SettlesWait(before: Tasks, cascaded: Tasks, x: TaskId, c: TaskId)
    requires x in cascaded && c in cascaded && c in before && before[c].Unfinished()
    requires var t := WakeParents(cascaded, NewlyTerminal(before, cascaded))[x]; t.phase.Waiting? && t.waitsOn == Some(ResultOf(c))
    ensures WakeParents(cascaded, NewlyTerminal(before, cascaded))[c].Unfinished()
  {
    WakingRow(cascaded, NewlyTerminal(before, cascaded), x);
    WakingRow(cascaded, NewlyTerminal(before, cascaded), c);
    hide WakeParents;
  }

  lemma WakingSettles(before: Tasks, rows: Tasks, cascaded: Tasks)
    requires before.Keys == rows.Keys && CascadedRows(rows, cascaded)
    ensures Settled(before, rows, WakeParents(cascaded, NewlyTerminal(before, cascaded)))
  {
    var finished := NewlyTerminal(before, cascaded);
    var after := WakeParents(cascaded, finished);
    WakingKeeps(cascaded, finished);
    hide WakeParents, NewlyTerminal, CascadedRow, Bystander;
    forall x | x in rows
      ensures Bystander(rows[x], after[x])
    {
      SettlesRow(rows, cascaded, finished, x);
    }
    forall x, c | x in after && c in before && before[c].Unfinished() && c in after
      && after[x].phase.Waiting? && after[x].waitsOn == Some(ResultOf(c))
      ensures after[c].Unfinished()
    {
      SettlesWait(before, cascaded, x, c);
    }
  }

  /** `row` may replace the row of `id`. */
  ghost predicate Replaces(s: State, id: TaskId, row: Task)
    requires id in s.tasks
  {
    && row.parent == s.tasks[id].parent
    && row.queue == s.tasks[id].queue
    && (row.Unfinished() ==> s.tasks[id].Unfinished())
    && LeaseInv(s, row)
    && BudgetInv(row)
    && WaitInv(s, id, row)
  }

  /** `row` may be inserted as `id`, or put in place of the finished row of `id`. */
  ghost predicate Admits(s: State, id: TaskId, row: Task) {
    && (id in s.tasks ==>
          !s.tasks[id].Unfinished() && row.queue == s.tasks[id].queue && row.parent == s.tasks[id].parent)
    && row.phase.Pending? && row.token.None? && row.waitsOn.None? && BudgetInv(row)
    && (row.parent.Some? ==> row.parent.value in s.tasks && row.parent.value != id)
  }

  /** An effect whose rows keep the invariants. */
  ghost predicate SoundEffect(s: State, e: Effect) {
    match e
    case Keep(state, _) => Core(state)
    case Put(state, rows, _) => SoundRows(state, rows)
    case Add(id, row) => Admits(s, id, row)
  }

  ghost predicate ParentInv(tasks: Tasks, x: TaskId)
    requires x in tasks
  {
    tasks[x].parent.Some? ==> tasks[x].parent.value in tasks && tasks[x].parent.value != x
  }

  lemma SettledRow(s: State, rows: Tasks, after: State, x: TaskId)
    requires Settled(s.tasks, rows, after.tasks) && rows.Keys == s.tasks.Keys && x in rows
    requires SameParents(s.tasks, rows)
    requires after.minted == s.minted && after.signals == s.signals
    requires LeaseInv(s, rows[x]) && BudgetInv(rows[x]) && WaitInv(s, x, rows[x])
    requires rows[x].parent.Some? ==> rows[x].parent.value in rows && rows[x].parent.value != x
    ensures RowInv(after, x)
  {
    var t := after.tasks[x];
    assert LeaseInv(after, t) && BudgetInv(t);
    assert t.phase.Waiting? <==> t.waitsOn.Some?;
    if t.waitsOn.Some? && t.waitsOn.value.ResultOf? {
      var child := t.waitsOn.value.child;
      assert t == rows[x];
      assert rows[child].parent == s.tasks[child].parent == Some(x);
    }
  }

  /** Counting: what a queue loses is exactly its rows that turned terminal. */
  lemma OutstandingAfter(before: Tasks, after: Tasks, q: QueueName)
    requires before.Keys == after.Keys
    requires forall x | x in after ::
      after[x].queue == before[x].queue && (after[x].Unfinished() ==> before[x].Unfinished())
    ensures |Outstanding(after, q)| ==
            Minus(|Outstanding(before, q)|, |InQueue(before, NewlyTerminal(before, after), q)|)
    ensures |Outstanding(after, q)| <= |Outstanding(before, q)|
  {
    var freed := InQueue(before, NewlyTerminal(before, after), q);
    assert Outstanding(after, q) == Outstanding(before, q) - freed;
    assert freed <= Outstanding(before, q);
    SubsetSize(freed, Outstanding(before, q));
  }

  /** Only unfinished rows can end, so the rows a cascade touches keep their queue and never revive. */
  lemma CascadeQueues(before: Tasks, rows: Tasks)
    requires rows.Keys == before.Keys
    requires forall x | x in rows ::
      rows[x].queue == before[x].queue && (rows[x].Unfinished() ==> before[x].Unfinished())
    ensures var cascaded := Cascade(rows, NewlyTerminal(before, rows));
      && cascaded.Keys == before.Keys
      && forall x | x in cascaded ::
          cascaded[x].queue == before[x].queue && (cascaded[x].Unfinished() ==> before[x].Unfinished())
  {
    CascadeKeeps(rows, NewlyTerminal(before, rows));
  }

  lemma UpdateCapacity(s: State, rows: Tasks)
    requires CapacityInv(s) && rows.Keys == s.tasks.Keys
    requires forall x | x in rows ::
      rows[x].queue == s.tasks[x].queue && (rows[x].Unfinished() ==> s.tasks[x].Unfinished())
    ensures CapacityInv(Update(s, rows))
  {
    CascadeQueues(s.tasks, rows);
    var cascaded := Cascade(rows, NewlyTerminal(s.tasks, rows));
    SettledCapacity(s, cascaded);
  }

  lemma SettledCapacity(s: State, cascaded: Tasks)
    requires CapacityInv(s) && cascaded.Keys == s.tasks.Keys
    requires forall x | x in cascaded ::
      cascaded[x].queue == s.tasks[x].queue && (cascaded[x].Unfinished() ==> s.tasks[x].Unfinished())
    ensures var finished := NewlyTerminal(s.tasks, cascaded);
      CapacityInv(s.(tasks := WakeParents(cascaded, finished), queues := FreeSlots(s.queues, s.tasks, finished)))
  {
    var finished := NewlyTerminal(s.tasks, cascaded);
    forall q | q in s.queues
      ensures FreeSlots(s.queues, s.tasks, finished)[q].outstanding
              == |Outstanding(WakeParents(cascaded, finished), q)| <= s.queues[q].limit
    {
      OutstandingAfter(s.tasks, cascaded, q);
      assert Outstanding(WakeParents(cascaded, finished), q) == Outstanding(cascaded, q);
    }
  }

  ghost predicate SoundRows(s: State, rows: Tasks) {
    && rows.Keys <= s.tasks.Keys
    && CapacityInv(s)
    && (forall x | x in s.tasks && x !in rows :: RowInv(s, x))
    && (forall x | x in rows :: Replaces(s, x, rows[x]) && ParentInv(s.tasks, x))
  }

  lemma MergedRow(s: State, rows: Tasks, x: TaskId)
    requires SoundRows(s, rows) && x in s.tasks
    ensures (s.tasks + rows)[x].queue == s.tasks[x].queue && (s.tasks + rows)[x].parent == s.tasks[x].parent
    ensures (s.tasks + rows)[x].Unfinished() ==> s.tasks[x].Unfinished()
    ensures LeaseInv(s, (s.tasks + rows)[x]) && BudgetInv((s.tasks + rows)[x]) && WaitInv(s, x, (s.tasks + rows)[x])
    ensures ParentInv(s.tasks, x)
  {
    if x in rows {
      assert Replaces(s, x, rows[x]);
    } else {
      assert RowInv(s, x);
    }
  }

  lemma PutCapacity(s: State, rows: Tasks)
    requires SoundRows(s, rows)
    ensures CapacityInv(Update(s, s.tasks + rows))
  {
    forall x | x in s.tasks
      ensures (s.tasks + rows)[x].queue == s.tasks[x].queue
              && ((s.tasks + rows)[x].Unfinished() ==> s.tasks[x].Unfinished())
    {
      MergedRow(s, rows, x);
    }
    UpdateCapacity(s, s.tasks + rows);
  }

  lemma PutRow(s: State, rows: Tasks, x: TaskId)
    requires SoundRows(s, rows) && x in s.tasks
    ensures x in Update(s, s.tasks + rows).tasks && RowInv(Update(s, s.tasks + rows), x)
  {
    var all := s.tasks + rows;
    forall y | y in s.tasks
      ensures all[y].parent == s.tasks[y].parent
    {
      MergedRow(s, rows, y);
    }
    MergedRow(s, rows, x);
    UpdateSettles(s, all);
    SettledRow(s, all, Update(s, all), x);
  }

  lemma PutCore(s: State, rows: Tasks)
    requires SoundRows(s, rows)
    ensures Core(Update(s, s.tasks + rows))
  {
    PutCapacity(s, rows);
    UpdateSettles(s, s.tasks + rows);
    forall x | x in Update(s, s.tasks + rows).tasks
      ensures RowInv(Update(s, s.tasks + rows), x)
    {
      PutRow(s, rows, x);
    }
  }

  /** An UPDATE that revives nobody leaves no unfinished task under a finished parent. */
  lemma UpdateNoOrphans(s: State, rows: Tasks)
    requires NoOrphans(s.tasks) && SameParents(s.tasks, rows)
    requires forall x | x in rows && rows[x].Unfinished() :: s.tasks[x].Unfinished()
    ensures NoOrphans(Update(s, rows).tasks)
  {
    CascadeClosed(rows, NewlyTerminal(s.tasks, rows));
    CascadeKeeps(rows, NewlyTerminal(s.tasks, rows));
  }

  lemma OutstandingOneMore(tasks: Tasks, id: TaskId, row: Task, q: QueueName)
    requires row.Unfinished() && (id in tasks ==> !tasks[id].Unfinished())
    ensures |Outstanding(tasks[id := row], q)| == |Outstanding(tasks, q)| + if q == row.queue then 1 else 0
  {
    assert id !in Outstanding(tasks, q);
    assert Outstanding(tasks[id := row], q)
           == if q == row.queue then Outstanding(tasks, q) + {id} else Outstanding(tasks, q);
  }

  lemma AddCapacity(s: State, id: TaskId, row: Task)
    requires CapacityInv(s) && row.Unfinished() && (id in s.tasks ==> !s.tasks[id].Unfinished())
    requires HasRoom(s, row.queue)
    ensures CapacityInv(s.(tasks := s.tasks[id := row], queues := TakeSlot(s.queues, row.queue)))
  {
    forall q | q in s.queues
      ensures TakeSlot(s.queues, row.queue)[q].outstanding == |Outstanding(s.tasks[id := row], q)| <= s.queues[q].limit
    {
      OutstandingOneMore(s.tasks, id, row, q);
    }
  }

  lemma AddRow(s: State, id: TaskId, row: Task, s': State, x: TaskId)
    requires (forall y | y in s.tasks :: RowInv(s, y)) && Admits(s, id, row)
    requires s'.tasks == s.tasks[id := row] && s'.minted == s.minted && s'.signals == s.signals
    requires x in s'.tasks
    ensures RowInv(s', x)
  {
    if x != id {
      assert RowInv(s, x);
    }
  }

  lemma AddCore(s: State, id: TaskId, row: Task)
    requires Core(s) && Admits(s, id, row)
    ensures Core(Perform(s, Add(id, row)).0)
  {
    if HasRoom(s, row.queue) {
      var after := Perform(s, Add(id, row)).0;
      AddCapacity(s, id, row);
      forall x | x in after.tasks
        ensures RowInv(after, x)
      {
        AddRow(s, id, row, after, x);
      }
    }
  }

  /** New tokens and new signals disturb no row but one waiting for the signal. */
  lemma WidenedRows(s: State, s': State)
    requires Core(s) && s'.tasks == s.tasks && s.minted <= s'.minted && s.signals <= s'.signals
    ensures forall x | x in s.tasks
              && (s.tasks[x].waitsOn.Some? && s.tasks[x].waitsOn.value.SignalOf?
                  ==> (x, s.tasks[x].waitsOn.value.name) !in s'.signals) :: RowInv(s', x)
  {
    forall x | x in s.tasks
      && (s.tasks[x].waitsOn.Some? && s.tasks[x].waitsOn.value.SignalOf?
          ==> (x, s.tasks[x].waitsOn.value.name) !in s'.signals)
      ensures RowInv(s', x)
    {
      assert RowInv(s, x);
    }
  }

  lemma WriteSound(s: State, l: Lease, w: Write)
    requires Core(s) && Legal(s, By(l, w)) && Owns(s, l)
    ensures SoundEffect(s, WriteEffect(s, l.task, w))
  {
    assert RowInv(s, l.task);
  }

  lemma EmitSound(s: State, id: TaskId, name: SignalName)
    requires Core(s) && id in s.tasks
    ensures SoundEffect(s, RowEffect(s, EmitSignal(id, name)))
  {
    assert RowInv(s, id);
    WidenedRows(s, s.(signals := s.signals + {(id, name)}));
    forall x | x in s.tasks && x != id && s.tasks[x].waitsOn.Some? && s.tasks[x].waitsOn.value.SignalOf?
      ensures (x, s.tasks[x].waitsOn.value.name) !in s.signals + {(id, name)}
    {
      assert RowInv(s, x);
    }
  }

  lemma ClaimSound(s: State, id: TaskId, token: Token)
    requires Core(s) && id in s.tasks && token !in s.minted
    ensures SoundEffect(s, RowEffect(s, Claim(id, token)))
  {
    assert RowInv(s, id);
    forall x | x in s.tasks && s.tasks[x].waitsOn.Some? && s.tasks[x].waitsOn.value.SignalOf?
      ensures (x, s.tasks[x].waitsOn.value.name) !in s.signals
    {
      assert RowInv(s, x);
    }
    WidenedRows(s, s.(minted := s.minted + {token}));
  }

  lemma ExpireSound(s: State, id: TaskId)
    requires Core(s) && id in s.tasks
    ensures SoundEffect(s, RowEffect(s, ExpireWait(id)))
  {
    assert RowInv(s, id);
    var t := s.tasks[id];
    if t.waitsOn.Some? && t.waitsOn.value.ResultOf? {
      assert RowInv(s, t.waitsOn.value.child);
    }
  }

  lemma EndSound(s: State, op: Op)
    requires Core(s) && (op.Recover? || op.Cancel? || op.AdminRetry?) && op.id in s.tasks
    ensures SoundEffect(s, RowEffect(s, op))
  {
    assert RowInv(s, op.id);
  }

  lemma RowSound(s: State, op: Op)
    requires Core(s) && Legal(s, op) && !op.By? && !op.Enqueue? && op.id in s.tasks
    ensures SoundEffect(s, RowEffect(s, op))
  {
    hide Core, SoundEffect, RowEffect;
    match op
    case Claim(id, token) => ClaimSound(s, id, token);
    case EmitSignal(id, name) => EmitSound(s, id, name);
    case ExpireWait(id) => ExpireSound(s, id);
    case Recover(_) => EndSound(s, op);
    case Cancel(_) => EndSound(s, op);
    case AdminRetry(_) => EndSound(s, op);
  }

  /** Every legal operation keeps the lease, budget, wait and capacity invariants. */
  lemma StepCore(s: State, op: Op)
    requires Core(s) && Legal(s, op)
    ensures SoundEffect(s, EffectOf(s, op))
    ensures Core(Apply(s, op).0)
  {
    if op.By? {
      if Owns(s, op.lease) {
        WriteSound(s, op.lease, op.write);
      }
    } else if !op.Enqueue? && op.id in s.tasks {
      RowSound(s, op);
    }
    match EffectOf(s, op)
    case Keep(_, _) =>
    case Put(state, rows, _) => PutCore(state, rows);
    case Add(id, row) => AddCore(s, id, row);
  }
}
