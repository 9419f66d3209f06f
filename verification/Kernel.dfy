/**
  The task kernel: the rows of `pgtask.tasks`, the lease-fenced functions that move
  them and the triggers that every move fires.

  Each operation is one committed transaction. The choices the database makes (a fresh
  row id, a fresh lease token, which pending row a claim picks, when a lease expires)
  are part of the operation, so a run is any sequence of operations whose choices are
  `Legal`.
*/
module Kernel {
  import opened Common

  type TaskId = nat
  type Token = nat
  type QueueName = nat
  type SignalName = nat

  datatype Phase = Pending | Running | Waiting | Succeeded | Failed | Cancelled {
    predicate Terminal() {
      Succeeded? || Failed? || Cancelled?
    }
  }

  /** What a `waiting` task is parked on. */
  datatype Source = SignalOf(name: SignalName) | ResultOf(child: TaskId)

  datatype Task = Task(
    phase: Phase,
    attempt: nat,           // claims so far; part of the fence
    failures: nat,          // failed_attempts; what the budget is charged with
    maxAttempts: nat,
    token: Option<Token>,   // lease_token
    parent: Option<TaskId>,
    queue: QueueName,
    waitsOn: Option<Source>)
  {
    predicate Unfinished() {
      !phase.Terminal()
    }

    predicate ChildOf(ids: set<TaskId>) {
      parent.Some? && parent.value in ids
    }

    /** The row once a transition has taken it out of `running` or `waiting`. */
    function Moved(to: Phase): Task {
      this.(phase := to, token := None, waitsOn := None)
    }
  }

  type Tasks = map<TaskId, Task>

  /** A queue with `max_outstanding_tasks` set. A queue without a row has no limit. */
  datatype Queue = Queue(limit: nat, outstanding: nat)

  datatype State = State(
    tasks: Tasks,
    queues: map<QueueName, Queue>,
    signals: set<(TaskId, SignalName)>,
    minted: set<Token>)     // every lease token ever handed out

  /** What a worker presents with a lease-owned write. */
  datatype Lease = Lease(task: TaskId, attempt: nat, token: Token)

  /** The writes only a lease holder may make. */
  datatype Write =
    | Renew
    | Complete
    | Fail(retry: bool)
    | Release
    | Suspend
    | WaitSignal(name: SignalName)
    | WaitResult(child: TaskId)
    | Spawn(id: TaskId, queue: QueueName, maxAttempts: nat)

  datatype Op =
    | Enqueue(id: TaskId, queue: QueueName, maxAttempts: nat)
    | Claim(id: TaskId, token: Token)
    | By(lease: Lease, write: Write)
    | Recover(id: TaskId)
    | EmitSignal(id: TaskId, name: SignalName)
    | ExpireWait(id: TaskId)
    | Cancel(id: TaskId)
    | AdminRetry(id: TaskId)

  datatype Reply =
    | Granted(attempt: nat)   // a claim
    | Moved(phase: Phase)     // the row is now in this phase
    | Ready                   // the awaited source is already there
    | Fenced                  // the presented lease is not the live one
    | Full                    // PT001: the queue is at its limit
    | Rejected                // nothing matched, nothing changed

  // ---------------------------------------------------------------- fencing

  /** The fence every lease-owned write carries in its WHERE clause. */
  predicate Owns(s: State, l: Lease) {
    && l.task in s.tasks
    && s.tasks[l.task].phase.Running?
    && s.tasks[l.task].attempt == l.attempt
    && s.tasks[l.task].token == Some(l.token)
  }

  // --------------------------------------------------------------- triggers

  function Unfinished(tasks: Tasks): set<TaskId> {
    set x | x in tasks && tasks[x].Unfinished()
  }

  function UnfinishedChildren(tasks: Tasks, ids: set<TaskId>): set<TaskId> {
    set x | x in tasks && tasks[x].Unfinished() && tasks[x].ChildOf(ids)
  }

  function CancelRows(tasks: Tasks, ids: set<TaskId>): Tasks {
    map x | x in tasks :: if x in ids then tasks[x].Moved(Cancelled) else tasks[x]
  }

  /** `cancel_owned_children`: each newly finished row cancels its unfinished children, which fires again. */
  function Cascade(tasks: Tasks, ended: set<TaskId>): Tasks
    decreases |Unfinished(tasks)|
  {
    var children := UnfinishedChildren(tasks, ended);
    if children == {} then tasks
    else
      CancellingShrinks(tasks, children);
      Cascade(CancelRows(tasks, children), children)
  }

  lemma CancellingShrinks(tasks: Tasks, ids: set<TaskId>)
    requires ids != {} && ids <= Unfinished(tasks)
    ensures |Unfinished(CancelRows(tasks, ids))| < |Unfinished(tasks)|
  {
    assert Unfinished(CancelRows(tasks, ids)) == Unfinished(tasks) - ids;
    var x :| x in ids;
    SubsetSize(Unfinished(tasks) - ids, Unfinished(tasks) - {x});
  }

  /** `resolve_task_result`: a parent waiting on a newly finished child becomes pending. */
  function WakeParents(tasks: Tasks, finished: set<TaskId>): Tasks {
    map x | x in tasks ::
      if tasks[x].phase.Waiting? && tasks[x].waitsOn.Some? && tasks[x].waitsOn.value.ResultOf?
         && tasks[x].waitsOn.value.child in finished
      then tasks[x].Moved(Pending) else tasks[x]
  }

  function InQueue(tasks: Tasks, ids: set<TaskId>, queue: QueueName): set<TaskId> {
    set x | x in ids && x in tasks && tasks[x].queue == queue
  }

  /** `enforce_queue_capacity` on update: every newly finished row frees a slot of its queue. */
  function FreeSlots(queues: map<QueueName, Queue>, tasks: Tasks, finished: set<TaskId>): map<QueueName, Queue> {
    map q | q in queues ::
      queues[q].(outstanding := Minus(queues[q].outstanding, |InQueue(tasks, finished, q)|))
  }

  function NewlyTerminal(before: Tasks, after: Tasks): set<TaskId> {
    set x | x in before && x in after && before[x].Unfinished() && !after[x].Unfinished()
  }

  /** One UPDATE of `pgtask.tasks` to the given rows, with the triggers it fires. */
  function Update(s: State, rows: Tasks): State {
    var cascaded := Cascade(rows, NewlyTerminal(s.tasks, rows));
    var finished := NewlyTerminal(s.tasks, cascaded);
    s.(tasks := WakeParents(cascaded, finished),
       queues := FreeSlots(s.queues, s.tasks, finished))
  }

  // ------------------------------------------------------------- admission

  predicate HasRoom(s: State, q: QueueName) {
    q in s.queues ==> s.queues[q].outstanding < s.queues[q].limit
  }

  function TakeSlot(queues: map<QueueName, Queue>, q: QueueName): map<QueueName, Queue> {
    if q in queues then queues[q := queues[q].(outstanding := queues[q].outstanding + 1)] else queues
  }

  function NewTask(queue: QueueName, maxAttempts: nat, parent: Option<TaskId>): Task {
    Task(Pending, 0, 0, maxAttempts, None, parent, queue, None)
  }

  // --------------------------------------------------------------- effects

  /** What an operation asks of the tables. */
  datatype Effect =
    | Keep(state: State, reply: Reply)
    | Put(state: State, rows: Tasks, reply: Reply)   // UPDATE these rows
    | Add(id: TaskId, row: Task)                     // INSERT a row, or revive one: both need a slot

  function Perform(s: State, e: Effect): (State, Reply) {
    match e
    case Keep(state, reply) => (state, reply)
    case Put(state, rows, reply) => (Update(state, state.tasks + rows), reply)
    case Add(id, row) =>
      if HasRoom(s, row.queue)
      then (s.(tasks := s.tasks[id := row], queues := TakeSlot(s.queues, row.queue)), Moved(Pending))
      else (s, Full)
  }

  // ------------------------------------------------------------ operations

  predicate Claimable(t: Task) {
    t.phase.Pending? && t.failures < t.maxAttempts
  }

  /** The row after one more charged failure (`fail_task`, `recover_expired`). */
  function Charged(t: Task, retry: bool): Task {
    t.Moved(if retry && t.failures + 1 < t.maxAttempts then Pending else Failed).(failures := t.failures + 1)
  }

  function Move(s: State, id: TaskId, row: Task): Effect {
    Put(s, map[id := row], Moved(row.phase))
  }

  /** What the live lease holder's write does to its task `id`. */
  function WriteEffect(s: State, id: TaskId, w: Write): Effect
    requires id in s.tasks
  {
    var t := s.tasks[id];
    match w
    case Renew => Keep(s, Moved(Running))
    case Complete => Move(s, id, t.Moved(Succeeded))
    case Fail(retry) => Move(s, id, Charged(t, retry))
    case Release => Move(s, id, t.Moved(Pending))
    case Suspend => Move(s, id, t.Moved(Pending))
    case WaitSignal(name) =>
      if (id, name) in s.signals then Keep(s, Ready)
      else Move(s, id, t.Moved(Waiting).(waitsOn := Some(SignalOf(name))))
    case WaitResult(child) =>
      if child !in s.tasks || s.tasks[child].parent != Some(id) then Keep(s, Rejected)
      else if !s.tasks[child].Unfinished() then Keep(s, Ready)
      else Move(s, id, t.Moved(Waiting).(waitsOn := Some(ResultOf(child))))
    case Spawn(child, queue, maxAttempts) => Add(child, NewTask(queue, maxAttempts, Some(id)))
  }

  /** What an operation that names a row does to it. */
  function RowEffect(s: State, op: Op): Effect
    requires !op.By? && !op.Enqueue? && op.id in s.tasks
  {
    var t := s.tasks[op.id];
    match op
    case Claim(id, token) =>
      if !Claimable(t) then Keep(s, Rejected)
      else Put(s.(minted := s.minted + {token}),
               map[id := t.(phase := Running, attempt := t.attempt + 1, token := Some(token))],
               Granted(t.attempt + 1))
    case Recover(id) =>
      if t.phase.Running? then Move(s, id, Charged(t, true)) else Keep(s, Rejected)
    case EmitSignal(id, name) =>
      var emitted := s.(signals := s.signals + {(id, name)});
      if t.phase.Waiting? && t.waitsOn == Some(SignalOf(name))
      then Move(emitted, id, t.Moved(Pending)) else Keep(emitted, Ready)
    case ExpireWait(id) =>
      if !t.phase.Waiting? || t.waitsOn.None? then Keep(s, Rejected)
      else if t.waitsOn.value.ResultOf? && t.waitsOn.value.child in s.tasks && t.waitsOn.value.child != id
              && s.tasks[t.waitsOn.value.child].Unfinished() then
        // A result wait that times out wakes the parent and cancels the child with its tree.
        var child := t.waitsOn.value.child;
        Put(s, map[id := t.Moved(Pending), child := s.tasks[child].Moved(Cancelled)], Moved(Pending))
      else Move(s, id, t.Moved(Pending))
    case Cancel(id) =>
      if t.Unfinished() then Move(s, id, t.Moved(Cancelled)) else Keep(s, Rejected)
    case AdminRetry(id) =>
      if t.phase.Failed? || t.phase.Cancelled?
      then Add(id, t.Moved(Pending).(maxAttempts := Max(t.maxAttempts, t.failures + 1)))
      else Keep(s, Rejected)
  }

  function EffectOf(s: State, op: Op): Effect {
    match op
    case Enqueue(id, queue, maxAttempts) => Add(id, NewTask(queue, maxAttempts, None))
    case By(l, w) => if Owns(s, l) then WriteEffect(s, l.task, w) else Keep(s, Fenced)
    case _ => if op.id in s.tasks then RowEffect(s, op) else Keep(s, Rejected)
  }

  function Apply(s: State, op: Op): (State, Reply) {
    Perform(s, EffectOf(s, op))
  }

  /** The database's own choices: row ids and lease tokens are fresh, budgets positive. */
  predicate Legal(s: State, op: Op) {
    match op
    case Enqueue(id, _, maxAttempts) => id !in s.tasks && maxAttempts > 0
    case By(_, Spawn(id, _, maxAttempts)) => id !in s.tasks && maxAttempts > 0
    case Claim(_, token) => token !in s.minted
    case _ => true
  }

  function Init(limits: map<QueueName, nat>): State {
    State(map[], map q | q in limits :: Queue(limits[q], 0), {}, {})
  }

  // ------------------------------------------------------------ invariants

  /** A row holds a lease exactly while it runs, and only one the database minted. */
  ghost predicate LeaseInv(s: State, t: Task) {
    && (t.phase.Running? <==> t.token.Some?)
    && (t.token.Some? ==> t.token.value in s.minted)
  }

  /** An unfinished task has budget left; the table's own check bounds failures by attempts. */
  ghost predicate BudgetInv(t: Task) {
    && t.failures <= t.attempt
    && (t.Unfinished() ==> t.failures < t.maxAttempts)
    && (t.phase.Running? ==> t.failures < t.attempt)
  }

  /** A parked task waits for something that has not happened yet. */
  ghost predicate WaitInv(s: State, id: TaskId, t: Task) {
    && (t.phase.Waiting? <==> t.waitsOn.Some?)
    && (t.waitsOn.Some? ==>
          match t.waitsOn.value
          case SignalOf(name) => (id, name) !in s.signals
          case ResultOf(child) =>
            child in s.tasks && s.tasks[child].parent == Some(id) && s.tasks[child].Unfinished())
  }

  ghost predicate RowInv(s: State, id: TaskId)
    requires id in s.tasks
  {
    && LeaseInv(s, s.tasks[id])
    && BudgetInv(s.tasks[id])
    && WaitInv(s, id, s.tasks[id])
    && (s.tasks[id].parent.Some? ==> s.tasks[id].parent.value in s.tasks && s.tasks[id].parent.value != id)
  }

  /** The rows a limited queue's counter stands for. */
  function Outstanding(tasks: Tasks, q: QueueName): set<TaskId> {
    set x | x in tasks && tasks[x].Unfinished() && tasks[x].queue == q
  }

  ghost predicate CapacityInv(s: State) {
    forall q | q in s.queues ::
      s.queues[q].outstanding == |Outstanding(s.tasks, q)| <= s.queues[q].limit
  }

  ghost predicate Core(s: State) {
    && (forall id | id in s.tasks :: RowInv(s, id))
    && CapacityInv(s)
  }

  /** No unfinished task has a finished parent. */
  ghost predicate NoOrphans(tasks: Tasks) {
    forall x, p | x in tasks && p in tasks && tasks[x].Unfinished() && tasks[x].parent == Some(p) ::
      tasks[p].Unfinished()
  }

  // ------------------------------------------------------ cascade, exactly

  ghost predicate IsChain(tasks: Tasks, path: seq<TaskId>) {
    forall i | 0 <= i < |path| - 1 :: path[i] in tasks && tasks[path[i]].parent == Some(path[i + 1])
  }

  /** `x` is a proper descendant, at any depth, of some task in `ids`. */
  ghost predicate Below(tasks: Tasks, x: TaskId, ids: set<TaskId>) {
    exists path: seq<TaskId> ::
      |path| >= 2 && path[0] == x && path[|path| - 1] in ids && IsChain(tasks, path)
  }

  ghost predicate SameParents(a: Tasks, b: Tasks) {
    a.Keys == b.Keys && forall x | x in a :: a[x].parent == b[x].parent
  }

  lemma BelowByParents(a: Tasks, b: Tasks, x: TaskId, ids: set<TaskId>)
    requires SameParents(a, b) && Below(a, x, ids)
    ensures Below(b, x, ids)
  {
    var path :| |path| >= 2 && path[0] == x && path[|path| - 1] in ids && IsChain(a, path);
    assert IsChain(b, path);
  }

  lemma ChildIsBelow(tasks: Tasks, x: TaskId, ids: set<TaskId>)
    requires x in tasks && tasks[x].ChildOf(ids)
    ensures Below(tasks, x, ids)
  {
    var path := [x, tasks[x].parent.value];
    assert IsChain(tasks, path);
  }

  lemma BelowTransitive(tasks: Tasks, x: TaskId, middle: set<TaskId>, ids: set<TaskId>)
    requires Below(tasks, x, middle)
    requires forall m | m in middle :: m in tasks && tasks[m].ChildOf(ids)
    ensures Below(tasks, x, ids)
  {
    var path :| |path| >= 2 && path[0] == x && path[|path| - 1] in middle && IsChain(tasks, path);
    var longer := path + [tasks[path[|path| - 1]].parent.value];
    forall i | 0 <= i < |longer| - 1
      ensures longer[i] in tasks && tasks[longer[i]].parent == Some(longer[i + 1])
    {
      if i == |path| - 1 {
      } else {
        assert longer[i] == path[i] && longer[i + 1] == path[i + 1];
      }
    }
    assert IsChain(tasks, longer);
  }

  /** A cascade only ever cancels unfinished descendants of the rows that ended. */
  lemma {:induction false} CascadeShape(tasks: Tasks, ended: set<TaskId>)
    ensures SameParents(tasks, Cascade(tasks, ended))
    ensures forall x | x in tasks ::
      || Cascade(tasks, ended)[x] == tasks[x]
      || (tasks[x].Unfinished() && Below(tasks, x, ended)
          && Cascade(tasks, ended)[x] == tasks[x].Moved(Cancelled))
    decreases |Unfinished(tasks)|
  {
    var children := UnfinishedChildren(tasks, ended);
    if children != {} {
      var next := CancelRows(tasks, children);
      CancellingShrinks(tasks, children);
      CascadeShape(next, children);
      forall x | x in tasks && Cascade(tasks, ended)[x] != tasks[x]
        ensures tasks[x].Unfinished() && Below(tasks, x, ended)
          && Cascade(tasks, ended)[x] == tasks[x].Moved(Cancelled)
      {
        if x in children {
          ChildIsBelow(tasks, x, ended);
        } else {
          BelowByParents(next, tasks, x, children);
          BelowTransitive(tasks, x, children, ended);
        }
      }
    }
  }

  /** Every row whose parent is finished hangs directly under a row that just ended. */
  ghost predicate OrphansUnder(tasks: Tasks, ended: set<TaskId>) {
    forall x, p | x in tasks && p in tasks && tasks[x].Unfinished() && tasks[x].parent == Some(p) ::
      tasks[p].Unfinished() || p in ended
  }

  lemma {:induction false} CascadeClosed(tasks: Tasks, ended: set<TaskId>)
    requires OrphansUnder(tasks, ended)
    ensures NoOrphans(Cascade(tasks, ended))
    decreases |Unfinished(tasks)|
  {
    var children := UnfinishedChildren(tasks, ended);
    if children != {} {
      CancellingShrinks(tasks, children);
      CascadeClosed(CancelRows(tasks, children), children);
    } else {
      assert forall x | x in tasks && tasks[x].Unfinished() && tasks[x].ChildOf(ended) :: x in children;
    }
  }

  lemma {:induction false} FinishedAbove(tasks: Tasks, path: seq<TaskId>)
    requires NoOrphans(tasks) && |path| >= 1 && IsChain(tasks, path)
    requires path[|path| - 1] in tasks && !tasks[path[|path| - 1]].Unfinished()
    ensures path[0] in tasks && !tasks[path[0]].Unfinished()
  {
    if |path| > 1 {
      assert IsChain(tasks, path[1..]);
      FinishedAbove(tasks, path[1..]);
      assert path[0] in tasks && tasks[path[0]].parent == Some(path[1]);
    }
  }

  /** Unfinished rows, each the child of the next. */
  ghost predicate LiveChain(tasks: Tasks, path: seq<TaskId>) {
    forall i | 0 <= i < |path| - 1 ::
      path[i] in tasks && tasks[path[i]].Unfinished() && tasks[path[i]].parent == Some(path[i + 1])
  }

  /** `x` hangs under some task in `ids` by unfinished rows only, at any depth. */
  ghost predicate Under(tasks: Tasks, x: TaskId, ids: set<TaskId>) {
    exists path: seq<TaskId> ::
      |path| >= 2 && path[0] == x && path[|path| - 1] in ids && LiveChain(tasks, path)
  }

  lemma UnderPath(tasks: Tasks, path: seq<TaskId>, ids: set<TaskId>)
    requires |path| >= 2 && path[|path| - 1] in ids && LiveChain(tasks, path)
    ensures Under(tasks, path[0], ids)
  {
  }

  /** One level of a cascade: a row hangs under what ended if it is a child being cancelled, or hangs under one. */
  lemma {:induction false} LevelDown(tasks: Tasks, ended: set<TaskId>, children: set<TaskId>, path: seq<TaskId>)
    requires children == UnfinishedChildren(tasks, ended)
    requires |path| >= 2 && path[|path| - 1] in ended && LiveChain(tasks, path)
    ensures path[0] in children || Under(CancelRows(tasks, children), path[0], children)
    decreases |path|
  {
    if path[0] !in children {
      var next := CancelRows(tasks, children);
      var rest := path[1..];
      assert |path| > 2 && LiveChain(tasks, rest);
      LevelDown(tasks, ended, children, rest);
      var short := [path[0], path[1]];
      if path[1] in children {
        assert LiveChain(next, short);
        UnderPath(next, short, children);
      } else {
        var tail :| |tail| >= 2 && tail[0] == path[1] && tail[|tail| - 1] in children && LiveChain(next, tail);
        var longer := [path[0]] + tail;
        assert LiveChain(next, longer);
        UnderPath(next, longer, children);
      }
    }
  }

  lemma LevelUp(tasks: Tasks, ended: set<TaskId>, children: set<TaskId>, x: TaskId)
    requires children == UnfinishedChildren(tasks, ended)
    requires x in children || Under(CancelRows(tasks, children), x, children)
    ensures Under(tasks, x, ended)
  {
    if x in children {
      UnderPath(tasks, [x, tasks[x].parent.value], ended);
    } else {
      var next := CancelRows(tasks, children);
      var path :| |path| >= 2 && path[0] == x && path[|path| - 1] in children && LiveChain(next, path);
      var longer := path + [tasks[path[|path| - 1]].parent.value];
      forall i | 0 <= i < |longer| - 1
        ensures longer[i] in tasks && tasks[longer[i]].Unfinished() && tasks[longer[i]].parent == Some(longer[i + 1])
      {
        if i < |path| - 1 {
          assert path[i] in next && longer[i] == path[i] && longer[i + 1] == path[i + 1];
        }
      }
      UnderPath(tasks, longer, ended);
    }
  }

  /** The cascade in closed form, for any rows: exactly those hanging under what ended by unfinished rows are cancelled. */
  lemma {:induction false} CascadeExact(tasks: Tasks, ended: set<TaskId>, x: TaskId)
    requires x in tasks
    ensures x in Cascade(tasks, ended)
    ensures Cascade(tasks, ended)[x] == if Under(tasks, x, ended) then tasks[x].Moved(Cancelled) else tasks[x]
    decreases |Unfinished(tasks)|
  {
    var children := UnfinishedChildren(tasks, ended);
    if Under(tasks, x, ended) {
      var path :| |path| >= 2 && path[0] == x && path[|path| - 1] in ended && LiveChain(tasks, path);
      LevelDown(tasks, ended, children, path);
    } else if x in children || Under(CancelRows(tasks, children), x, children) {
      LevelUp(tasks, ended, children, x);
    }
    if children != {} {
      CancellingShrinks(tasks, children);
      CascadeExact(CancelRows(tasks, children), children, x);
    }
  }

  /** Where no unfinished task has a finished parent, those are all the unfinished descendants, at any depth. */
  lemma CascadeWholeTree(tasks: Tasks, ended: set<TaskId>, x: TaskId)
    requires OrphansUnder(tasks, ended) && x in tasks
    requires forall e | e in ended :: e in tasks && !tasks[e].Unfinished()
    ensures x in Cascade(tasks, ended)
    ensures Cascade(tasks, ended)[x] ==
      if tasks[x].Unfinished() && Below(tasks, x, ended) then tasks[x].Moved(Cancelled) else tasks[x]
  {
    var after := Cascade(tasks, ended);
    CascadeShape(tasks, ended);
    CascadeClosed(tasks, ended);
    if tasks[x].Unfinished() && Below(tasks, x, ended) {
      BelowByParents(tasks, after, x, ended);
      var path :| |path| >= 2 && path[0] == x && path[|path| - 1] in ended && IsChain(after, path);
      FinishedAbove(after, path);
    }
  }
}
