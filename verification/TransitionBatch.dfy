/**
  One UPDATE for many completions or failures (`complete_tasks`, `fail_tasks`) against the same
  writes made one at a time.
*/
module TransitionBatch {
  import opened Common
  import opened Kernel
  import opened KernelInvariant
  import opened KernelRuns

  /** A finished handler's write: a completion, or a failure with or without retry. */
  datatype Request = Request(lease: Lease, write: Write)

  predicate Finishing(r: Request) {
    r.write.Complete? || r.write.Fail?
  }

  ghost predicate AllFinishing(rs: seq<Request>) {
    forall i | 0 <= i < |rs| :: Finishing(rs[i])
  }

  predicate Distinct(rs: seq<Request>) {
    forall i, j | 0 <= i < j < |rs| :: rs[i].lease.task != rs[j].lease.task
  }

  /** The row a matched request writes. */
  function NewRow(t: Task, w: Write): Task {
    if w.Fail? then Charged(t, w.retry) else t.Moved(Succeeded)
  }

  /** The rows the batch's WHERE clause matches, each with its new value. */
  function BatchRows(s: State, rs: seq<Request>): Tasks {
    if rs == [] then map[]
    else
      var last := rs[|rs| - 1];
      BatchRows(s, rs[..|rs| - 1])
      + if Owns(s, last.lease) then map[last.lease.task := NewRow(s.tasks[last.lease.task], last.write)] else map[]
  }

  function BatchState(s: State, rs: seq<Request>): State {
    Update(s, s.tasks + BatchRows(s, rs))
  }

  function BatchAnswer(s: State, r: Request): Reply {
    if Owns(s, r.lease) then Moved(NewRow(s.tasks[r.lease.task], r.write).phase) else Fenced
  }

  function BatchAnswers(s: State, rs: seq<Request>): seq<Reply> {
    seq(|rs|, i requires 0 <= i < |rs| => BatchAnswer(s, rs[i]))
  }

  /** The same requests, written one at a time in order. */
  function SeqState(s: State, rs: seq<Request>): State {
    if rs == [] then s
    else Apply(SeqState(s, rs[..|rs| - 1]), By(rs[|rs| - 1].lease, rs[|rs| - 1].write)).0
  }

  function SeqAnswers(s: State, rs: seq<Request>): seq<Reply> {
    if rs == [] then []
    else
      SeqAnswers(s, rs[..|rs| - 1])
      + [Apply(SeqState(s, rs[..|rs| - 1]), By(rs[|rs| - 1].lease, rs[|rs| - 1].write)).1]
  }

  /** Request `i` matches and ends its task. */
  predicate Ends(s: State, r: Request) {
    Owns(s, r.lease) && NewRow(s.tasks[r.lease.task], r.write).phase.Terminal()
  }

  /** Request `j` comes after one that ends a task its own hangs under. */
  ghost predicate Shadowed(s: State, rs: seq<Request>, j: nat)
    requires j < |rs|
  {
    Owns(s, rs[j].lease)
    && exists i | 0 <= i < j :: Ends(s, rs[i]) && Under(s.tasks, rs[j].lease.task, {rs[i].lease.task})
  }

  ghost predicate Unshadowed(s: State, rs: seq<Request>) {
    forall j | 0 <= j < |rs| :: !Shadowed(s, rs, j)
  }

  // ------------------------------------------------ an UPDATE in closed form

  /** What an UPDATE leaves in a row, given the rows its cascade reaches and the rows that ended. */
  function Settle(t: Task, doomed: bool, ended: set<TaskId>): Task {
    if t.Unfinished() && doomed then t.Moved(Cancelled)
    else if t.phase.Waiting? && t.waitsOn.Some? && t.waitsOn.value.ResultOf? && t.waitsOn.value.child in ended
    then t.Moved(Pending)
    else t
  }

  /** The rows that hang under an ended row. */
  ghost function Doomed(tasks: Tasks, ended: set<TaskId>): set<TaskId> {
    set y | y in tasks && Under(tasks, y, ended)
  }

  /** Rows that may replace those of `s`: same owner, same queue, nobody revived. */
  ghost predicate Revision(s: State, all: Tasks) {
    && SameParents(s.tasks, all)
    && (forall x | x in all :: all[x].queue == s.tasks[x].queue && (all[x].Unfinished() ==> s.tasks[x].Unfinished()))
    && (forall x | x in all && all[x].phase.Waiting? :: all[x] == s.tasks[x])
  }

  lemma UnderParent(tasks: Tasks, c: TaskId, y: TaskId, ended: set<TaskId>)
    requires c in tasks && tasks[c].parent == Some(y) && Under(tasks, c, ended)
    ensures y in ended || Under(tasks, y, ended)
  {
    var path :| |path| >= 2 && path[0] == c && path[|path| - 1] in ended && LiveChain(tasks, path);
    assert path[1] == y;
    if |path| > 2 {
      assert LiveChain(tasks, path[1..]);
    }
  }

  lemma UpdateExact(s: State, all: Tasks, y: TaskId)
    requires Core(s) && Revision(s, all) && y in all
    ensures y in Update(s, all).tasks
    ensures Update(s, all).tasks[y]
            == Settle(all[y], Under(all, y, NewlyTerminal(s.tasks, all)), NewlyTerminal(s.tasks, all))
  {
    var ended := NewlyTerminal(s.tasks, all);
    CascadeExact(all, ended, y);
    CascadeKeeps(all, ended);
    var t := Cascade(all, ended)[y];
    if t.phase.Waiting? && t.waitsOn.Some? && t.waitsOn.value.ResultOf? {
      var c := t.waitsOn.value.child;
      assert RowInv(s, y);
      CascadeExact(all, ended, c);
      if Under(all, c, ended) {
        UnderParent(all, c, y, ended);
      }
    }
  }

  // ------------------------------------------------------------- the rows

  /** Each matched row gets the value its own request asks for, and no other row is written. */
  lemma {:induction false} BatchRowsExact(s: State, rs: seq<Request>)
    requires Distinct(rs)
    ensures BatchRows(s, rs).Keys <= s.tasks.Keys
    ensures forall x | x in BatchRows(s, rs) :: NamedIn(s, rs, x)
    ensures forall i | 0 <= i < |rs| && Owns(s, rs[i].lease) ::
      rs[i].lease.task in BatchRows(s, rs)
      && BatchRows(s, rs)[rs[i].lease.task] == NewRow(s.tasks[rs[i].lease.task], rs[i].write)
  {
    hide NewRow, Owns;
    if rs != [] {
      var front, last := rs[..|rs| - 1], rs[|rs| - 1];
      BatchRowsExact(s, front);
      BatchRowNames(s, rs);
      if Owns(s, last.lease) {
        OwnsKnown(s, last.lease);
      }
      forall i | 0 <= i < |rs| && Owns(s, rs[i].lease)
        ensures rs[i].lease.task in BatchRows(s, rs)
        ensures rs[i].lease.task in s.tasks
        ensures BatchRows(s, rs)[rs[i].lease.task] == NewRow(s.tasks[rs[i].lease.task], rs[i].write)
      {
        OwnsKnown(s, rs[i].lease);
        if i < |front| {
          assert front[i] == rs[i];
          assert rs[i].lease.task != last.lease.task;
        }
      }
    }
  }

  lemma OwnsKnown(s: State, l: Lease)
    requires Owns(s, l)
    ensures l.task in s.tasks
  {
  }

  /** Some matching request names row `x`. */
  ghost predicate NamedIn(s: State, rs: seq<Request>, x: TaskId) {
    exists i | 0 <= i < |rs| :: rs[i].lease.task == x && Owns(s, rs[i].lease)
  }

  lemma {:induction false} BatchRowNames(s: State, rs: seq<Request>)
    ensures forall x | x in BatchRows(s, rs) :: NamedIn(s, rs, x)
  {
    if rs != [] {
      var front := rs[..|rs| - 1];
      BatchRowNames(s, front);
      forall x | x in BatchRows(s, rs)
        ensures NamedIn(s, rs, x)
      {
        if x in BatchRows(s, front) {
          var i :| 0 <= i < |front| && front[i].lease.task == x && Owns(s, front[i].lease);
          assert rs[i].lease.task == x;
        } else {
          assert rs[|rs| - 1].lease.task == x;
        }
      }
    }
  }

  lemma BatchRowShape(s: State, rs: seq<Request>, x: TaskId)
    requires AllFinishing(rs) && Distinct(rs) && x in BatchRows(s, rs)
    ensures x in s.tasks && s.tasks[x].phase.Running?
    ensures var row := BatchRows(s, rs)[x];
      row.parent == s.tasks[x].parent && row.queue == s.tasks[x].queue && !row.phase.Waiting?
    ensures exists i | 0 <= i < |rs| ::
      rs[i].lease.task == x && Owns(s, rs[i].lease) && BatchRows(s, rs)[x] == NewRow(s.tasks[x], rs[i].write)
  {
    BatchRowsExact(s, rs);
    assert NamedIn(s, rs, x);
    var i :| 0 <= i < |rs| && rs[i].lease.task == x && Owns(s, rs[i].lease);
    assert Finishing(rs[i]);
  }

  lemma BatchRevision(s: State, rs: seq<Request>)
    requires AllFinishing(rs) && Distinct(rs)
    ensures Revision(s, s.tasks + BatchRows(s, rs))
  {
    hide BatchRows, Distinct, AllFinishing, NewRow, Owns;
    forall x | x in BatchRows(s, rs)
      ensures x in s.tasks && s.tasks[x].phase.Running?
      ensures BatchRows(s, rs)[x].parent == s.tasks[x].parent && BatchRows(s, rs)[x].queue == s.tasks[x].queue
      ensures !BatchRows(s, rs)[x].phase.Waiting?
    {
      BatchRowShape(s, rs, x);
    }
  }

  /** The rows a batch ends are those of its requests that end their task. */
  lemma BatchEnds(s: State, rs: seq<Request>)
    requires AllFinishing(rs) && Distinct(rs)
    ensures forall e | e in NewlyTerminal(s.tasks, s.tasks + BatchRows(s, rs)) ::
      exists i | 0 <= i < |rs| :: rs[i].lease.task == e && Ends(s, rs[i])
    ensures forall i | 0 <= i < |rs| && Ends(s, rs[i]) ::
      rs[i].lease.task in NewlyTerminal(s.tasks, s.tasks + BatchRows(s, rs))
  {
    BatchRowsExact(s, rs);
    hide BatchRows, Distinct, AllFinishing, NewRow;
    forall e | e in NewlyTerminal(s.tasks, s.tasks + BatchRows(s, rs))
      ensures exists i | 0 <= i < |rs| :: rs[i].lease.task == e && Ends(s, rs[i])
    {
      BatchRowShape(s, rs, e);
      var i :| 0 <= i < |rs| && rs[i].lease.task == e && Owns(s, rs[i].lease) && BatchRows(s, rs)[e] == NewRow(s.tasks[e], rs[i].write);
      assert Ends(s, rs[i]);
    }
  }

  /** Unfinished rows stay where they were: a chain of them in `few` is one in `many`. */
  ghost predicate MoreLive(few: Tasks, many: Tasks) {
    forall x | x in few && few[x].Unfinished() :: x in many && many[x].Unfinished() && many[x].parent == few[x].parent
  }

  lemma UnderMoreLive(few: Tasks, many: Tasks, x: TaskId, ids: set<TaskId>)
    requires MoreLive(few, many) && Under(few, x, ids)
    ensures Under(many, x, ids)
  {
    var path :| |path| >= 2 && path[0] == x && path[|path| - 1] in ids && LiveChain(few, path);
    assert LiveChain(many, path);
  }

  lemma UnderOne(tasks: Tasks, x: TaskId, ids: set<TaskId>) returns (e: TaskId)
    requires Under(tasks, x, ids)
    ensures e in ids && Under(tasks, x, {e})
  {
    var path :| |path| >= 2 && path[0] == x && path[|path| - 1] in ids && LiveChain(tasks, path);
    e := path[|path| - 1];
    assert path[|path| - 1] in {e};
  }

  lemma UnderUnion(tasks: Tasks, x: TaskId, a: set<TaskId>, b: set<TaskId>)
    ensures Under(tasks, x, a + b) <==> Under(tasks, x, a) || Under(tasks, x, b)
  {
  }

  lemma BelowSame(a: Tasks, b: Tasks, x: TaskId, ids: set<TaskId>)
    requires SameParents(a, b)
    ensures Below(a, x, ids) <==> Below(b, x, ids)
  {
    if Below(a, x, ids) {
      BelowByParents(a, b, x, ids);
    } else if Below(b, x, ids) {
      BelowByParents(b, a, x, ids);
    }
  }

  lemma UnderIsBelow(tasks: Tasks, x: TaskId, ids: set<TaskId>)
    requires Under(tasks, x, ids)
    ensures Below(tasks, x, ids)
  {
    var path :| |path| >= 2 && path[0] == x && path[|path| - 1] in ids && LiveChain(tasks, path);
    assert IsChain(tasks, path);
  }

  /** Following unfinished rows of `before` up to a row that ended, one meets a row that ended by rows still unfinished. */
  lemma {:induction false} MeetsEnded(before: Tasks, all: Tasks, path: seq<TaskId>, ended: set<TaskId>)
    requires SameParents(before, all) && ended == NewlyTerminal(before, all)
    requires |path| >= 2 && LiveChain(before, path) && path[|path| - 1] in ended
    requires path[0] in all && all[path[0]].Unfinished()
    ensures Under(all, path[0], ended)
    decreases |path|
  {
    if path[1] in ended {
      UnderPath(all, [path[0], path[1]], ended);
    } else {
      var rest := path[1..];
      assert LiveChain(before, rest);
      assert path[1] in before && before[path[1]].Unfinished();
      MeetsEnded(before, all, rest, ended);
      var tail :| |tail| >= 2 && tail[0] == path[1] && tail[|tail| - 1] in ended && LiveChain(all, tail);
      var longer := [path[0]] + tail;
      assert LiveChain(all, longer);
      UnderPath(all, longer, ended);
    }
  }

  // --------------------------------------------------- one request at a time

  /** The rows after an UPDATE to `all` that ended the rows `ended` and whose cascade reached `doomed`. */
  ghost predicate Reached(all: Tasks, doomed: set<TaskId>, ended: set<TaskId>, after: Tasks) {
    && SameParents(all, after)
    && forall y | y in all :: after[y] == Settle(all[y], y in doomed, ended)
  }

  /** Everything but the rows: only the counters may move, and they stay true. */
  ghost predicate SameBooks(s: State, after: State) {
    && after.signals == s.signals
    && after.minted == s.minted
    && after.queues.Keys == s.queues.Keys
    && (forall q | q in s.queues :: after.queues[q].limit == s.queues[q].limit)
    && CapacityInv(after)
  }

  /** The outcome of an UPDATE to the rows `all`, without saying how it is computed. */
  ghost predicate Outcome(s: State, all: Tasks, after: State) {
    && Reached(all, Doomed(all, NewlyTerminal(s.tasks, all)), NewlyTerminal(s.tasks, all), after.tasks)
    && SameBooks(s, after)
  }

  lemma UpdateOutcome(s: State, all: Tasks)
    requires Core(s) && Revision(s, all)
    ensures Outcome(s, all, Update(s, all))
  {
    UpdateSettles(s, all);
    UpdateCapacity(s, all);
    forall y | y in all
      ensures Update(s, all).tasks[y]
              == Settle(all[y], y in Doomed(all, NewlyTerminal(s.tasks, all)), NewlyTerminal(s.tasks, all))
    {
      UpdateExact(s, all, y);
    }
  }

  /** The outcome determines the state: rows by what was reached, counters by the rows. */
  lemma OutcomeUnique(s: State, all: Tasks, a: State, b: State)
    requires Outcome(s, all, a) && Outcome(s, all, b)
    ensures a == b
  {
    assert a.tasks == b.tasks;
    SameQueues(s, a, b);
  }

  lemma SameQueues(s: State, a: State, b: State)
    requires SameBooks(s, a) && SameBooks(s, b) && a.tasks == b.tasks
    ensures a.queues == b.queues
  {
  }

  lemma OneMoreEnded(tasks: Tasks, all: Tasks, x: TaskId, row: Task)
    requires all.Keys == tasks.Keys && x in tasks && all[x] == tasks[x] && tasks[x].Unfinished()
    ensures NewlyTerminal(tasks, all[x := row]) == NewlyTerminal(tasks, all) + if row.Unfinished() then {} else {x}
  {
  }

  lemma OneEnded(tasks: Tasks, x: TaskId, row: Task)
    requires x in tasks && tasks[x].Unfinished()
    ensures NewlyTerminal(tasks, tasks[x := row]) == if row.Unfinished() then {} else {x}
  {
  }

  lemma SettleTwice(t: Task, d1: bool, e1: set<TaskId>, d2: bool, e2: set<TaskId>)
    ensures Settle(Settle(t, d1, e1), d2, e2) == Settle(t, d1 || d2, e1 + e2)
  {
  }

  /** One more row moved after an UPDATE leaves the rows that moving them all at once would. */
  lemma ReachOneMore(all: Tasks, d1: set<TaskId>, e1: set<TaskId>, mid: Tasks, x: TaskId, row: Task, d2: set<TaskId>,
                     e2: set<TaskId>, after: Tasks)
    requires Reached(all, d1, e1, mid) && x in all && row.parent == all[x].parent
    requires Reached(mid[x := row], d2, e2, after)
    requires !row.phase.Waiting? && (row.Unfinished() ==> x !in d1)
    ensures Reached(all[x := row], d1 + d2, e1 + e2, after)
  {
    forall y | y in all
      ensures after[y] == Settle(all[x := row][y], y in d1 + d2, e1 + e2)
    {
      if y != x {
        SettleTwice(all[y], y in d1, e1, y in d2, e2);
      }
    }
  }

  lemma MoveOneMore(s: State, all: Tasks, mid: State, x: TaskId, row: Task, after: State)
    requires SameParents(s.tasks, all) && Outcome(s, all, mid)
    requires x in all && all[x] == s.tasks[x] && s.tasks[x].phase.Running?
    requires row.parent == all[x].parent && !row.phase.Waiting?
    requires !Under(all, x, NewlyTerminal(s.tasks, all))
    requires x in mid.tasks && Outcome(mid, mid.tasks[x := row], after)
    ensures Outcome(s, all[x := row], after)
  {
    var e1, e2 := NewlyTerminal(s.tasks, all), NewlyTerminal(mid.tasks, mid.tasks[x := row]);
    assert x !in Doomed(all, e1);
    OneMoreEnded(s.tasks, all, x, row);
    OneEnded(mid.tasks, x, row) by { assert mid.tasks[x] == all[x]; }
    DoomedOneMore(all, mid.tasks, x, row, e1, e2);
    hide NewlyTerminal, Doomed, Under;
    ReachOneMore(all, Doomed(all, e1), e1, mid.tasks, x, row, Doomed(mid.tasks[x := row], e2), e2, after.tasks);
  }

  /** What one more ended row reaches, in the rows as they were or as the first cascade left them. */
  lemma DoomedOneMore(all: Tasks, mid: Tasks, x: TaskId, row: Task, e1: set<TaskId>, e2: set<TaskId>)
    requires Reached(all, Doomed(all, e1), e1, mid)
    requires x in all && all[x].Unfinished() && row.parent == all[x].parent && x !in e1 && !Under(all, x, e1)
    requires e2 == if row.Unfinished() then {} else {x}
    ensures Doomed(all[x := row], e1 + e2) == Doomed(all, e1) + Doomed(mid[x := row], e2)
  {
    var all', mid' := all[x := row], mid[x := row];
    forall y | y in all
      ensures Under(all', y, e1 + e2) <==> Under(all, y, e1) || Under(mid', y, e2)
    {
      UnderUnion(all', y, e1, e2);
      UnderSameFirst(all, x, row, y, e1);
      if Under(mid', y, e2) {
        UnderMoreLive(mid', all', y, e2);
      } else if Under(all', y, e2) {
        var path :| |path| >= 2 && path[0] == y && path[|path| - 1] in e2 && LiveChain(all', path);
        PathOrDoomed(all, mid, x, row, e1, e2, path);
      }
    }
  }

  /** Ending a row that hangs under none of them changes nothing about what hangs under the first ended rows. */
  lemma UnderSameFirst(all: Tasks, x: TaskId, row: Task, y: TaskId, e1: set<TaskId>)
    requires x in all && all[x].Unfinished() && row.parent == all[x].parent && x !in e1 && !Under(all, x, e1)
    ensures Under(all[x := row], y, e1) <==> Under(all, y, e1)
  {
    if Under(all, y, e1) {
      var path :| |path| >= 2 && path[0] == y && path[|path| - 1] in e1 && LiveChain(all, path);
      AvoidsUnreached(all, x, path, e1);
      assert LiveChain(all[x := row], path);
    } else if Under(all[x := row], y, e1) {
      UnderMoreLive(all[x := row], all, y, e1);
    }
  }

  lemma AvoidsUnreached(all: Tasks, x: TaskId, path: seq<TaskId>, e1: set<TaskId>)
    requires |path| >= 2 && path[|path| - 1] in e1 && LiveChain(all, path) && x !in e1 && !Under(all, x, e1)
    ensures x !in path
  {
    if x in path {
      var i :| 0 <= i < |path| && path[i] == x;
      var rest := path[i..];
      assert LiveChain(all, rest);
      UnderPath(all, rest, e1);
    }
  }

  /** A chain under the new ended row either survived the first cascade, or its foot was already cancelled by it. */
  lemma {:induction false} PathOrDoomed(all: Tasks, mid: Tasks, x: TaskId, row: Task, e1: set<TaskId>, e2: set<TaskId>, path: seq<TaskId>)
    requires Reached(all, Doomed(all, e1), e1, mid) && x in all && all[x].Unfinished() && row.parent == all[x].parent
    requires |path| >= 2 && path[|path| - 1] in e2 && LiveChain(all[x := row], path)
    requires e2 == if row.Unfinished() then {} else {x}
    ensures Under(all, path[0], e1) || Under(mid[x := row], path[0], e2)
    decreases |path|
  {
    var all', mid' := all[x := row], mid[x := row];
    var y := path[0];
    if !Under(all, y, e1) {
      assert y != x && mid'[y].Unfinished() && mid'[y].parent == Some(path[1]);
      if |path| == 2 {
        assert LiveChain(mid', path);
      } else {
        assert LiveChain(all', path[1..]);
        PathOrDoomed(all, mid, x, row, e1, e2, path[1..]);
        if Under(all, path[1], e1) {
          var tail :| |tail| >= 2 && tail[0] == path[1] && tail[|tail| - 1] in e1 && LiveChain(all, tail);
          var longer := [y] + tail;
          assert LiveChain(all, longer);
          UnderPath(all, longer, e1);
        } else {
          var tail :| |tail| >= 2 && tail[0] == path[1] && tail[|tail| - 1] in e2 && LiveChain(mid', tail);
          var longer := [y] + tail;
          assert LiveChain(mid', longer);
          UnderPath(mid', longer, e2);
        }
      }
    }
  }

  lemma OneMoreRevision(s: State, x: TaskId, row: Task)
    requires x in s.tasks && s.tasks[x].phase.Running? && !row.phase.Waiting?
    requires row.parent == s.tasks[x].parent && row.queue == s.tasks[x].queue
    ensures Revision(s, s.tasks[x := row])
  {
  }

  lemma WriteIsUpdate(s: State, r: Request)
    requires Finishing(r) && Owns(s, r.lease)
    ensures Apply(s, By(r.lease, r.write)).0
            == Update(s, s.tasks[r.lease.task := NewRow(s.tasks[r.lease.task], r.write)])
  {
    var x, row := r.lease.task, NewRow(s.tasks[r.lease.task], r.write);
    assert s.tasks + map[x := row] == s.tasks[x := row];
  }

  /** An accepted completion or failure, on its own, is an UPDATE of its one row. */
  lemma WriteOutcome(s: State, r: Request)
    requires Core(s) && Finishing(r) && Owns(s, r.lease)
    ensures Outcome(s, s.tasks[r.lease.task := NewRow(s.tasks[r.lease.task], r.write)], Apply(s, By(r.lease, r.write)).0)
  {
    var x, row := r.lease.task, NewRow(s.tasks[r.lease.task], r.write);
    OneMoreRevision(s, x, row);
    UpdateOutcome(s, s.tasks[x := row]);
    WriteIsUpdate(s, r);
  }

  lemma NotUnderEnded(s: State, front: seq<Request>, x: TaskId)
    requires AllFinishing(front) && Distinct(front)
    requires forall i | 0 <= i < |front| && Ends(s, front[i]) :: !Under(s.tasks, x, {front[i].lease.task})
    ensures !Under(s.tasks + BatchRows(s, front), x, NewlyTerminal(s.tasks, s.tasks + BatchRows(s, front)))
  {
    BatchRevision(s, front);
    BatchEnds(s, front);
    var all := s.tasks + BatchRows(s, front);
    if Under(all, x, NewlyTerminal(s.tasks, all)) {
      var e := UnderOne(all, x, NewlyTerminal(s.tasks, all));
      UnderMoreLive(all, s.tasks, x, {e});
    }
  }

  /** A row no earlier request names and no earlier ending reaches is as it was. */
  lemma UnreachedRow(s: State, rs: seq<Request>, l: Lease, mid: State)
    requires l.task in s.tasks ==> LeaseInv(s, s.tasks[l.task])
    requires AllFinishing(rs) && Distinct(rs) && Outcome(s, s.tasks + BatchRows(s, rs), mid)
    requires forall i | 0 <= i < |rs| :: rs[i].lease.task != l.task
    requires Owns(s, l) ==>
      forall i | 0 <= i < |rs| && Ends(s, rs[i]) :: !Under(s.tasks, l.task, {rs[i].lease.task})
    ensures Owns(mid, l) <==> Owns(s, l)
    ensures Owns(s, l) ==> mid.tasks[l.task] == s.tasks[l.task]
  {
    BatchRowsExact(s, rs);
    if Owns(s, l) {
      NotUnderEnded(s, rs, l.task);
    }
  }

  lemma MergeOneMore(tasks: Tasks, rows: Tasks, x: TaskId, row: Task)
    ensures tasks + (rows + map[x := row]) == (tasks + rows)[x := row]
  {
  }

  lemma DistinctFront(rs: seq<Request>)
    requires AllFinishing(rs) && Distinct(rs) && rs != []
    ensures AllFinishing(rs[..|rs| - 1]) && Distinct(rs[..|rs| - 1]) && Finishing(rs[|rs| - 1])
    ensures forall i | 0 <= i < |rs| - 1 ::
      rs[..|rs| - 1][i] == rs[i] && rs[i].lease.task != rs[|rs| - 1].lease.task
  {
  }

  lemma AcceptedOneMore(s: State, rows: Tasks, x: TaskId, row: Task, mid: State, after: State)
    requires SameParents(s.tasks, s.tasks + rows) && x !in rows
    requires x in s.tasks && s.tasks[x].phase.Running? && row.parent == s.tasks[x].parent && !row.phase.Waiting?
    requires !Under(s.tasks + rows, x, NewlyTerminal(s.tasks, s.tasks + rows))
    requires x in mid.tasks && Outcome(s, s.tasks + rows, mid) && Outcome(mid, mid.tasks[x := row], after)
    ensures Outcome(s, s.tasks + (rows + map[x := row]), after)
  {
    MoveOneMore(s, s.tasks + rows, mid, x, row, after);
    MergeOneMore(s.tasks, rows, x, row);
  }

  lemma WriteAnswer(s: State, r: Request)
    requires Finishing(r)
    ensures Apply(s, By(r.lease, r.write)).1 == BatchAnswer(s, r)
    ensures !Owns(s, r.lease) ==> Apply(s, By(r.lease, r.write)).0 == s
  {
  }

  /** What one request does on its own: an UPDATE of its row if it matches, nothing otherwise. */
  ghost predicate Alone(s: State, r: Request, after: State) {
    if Owns(s, r.lease)
    then Outcome(s, s.tasks[r.lease.task := NewRow(s.tasks[r.lease.task], r.write)], after)
    else after == s
  }

  lemma WriteAlone(s: State, r: Request)
    requires Core(s) && Finishing(r)
    ensures Alone(s, r, Apply(s, By(r.lease, r.write)).0)
    ensures Apply(s, By(r.lease, r.write)).1 == BatchAnswer(s, r)
  {
    WriteAnswer(s, r);
    if Owns(s, r.lease) {
      WriteOutcome(s, r);
    }
  }

  /** The batch of one more request has the outcome of the others' batch followed by that request alone. */
  lemma BatchOfOneMore(s: State, rs: seq<Request>, mid: State, after: State)
    requires AllFinishing(rs) && Distinct(rs) && rs != [] && !Shadowed(s, rs, |rs| - 1)
    requires var l := rs[|rs| - 1].lease; l.task in s.tasks ==> LeaseInv(s, s.tasks[l.task])
    requires Outcome(s, s.tasks + BatchRows(s, rs[..|rs| - 1]), mid) && Alone(mid, rs[|rs| - 1], after)
    ensures Outcome(s, s.tasks + BatchRows(s, rs), after)
    ensures BatchAnswer(mid, rs[|rs| - 1]) == BatchAnswer(s, rs[|rs| - 1])
  {
    hide Outcome, Under, NewlyTerminal, NewRow, LeaseInv, BatchRows;
    var front, last := rs[..|rs| - 1], rs[|rs| - 1];
    BatchRowsNext(s, rs);
    DistinctFront(rs);
    if Owns(s, last.lease) {
      LastUnshadowed(s, rs, front);
    }
    UnreachedRow(s, front, last.lease, mid);
    if Owns(s, last.lease) {
      NotUnderEnded(s, front, last.lease.task);
      RoomForOneMore(s, front, last);
      AcceptedOneMore(s, BatchRows(s, front), last.lease.task, NewRow(s.tasks[last.lease.task], last.write), mid, after);
    } else {
      assert BatchRows(s, rs) == BatchRows(s, front);
    }
  }

  lemma LastUnshadowed(s: State, rs: seq<Request>, front: seq<Request>)
    requires rs != [] && front == rs[..|rs| - 1] && !Shadowed(s, rs, |rs| - 1) && Owns(s, rs[|rs| - 1].lease)
    ensures forall i | 0 <= i < |front| && Ends(s, front[i]) ::
      !Under(s.tasks, rs[|rs| - 1].lease.task, {front[i].lease.task})
  {
    forall i | 0 <= i < |front|
      ensures front[i] == rs[i]
    {
    }
  }

  lemma RoomForOneMore(s: State, front: seq<Request>, last: Request)
    requires AllFinishing(front) && Distinct(front) && Finishing(last) && last.lease.task in s.tasks
    requires forall i | 0 <= i < |front| :: front[i].lease.task != last.lease.task
    ensures SameParents(s.tasks, s.tasks + BatchRows(s, front)) && last.lease.task !in BatchRows(s, front)
    ensures var row := NewRow(s.tasks[last.lease.task], last.write);
      row.parent == s.tasks[last.lease.task].parent && !row.phase.Waiting?
  {
    BatchRevision(s, front);
    BatchRowNames(s, front);
  }

  lemma BatchRowsNext(s: State, rs: seq<Request>)
    requires rs != []
    ensures var last := rs[|rs| - 1];
      BatchRows(s, rs) == BatchRows(s, rs[..|rs| - 1])
        + if Owns(s, last.lease) then map[last.lease.task := NewRow(s.tasks[last.lease.task], last.write)] else map[]
  {
  }

  // -------------------------------------------------------------- theorems

  lemma UnshadowedFront(s: State, rs: seq<Request>, n: nat)
    requires n <= |rs|
    requires forall j | 0 <= j < n :: !Shadowed(s, rs, j)
    requires AllFinishing(rs) && Distinct(rs)
    ensures Unshadowed(s, rs[..n]) && AllFinishing(rs[..n]) && Distinct(rs[..n])
  {
    forall j | 0 <= j < n
      ensures !Shadowed(s, rs[..n], j)
    {
      assert !Shadowed(s, rs, j);
      forall i | 0 <= i < j
        ensures rs[..n][i] == rs[i]
      {
      }
    }
  }

  lemma SeqStep(s: State, rs: seq<Request>)
    requires rs != [] && Finishing(rs[|rs| - 1])
    requires Core(SeqState(s, rs[..|rs| - 1]))
    ensures Core(SeqState(s, rs))
  {
    var last := rs[|rs| - 1];
    StepCore(SeqState(s, rs[..|rs| - 1]), By(last.lease, last.write));
  }

  lemma BatchOutcome(s: State, rs: seq<Request>)
    requires Core(s) && AllFinishing(rs) && Distinct(rs)
    ensures Outcome(s, s.tasks + BatchRows(s, rs), BatchState(s, rs))
  {
    BatchRevision(s, rs);
    UpdateOutcome(s, s.tasks + BatchRows(s, rs));
  }

  lemma SequenceStep(s: State, rs: seq<Request>)
    requires Core(s) && AllFinishing(rs) && Distinct(rs) && rs != [] && !Shadowed(s, rs, |rs| - 1)
    requires Outcome(s, s.tasks + BatchRows(s, rs[..|rs| - 1]), SeqState(s, rs[..|rs| - 1]))
    requires Core(SeqState(s, rs[..|rs| - 1]))
    ensures Outcome(s, s.tasks + BatchRows(s, rs), SeqState(s, rs))
    ensures SeqAnswers(s, rs) == SeqAnswers(s, rs[..|rs| - 1]) + [BatchAnswer(s, rs[|rs| - 1])]
  {
    var mid, last := SeqState(s, rs[..|rs| - 1]), rs[|rs| - 1];
    assert Finishing(last);
    assert last.lease.task in s.tasks ==> RowInv(s, last.lease.task);
    WriteAlone(mid, last);
    BatchOfOneMore(s, rs, mid, Apply(mid, By(last.lease, last.write)).0);
  }

  /**
    A batch leaves the very state, and gives each requester the very answer, of writing its requests one at a
    time in order, as long as none comes after one that ends a task its own hangs under.
  */
  lemma {:induction false} BatchEqualsSequence(s: State, rs: seq<Request>)
    requires Core(s) && AllFinishing(rs) && Distinct(rs) && Unshadowed(s, rs)
    ensures BatchState(s, rs) == SeqState(s, rs)
    ensures BatchAnswers(s, rs) == SeqAnswers(s, rs)
    ensures Core(SeqState(s, rs))
  {
    hide Outcome;
    BatchOutcome(s, rs);
    if rs == [] {
      EmptyOutcome(s);
      assert s.tasks + BatchRows(s, rs) == s.tasks;
      OutcomeUnique(s, s.tasks, BatchState(s, rs), s);
    } else {
      var front := rs[..|rs| - 1];
      UnshadowedFront(s, rs, |rs| - 1);
      BatchEqualsSequence(s, front);
      BatchOutcome(s, front);
      SequenceStep(s, rs);
      OutcomeUnique(s, s.tasks + BatchRows(s, rs), BatchState(s, rs), SeqState(s, rs));
      SeqStep(s, rs) by { assert Finishing(rs[|rs| - 1]); }
      assert BatchAnswers(s, rs) == BatchAnswers(s, front) + [BatchAnswer(s, rs[|rs| - 1])];
    }
  }

  lemma EmptyOutcome(s: State)
    requires CapacityInv(s)
    ensures Outcome(s, s.tasks, s)
  {
    assert NewlyTerminal(s.tasks, s.tasks) == {};
    forall y | y in s.tasks
      ensures y !in Doomed(s.tasks, {})
    {
    }
  }

  lemma {:induction false} SeqAnswersPrefix(s: State, rs: seq<Request>, j: nat)
    requires j < |rs|
    ensures |SeqAnswers(s, rs)| == |rs|
    ensures SeqAnswers(s, rs)[j] == Apply(SeqState(s, rs[..j]), By(rs[j].lease, rs[j].write)).1
  {
    var front := rs[..|rs| - 1];
    if j == |rs| - 1 {
      SeqAnswersLength(s, front);
    } else {
      SeqAnswersPrefix(s, front, j);
      assert front[..j] == rs[..j];
    }
  }

  lemma {:induction false} SeqAnswersLength(s: State, rs: seq<Request>)
    ensures |SeqAnswers(s, rs)| == |rs|
  {
    if rs != [] {
      SeqAnswersLength(s, rs[..|rs| - 1]);
    }
  }

  /** The first shadowed request is fenced when written alone, but the batch accepts it. */
  lemma ShadowedDiffers(s: State, rs: seq<Request>, j: nat)
    requires Core(s) && AllFinishing(rs) && Distinct(rs)
    requires j < |rs| && Shadowed(s, rs, j) && forall k | 0 <= k < j :: !Shadowed(s, rs, k)
    ensures |SeqAnswers(s, rs)| == |rs| && SeqAnswers(s, rs)[j] == Fenced
    ensures BatchAnswers(s, rs)[j] != Fenced
  {
    var front := rs[..j];
    SeqAnswersPrefix(s, rs, j);
    UnshadowedFront(s, rs, j);
    BatchEqualsSequence(s, front);
    BatchOutcome(s, front);
    ShadowedFenced(s, rs, j, SeqState(s, front));
    assert Finishing(rs[j]);
    WriteAnswer(SeqState(s, front), rs[j]);
  }

  lemma ShadowedFenced(s: State, rs: seq<Request>, j: nat, mid: State)
    requires AllFinishing(rs) && Distinct(rs) && j < |rs| && Shadowed(s, rs, j)
    requires Outcome(s, s.tasks + BatchRows(s, rs[..j]), mid)
    ensures !Owns(mid, rs[j].lease)
  {
    var i :| 0 <= i < j && Ends(s, rs[i]) && Under(s.tasks, rs[j].lease.task, {rs[i].lease.task});
    assert rs[..j][i] == rs[i];
    ReachedIsFenced(s, rs[..j], rs[j].lease, i, mid);
  }

  lemma ReachedIsFenced(s: State, front: seq<Request>, l: Lease, i: nat, mid: State)
    requires AllFinishing(front) && Distinct(front) && Outcome(s, s.tasks + BatchRows(s, front), mid)
    requires i < |front| && Ends(s, front[i]) && Under(s.tasks, l.task, {front[i].lease.task})
    requires Owns(s, l) && forall k | 0 <= k < |front| :: front[k].lease.task != l.task
    ensures !Owns(mid, l)
  {
    BatchRevision(s, front);
    BatchEnds(s, front);
    BatchRowsExact(s, front);
    var all := s.tasks + BatchRows(s, front);
    var path :| |path| >= 2 && path[0] == l.task && path[|path| - 1] in {front[i].lease.task} && LiveChain(s.tasks, path);
    MeetsEnded(s.tasks, all, path, NewlyTerminal(s.tasks, all));
    assert l.task in Doomed(all, NewlyTerminal(s.tasks, all));
  }

  /** Exactly when batching is safe: a batch answers as the one-by-one writes do if and only if none is shadowed. */
  lemma BatchExact(s: State, rs: seq<Request>)
    requires Core(s) && AllFinishing(rs) && Distinct(rs)
    ensures (BatchState(s, rs) == SeqState(s, rs) && BatchAnswers(s, rs) == SeqAnswers(s, rs)) <==> Unshadowed(s, rs)
    ensures BatchAnswers(s, rs) == SeqAnswers(s, rs) <==> Unshadowed(s, rs)
  {
    if Unshadowed(s, rs) {
      BatchEqualsSequence(s, rs);
    } else {
      var j := FirstShadowed(s, rs, |rs|);
      ShadowedDiffers(s, rs, j);
    }
  }

  lemma {:induction false} FirstShadowed(s: State, rs: seq<Request>, n: nat) returns (j: nat)
    requires n <= |rs| && exists k | 0 <= k < n :: Shadowed(s, rs, k)
    ensures j < n && Shadowed(s, rs, j) && forall k | 0 <= k < j :: !Shadowed(s, rs, k)
  {
    if exists k | 0 <= k < n - 1 :: Shadowed(s, rs, k) {
      j := FirstShadowed(s, rs, n - 1);
    } else {
      j := n - 1;
    }
  }
}
