/**
  `TaskContext::step`: replay what an earlier attempt recorded, or run the operation and record it.
  Any number of calls run at once, from attempts whose leases come and go; a call may crash, and
  the database's answer may be lost after the write has landed.
*/
module Durable {
  import opened Common

  type CallId = nat
  type TaskId = nat
  type Lease = nat     // an attempt together with its token
  type Value = nat

  /** One step of one handler version of one task, in one occurrence. */
  datatype Key = Key(task: TaskId, version: nat, step: nat, occurrence: nat)

  datatype Progress =
    | Checking                  // about to look at the cancellation token
    | Reading                   // about to read the checkpoint
    | Operating                 // there was none: running the operation
    | Committing(mine: Value)   // about to record the operation's value
    | Returned(value: Value)
    | Failed                    // lease lost, operation failed, or the store's answer never came
    | Crashed

  datatype Call = Call(key: Key, lease: Lease, at: Progress)

  datatype World = World(
    calls: map<CallId, Call>,
    live: map<TaskId, Lease>,        // running tasks and the lease that owns each
    gone: set<TaskId>,               // deleted by retention, checkpoints and all
    cells: map<Key, Value>,          // the checkpoint table
    recorded: map<Key, Value>)       // history: the first value ever committed for a key

  datatype Step =
    | Begin(id: CallId, key: Key, lease: Lease)
    | Check(id: CallId, cancelled: bool)
    | Read(id: CallId, lost: bool)
    | Operate(id: CallId, result: Option<Value>)
    | Commit(id: CallId, lost: bool)
    | Crash(id: CallId)
    | Grant(task: TaskId, lease: Lease)
    | Revoke(task: TaskId)
    | Delete(task: TaskId)

  const Start := World(map[], map[], {}, map[], map[])

  predicate At(w: World, id: CallId, p: Progress) {
    id in w.calls && w.calls[id].at == p
  }

  predicate Enabled(w: World, s: Step) {
    match s
    case Begin(id, _, _) => id !in w.calls
    case Check(id, _) => At(w, id, Checking)
    case Read(id, _) => At(w, id, Reading)
    case Operate(id, _) => At(w, id, Operating)
    case Commit(id, _) => id in w.calls && w.calls[id].at.Committing?
    case Crash(id) => id in w.calls && !w.calls[id].at.Returned?
    case Grant(task, _) => task !in w.gone
    case Revoke(_) => true
    case Delete(task) => task !in w.live        // only finished tasks are deleted
  }

  function To(w: World, id: CallId, p: Progress): World
    requires id in w.calls
  {
    w.(calls := w.calls[id := w.calls[id].(at := p)])
  }

  /** `commit_checkpoint`: fenced on the live lease; an existing value is kept and handed back. */
  function CommitCheckpoint(w: World, c: Call): (World, Option<Value>)
    requires c.at.Committing?
  {
    if c.key.task !in w.live || w.live[c.key.task] != c.lease then (w, None)
    else if c.key in w.cells then (w, Some(w.cells[c.key]))
    else
      var recorded := if c.key in w.recorded then w.recorded else w.recorded[c.key := c.at.mine];
      (w.(cells := w.cells[c.key := c.at.mine], recorded := recorded), Some(c.at.mine))
  }

  function Next(w: World, s: Step): World
    requires Enabled(w, s)
  {
    match s
    case Begin(id, key, lease) => w.(calls := w.calls[id := Call(key, lease, Checking)])
    case Check(id, cancelled) => To(w, id, if cancelled then Failed else Reading)
    case Read(id, lost) =>
      var key := w.calls[id].key;
      To(w, id, if lost then Failed else if key in w.cells then Returned(w.cells[key]) else Operating)
    case Operate(id, result) => To(w, id, if result.Some? then Committing(result.value) else Failed)
    case Commit(id, lost) =>
      var done := CommitCheckpoint(w, w.calls[id]);
      To(done.0, id, if lost || done.1.None? then Failed else Returned(done.1.value))
    case Crash(id) => To(w, id, Crashed)
    case Grant(task, lease) => w.(live := w.live[task := lease])
    case Revoke(task) => w.(live := w.live - {task})
    case Delete(task) =>
      w.(gone := w.gone + {task}, cells := map k | k in w.cells && k.task != task :: w.cells[k])
  }

  ghost predicate Run(ws: seq<World>, steps: seq<Step>) {
    && |ws| == |steps| + 1
    && ws[0] == Start
    && forall i | 0 <= i < |steps| :: Enabled(ws[i], steps[i]) && ws[i + 1] == Next(ws[i], steps[i])
  }

  // -------------------------------------------------------------- invariant

  ghost predicate Agreed(w: World) {
    && (forall id | id in w.calls && w.calls[id].at.Returned? ::
          w.calls[id].key in w.recorded && w.calls[id].at.value == w.recorded[w.calls[id].key])
    && (forall k | k in w.cells :: k in w.recorded && w.cells[k] == w.recorded[k])
    && (forall k | k in w.recorded :: k in w.cells || k.task in w.gone)
    && w.live.Keys !! w.gone
    && (forall k | k in w.cells :: k.task !in w.gone)
  }

  lemma StepAgreed(w: World, s: Step)
    requires Agreed(w) && Enabled(w, s)
    ensures Agreed(Next(w, s))
    ensures forall k | k in w.recorded :: k in Next(w, s).recorded && Next(w, s).recorded[k] == w.recorded[k]
  {
  }

  lemma {:induction false} RunAgreed(ws: seq<World>, steps: seq<Step>, i: nat)
    requires Run(ws, steps) && i < |ws|
    ensures Agreed(ws[i])
    decreases i
  {
    if i > 0 {
      RunAgreed(ws, steps, i - 1);
      StepAgreed(ws[i - 1], steps[i - 1]);
    }
  }

  lemma {:induction false} RecordKept(ws: seq<World>, steps: seq<Step>, i: nat, j: nat, k: Key)
    requires Run(ws, steps) && i <= j < |ws| && k in ws[i].recorded
    ensures k in ws[j].recorded && ws[j].recorded[k] == ws[i].recorded[k]
    decreases j
  {
    if i < j {
      RecordKept(ws, steps, i, j - 1, k);
      RunAgreed(ws, steps, j - 1);
      StepAgreed(ws[j - 1], steps[j - 1]);
    }
  }

  // --------------------------------------------------------------- theorems

  /** Whenever and in whichever attempt two calls for one key return, they return the same value. */
  lemma SameValue(ws: seq<World>, steps: seq<Step>, i: nat, j: nat, a: CallId, b: CallId)
    requires Run(ws, steps) && i <= j < |ws| && a in ws[i].calls && b in ws[j].calls
    requires ws[i].calls[a].key == ws[j].calls[b].key && ws[i].calls[a].at.Returned? && ws[j].calls[b].at.Returned?
    ensures ws[i].calls[a].at.value == ws[j].calls[b].at.value
  {
    RunAgreed(ws, steps, i);
    RunAgreed(ws, steps, j);
    RecordKept(ws, steps, i, j, ws[i].calls[a].key);
  }

  /** A call that reads after a value was committed runs its operation if and only if the task was deleted meanwhile. */
  lemma RerunsOnlyDeleted(ws: seq<World>, steps: seq<Step>, i: nat, j: nat)
    requires Run(ws, steps) && i <= j < |steps| && steps[j].Read? && !steps[j].lost
    requires ws[j].calls[steps[j].id].key in ws[i].recorded
    ensures At(ws[j + 1], steps[j].id, Operating) <==> ws[j].calls[steps[j].id].key.task in ws[j].gone
    ensures !At(ws[j + 1], steps[j].id, Operating) ==>
      At(ws[j + 1], steps[j].id, Returned(ws[i].recorded[ws[j].calls[steps[j].id].key]))
  {
    RunAgreed(ws, steps, j);
    RecordKept(ws, steps, i, j, ws[j].calls[steps[j].id].key);
  }

  lemma Took(ws: seq<World>, steps: seq<Step>, s: Step) returns (ws': seq<World>, steps': seq<Step>)
    requires Run(ws, steps) && Enabled(ws[|ws| - 1], s)
    ensures Run(ws', steps') && steps' == steps + [s] && |ws'| == |ws| + 1 && ws'[|ws|] == Next(ws[|ws| - 1], s)
  {
    ws', steps' := ws + [Next(ws[|ws| - 1], s)], steps + [s];
  }

  /** A step is recorded, and its task ends. */
  lemma Recorded(k: Key, lease: Lease, mine: Value) returns (ws: seq<World>, steps: seq<Step>)
    ensures Run(ws, steps)
    ensures var w := ws[|ws| - 1]; w.recorded == map[k := mine] && k.task !in w.live && 1 !in w.calls
  {
    ws, steps := [Start], [];
    assert Run(ws, steps);
    hide Run;
    ws, steps := Took(ws, steps, Grant(k.task, lease));
    ws, steps := Took(ws, steps, Begin(0, k, lease));
    ws, steps := Took(ws, steps, Check(0, false));
    ws, steps := Took(ws, steps, Read(0, false));
    ws, steps := Took(ws, steps, Operate(0, Some(mine)));
    ws, steps := Took(ws, steps, Commit(0, false));
    ws, steps := Took(ws, steps, Revoke(k.task));
  }

  /** A run in which an operation is run again after its value was recorded: the task is deleted in between. */
  lemma RerunAfterDeletion(k: Key, lease: Lease, mine: Value) returns (ws: seq<World>, steps: seq<Step>)
    ensures Run(ws, steps)
    ensures ws[|ws| - 1].recorded == map[k := mine] && At(ws[|ws| - 1], 1, Operating) && ws[|ws| - 1].calls[1].key == k
  {
    ws, steps := Recorded(k, lease, mine);
    assert ws[|ws| - 1].recorded == map[k := mine];
    hide Run;
    ws, steps := Took(ws, steps, Delete(k.task));
    ws, steps := Took(ws, steps, Begin(1, k, lease));
    ws, steps := Took(ws, steps, Check(1, false));
    ws, steps := Took(ws, steps, Read(1, false));
  }

  /** What is recorded is what some call's own operation produced, and its lease owned the task as it was recorded. */
  lemma RecordedByOwner(w: World, s: Step, k: Key)
    requires Agreed(w) && Enabled(w, s) && k !in w.recorded && k in Next(w, s).recorded
    ensures s.Commit? && w.calls[s.id].key == k && w.calls[s.id].at == Committing(Next(w, s).recorded[k])
    ensures k.task in w.live && w.live[k.task] == w.calls[s.id].lease
  {
  }

  // ---------------------------------------------------- how a call moves

  /** The call's lease owns its task. */
  predicate Owned(w: World, c: Call) {
    c.key.task in w.live && w.live[c.key.task] == c.lease
  }

  /**
    Where a call is after a step. It reads only if it was not cancelled, operates only if it found no value, and
    returns exactly by finding one or by committing while its lease owns the task; it fails exactly when it was
    cancelled, its operation failed, an answer was lost, or another lease owns the task. Returned, it stays so.
  */
  lemma MovesExactly(w: World, s: Step, id: CallId)
    requires Enabled(w, s) && id in w.calls
    ensures id in Next(w, s).calls
    ensures Next(w, s).calls[id].key == w.calls[id].key && Next(w, s).calls[id].lease == w.calls[id].lease
    ensures var c, at, at' := w.calls[id], w.calls[id].at, Next(w, s).calls[id].at;
      && (at.Returned? ==> at' == at)
      && (at' == Reading && at != Reading <==> s == Check(id, false))
      && (at' == Operating && at != Operating <==> s == Read(id, false) && c.key !in w.cells)
      && (s.Operate? && s.id == id && s.result.Some? ==> at' == Committing(s.result.value))
      && (at'.Committing? && at' != at ==> s.Operate? && s.id == id && s.result == Some(at'.mine))
      && (at'.Returned? && at' != at <==>
            || (s == Read(id, false) && c.key in w.cells && at'.value == w.cells[c.key])
            || (s == Commit(id, false) && Owned(w, c) && at'.value == if c.key in w.cells then w.cells[c.key] else at.mine))
      && (at' == Failed && at != Failed <==>
            || s == Check(id, true) || s == Read(id, true) || s == Operate(id, None)
            || s == Commit(id, true) || (s == Commit(id, false) && !Owned(w, c)))
      && (at' == Crashed <==> s == Crash(id) || at == Crashed)
  {
  }

  /** A checkpoint is there until its task is deleted, and is put there exactly by a commit under the owning lease. */
  lemma CellsExactly(w: World, s: Step, k: Key)
    requires Enabled(w, s)
    ensures var commits := s.Commit? && w.calls[s.id].key == k && Owned(w, w.calls[s.id]);
      && (k in Next(w, s).cells <==> (k in w.cells && s != Delete(k.task)) || commits)
      && (k in Next(w, s).cells ==> Next(w, s).cells[k] == if k in w.cells then w.cells[k] else w.calls[s.id].at.mine)
  {
  }

  // ------------------------------------------------- the write-once register

  datatype RegisterState = RegisterState(written: bool, value: Value)

  datatype Output = Unknown | Fenced | Told(value: Value) | Absent

  datatype Event = Event(write: Option<Value>, out: Output)

  /** The states the register may be in after one operation that got this answer. */
  function RegisterSteps(s: RegisterState, e: Event): set<RegisterState> {
    match e.write
    case None => (
      match e.out
      case Unknown => {s}
      case Absent => if s.written then {} else {s}
      case Told(v) => if s.written && v == s.value then {s} else {}
      case Fenced => {})
    case Some(mine) => (
      match e.out
      case Unknown => if s.written then {s} else {s, RegisterState(true, mine)}
      case Fenced => {s}
      case Told(v) =>
        if s.written then (if v == s.value then {s} else {})
        else if v == mine then {RegisterState(true, v)} else {}
      case Absent => {})
  }

  function View(w: World, k: Key): RegisterState {
    if k in w.recorded then RegisterState(true, w.recorded[k]) else RegisterState(false, 0)
  }

  /** The operation on `k`'s register that the step completes, as its caller hears of it. */
  function Completes(w: World, s: Step, k: Key): Option<Event>
    requires Enabled(w, s)
  {
    match s
    case Read(id, lost) =>
      if w.calls[id].key != k then None
      else Some(Event(None, if lost then Unknown else if k in w.cells then Told(w.cells[k]) else Absent))
    case Commit(id, lost) =>
      if w.calls[id].key != k then None
      else
        var told := CommitCheckpoint(w, w.calls[id]).1;
        Some(Event(Some(w.calls[id].at.mine), if lost then Unknown else if told.Some? then Told(told.value) else Fenced))
    case _ => None
  }

  /** While the task is not deleted, each step is one the register allows. */
  lemma StepIsRegister(w: World, s: Step, k: Key)
    requires Agreed(w) && Enabled(w, s) && k.task !in w.gone
    ensures Completes(w, s, k).None? ==> View(Next(w, s), k) == View(w, k)
    ensures Completes(w, s, k).Some? ==> View(Next(w, s), k) in RegisterSteps(View(w, k), Completes(w, s, k).value)
  {
  }

  ghost predicate Explains(h: seq<Event>, s: RegisterState) {
    if h == [] then s == RegisterState(false, 0)
    else
      var earlier, last := h[..|h| - 1], h[|h| - 1];
      exists before :: Explains(earlier, before) && s in RegisterSteps(before, last)
  }

  ghost function History(ws: seq<World>, steps: seq<Step>, k: Key, n: nat): seq<Event>
    requires Run(ws, steps) && n <= |steps|
  {
    if n == 0 then []
    else
      var h := History(ws, steps, k, n - 1);
      match Completes(ws[n - 1], steps[n - 1], k)
      case None => h
      case Some(e) => h + [e]
  }

  /** Every run's operations on a key, in the order they took effect, are a history of the write-once register. */
  lemma {:induction false} RunsLinearize(ws: seq<World>, steps: seq<Step>, k: Key, n: nat)
    requires Run(ws, steps) && n <= |steps| && k.task !in ws[n].gone
    ensures Explains(History(ws, steps, k, n), View(ws[n], k))
  {
    hide Next, Completes, RegisterSteps, View, Agreed, Explains;
    if n > 0 {
      GoneGrows(ws[n - 1], steps[n - 1]);
      RunsLinearize(ws, steps, k, n - 1);
      RunAgreed(ws, steps, n - 1);
      StepIsRegister(ws[n - 1], steps[n - 1], k);
      match Completes(ws[n - 1], steps[n - 1], k)
      case None =>
      case Some(e) => ExplainsMore(History(ws, steps, k, n - 1), e, View(ws[n - 1], k), View(ws[n], k));
    } else {
      NothingYet(k);
    }
  }

  lemma NothingYet(k: Key)
    ensures Explains([], View(Start, k))
  {
  }

  lemma GoneGrows(w: World, s: Step)
    requires Enabled(w, s)
    ensures w.gone <= Next(w, s).gone
  {
  }

  lemma ExplainsMore(h: seq<Event>, e: Event, before: RegisterState, s: RegisterState)
    requires Explains(h, before) && s in RegisterSteps(before, e)
    ensures Explains(h + [e], s)
  {
    assert (h + [e])[..|h|] == h;
  }

  /** Once the task is deleted no call for the key is told a value any more, and the register stays as it was. */
  lemma SilentOnceDeleted(w: World, s: Step, k: Key)
    requires Agreed(w) && Enabled(w, s) && k.task in w.gone
    ensures View(Next(w, s), k) == View(w, k)
    ensures Completes(w, s, k).Some? ==> !Completes(w, s, k).value.out.Told?
    ensures k.task in Next(w, s).gone
  {
  }
}
