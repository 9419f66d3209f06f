/**
  Parking a task on something that has not happened yet, against the transaction that makes
  it happen. Reading and committing are separate steps, and only committed writes are visible
  to others, so two transactions can each miss the other. Any number of waiters and wakers
  share one source (a signal, or a child task); each transaction has its own identifier.
*/
module WaitProtocol {
  import opened Common

  type Tx = nat

  /** `sourceLocked`: a waiter holds, from read to commit, a row lock the waker's write needs. */
  datatype Config = Config(sourceLocked: bool, recheck: bool)

  datatype Waiter = Reading | Registering | Rechecking | Parking | Resumed | Parked | Lost | WaitAborted

  datatype Waker = Writing | Scanning | Closing(saw: set<Tx>) | Done | WakeAborted

  datatype World = World(
    waiters: map<Tx, Waiter>,
    wakers: map<Tx, Waker>,
    owner: Option<Tx>,      // who holds the conflicting row lock
    source: bool,           // committed: what is waited for has happened
    parked: set<Tx>)        // committed: tasks in `waiting` whose wait is unresolved

  datatype Action =
    | StartWait(tx: Tx) | Fence(tx: Tx) | Read(tx: Tx) | Register(tx: Tx) | Recheck(tx: Tx) | Park(tx: Tx) | AbortWait(tx: Tx)
    | StartWake(tx: Tx) | Write(tx: Tx) | Scan(tx: Tx) | Commit(tx: Tx) | AbortWake(tx: Tx)
    | Observe(tx: Tx)

  const Start := World(map[], map[], None, false, {})

  predicate At(w: World, tx: Tx, pc: Waiter) {
    tx in w.waiters && w.waiters[tx] == pc
  }

  predicate WakerAt(w: World, tx: Tx, pc: Waker) {
    tx in w.wakers && w.wakers[tx] == pc
  }

  predicate Free(c: Config, w: World) {
    c.sourceLocked ==> w.owner.None?
  }

  predicate Enabled(c: Config, w: World, a: Action) {
    match a
    case StartWait(tx) => tx !in w.waiters && tx !in w.wakers
    case Fence(tx) => At(w, tx, Reading)                       // the lease has moved on
    case Read(tx) => At(w, tx, Reading) && Free(c, w)          // blocks while the waker holds the row
    case Register(tx) => At(w, tx, Registering)
    case Recheck(tx) => At(w, tx, Rechecking)
    case Park(tx) => At(w, tx, Parking)
    case AbortWait(tx) =>
      At(w, tx, Reading) || At(w, tx, Registering) || At(w, tx, Rechecking) || At(w, tx, Parking)
    case StartWake(tx) => tx !in w.waiters && tx !in w.wakers
    case Write(tx) => WakerAt(w, tx, Writing) && Free(c, w)    // blocks while a waiter holds the row
    case Scan(tx) => WakerAt(w, tx, Scanning)
    case Commit(tx) => tx in w.wakers && w.wakers[tx].Closing?
    case AbortWake(tx) =>
      WakerAt(w, tx, Writing) || WakerAt(w, tx, Scanning) || (tx in w.wakers && w.wakers[tx].Closing?)
    case Observe(_) => true
  }

  function Take(c: Config, tx: Tx): Option<Tx> {
    if c.sourceLocked then Some(tx) else None
  }

  function Drop(w: World, tx: Tx): Option<Tx> {
    if w.owner == Some(tx) then None else w.owner
  }

  function Next(c: Config, w: World, a: Action): World
    requires Enabled(c, w, a)
  {
    match a
    case StartWait(tx) => w.(waiters := w.waiters[tx := Reading])
    case Fence(tx) => w.(waiters := w.waiters[tx := Lost])
    case Read(tx) =>
      if w.source then w.(waiters := w.waiters[tx := Resumed])  // `ready`: the transaction ends
      else w.(waiters := w.waiters[tx := Registering], owner := Take(c, tx))
    case Register(tx) => w.(waiters := w.waiters[tx := if c.recheck then Rechecking else Parking])
    case Recheck(tx) =>
      if w.source then w.(waiters := w.waiters[tx := Resumed], owner := Drop(w, tx))
      else w.(waiters := w.waiters[tx := Parking])
    case Park(tx) =>
      w.(waiters := w.waiters[tx := Parked], parked := w.parked + {tx}, owner := Drop(w, tx))
    case AbortWait(tx) => w.(waiters := w.waiters[tx := WaitAborted], owner := Drop(w, tx))
    case StartWake(tx) => w.(wakers := w.wakers[tx := Writing])
    case Write(tx) => w.(wakers := w.wakers[tx := Scanning], owner := Take(c, tx))
    case Scan(tx) => w.(wakers := w.wakers[tx := Closing(w.parked)])
    case Commit(tx) =>
      w.(wakers := w.wakers[tx := Done], source := true, parked := w.parked - w.wakers[tx].saw, owner := Drop(w, tx))
    case AbortWake(tx) => w.(wakers := w.wakers[tx := WakeAborted], owner := Drop(w, tx))
    case Observe(_) => w
  }

  /** A run: worlds joined by enabled actions. */
  ghost predicate Execution(c: Config, ws: seq<World>, acts: seq<Action>) {
    && |ws| == |acts| + 1
    && ws[0] == Start
    && forall i | 0 <= i < |acts| :: Enabled(c, ws[i], acts[i]) && ws[i + 1] == Next(c, ws[i], acts[i])
  }

  // ----------------------------------------------------- what a step does

  /**
    With the lock or without, where a wait is after a step. It goes on without parking exactly when a look at the source
    finds it, and is parked, fenced or aborted exactly by those steps.
  */
  lemma MovesExactly(c: Config, w: World, a: Action, tx: Tx)
    requires Enabled(c, w, a) && tx in w.waiters && w.waiters.Keys !! w.wakers.Keys
    ensures tx in Next(c, w, a).waiters
    ensures var at, at' := w.waiters[tx], Next(c, w, a).waiters[tx];
      && (at' == Resumed && at != Resumed <==> (a == Read(tx) || a == Recheck(tx)) && w.source)
      && (at' == Parked && at != Parked <==> a == Park(tx))
      && (at' == Lost && at != Lost <==> a == Fence(tx))
      && (at' == WaitAborted && at != WaitAborted <==> a == AbortWait(tx))
      && (at' == Registering && at != Registering <==> a == Read(tx) && !w.source)
      && (at' == Rechecking && at != Rechecking <==> a == Register(tx) && c.recheck)
      && (at' == Parking && at != Parking <==> (a == Register(tx) && !c.recheck) || (a == Recheck(tx) && !w.source))
      && (at' == Reading ==> at == Reading)
  {
  }

  /** The source happens exactly by a commit, which wakes exactly the tasks its scan saw; only parking adds one. */
  lemma WorldExactly(c: Config, w: World, a: Action)
    requires Enabled(c, w, a)
    ensures Next(c, w, a).source <==> w.source || a.Commit?
    ensures forall tx ::
      tx in Next(c, w, a).parked <==> a == Park(tx) || (tx in w.parked && (a.Commit? ==> tx !in w.wakers[a.tx].saw))
    ensures forall tx | a == Scan(tx) :: Next(c, w, a).wakers[tx] == Closing(w.parked)
  {
  }

  // ------------------------------------------------------------- the promise

  /** No task sits in `waiting` for something that has happened. */
  predicate NoLostWakeup(w: World) {
    w.source ==> w.parked == {}
  }

  /** Worse than late: every waker is through, and a task still waits for what they did. */
  ghost predicate Stuck(w: World) {
    && w.source && w.parked != {}
    && forall tx | tx in w.wakers :: w.wakers[tx].Done? || w.wakers[tx].WakeAborted?
  }

  /** A waiter has decided to park, or a waker has scanned, only while holding the row. */
  ghost predicate LockInv(w: World) {
    && (forall tx | tx in w.waiters && (w.waiters[tx].Registering? || w.waiters[tx].Rechecking? || w.waiters[tx].Parking?) ::
          w.owner == Some(tx) && !w.source)
    && (forall tx | tx in w.wakers && (w.wakers[tx].Scanning? || w.wakers[tx].Closing?) :: w.owner == Some(tx))
    && (forall tx | tx in w.wakers && w.wakers[tx].Closing? :: w.wakers[tx].saw == w.parked)
    && w.waiters.Keys !! w.wakers.Keys
    && NoLostWakeup(w)
  }

  lemma LockStep(c: Config, w: World, a: Action)
    requires c.sourceLocked && LockInv(w) && Enabled(c, w, a)
    ensures LockInv(Next(c, w, a))
  {
  }

  lemma {:induction false} LockHolds(c: Config, ws: seq<World>, acts: seq<Action>, i: nat)
    requires c.sourceLocked && Execution(c, ws, acts) && i < |ws|
    ensures LockInv(ws[i])
    decreases i
  {
    if i > 0 {
      LockHolds(c, ws, acts, i - 1);
      LockStep(c, ws[i - 1], acts[i - 1]);
    }
  }

  /** The exposed windows of a waiter and a waker never overlap. */
  lemma NoConcurrentRegistration(c: Config, ws: seq<World>, acts: seq<Action>, i: nat, waiter: Tx, waker: Tx)
    requires c.sourceLocked && Execution(c, ws, acts) && i < |ws| && waiter in ws[i].waiters && waker in ws[i].wakers
    requires ws[i].waiters[waiter].Registering? || ws[i].waiters[waiter].Rechecking? || ws[i].waiters[waiter].Parking?
    ensures !ws[i].wakers[waker].Scanning? && !ws[i].wakers[waker].Closing?
  {
    LockHolds(c, ws, acts, i);
  }

  /** The transaction has read or written under the lock, and has neither committed nor aborted. */
  predicate Exposed(w: World, tx: Tx) {
    || At(w, tx, Registering) || At(w, tx, Rechecking) || At(w, tx, Parking)
    || WakerAt(w, tx, Scanning) || (tx in w.wakers && w.wakers[tx].Closing?)
  }

  /** The row is held by exactly the transaction that is at it, so it is always let go again. */
  lemma {:induction false} OwnerIsOpen(c: Config, ws: seq<World>, acts: seq<Action>, i: nat, tx: Tx)
    requires c.sourceLocked && Execution(c, ws, acts) && i < |ws|
    ensures ws[i].owner == Some(tx) <==> Exposed(ws[i], tx)
    decreases i
  {
    if i > 0 {
      OwnerIsOpen(c, ws, acts, i - 1, tx);
      LockHolds(c, ws, acts, i - 1);
      LockHolds(c, ws, acts, i);
      OwnerStep(c, ws[i - 1], acts[i - 1], tx);
    }
  }

  lemma OwnerStep(c: Config, w: World, a: Action, tx: Tx)
    requires c.sourceLocked && LockInv(w) && Enabled(c, w, a) && (w.owner == Some(tx) <==> Exposed(w, tx))
    ensures Next(c, w, a).owner == Some(tx) <==> Exposed(Next(c, w, a), tx)
  {
  }

  /** A transaction that has begun and not ended. */
  predicate Open(w: World, tx: Tx) {
    Exposed(w, tx) || At(w, tx, Reading) || WakerAt(w, tx, Writing)
  }

  /** What a transaction does next of its own accord, short of giving up. */
  function Proceeds(w: World, tx: Tx): Action
    requires Open(w, tx)
  {
    if tx in w.waiters then
      match w.waiters[tx]
      case Reading => Read(tx)
      case Registering => Register(tx)
      case Rechecking => Recheck(tx)
      case _ => Park(tx)
    else
      match w.wakers[tx]
      case Writing => Write(tx)
      case Scanning => Scan(tx)
      case _ => Commit(tx)
  }

  /** No deadlock: whoever is open, that transaction or the one that holds the row can go on. */
  lemma SomeoneProceeds(c: Config, ws: seq<World>, acts: seq<Action>, i: nat, tx: Tx)
    requires c.sourceLocked && Execution(c, ws, acts) && i < |ws| && Open(ws[i], tx)
    ensures var w := ws[i];
      || Enabled(c, w, Proceeds(w, tx))
      || (w.owner.Some? && w.owner.value != tx && Exposed(w, w.owner.value) && Enabled(c, w, Proceeds(w, w.owner.value)))
  {
    LockHolds(c, ws, acts, i);
    if ws[i].owner.Some? {
      OwnerIsOpen(c, ws, acts, i, ws[i].owner.value);
    }
    OwnerIsOpen(c, ws, acts, i, tx);
  }

  // ------------------------------------------------ exactly when it is kept

  /** Without the lock, a waiter that reads before and parks after the waker's scan is lost, recheck or not. */
  function LosingRun(c: Config): seq<Action> {
    [StartWait(0), StartWake(1), Read(0), Register(0)]
    + (if c.recheck then [Recheck(0)] else [])
    + [Write(1), Scan(1), Commit(1), Park(0)]
  }

  lemma LosesWithoutLock(c: Config) returns (ws: seq<World>)
    requires !c.sourceLocked
    ensures Execution(c, ws, LosingRun(c)) && Stuck(ws[|ws| - 1]) && 0 in ws[|ws| - 1].parked
    ensures Told(c, ws, LosingRun(c)) == LosingCalls[..2]
  {
    hide Execution, Told;
    var acts: seq<Action>;
    ws, acts := BeforeTheWake(c);
    ws, acts := Tells(c, ws, acts, Write(1));
    ws, acts := Tells(c, ws, acts, Scan(1));
    ws, acts := Tells(c, ws, acts, Commit(1));
    ws, acts := Tells(c, ws, acts, Park(0));
    assert acts == LosingRun(c);
  }

  lemma BeforeTheWake(c: Config) returns (ws: seq<World>, acts: seq<Action>)
    requires !c.sourceLocked
    ensures Execution(c, ws, acts)
    ensures acts == [StartWait(0), StartWake(1), Read(0), Register(0)] + if c.recheck then [Recheck(0)] else []
    ensures ws[|ws| - 1] == World(map[0 := Parking], map[1 := Writing], None, false, {}) && Told(c, ws, acts) == []
  {
    ws, acts := [Start], [];
    assert Execution(c, ws, acts) && Told(c, ws, acts) == [];
    hide Execution, Told;
    ws, acts := Tells(c, ws, acts, StartWait(0));
    ws, acts := Tells(c, ws, acts, StartWake(1));
    ws, acts := Tells(c, ws, acts, Read(0));
    ws, acts := Tells(c, ws, acts, Register(0));
    if c.recheck {
      ws, acts := Tells(c, ws, acts, Recheck(0));
    }
  }

  /** No wake-up is lost in any run, of any number of transactions, if and only if the source is locked. */
  lemma SafeIffLocked(c: Config)
    ensures c.sourceLocked <==>
      forall ws, acts | Execution(c, ws, acts) :: NoLostWakeup(ws[|ws| - 1])
  {
    if c.sourceLocked {
      forall ws, acts | Execution(c, ws, acts)
        ensures NoLostWakeup(ws[|ws| - 1])
      {
        LockHolds(c, ws, acts, |ws| - 1);
      }
    } else {
      var ws := LosesWithoutLock(c);
      assert Execution(c, ws, LosingRun(c)) && !NoLostWakeup(ws[|ws| - 1]);
    }
  }

  // ------------------------------------------------------- the atomic object

  /** One task and its source, as the linearizability checker sees them. */
  datatype WaitState = WaitState(source: bool, parked: bool)

  datatype Answer = Ready | Waiting | FencedOut | Woke | Seen(parked: bool) | Unknown

  datatype Call = Wait | Wake | Look

  datatype Event = Event(call: Call, answer: Answer)

  /** The states the object may be in after one call that got this answer; none if no order explains it. */
  function WaitSteps(s: WaitState, e: Event): set<WaitState> {
    match e.call
    case Wait => (
      match e.answer
      case Unknown => if s.source then {s} else {s, WaitState(false, true)}
      case Ready => if s.source then {s} else {}
      case Waiting => if s.source then {} else {WaitState(false, true)}
      case FencedOut => {s}
      case _ => {})
    case Wake => if e.answer.Unknown? then {s, WaitState(true, false)} else {WaitState(true, false)}
    case Look => if e.answer.Unknown? || e.answer == Seen(s.parked) then {s} else {}
  }

  /** Some sequence of states of the object, from nothing parked and nothing happened, matches the calls and ends in `s`. */
  ghost predicate Explains(h: seq<Event>, s: WaitState) {
    if h == [] then s == WaitState(false, false)
    else
      var earlier, last := h[..|h| - 1], h[|h| - 1];
      exists before :: Explains(earlier, before) && s in WaitSteps(before, last)
  }

  function View(w: World, task: Tx): WaitState {
    WaitState(w.source, task in w.parked)
  }

  /** What the step completes of the operations on `task`'s object, as its caller is told of it. */
  function Completes(c: Config, w: World, a: Action, task: Tx): Option<Event>
    requires Enabled(c, w, a)
  {
    match a
    case Fence(tx) => if tx == task then Some(Event(Wait, FencedOut)) else None
    case Read(tx) => if tx == task && w.source then Some(Event(Wait, Ready)) else None
    case Recheck(tx) => if tx == task && w.source then Some(Event(Wait, Ready)) else None
    case Park(tx) => if tx == task then Some(Event(Wait, Waiting)) else None
    case AbortWait(tx) => if tx == task then Some(Event(Wait, Unknown)) else None
    case Commit(_) => Some(Event(Wake, Woke))
    case AbortWake(_) => Some(Event(Wake, Unknown))
    case Observe(tx) => if tx == task then Some(Event(Look, Seen(task in w.parked))) else None
    case _ => None
  }

  /** The answer may be cut off on its way to the caller. */
  function Heard(e: Event, cut: bool): Event {
    if cut then e.(answer := Unknown) else e
  }

  ghost function History(c: Config, ws: seq<World>, acts: seq<Action>, task: Tx, cut: nat -> bool, n: nat): seq<Event>
    requires Execution(c, ws, acts) && n <= |acts|
    decreases n
  {
    if n == 0 then []
    else
      var h := History(c, ws, acts, task, cut, n - 1);
      match Completes(c, ws[n - 1], acts[n - 1], task)
      case None => h
      case Some(e) => h + [Heard(e, cut(n - 1))]
  }

  /** Under the lock a step changes a task's object only as the call it completes allows. */
  lemma StepRefines(c: Config, w: World, a: Action, task: Tx, cut: bool)
    requires c.sourceLocked && LockInv(w) && Enabled(c, w, a)
    ensures Completes(c, w, a, task).None? ==> View(Next(c, w, a), task) == View(w, task)
    ensures Completes(c, w, a, task).Some? ==>
      View(Next(c, w, a), task) in WaitSteps(View(w, task), Heard(Completes(c, w, a, task).value, cut))
  {
  }

  /** Every run of every number of waiters and wakers is explained, task by task, by the atomic object. */
  lemma {:induction false} RunsLinearize(c: Config, ws: seq<World>, acts: seq<Action>, task: Tx, cut: nat -> bool, n: nat)
    requires c.sourceLocked && Execution(c, ws, acts) && n <= |acts|
    ensures Explains(History(c, ws, acts, task, cut, n), View(ws[n], task))
    decreases n
  {
    if n > 0 {
      RunsLinearize(c, ws, acts, task, cut, n - 1);
      LockHolds(c, ws, acts, n - 1);
      StepRefines(c, ws[n - 1], acts[n - 1], task, cut(n - 1));
      var h := History(c, ws, acts, task, cut, n - 1);
      match Completes(c, ws[n - 1], acts[n - 1], task)
      case None =>
      case Some(e) => assert (h + [Heard(e, cut(n - 1))])[..|h|] == h;
    }
  }

  // ------------------------------------------- the losing run, as it is seen

  predicate Uncut(i: nat) {
    false
  }

  /** What task 0's callers have been told by the end of a run in which no answer is cut off. */
  ghost function Told(c: Config, ws: seq<World>, acts: seq<Action>): seq<Event>
    requires Execution(c, ws, acts)
  {
    History(c, ws, acts, 0, Uncut, |acts|)
  }

  lemma {:induction false} HistoryExtends(c: Config, ws: seq<World>, acts: seq<Action>, w: World, a: Action, n: nat)
    requires Execution(c, ws, acts) && Execution(c, ws + [w], acts + [a]) && n <= |acts|
    ensures History(c, ws + [w], acts + [a], 0, Uncut, n) == History(c, ws, acts, 0, Uncut, n)
  {
    if n > 0 {
      HistoryExtends(c, ws, acts, w, a, n - 1);
    }
  }

  lemma Tells(c: Config, ws: seq<World>, acts: seq<Action>, a: Action) returns (ws': seq<World>, acts': seq<Action>)
    requires Execution(c, ws, acts) && Enabled(c, ws[|ws| - 1], a)
    ensures Execution(c, ws', acts') && acts' == acts + [a] && ws'[|ws'| - 1] == Next(c, ws[|ws| - 1], a)
    ensures Told(c, ws', acts') == Told(c, ws, acts)
      + (match Completes(c, ws[|ws| - 1], a, 0) case None => [] case Some(e) => [e])
  {
    ws', acts' := ws + [Next(c, ws[|ws| - 1], a)], acts + [a];
    HistoryExtends(c, ws, acts, ws'[|ws|], a, |acts|);
  }

  /** The losing run, with one more look at the task, is told of these calls. */
  const LosingCalls: seq<Event> := [Event(Wake, Woke), Event(Wait, Waiting), Event(Look, Seen(true))]

  lemma LosingRunTold(c: Config) returns (ws: seq<World>, acts: seq<Action>)
    requires !c.sourceLocked
    ensures acts == LosingRun(c) + [Observe(0)] && Execution(c, ws, acts) && Told(c, ws, acts) == LosingCalls
  {
    ws := LosesWithoutLock(c);
    hide Execution, Told;
    ws, acts := Tells(c, ws, LosingRun(c), Observe(0));
  }

  /** Its wait and its wake overlap, so either may come first, and neither order explains the task being seen parked. */
  lemma LostRunUnexplained(c: Config, s: WaitState)
    requires !c.sourceLocked
    ensures exists ws :: Execution(c, ws, LosingRun(c) + [Observe(0)]) && Told(c, ws, LosingRun(c) + [Observe(0)]) == LosingCalls
    ensures !Explains(LosingCalls, s)
    ensures !Explains([LosingCalls[1], LosingCalls[0], LosingCalls[2]], s)
  {
    var ws, acts := LosingRunTold(c);
    CallsUnexplained(s);
  }

  lemma CallsUnexplained(s: WaitState)
    ensures !Explains([Event(Wake, Woke), Event(Wait, Waiting), Event(Look, Seen(true))], s)
    ensures !Explains([Event(Wait, Waiting), Event(Wake, Woke), Event(Look, Seen(true))], s)
  {
  }
}
