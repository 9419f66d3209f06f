/**
  Runs of one worker's lease table: handlers start and finish, renewals are asked for and answered
  or fail, and the table moves on between the question and the answer.
*/
module LeaseRuns {
  import opened Common
  import opened ActiveLeases

  datatype World = World(
    active: map<TaskId, Entry>,
    cancelled: set<Cancel>,
    running: set<Renewal>,      // handlers that have not finished
    asked: seq<Entry>,          // the snapshot the pending renewal was sent for
    minted: Cancel)

  datatype Step =
    | Spawn(renewal: Renewal, now: int)
    | Finish(renewal: Renewal)
    | Ask(leases: seq<Entry>)
    | Answered(renewed: set<TaskId>, now: int)
    | Errored(clock: seq<int>)
    | FailedTick(now: int)      // asked and failed at once, on time

  const Start := World(map[], {}, {}, [], 0)

  ghost predicate Enabled(w: World, s: Step) {
    match s
    case Spawn(renewal, _) => renewal !in w.running
    case Finish(renewal) => renewal in w.running
    case Ask(leases) => forall e :: e in leases <==> e in w.active.Values
    case Answered(_, _) => true
    case Errored(clock) => |clock| == |w.asked|
    case FailedTick(_) => true
  }

  predicate Late(duration: nat, renewed: int, now: int) {
    now - renewed >= duration * 2 / 3
  }

  /** What a failed renewal at one instant cancels, of a table it has just been shown. */
  ghost function OverdueAt(active: map<TaskId, Entry>, now: int, duration: nat): set<Cancel> {
    set t | t in active && Late(duration, active[t].lastRenewed, now) :: active[t].lost
  }

  ghost function Next(w: World, s: Step, duration: nat): World
    requires Enabled(w, s)
  {
    match s
    case Spawn(renewal, now) =>
      w.(active := w.active[renewal.task := Entry(renewal, w.minted, now)], running := w.running + {renewal}, minted := w.minted + 1)
    case Finish(renewal) => w.(active := w.active - {renewal.task}, running := w.running - {renewal})
    case Ask(leases) => w.(asked := leases)
    case Answered(renewed, now) =>
      w.(active := AfterRenewal(w.active, w.asked, renewed, now), cancelled := w.cancelled + NotRenewed(w.active, w.asked, renewed))
    case Errored(clock) => w.(cancelled := w.cancelled + Overdue(w.active, w.asked, clock, duration))
    case FailedTick(now) => w.(cancelled := w.cancelled + OverdueAt(w.active, now, duration))
  }

  /** An instant of failure is what the table's own method does with a snapshot of itself read at that instant. */
  lemma FailedTickIsCancelUncertain(active: map<TaskId, Entry>, leases: seq<Entry>, now: int, duration: nat)
    requires Filed(active) && forall e :: e in leases <==> e in active.Values
    ensures OverdueAt(active, now, duration) == Overdue(active, leases, seq(|leases|, _ => now), duration)
  {
    var clock := seq(|leases|, _ => now);
    forall t | t in active
      ensures Uncertain(leases, clock, duration, active[t]) <==> now - active[t].lastRenewed >= duration * 2 / 3
    {
      assert active[t] in active.Values;
      var i :| 0 <= i < |leases| && leases[i] == active[t];
      assert leases[i].renewal == active[t].renewal && clock[i] == now;
      if Uncertain(leases, clock, duration, active[t]) {
        var k :| 0 <= k < |leases| && leases[k].renewal == active[t].renewal && clock[k] - leases[k].lastRenewed >= duration * 2 / 3;
        assert leases[k] in leases;
        var u :| u in active && active[u] == leases[k];
        assert u == t;
      }
    }
  }

  ghost predicate Run(ws: seq<World>, steps: seq<Step>, duration: nat) {
    && |ws| == |steps| + 1
    && ws[0] == Start
    && forall i | 0 <= i < |steps| :: Enabled(ws[i], steps[i]) && ws[i + 1] == Next(ws[i], steps[i], duration)
  }

  /** The world whose table is this object. */
  ghost function WorldOf(table: Leases, running: set<Renewal>, asked: seq<Entry>, minted: Cancel): World
    reads table
  {
    World(table.active, table.cancelled, running, asked, minted)
  }

  /**
    The steps are what the worker does to its table: a handler starts by filing its entry and ends by taking
    it out, a renewal asks with a snapshot, and its outcome is worked off by the two loops. `done` is the step,
    with the snapshot that was taken in place of the one it names.
  */
  method Execute(table: Leases, s: Step, duration: nat, asked: seq<Entry>, minted: Cancel, ghost running: set<Renewal>)
    returns (asked': seq<Entry>, ghost done: Step)
    requires Filed(table.active) && (!s.Ask? ==> Enabled(WorldOf(table, running, asked, minted), s))
    modifies table
    ensures if s.Ask? then done.Ask? else done == s
    ensures old(Enabled(WorldOf(table, running, asked, minted), done)) && Filed(table.active)
    ensures var after := Next(old(WorldOf(table, running, asked, minted)), done, duration);
      table.active == after.active && table.cancelled == after.cancelled && asked' == after.asked
  {
    asked', done := asked, s;
    match s
    case Spawn(renewal, now) => table.Insert(Entry(renewal, minted, now));
    case Finish(renewal) => table.Remove(renewal.task);
    case Ask(_) =>
      asked' := table.Snapshot();
      done := Ask(asked');
    case Answered(renewed, now) => table.UpdateRenewed(asked, renewed, now);
    case Errored(clock) => table.CancelUncertain(asked, clock, duration);
    case FailedTick(now) =>
      var leases := table.Snapshot();
      FailedTickIsCancelUncertain(table.active, leases, now, duration);
      table.CancelUncertain(leases, seq(|leases|, _ => now), duration);
  }

  /** Entries are filed under their tasks, and no two share a cancellation token. */
  ghost predicate Sound(w: World) {
    && Filed(w.active)
    && (forall t | t in w.active :: w.active[t].lost < w.minted)
    && (forall t, u | t in w.active && u in w.active && w.active[t].lost == w.active[u].lost :: t == u)
    && (forall c | c in w.cancelled :: c < w.minted)
  }

  lemma StepSound(w: World, s: Step, duration: nat)
    requires Sound(w) && Enabled(w, s)
    ensures Sound(Next(w, s, duration))
  {
    hide Covers, Uncertain;
  }

  lemma {:induction false} RunSound(ws: seq<World>, steps: seq<Step>, duration: nat, i: nat)
    requires Run(ws, steps, duration) && i < |ws|
    ensures Sound(ws[i])
    decreases i
  {
    if i > 0 {
      RunSound(ws, steps, duration, i - 1);
      StepSound(ws[i - 1], steps[i - 1], duration);
    }
  }

  /**
    Whatever the answer, and however late: a lease is cancelled only if the question was about that
    very lease. One about an older lease of the same task never cancels a newer one.
  */
  lemma OlderNeverCancelsNewer(ws: seq<World>, steps: seq<Step>, duration: nat, i: nat, t: TaskId)
    requires Run(ws, steps, duration) && i < |steps| && !steps[i].FailedTick?
    requires t in ws[i].active && !Covers(ws[i].asked, ws[i].active[t]) && ws[i].active[t].lost !in ws[i].cancelled
    ensures ws[i].active[t].lost !in ws[i + 1].cancelled
  {
    RunSound(ws, steps, duration, i);
    UncertainCovers(ws[i].asked, ws[i].active[t]);
  }

  lemma UncertainCovers(leases: seq<Entry>, e: Entry)
    ensures forall clock, duration: nat | |clock| == |leases| && Uncertain(leases, clock, duration, e) :: Covers(leases, e)
  {
  }

  // ------------------------------------------------- what becomes of an entry

  /** Why a step cancels the lease of entry `e`: the answer leaves it out, or a failed question finds it overdue. */
  ghost predicate Cause(w: World, s: Step, duration: nat, e: Entry) {
    if s.Answered? then (exists k | 0 <= k < |w.asked| :: w.asked[k].renewal == e.renewal) && e.renewal.task !in s.renewed
    else if s.Errored? then
      |s.clock| == |w.asked| && exists k | 0 <= k < |w.asked| ::
        w.asked[k].renewal == e.renewal && s.clock[k] - w.asked[k].lastRenewed >= duration * 2 / 3
    else s.FailedTick? && s.now - e.lastRenewed >= duration * 2 / 3
  }

  /** Exactly these leases are cancelled, and none is ever uncancelled. */
  lemma CancelledExactly(ws: seq<World>, steps: seq<Step>, duration: nat, i: nat, t: TaskId)
    requires Run(ws, steps, duration) && i < |steps|
    ensures ws[i].cancelled <= ws[i + 1].cancelled
    ensures t in ws[i].active && ws[i].active[t].lost !in ws[i].cancelled ==>
      (ws[i].active[t].lost in ws[i + 1].cancelled <==> Cause(ws[i], steps[i], duration, ws[i].active[t]))
  {
    RunSound(ws, steps, duration, i);
  }

  /**
    The entry of a task after a step: the one filed by its latest start, with the time it was last renewed at by an
    answer about that very lease, until some handler of the task finishes.
  */
  lemma EntryExactly(ws: seq<World>, steps: seq<Step>, duration: nat, i: nat, t: TaskId)
    requires Run(ws, steps, duration) && i < |steps|
    ensures var w, s, active := ws[i], steps[i], ws[i + 1].active;
      if s.Spawn? && s.renewal.task == t then t in active && active[t] == Entry(s.renewal, w.minted, s.now)
      else if s.Finish? && s.renewal.task == t then t !in active
      else
        && (t in active <==> t in w.active)
        && (t in active ==>
              var asked := exists k | 0 <= k < |w.asked| :: w.asked[k].renewal == w.active[t].renewal;
              active[t] == if s.Answered? && asked && t in s.renewed then w.active[t].(lastRenewed := s.now) else w.active[t])
  {
  }

  // --------------------------------------------------------- the timing

  /** The first tick, of ticks `third` apart from `first` on, that finds the lease overdue. */
  function FirstLate(duration: nat, first: int, renewed: int): int
    requires duration >= 3
  {
    var third := duration / 3;
    Max(0, (renewed + duration * 2 / 3 - first + third - 1) / third)
  }

  lemma LateInTime(duration: nat, first: int, renewed: int)
    requires duration >= 3 && renewed < first <= renewed + duration / 3
    ensures var third, k := duration / 3, FirstLate(duration, first, renewed);
      && duration * 2 / 3 <= first + k * third - renewed < duration
      && forall j: nat | j < k :: first + j * third - renewed < duration * 2 / 3
  {
    var third, gap := duration / 3, renewed + duration * 2 / 3 - first;
    assert third + duration * 2 / 3 <= duration;
    RoundUp(gap, third);
  }

  lemma RoundUp(gap: nat, unit: nat)
    requires unit > 0
    ensures var k := (gap + unit - 1) / unit;
      gap <= k * unit < gap + unit && forall j: nat | j < k :: j * unit < gap
  {
    var k := (gap + unit - 1) / unit;
    assert gap + unit - 1 == unit * k + (gap + unit - 1) % unit;
    forall j: nat | j < k
      ensures j * unit < gap
    {
      assert j * unit <= (k - 1) * unit;
      assert (k - 1) * unit == k * unit - unit;
    }
  }

  function TickTime(duration: nat, first: int, j: nat): int {
    first + j * (duration / 3)
  }

  function Ticks(steps: seq<Step>): nat {
    if steps == [] then 0 else Ticks(steps[..|steps| - 1]) + if steps[|steps| - 1].FailedTick? then 1 else 0
  }

  lemma TicksNext(steps: seq<Step>, from: nat, i: nat)
    requires from <= i < |steps|
    ensures Ticks(steps[from..i + 1]) == Ticks(steps[from..i]) + if steps[i].FailedTick? then 1 else 0
  {
    assert steps[from..i + 1][..i - from] == steps[from..i];
  }

  /** Not an answer, not about `t`; a failure, if it is one, at this instant. */
  predicate Spares(s: Step, t: TaskId, now: int) {
    match s
    case Spawn(renewal, _) => renewal.task != t
    case Finish(renewal) => renewal.task != t
    case FailedTick(at) => at == now
    case _ => false
  }

  /** From world `from` on: no renewal succeeds, failures come on time, and `t`'s handler neither finishes nor is replaced. */
  ghost predicate Outage(steps: seq<Step>, from: nat, duration: nat, first: int, t: TaskId)
    requires from <= |steps|
  {
    forall i | from <= i < |steps| :: Spares(steps[i], t, TickTime(duration, first, Ticks(steps[from..i])))
  }

  /** Through an outage a lease is cancelled exactly from the first late tick on. */
  lemma {:induction false} CancelledWhenLate(ws: seq<World>, steps: seq<Step>, duration: nat, from: nat, n: nat, first: int, t: TaskId)
    requires Run(ws, steps, duration) && duration >= 3 && from <= n <= |steps| && Outage(steps, from, duration, first, t)
    requires t in ws[from].active && ws[from].active[t].lost !in ws[from].cancelled
    requires ws[from].active[t].lastRenewed < first <= ws[from].active[t].lastRenewed + duration / 3
    ensures CancelledAfter(ws[n], duration, first, t, ws[from].active[t], Ticks(steps[from..n]))
    decreases n
  {
    hide Outage, FirstLate, Sound, Enabled, Next, TickTime, Ticks;
    if n > from {
      CancelledWhenLate(ws, steps, duration, from, n - 1, first, t);
      RunSound(ws, steps, duration, n - 1);
      OutageAt(steps, from, duration, first, t, n - 1);
      TicksNext(steps, from, n - 1);
      OneMore(ws[n - 1], steps[n - 1], duration, first, t, ws[from].active[t], Ticks(steps[from..n - 1]));
    } else {
      NoTicks(steps, from);
      LateInTime(duration, first, ws[from].active[t].lastRenewed);
    }
  }

  /** The token is cancelled exactly once more than `FirstLate` ticks have passed. */
  ghost predicate CancelledAfter(w: World, duration: nat, first: int, t: TaskId, e: Entry, ticks: nat)
    requires duration >= 3
  {
    t in w.active && w.active[t] == e && (e.lost in w.cancelled <==> ticks > FirstLate(duration, first, e.lastRenewed))
  }

  lemma OneMore(w: World, s: Step, duration: nat, first: int, t: TaskId, e: Entry, ticks: nat)
    requires Sound(w) && Enabled(w, s) && duration >= 3 && e.lastRenewed < first <= e.lastRenewed + duration / 3
    requires CancelledAfter(w, duration, first, t, e, ticks) && Spares(s, t, TickTime(duration, first, ticks))
    ensures CancelledAfter(Next(w, s, duration), duration, first, t, e, ticks + if s.FailedTick? then 1 else 0)
  {
    OutageStep(w, s, duration, t, TickTime(duration, first, ticks));
    LateFrom(duration, first, e.lastRenewed, ticks);
    hide Next, Sound, FirstLate, Late, TickTime;
  }

  lemma NoTicks(steps: seq<Step>, from: nat)
    requires from <= |steps|
    ensures Ticks(steps[from..from]) == 0
  {
  }

  lemma OutageAt(steps: seq<Step>, from: nat, duration: nat, first: int, t: TaskId, i: nat)
    requires from <= i < |steps| && Outage(steps, from, duration, first, t)
    ensures Spares(steps[i], t, TickTime(duration, first, Ticks(steps[from..i])))
  {
  }

  lemma LateFrom(duration: nat, first: int, renewed: int, j: nat)
    requires duration >= 3 && renewed < first <= renewed + duration / 3
    ensures j >= FirstLate(duration, first, renewed) <==> Late(duration, renewed, TickTime(duration, first, j))
  {
    LateInTime(duration, first, renewed);
    hide FirstLate;
    var third, k := duration / 3, FirstLate(duration, first, renewed);
    if j >= k {
      assert j * third == k * third + (j - k) * third && (j - k) * third >= 0;
    }
  }

  lemma OutageStep(w: World, s: Step, duration: nat, t: TaskId, now: int)
    requires Sound(w) && Enabled(w, s) && t in w.active && Spares(s, t, now)
    ensures t in Next(w, s, duration).active && Next(w, s, duration).active[t] == w.active[t]
    ensures w.active[t].lost in Next(w, s, duration).cancelled <==>
      w.active[t].lost in w.cancelled || (s.FailedTick? && Late(duration, w.active[t].lastRenewed, now))
  {
  }

  // ------------------------------------------------- finishing handlers

  /** Every running handler's own lease is in the table, so it will be renewed or cancelled. */
  ghost predicate Tracked(w: World) {
    forall r | r in w.running :: r.task in w.active && w.active[r.task].renewal == r
  }

  /** The step starts a handler for a task another handler of this worker is still running. */
  ghost predicate Overlaps(w: World, s: Step) {
    s.Spawn? && exists r | r in w.running :: r.task == s.renewal.task
  }

  /** Handlers are tracked throughout a run if and only if none is started for a task still being handled. */
  lemma TrackedIffNoOverlap(ws: seq<World>, steps: seq<Step>, duration: nat)
    requires Run(ws, steps, duration)
    ensures (forall i | 0 <= i < |ws| :: Tracked(ws[i])) <==> (forall i | 0 <= i < |steps| :: !Overlaps(ws[i], steps[i]))
  {
    if forall i | 0 <= i < |steps| :: !Overlaps(ws[i], steps[i]) {
      forall i | 0 <= i < |ws|
        ensures Tracked(ws[i])
      {
        TrackedSoFar(ws, steps, duration, i);
      }
    }
    if i :| 0 <= i < |steps| && Overlaps(ws[i], steps[i]) {
      var r :| r in ws[i].running && r.task == steps[i].renewal.task;
      assert r in ws[i + 1].running && ws[i + 1].active[r.task].renewal != r;
      assert !Tracked(ws[i + 1]);
    }
  }

  lemma {:induction false} TrackedSoFar(ws: seq<World>, steps: seq<Step>, duration: nat, i: nat)
    requires Run(ws, steps, duration) && i < |ws| && forall j | 0 <= j < |steps| :: !Overlaps(ws[j], steps[j])
    ensures Tracked(ws[i])
    decreases i
  {
    if i > 0 {
      TrackedSoFar(ws, steps, duration, i - 1);
      RunSound(ws, steps, duration, i - 1);
    }
  }

  /** After an overlap, the older handler's end takes the newer handler's entry with it. */
  lemma FinishDropsNewer(w: World, older: Renewal, newer: Renewal, now: int, duration: nat)
    requires older in w.running && newer !in w.running && older.task == newer.task
    ensures var spawned := Next(w, Spawn(newer, now), duration);
      newer in Next(spawned, Finish(older), duration).running
      && newer.task !in Next(spawned, Finish(older), duration).active
  {
  }

  /** A run in which that happens: the task's lease ran out, this worker claimed it again, and the first handler ended. */
  lemma OverlapLosesTrack(duration: nat) returns (ws: seq<World>, steps: seq<Step>)
    ensures Run(ws, steps, duration)
    ensures steps == [Spawn(Renewal(7, 1, 0), 0), Spawn(Renewal(7, 2, 1), duration), Finish(Renewal(7, 1, 0))]
    ensures Overlaps(ws[1], steps[1]) && !Tracked(ws[2])
    ensures Renewal(7, 2, 1) in ws[3].running && 7 !in ws[3].active
  {
    var older, newer := Renewal(7, 1, 0), Renewal(7, 2, 1);
    steps := [Spawn(older, 0), Spawn(newer, duration), Finish(older)];
    var w1 := Next(Start, steps[0], duration);
    var w2 := Next(w1, steps[1], duration);
    ws := [Start, w1, w2, Next(w2, steps[2], duration)];
    assert older in w1.running;
  }
}
