/**
  Waiting for a task's result: subscribe, read, then sleep until told. One hub owns the listening
  connection and broadcasts what it hears; the connection may break at any time, and what was sent
  meanwhile is lost. Each receiver keeps the newest `CAPACITY` events it has not consumed.
*/
module Notifications {
  import opened Common

  type TaskId = nat
  type WaiterId = nat
  type Channel = nat

  const CAPACITY: nat := 1_024
  const SHARDS: nat := 64

  function ResultChannel(task: TaskId): Channel {
    task % SHARDS
  }

  datatype Event = Ready(channel: Channel, payload: TaskId) | Disconnected | Reconnected

  datatype End = Result | Error | TimedOut

  datatype Progress =
    | Subscribing     // the receiver exists and the command is on its way to the hub
    | Confirmed       // subscribed, about to read the task
    | Blocked         // the task was not finished: waiting for an event
    | Rereading       // told something: about to read the task again
    | Done(end: End)

  /** `peak`: the most events that were ever waiting to be consumed as one arrived, that one included. */
  datatype Waiter = Waiter(task: TaskId, at: Progress, inbox: seq<Event>, peak: nat)

  /** `sent` is on its way to the hub. After a break nothing more arrives on this connection. */
  datatype Connection = Connection(listening: set<Channel>, sent: seq<Event>, broken: bool)

  datatype World = World(
    finished: set<TaskId>,
    channels: set<Channel>,             // every channel the hub was ever asked for
    link: Option<Connection>,
    commands: seq<WaiterId>,
    waiters: map<WaiterId, Waiter>,
    dropped: bool)                      // history: some reconnection was never reported

  const Start := World({}, {}, None, [], map[], false)

  datatype Step =
    | Subscribe(id: WaiterId, task: TaskId)
    | Serve(ok: bool)                   // the hub takes a command, connecting first if it has to
    | Finish(task: TaskId)
    | Break(kept: nat)                  // the connection is lost, after `kept` more notifications
    | Hear                              // the hub receives a notification and broadcasts it
    | Notice(ok: bool)                  // the hub finds the connection lost, and reconnects or gives up
    | ServeMidway                       // a command arrives while it reconnects, and the report is dropped
    | Read(id: WaiterId)
    | Receive(id: WaiterId)
    | GiveUp(id: WaiterId)              // the caller's timeout
    | QueryFails(id: WaiterId)

  predicate At(w: World, id: WaiterId, p: Progress) {
    id in w.waiters && w.waiters[id].at == p
  }

  /** A connected hub issues `LISTEN` only for a channel it does not know; on a lost connection that fails. */
  predicate CanServe(w: World, channel: Channel, ok: bool)
    requires w.link.Some?
  {
    if ok then channel in w.channels || !w.link.value.broken else channel !in w.channels
  }

  predicate Enabled(w: World, s: Step) {
    match s
    case Subscribe(id, _) => id !in w.waiters
    case Serve(ok) =>
      && w.commands != [] && w.commands[0] in w.waiters
      && (w.link.Some? ==> CanServe(w, ResultChannel(w.waiters[w.commands[0]].task), ok))
    case Finish(_) => true
    case Break(kept) => w.link.Some? && !w.link.value.broken && kept <= |w.link.value.sent|
    case Hear => w.link.Some? && w.link.value.sent != []
    case Notice(_) => w.link.Some? && w.link.value.sent == [] && w.link.value.broken
    case ServeMidway =>
      && w.link.Some? && w.link.value.sent == [] && w.link.value.broken
      && w.commands != [] && w.commands[0] in w.waiters
    case Read(id) => At(w, id, Confirmed) || At(w, id, Rereading)
    case Receive(id) => At(w, id, Blocked) && w.waiters[id].inbox != []
    case GiveUp(id) => At(w, id, Blocked) || At(w, id, Rereading)
    case QueryFails(id) => At(w, id, Confirmed) || At(w, id, Rereading)
  }

  function To(w: World, id: WaiterId, p: Progress): World
    requires id in w.waiters
  {
    w.(waiters := w.waiters[id := w.waiters[id].(at := p)])
  }

  /** A full receiver loses its oldest event; the lag is reported to it and ignored. */
  function Push(x: Waiter, e: Event): Waiter {
    var kept := if |x.inbox| < CAPACITY then x.inbox else x.inbox[1..];
    x.(inbox := kept + [e], peak := Max(x.peak, |x.inbox| + 1))
  }

  function Broadcast(waiters: map<WaiterId, Waiter>, e: Event): map<WaiterId, Waiter> {
    map id | id in waiters :: Push(waiters[id], e)
  }

  /** Whether `recv` returns for this event rather than looking at the next. */
  predicate Wakes(x: Waiter, e: Event) {
    !e.Ready? || (e.channel == ResultChannel(x.task) && e.payload == x.task)
  }

  function Next(w: World, s: Step): World
    requires Enabled(w, s)
  {
    match s
    case Subscribe(id, task) =>
      w.(waiters := w.waiters[id := Waiter(task, Subscribing, [], 0)], commands := w.commands + [id])
    case Serve(ok) =>
      var id, rest := w.commands[0], w.commands[1..];
      var channels := w.channels + {ResultChannel(w.waiters[id].task)};
      if !ok then
        var told := To(w, id, Done(Error)).waiters;
        w.(commands := rest, channels := channels, link := None,
          waiters := if w.link.Some? then Broadcast(told, Disconnected) else told)
      else
        var link := if w.link.Some? then w.link.value.(listening := w.link.value.listening + channels)
                    else Connection(channels, [], false);
        To(w, id, Confirmed).(commands := rest, channels := channels, link := Some(link))
    case Finish(task) =>
      var channel := ResultChannel(task);
      var heard := w.link.Some? && !w.link.value.broken && channel in w.link.value.listening;
      w.(finished := w.finished + {task},
        link := if heard then Some(w.link.value.(sent := w.link.value.sent + [Ready(channel, task)])) else w.link)
    case Break(kept) => w.(link := Some(w.link.value.(sent := w.link.value.sent[..kept], broken := true)))
    case Hear =>
      w.(waiters := Broadcast(w.waiters, w.link.value.sent[0]),
        link := Some(w.link.value.(sent := w.link.value.sent[1..])))
    case Notice(ok) =>
      if ok then w.(waiters := Broadcast(w.waiters, Reconnected), link := Some(Connection(w.channels, [], false)))
      else w.(waiters := Broadcast(w.waiters, Disconnected), link := None)
    case ServeMidway =>
      // Waiting for the next notification was abandoned for the command; the connection is made again on its next use.
      var id := w.commands[0];
      var channels := w.channels + {ResultChannel(w.waiters[id].task)};
      To(w, id, Confirmed).(commands := w.commands[1..], channels := channels,
                            link := Some(Connection(channels, [], false)), dropped := true)
    case Read(id) =>
      To(w, id, if w.waiters[id].task in w.finished then Done(Result) else Blocked)
    case Receive(id) =>
      var x := w.waiters[id];
      var e := x.inbox[0];
      var at := if e.Disconnected? then Done(Error) else if Wakes(x, e) then Rereading else Blocked;
      w.(waiters := w.waiters[id := x.(inbox := x.inbox[1..], at := at)])
    case GiveUp(id) => To(w, id, Done(TimedOut))
    case QueryFails(id) => To(w, id, Done(Error))
  }

  ghost predicate Run(ws: seq<World>, steps: seq<Step>) {
    && |ws| == |steps| + 1
    && ws[0] == Start
    && forall i | 0 <= i < |steps| :: Enabled(ws[i], steps[i]) && ws[i + 1] == Next(ws[i], steps[i])
  }

  // -------------------------------------------------------------- invariant

  /** Some event was pushed out before it was consumed. */
  predicate Overrun(x: Waiter) {
    x.peak > CAPACITY
  }

  predicate Subscribed(x: Waiter) {
    x.at.Confirmed? || x.at.Blocked? || x.at.Rereading?
  }

  /** The receiver holds news that the connection was lost. */
  predicate ToldOfLoss(x: Waiter) {
    Disconnected in x.inbox || Reconnected in x.inbox
  }

  /** Something that will wake the waiter is in its inbox, on the wire, or about to be noticed. */
  predicate WakeOnItsWay(w: World, x: Waiter) {
    var own := Ready(ResultChannel(x.task), x.task);
    || ToldOfLoss(x)
    || own in x.inbox
    || (w.link.Some? && (w.link.value.broken || own in w.link.value.sent))
  }

  /** The hub knows the waiter's channel; if there is no connection, the waiter is being told so. */
  predicate Covered(w: World, x: Waiter) {
    ResultChannel(x.task) in w.channels && (w.link.None? && !Overrun(x) ==> Disconnected in x.inbox)
  }

  predicate Safe(w: World, x: Waiter) {
    && (Subscribed(x) ==> Covered(w, x))
    && (x.at.Blocked? && !Overrun(x) && !w.dropped && x.task in w.finished ==> WakeOnItsWay(w, x))
  }

  /** Each command is a different subscriber's, still waiting for its confirmation. */
  ghost predicate CommandsInv(w: World) {
    && (forall i | 0 <= i < |w.commands| :: At(w, w.commands[i], Subscribing))
    && (forall i, j | 0 <= i < j < |w.commands| :: w.commands[i] != w.commands[j])
  }

  ghost predicate HubInv(w: World) {
    && (w.link.Some? ==> w.link.value.listening == w.channels)
    && CommandsInv(w)
    && (forall id | id in w.waiters :: Safe(w, w.waiters[id]))
  }

  lemma StepSafe(w: World, s: Step, id: WaiterId)
    requires HubInv(w) && Enabled(w, s) && id in Next(w, s).waiters
    ensures Safe(Next(w, s), Next(w, s).waiters[id])
  {
  }

  lemma StepCommands(w: World, s: Step)
    requires CommandsInv(w) && Enabled(w, s)
    ensures CommandsInv(Next(w, s))
  {
    var w' := Next(w, s);
    forall i | 0 <= i < |w'.commands|
      ensures At(w', w'.commands[i], Subscribing)
    {
      if s.Subscribe? {
        assert i < |w.commands| ==> w'.commands[i] == w.commands[i] && At(w, w.commands[i], Subscribing);
      } else if s.Serve? || s.ServeMidway? {
        assert w'.commands[i] == w.commands[i + 1] && At(w, w.commands[i + 1], Subscribing);
      } else {
        assert At(w, w.commands[i], Subscribing);
      }
    }
  }

  lemma StepHub(w: World, s: Step)
    requires HubInv(w) && Enabled(w, s)
    ensures HubInv(Next(w, s))
  {
    StepCommands(w, s);
    forall id | id in Next(w, s).waiters
      ensures Safe(Next(w, s), Next(w, s).waiters[id])
    {
      StepSafe(w, s, id);
    }
    hide Safe, CommandsInv;
  }

  lemma {:induction false} RunHub(ws: seq<World>, steps: seq<Step>, i: nat)
    requires Run(ws, steps) && i < |ws|
    ensures HubInv(ws[i])
    decreases i
  {
    if i > 0 {
      RunHub(ws, steps, i - 1);
      StepHub(ws[i - 1], steps[i - 1]);
    }
  }

  // --------------------------------------------------------------- theorems

  /** A confirmed subscriber's channel is listened to by whatever connection there is. */
  lemma ConfirmedIsListening(ws: seq<World>, steps: seq<Step>, i: nat, id: WaiterId)
    requires Run(ws, steps) && i < |ws| && id in ws[i].waiters && Subscribed(ws[i].waiters[id]) && ws[i].link.Some?
    ensures ResultChannel(ws[i].waiters[id].task) in ws[i].link.value.listening
  {
    RunHub(ws, steps, i);
    assert Safe(ws[i], ws[i].waiters[id]);
  }

  /** While nothing was pushed out of its inbox and no reconnection went unreported, a waiter blocked on a finished task is about to be woken. */
  lemma NeverMissed(ws: seq<World>, steps: seq<Step>, i: nat, id: WaiterId)
    requires Run(ws, steps) && i < |ws| && At(ws[i], id, Blocked)
    requires ws[i].waiters[id].task in ws[i].finished && !Overrun(ws[i].waiters[id]) && !ws[i].dropped
    ensures WakeOnItsWay(ws[i], ws[i].waiters[id])
  {
    RunHub(ws, steps, i);
    assert Safe(ws[i], ws[i].waiters[id]);
  }

  lemma Took(ws: seq<World>, steps: seq<Step>, s: Step) returns (ws': seq<World>, steps': seq<Step>)
    requires Run(ws, steps) && Enabled(ws[|ws| - 1], s)
    ensures Run(ws', steps') && steps' == steps + [s] && |ws'| == |ws| + 1 && ws'[|ws|] == Next(ws[|ws| - 1], s)
  {
    ws', steps' := ws + [Next(ws[|ws| - 1], s)], steps + [s];
  }

  /** A step of the hub, or of this waiter: nothing new from outside. */
  predicate Inner(s: Step, id: WaiterId) {
    s.Hear? || s == Notice(true) || s == Receive(id) || s == Read(id)
  }

  /** What is left to go through before the waiter is done. */
  function Backlog(w: World, id: WaiterId): nat
    requires id in w.waiters
  {
    if w.link.Some? then |w.link.value.sent| + (if w.link.value.broken then 1 else 0) else 0
  }

  predicate Owed(w: World, id: WaiterId) {
    id in w.waiters && (w.waiters[id].at.Blocked? || w.waiters[id].at.Rereading?)
    && w.waiters[id].task in w.finished && !Overrun(w.waiters[id]) && !w.dropped
  }

  function NextInner(w: World, id: WaiterId): Step
    requires Owed(w, id)
  {
    if w.waiters[id].at.Rereading? then Read(id)
    else if w.waiters[id].inbox != [] then Receive(id)
    else if w.link.Some? && w.link.value.sent != [] then Hear
    else Notice(true)
  }

  lemma InnerStep(w: World, id: WaiterId)
    requires HubInv(w) && Owed(w, id)
    ensures Enabled(w, NextInner(w, id)) && Inner(NextInner(w, id), id)
    ensures var w' := Next(w, NextInner(w, id));
      || (id in w'.waiters && w'.waiters[id].at.Done?)
      || (Owed(w', id) && (
            || w'.waiters[id].at.Rereading?
            || Backlog(w', id) < Backlog(w, id)
            || (Backlog(w', id) == Backlog(w, id) && |w'.waiters[id].inbox| < |w.waiters[id].inbox|)))
    ensures w.waiters[id].at.Rereading? ==> Next(w, NextInner(w, id)).waiters[id].at == Done(Result)
  {
  }

  /** From there the hub and the waiter alone, taking nothing new in, bring the wait to an end: a result or an error. */
  lemma {:induction false} Drains(ws: seq<World>, steps: seq<Step>, id: WaiterId) returns (ws': seq<World>, steps': seq<Step>)
    requires Run(ws, steps) && Owed(ws[|ws| - 1], id)
    ensures Run(ws', steps') && steps <= steps'
    ensures forall i | |steps| <= i < |steps'| :: Inner(steps'[i], id)
    ensures id in ws'[|ws'| - 1].waiters && ws'[|ws'| - 1].waiters[id].at in {Done(Result), Done(Error)}
    decreases if ws[|ws| - 1].waiters[id].at.Rereading? then 0 else 1, Backlog(ws[|ws| - 1], id), |ws[|ws| - 1].waiters[id].inbox|
  {
    var w := ws[|ws| - 1];
    hide Run, HubInv;
    RunHub(ws, steps, |ws| - 1);
    InnerStep(w, id);
    ws', steps' := Took(ws, steps, NextInner(w, id));
    if Owed(ws'[|ws'| - 1], id) {
      ws', steps' := Drains(ws', steps', id);
    }
  }

  // ------------------------------------------------- how a wait moves and ends

  /** Whose command the hub takes up in this step. */
  predicate Serves(w: World, s: Step, id: WaiterId) {
    (s.Serve? || s.ServeMidway?) && w.commands != [] && w.commands[0] == id
  }

  /** The event a waiter takes from its inbox in this step. */
  predicate Takes(w: World, s: Step, id: WaiterId, e: Event) {
    s == Receive(id) && id in w.waiters && w.waiters[id].inbox != [] && w.waiters[id].inbox[0] == e
  }

  predicate TakesNews(w: World, s: Step, id: WaiterId, task: TaskId) {
    Takes(w, s, id, Reconnected) || Takes(w, s, id, Ready(ResultChannel(task), task))
  }

  /**
    Where a wait is after a step. It has a result exactly by reading its finished task, times out exactly when its
    caller gives up, and errs exactly on a failed query, a refused subscription or news of a lost connection. It
    reads again exactly on news of its own task or of a reconnection. Ended, it stays as it is.
  */
  lemma MovesExactly(w: World, s: Step, id: WaiterId)
    requires CommandsInv(w) && Enabled(w, s) && id in w.waiters
    ensures id in Next(w, s).waiters && Next(w, s).waiters[id].task == w.waiters[id].task
    ensures var task, at, at' := w.waiters[id].task, w.waiters[id].at, Next(w, s).waiters[id].at;
      if at.Done? then at' == at
      else
        && (at' == Done(Result) <==> s == Read(id) && task in w.finished)
        && (at' == Done(TimedOut) <==> s == GiveUp(id))
        && (at' == Done(Error) <==> s == QueryFails(id) || Takes(w, s, id, Disconnected) || (Serves(w, s, id) && s == Serve(false)))
        && (at' == Rereading && at != Rereading <==> TakesNews(w, s, id, task))
        && (at' == Blocked && at != Blocked <==> s == Read(id) && task !in w.finished)
        && (at' == Confirmed && at != Confirmed <==> Serves(w, s, id) && s != Serve(false))
        && (at' == Subscribing ==> at == Subscribing)
  {
  }

  /** What has finished is what some step of the run finished. */
  lemma {:induction false} FinishedExactly(ws: seq<World>, steps: seq<Step>, i: nat, task: TaskId)
    requires Run(ws, steps) && i < |ws|
    ensures task in ws[i].finished <==> exists j | 0 <= j < i :: steps[j] == Finish(task)
    decreases i
  {
    if i > 0 {
      FinishedExactly(ws, steps, i - 1, task);
      FinishedStep(ws[i - 1], steps[i - 1]);
    }
  }

  lemma FinishedStep(w: World, s: Step)
    requires Enabled(w, s)
    ensures Next(w, s).finished == w.finished + if s.Finish? then {s.task} else {}
  {
  }

  /** What ends a wait this way. */
  predicate Ends(w: World, s: Step, id: WaiterId, end: End) {
    match end
    case Result => s == Read(id) && id in w.waiters && w.waiters[id].task in w.finished
    case TimedOut => s == GiveUp(id)
    case Error => s == QueryFails(id) || Takes(w, s, id, Disconnected) || (Serves(w, s, id) && s == Serve(false))
  }

  /** However a wait ended in a run, the step that is the cause of it was taken, on a wait still open. */
  lemma {:induction false} EndedBy(ws: seq<World>, steps: seq<Step>, i: nat, id: WaiterId) returns (k: nat)
    requires Run(ws, steps) && i < |ws| && id in ws[i].waiters && ws[i].waiters[id].at.Done?
    ensures k < i && id in ws[k].waiters && !ws[k].waiters[id].at.Done? && ws[k].waiters[id].task == ws[i].waiters[id].task
    ensures Ends(ws[k], steps[k], id, ws[i].waiters[id].at.end)
    decreases i
  {
    k := i - 1;
    hide Next, CommandsInv;
    RunHub(ws, steps, k);
    if id !in ws[k].waiters {
      NewWaiter(ws[k], steps[k], id);
    }
    MovesExactly(ws[k], steps[k], id);
    if ws[k].waiters[id].at.Done? {
      k := EndedBy(ws, steps, k, id);
    }
  }

  /** So a wait that returned a result did so by reading its task after it had finished. */
  lemma ResultsAreReal(ws: seq<World>, steps: seq<Step>, i: nat, id: WaiterId)
    requires Run(ws, steps) && i < |ws| && At(ws[i], id, Done(Result))
    ensures exists j, k | 0 <= j < k < i :: steps[j] == Finish(ws[i].waiters[id].task) && steps[k] == Read(id)
  {
    var k := EndedBy(ws, steps, i, id);
    FinishedExactly(ws, steps, k, ws[i].waiters[id].task);
  }

  lemma NewWaiter(w: World, s: Step, id: WaiterId)
    requires Enabled(w, s) && id !in w.waiters && id in Next(w, s).waiters
    ensures Next(w, s).waiters[id].at == Subscribing
  {
  }

  /** Nobody is told of a task that has not finished. */
  ghost predicate NewsIsTrue(w: World) {
    && (w.link.Some? ==> forall e | e in w.link.value.sent :: e.Ready? && e.payload in w.finished && e.channel == ResultChannel(e.payload))
    && (forall id, e | id in w.waiters && e in w.waiters[id].inbox && e.Ready? ::
          e.payload in w.finished && e.channel == ResultChannel(e.payload))
  }

  lemma NewsStep(w: World, s: Step)
    requires NewsIsTrue(w) && Enabled(w, s)
    ensures NewsIsTrue(Next(w, s))
  {
    forall id, e | id in Next(w, s).waiters && e in Next(w, s).waiters[id].inbox && e.Ready?
      ensures e.payload in Next(w, s).finished && e.channel == ResultChannel(e.payload)
    {
      if id in w.waiters && s.Hear? {
        assert e in w.waiters[id].inbox || e == w.link.value.sent[0];
      }
    }
  }

  lemma {:induction false} NewsIsAlwaysTrue(ws: seq<World>, steps: seq<Step>, i: nat)
    requires Run(ws, steps) && i < |ws|
    ensures NewsIsTrue(ws[i])
    decreases i
  {
    if i > 0 {
      NewsIsAlwaysTrue(ws, steps, i - 1);
      NewsStep(ws[i - 1], steps[i - 1]);
    }
  }

  // ------------------------------------------------------ losing the event

  /** Other tasks of the same shard. */
  function Noise(n: nat): seq<Event> {
    seq(n, (i: nat) => Ready(0, SHARDS * (i + 1)))
  }

  function Asleep(inbox: seq<Event>, peak: nat, finished: set<TaskId>): World {
    World(finished, {0}, Some(Connection({0}, [], false)), [], map[0 := Waiter(0, Blocked, inbox, peak)], false)
  }

  lemma FallsAsleep() returns (ws: seq<World>, steps: seq<Step>)
    ensures Run(ws, steps) && ws[|ws| - 1] == Asleep([], 0, {})
  {
    ws, steps := [Start], [];
    assert Run(ws, steps);
    hide Run;
    ws, steps := Took(ws, steps, Subscribe(0, 0));
    assert ws[|ws| - 1] == World({}, {}, None, [0], map[0 := Waiter(0, Subscribing, [], 0)], false);
    ws, steps := Took(ws, steps, Serve(true));
    assert ws[|ws| - 1].commands == [] && ws[|ws| - 1].channels == {0};
    assert ws[|ws| - 1].waiters == map[0 := Waiter(0, Confirmed, [], 0)];
    ws, steps := Took(ws, steps, Read(0));
    assert ws[|ws| - 1].waiters == map[0 := Waiter(0, Blocked, [], 0)];
  }

  lemma HearsItsOwn() returns (ws: seq<World>, steps: seq<Step>)
    ensures Run(ws, steps) && ws[|ws| - 1] == Asleep([Ready(0, 0)], 1, {0})
  {
    ws, steps := FallsAsleep();
    ws, steps := OneMoreNoise(ws, steps, Waiter(0, Blocked, [], 0), {}, 0);
    var noTask: set<TaskId>, nothing: seq<Event> := {}, [];
    assert noTask + {0} == {0} && nothing + [Ready(0, 0)] == [Ready(0, 0)];
  }

  lemma OneMoreNoise(ws: seq<World>, steps: seq<Step>, x: Waiter, finished: set<TaskId>, task: TaskId)
    returns (ws': seq<World>, steps': seq<Step>)
    requires Run(ws, steps) && x.at.Blocked? && x.task == 0 && task % SHARDS == 0
    requires ws[|ws| - 1] == Asleep(x.inbox, x.peak, finished)
    ensures Run(ws', steps')
    ensures ws'[|ws'| - 1] == Asleep(Push(x, Ready(0, task)).inbox, Push(x, Ready(0, task)).peak, finished + {task})
  {
    hide Run;
    ws', steps' := Took(ws, steps, Finish(task));
    var none: seq<Event> := [];
    assert none + [Ready(0, task)] == [Ready(0, task)] && [Ready(0, task)][1..] == none;
    assert ws'[|ws'| - 1].link == Some(Connection({0}, none + [Ready(0, task)], false));
    ws', steps' := Took(ws', steps', Hear);
    assert ws'[|ws'| - 1].link == Some(Connection({0}, [], false));
    assert ws'[|ws'| - 1].waiters == map[0 := Push(x, Ready(0, task))];
  }

  lemma {:induction false} Drowns(n: nat) returns (ws: seq<World>, steps: seq<Step>, finished: set<TaskId>)
    requires n < CAPACITY
    ensures Run(ws, steps) && 0 in finished && ws[|ws| - 1] == Asleep([Ready(0, 0)] + Noise(n), n + 1, finished)
  {
    if n == 0 {
      ws, steps := HearsItsOwn();
      finished := {0};
      assert [Ready(0, 0)] + Noise(0) == [Ready(0, 0)];
    } else {
      ws, steps, finished := Drowns(n - 1);
      var x := Waiter(0, Blocked, [Ready(0, 0)] + Noise(n - 1), n);
      ws, steps := OneMoreNoise(ws, steps, x, finished, SHARDS * n);
      finished := finished + {SHARDS * n};
      assert x.inbox + [Ready(0, SHARDS * n)] == [Ready(0, 0)] + Noise(n);
    }
  }

  /** The restriction is needed: enough notifications for other tasks, and the waiter sleeps on with nothing to wake it. */
  lemma OverrunLosesTheWake() returns (ws: seq<World>, steps: seq<Step>)
    ensures Run(ws, steps) && At(ws[|ws| - 1], 0, Blocked) && ws[|ws| - 1].waiters[0].task in ws[|ws| - 1].finished
    ensures !WakeOnItsWay(ws[|ws| - 1], ws[|ws| - 1].waiters[0]) && ws[|ws| - 1].waiters[0].peak == CAPACITY + 1
    ensures !ws[|ws| - 1].dropped
  {
    var finished;
    ws, steps, finished := Drowns(CAPACITY - 1);
    var x := Waiter(0, Blocked, [Ready(0, 0)] + Noise(CAPACITY - 1), CAPACITY);
    ws, steps := OneMoreNoise(ws, steps, x, finished, SHARDS * CAPACITY);
    assert x.inbox[1..] == Noise(CAPACITY - 1);
  }

  /** A waiter blocked on a finished task with nothing to wake it. */
  predicate Missed(w: World, id: WaiterId) {
    At(w, id, Blocked) && w.waiters[id].task in w.finished && !WakeOnItsWay(w, w.waiters[id])
  }

  ghost predicate EndsIn(ws: seq<World>, steps: seq<Step>, w: World) {
    Run(ws, steps) && ws[|ws| - 1] == w
  }

  /** A connection breaks, the task finishes unheard, and a new subscription is served while the hub reconnects. */
  lemma DroppedReportLosesTheWake() returns (ws: seq<World>, steps: seq<Step>)
    ensures Run(ws, steps) && Missed(ws[|ws| - 1], 0) && ws[|ws| - 1].waiters[0].peak == 0
    ensures steps != [] && steps[|steps| - 1] == ServeMidway
  {
    ws, steps := FallsAsleep();
    hide Run;
    ws, steps := Took(ws, steps, Break(0));
    ws, steps := Took(ws, steps, Finish(0));
    ws, steps := Took(ws, steps, Subscribe(1, 1));
    ws, steps := Took(ws, steps, ServeMidway);
  }

  /**
    No run in which at most `n` events wait to be consumed, and in which reconnections go unreported only if
    `dropping` allows it, makes a waiter miss its task, if and only if the buffer holds `n` and none goes unreported.
  */
  lemma MissesNoneIffFits(n: nat, dropping: bool)
    ensures n <= CAPACITY && !dropping <==>
      forall ws, steps, w, id | EndsIn(ws, steps, w) && (w.dropped ==> dropping) && Missed(w, id) :: w.waiters[id].peak > n
  {
    if n <= CAPACITY && !dropping {
      forall ws, steps, w, id | EndsIn(ws, steps, w) && (w.dropped ==> dropping) && Missed(w, id)
        ensures w.waiters[id].peak > n
      {
        if w.waiters[id].peak <= n {
          NeverMissed(ws, steps, |ws| - 1, id);
        }
      }
    } else if dropping {
      var ws, steps := DroppedReportLosesTheWake();
      var w := ws[|ws| - 1];
      assert EndsIn(ws, steps, w) && Missed(w, 0);
    } else {
      var ws, steps := OverrunLosesTheWake();
      var w := ws[|ws| - 1];
      assert EndsIn(ws, steps, w) && Missed(w, 0);
    }
  }
}
