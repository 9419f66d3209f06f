/** The worker's claim loop: filling free handler slots from its queues in order. */
module Claiming {
  import opened Common
  import opened Admission

  type TaskId = nat

  /** One round's database: what `claim` on the `queue`-th queue with this limit answers, or an error. */
  type Store = (nat, nat) -> Option<seq<TaskId>>

  /** `claim` never returns more than it was asked for. */
  ghost predicate Bounded(store: Store) {
    forall queue, limit | store(queue, limit).Some? :: |store(queue, limit).value| <= limit
  }

  /** What the first `queues` queues have handed over: each is asked for what is still free, while nothing fails. */
  function Granted(store: Store, limit: nat, queues: nat): seq<TaskId> {
    if queues == 0 then []
    else
      var before := Granted(store, limit, queues - 1);
      var answer := store(queues - 1, Minus(limit, |before|));
      if |before| >= limit || answer.None? then before else before + answer.value
  }

  /** The `queue`-th queue is reached with room left, and its claim fails. */
  predicate FailsAt(store: Store, limit: nat, queue: nat) {
    |Granted(store, limit, queue)| < limit && store(queue, limit - |Granted(store, limit, queue)|).None?
  }

  lemma {:induction false} GrantedFits(store: Store, limit: nat, queues: nat)
    requires Bounded(store)
    ensures |Granted(store, limit, queues)| <= limit
  {
    if queues > 0 {
      GrantedFits(store, limit, queues - 1);
    }
  }

  lemma {:induction false} GrantedFull(store: Store, limit: nat, some: nat, queues: nat)
    requires some <= queues && |Granted(store, limit, some)| >= limit
    ensures Granted(store, limit, queues) == Granted(store, limit, some)
    ensures forall k | some <= k < queues :: !FailsAt(store, limit, k)
    decreases queues
  {
    if some < queues {
      GrantedFull(store, limit, some, queues - 1);
    }
  }

  // What a round takes, told from what the queues hold.

  /** The database hands over what a queue holds, up to what it is asked for. */
  ghost predicate Holds(store: Store, backlog: seq<seq<TaskId>>) {
    forall queue: nat, limit: nat | queue < |backlog| ::
      store(queue, limit) == Some(backlog[queue][..Min(limit, |backlog[queue]|)])
  }

  function InOrder(backlog: seq<seq<TaskId>>, queues: nat): seq<TaskId>
    requires queues <= |backlog|
  {
    if queues == 0 then [] else InOrder(backlog, queues - 1) + backlog[queues - 1]
  }

  /** A round takes the first tasks of its queues in their order, as many as it may and no queue's turn skipped. */
  lemma {:induction false} TakesInOrder(store: Store, backlog: seq<seq<TaskId>>, limit: nat, queues: nat)
    requires Holds(store, backlog) && queues <= |backlog|
    ensures Granted(store, limit, queues) == InOrder(backlog, queues)[..Min(limit, |InOrder(backlog, queues)|)]
    ensures forall k | 0 <= k < queues :: !FailsAt(store, limit, k)
  {
    if queues > 0 {
      TakesInOrder(store, backlog, limit, queues - 1);
      var before, asked := Granted(store, limit, queues - 1), Minus(limit, |Granted(store, limit, queues - 1)|);
      assert store(queues - 1, asked) == Some(backlog[queues - 1][..Min(asked, |backlog[queues - 1]|)]);
    }
  }

  function Limit(effective: NonZeroU16, activeHandlers: nat, batch: NonZeroU16): nat {
    Min(Minus(effective, activeHandlers), batch)
  }

  /**
    `claim_tasks`. Without a failure every task the database handed over is returned. A failure at one
    queue returns nothing: what earlier queues handed over in this round has no handler, and its
    leases are left to expire.
  */
  method ClaimTasks(store: Store, queues: nat, effective: NonZeroU16, activeHandlers: nat, batch: NonZeroU16)
    returns (r: Option<(nat, seq<TaskId>)>, ghost leaked: seq<TaskId>)
    requires Bounded(store)
    ensures r.Some? <==> forall k | 0 <= k < queues :: !FailsAt(store, Limit(effective, activeHandlers, batch), k)
    ensures r.Some? ==> r.value == (Limit(effective, activeHandlers, batch), Granted(store, Limit(effective, activeHandlers, batch), queues))
    ensures r.Some? ==> |r.value.1| <= r.value.0 && leaked == []
    ensures r.Some? ==> |r.value.1| <= batch && (r.value.1 != [] ==> activeHandlers + |r.value.1| <= effective)
    ensures |leaked| <= batch && (leaked != [] ==> activeHandlers + |leaked| <= effective)
    ensures r.None? ==>
      exists k | 0 <= k < queues :: FailsAt(store, Limit(effective, activeHandlers, batch), k)
        && leaked == Granted(store, Limit(effective, activeHandlers, batch), k)
  {
    leaked := [];
    var available := Minus(effective, activeHandlers);
    var limit := Min(available, batch);
    if limit == 0 {
      GrantedFull(store, limit, 0, queues);
      return Some((limit, [])), [];
    }
    var tasks: seq<TaskId> := [];
    var queue := 0;
    while queue < queues
      invariant 0 <= queue <= queues && tasks == Granted(store, limit, queue) && |tasks| <= limit
      invariant forall k | 0 <= k < queue :: !FailsAt(store, limit, k)
    {
      var remaining := limit - |tasks|;
      if remaining == 0 {
        GrantedFull(store, limit, queue, queues);
        break;
      }
      var claimed := store(queue, remaining);
      if claimed.None? {
        assert FailsAt(store, Limit(effective, activeHandlers, batch), queue);
        return None, tasks;
      }
      tasks := tasks + claimed.value;
      queue := queue + 1;
    }
    r := Some((limit, tasks));
  }

  /** One turn of the loop: handlers that ended meanwhile, the limit read, and the database. */
  datatype Round = Round(ended: nat, effective: NonZeroU16, store: Store)

  /** The tasks a round starts: what was handed over, or nothing if a claim failed. */
  ghost function Started(r: Round, queues: nat, batch: NonZeroU16, handlers: nat): seq<TaskId> {
    var limit := Limit(r.effective, Minus(handlers, r.ended), batch);
    if exists k | 0 <= k < queues :: FailsAt(r.store, limit, k) then [] else Granted(r.store, limit, queues)
  }

  /** The handlers running after the rounds, and every task started in them, in order. */
  ghost function AfterRounds(rounds: seq<Round>, queues: nat, batch: NonZeroU16): (nat, seq<TaskId>) {
    if rounds == [] then (0, [])
    else
      var before := AfterRounds(rounds[..|rounds| - 1], queues, batch);
      var last := rounds[|rounds| - 1];
      var more := Started(last, queues, batch, before.0);
      (Minus(before.0, last.ended) + |more|, before.1 + more)
  }

  /** Whatever ends when, however the limit moves below `configured`, and whatever fails: never more than configured. */
  lemma {:induction false} NeverOverConfigured(rounds: seq<Round>, queues: nat, configured: NonZeroU16, batch: NonZeroU16)
    requires forall i | 0 <= i < |rounds| :: rounds[i].effective <= configured && Bounded(rounds[i].store)
    ensures AfterRounds(rounds, queues, batch).0 <= configured
  {
    if rounds != [] {
      var front, last := rounds[..|rounds| - 1], rounds[|rounds| - 1];
      NeverOverConfigured(front, queues, configured, batch);
      var left := Minus(AfterRounds(front, queues, batch).0, last.ended);
      GrantedFits(last.store, Limit(last.effective, left, batch), queues);
    }
  }

  function Ended(rounds: seq<Round>): nat {
    if rounds == [] then 0 else Ended(rounds[..|rounds| - 1]) + rounds[|rounds| - 1].ended
  }

  /** No handler is lost or counted twice: what was started has ended or is still running. */
  lemma {:induction false} HandlersAccountedFor(rounds: seq<Round>, queues: nat, batch: NonZeroU16)
    requires forall n | 0 <= n < |rounds| :: rounds[n].ended <= AfterRounds(rounds[..n], queues, batch).0
    ensures |AfterRounds(rounds, queues, batch).1| == AfterRounds(rounds, queues, batch).0 + Ended(rounds)
  {
    if rounds != [] {
      var front := rounds[..|rounds| - 1];
      forall n | 0 <= n < |front|
        ensures front[n].ended <= AfterRounds(front[..n], queues, batch).0
      {
        assert front[..n] == rounds[..n] && front[n] == rounds[n];
      }
      HandlersAccountedFor(front, queues, batch);
      assert rounds[|front|].ended <= AfterRounds(rounds[..|front|], queues, batch).0;
    }
  }

  /** `run_handlers`: a failed claim starts nothing, and every task claimed otherwise is started. */
  method RunHandlers(rounds: seq<Round>, queues: nat, configured: NonZeroU16, batch: NonZeroU16)
    returns (handlers: nat, started: seq<TaskId>)
    requires forall i | 0 <= i < |rounds| :: rounds[i].effective <= configured && Bounded(rounds[i].store)
    ensures (handlers, started) == AfterRounds(rounds, queues, batch) && handlers <= configured
  {
    handlers, started := 0, [];
    for i := 0 to |rounds|
      invariant (handlers, started) == AfterRounds(rounds[..i], queues, batch)
    {
      assert rounds[..i + 1][..i] == rounds[..i];
      ghost var before := handlers;
      handlers := Minus(handlers, rounds[i].ended);
      var claimed, _ := ClaimTasks(rounds[i].store, queues, rounds[i].effective, handlers, batch);
      var tasks := if claimed.Some? then claimed.value.1 else [];
      assert tasks == Started(rounds[i], queues, batch, before);
      handlers, started := handlers + |tasks|, started + tasks;
    }
    assert rounds[..|rounds|] == rounds;
    NeverOverConfigured(rounds, queues, configured, batch);
  }

  function OneThenFails(queue: nat, limit: nat): Option<seq<TaskId>> {
    if queue > 0 then None else Some(if limit > 0 then [7] else [])
  }

  /** The loss is real: the first queue hands over task 7, the second fails, and the round starts nothing. */
  lemma LateFailureLosesTasks()
    ensures Bounded(OneThenFails) && Granted(OneThenFails, 2, 1) == [7] && FailsAt(OneThenFails, 2, 1)
    ensures Started(Round(0, 2, OneThenFails), 2, 2, 0) == []
  {
    assert Granted(OneThenFails, 2, 0) == [];
    assert FailsAt(OneThenFails, Limit(2, 0, 2), 1);
  }
}
