/**
  The worker's transition writer: it collects finished handlers' writes, sends the completions
  and then the failures as one batch each, and falls back to single writes when a batch fails.
*/
module TransitionWriter {
  import opened Common
  import opened Kernel
  import opened KernelInvariant
  import opened KernelRuns
  import opened TransitionBatch

  /** A request and the one-shot channel its handler waits on. */
  datatype Ticketed = Ticketed(request: Request, ticket: nat)

  datatype Answer = Answered(reply: Reply) | Errored

  /** A call goes through, fails and applies nothing, or commits and has its reply lost. */
  datatype Fault = Fine | Refused | ReplyLost

  /** What becomes of single writes, by ticket. */
  datatype Singles = Singles(refused: set<nat>, lost: set<nat>) {
    function Of(ticket: nat): Fault {
      if ticket in refused then Refused else if ticket in lost then ReplyLost else Fine
    }
  }

  const AllFine := Singles({}, {})

  /** What becomes of each batch call, and of the single writes. */
  datatype Faults = Faults(completeMany: Fault, failMany: Fault, alone: Singles)

  function Requests(ts: seq<Ticketed>): seq<Request> {
    seq(|ts|, i requires 0 <= i < |ts| => ts[i].request)
  }

  /** The completions, or the failures, in arrival order. */
  function Chosen(ts: seq<Ticketed>, completions: bool): seq<Ticketed> {
    if ts == [] then []
    else
      Chosen(ts[..|ts| - 1], completions)
      + if ts[|ts| - 1].request.write.Complete? == completions then [ts[|ts| - 1]] else []
  }

  function Tickets(ts: seq<Ticketed>): set<nat> {
    set i | 0 <= i < |ts| :: ts[i].ticket
  }

  ghost predicate UniqueTickets(ts: seq<Ticketed>) {
    forall i, j | 0 <= i < j < |ts| :: ts[i].ticket != ts[j].ticket
  }

  /** No two requests are about a task and one of its ancestors. */
  ghost predicate Unrelated(tasks: Tasks, ts: seq<Ticketed>) {
    forall i, j | 0 <= i < |ts| && 0 <= j < |ts| ::
      !Below(tasks, ts[i].request.lease.task, {ts[j].request.lease.task})
  }

  // ------------------------------------------------- the one-by-one reference

  /** Every request on its own, in order; a refused one applies nothing, and one whose reply is lost is reported as failed. */
  function AloneState(s: State, ts: seq<Ticketed>, failing: Singles): State {
    if ts == [] then s
    else
      var before, last := AloneState(s, ts[..|ts| - 1], failing), ts[|ts| - 1];
      if failing.Of(last.ticket).Refused? then before else Apply(before, By(last.request.lease, last.request.write)).0
  }

  function AloneAnswer(s: State, ts: seq<Ticketed>, failing: Singles, i: nat): Answer
    requires i < |ts|
  {
    if !failing.Of(ts[i].ticket).Fine? then Errored
    else Answered(Apply(AloneState(s, ts[..i], failing), By(ts[i].request.lease, ts[i].request.write)).1)
  }

  function Ids(rs: seq<Request>): set<TaskId> {
    set i | 0 <= i < |rs| :: rs[i].lease.task
  }

  /** The code compares the number of distinct ids with the number of requests. */
  lemma {:induction false} DistinctBySize(rs: seq<Request>)
    ensures |Ids(rs)| <= |rs|
    ensures |Ids(rs)| == |rs| <==> Distinct(rs)
  {
    if rs != [] {
      var front, last := rs[..|rs| - 1], rs[|rs| - 1].lease.task;
      DistinctBySize(front);
      assert forall i | 0 <= i < |front| :: front[i] == rs[i];
      assert Ids(rs) == Ids(front) + {last} by {
        forall x | x in Ids(rs)
          ensures x in Ids(front) + {last}
        {
          var i :| 0 <= i < |rs| && rs[i].lease.task == x;
          assert i < |front| ==> front[i].lease.task == x;
        }
        forall x | x in Ids(front) + {last}
          ensures x in Ids(rs)
        {
          if x in Ids(front) {
            var i :| 0 <= i < |front| && front[i].lease.task == x;
            assert rs[i].lease.task == x;
          }
        }
      }
      if last in Ids(front) {
        var i :| 0 <= i < |front| && front[i].lease.task == last;
        assert rs[i].lease.task == rs[|rs| - 1].lease.task;
      }
    }
  }

  lemma {:induction false} AloneIsSequence(s: State, ts: seq<Ticketed>)
    ensures AloneState(s, ts, AllFine) == SeqState(s, Requests(ts))
    ensures |SeqAnswers(s, Requests(ts))| == |ts|
    ensures forall i | 0 <= i < |ts| :: AloneAnswer(s, ts, AllFine, i) == Answered(SeqAnswers(s, Requests(ts))[i])
  {
    SeqAnswersLength(s, Requests(ts));
    if ts != [] {
      var front := ts[..|ts| - 1];
      AloneIsSequence(s, front);
      assert Requests(ts)[..|ts| - 1] == Requests(front);
      forall i | 0 <= i < |ts|
        ensures AloneAnswer(s, ts, AllFine, i) == Answered(SeqAnswers(s, Requests(ts))[i])
      {
        if i < |front| {
          assert ts[..i] == front[..i];
          assert AloneAnswer(s, front, AllFine, i) == Answered(SeqAnswers(s, Requests(front))[i]);
        }
      }
    }
  }

  lemma {:induction false} AloneKeeps(s: State, ts: seq<Ticketed>, failing: Singles)
    requires Core(s) && AllFinishing(Requests(ts))
    ensures var after := AloneState(s, ts, failing);
      Core(after) && SameParents(s.tasks, after.tasks)
  {
    if ts != [] {
      var front, last := ts[..|ts| - 1], ts[|ts| - 1];
      forall i | 0 <= i < |front|
        ensures Finishing(Requests(front)[i])
      {
        assert Requests(front)[i] == Requests(ts)[i];
      }
      AloneKeeps(s, front, failing);
      assert Finishing(Requests(ts)[|ts| - 1]);
      FinishingKeeps(AloneState(s, front, failing), last.request);
    }
  }

  lemma FinishingKeeps(s: State, r: Request)
    requires Core(s) && Finishing(r)
    ensures var after := Apply(s, By(r.lease, r.write)).0;
      Core(after) && SameParents(s.tasks, after.tasks)
  {
    var op := By(r.lease, r.write);
    StepCore(s, op);
    if EffectOf(s, op).Put? {
      PutShapeOf(s, op);
      PutBystanders(s, EffectOf(s, op));
    }
  }

  lemma UnrelatedUnshadowed(s: State, tasks: Tasks, ts: seq<Ticketed>)
    requires Unrelated(tasks, ts) && SameParents(tasks, s.tasks)
    ensures Unshadowed(s, Requests(ts))
  {
    var rs := Requests(ts);
    forall j, i | 0 <= i < j < |rs|
      ensures !Under(s.tasks, rs[j].lease.task, {rs[i].lease.task})
    {
      assert !Below(tasks, ts[j].request.lease.task, {ts[i].request.lease.task});
      BelowSame(tasks, s.tasks, rs[j].lease.task, {rs[i].lease.task});
      if Under(s.tasks, rs[j].lease.task, {rs[i].lease.task}) {
        UnderIsBelow(s.tasks, rs[j].lease.task, {rs[i].lease.task});
      }
    }
  }

  /** A chosen part of the requests keeps their order, tickets and properties. */
  lemma {:induction false} ChosenKeeps(ts: seq<Ticketed>, completions: bool, i: nat)
    requires i < |Chosen(ts, completions)|
    ensures Chosen(ts, completions)[i] in ts
    ensures Chosen(ts, completions)[i].request.write.Complete? == completions
  {
    var front := ts[..|ts| - 1];
    if i < |Chosen(front, completions)| {
      ChosenKeeps(front, completions, i);
    }
  }

  /** `part` is what stands at these positions of `ts`, in their order: all of the one kind, and nothing else. */
  ghost predicate PickedAt(ts: seq<Ticketed>, part: seq<Ticketed>, completions: bool, at: seq<nat>) {
    && |at| == |part|
    && (forall i | 0 <= i < |at| :: at[i] < |ts| && part[i] == ts[at[i]])
    && (forall i, j | 0 <= i < j < |at| :: at[i] < at[j])
    && (forall k | 0 <= k < |ts| :: k in at <==> ts[k].request.write.Complete? == completions)
  }

  lemma PickedMore(ts: seq<Ticketed>, part: seq<Ticketed>, completions: bool, at: seq<nat>, t: Ticketed)
    requires PickedAt(ts, part, completions, at)
    ensures t.request.write.Complete? == completions ==> PickedAt(ts + [t], part + [t], completions, at + [|ts|])
    ensures t.request.write.Complete? != completions ==> PickedAt(ts + [t], part, completions, at)
  {
    assert forall k | 0 <= k < |ts| :: (ts + [t])[k] == ts[k];
    assert |ts| !in at;
    assert forall k: nat :: k in at + [|ts|] <==> k in at || k == |ts|;
  }

  /** A part keeps arrival order. */
  lemma {:induction false} ChosenInOrder(ts: seq<Ticketed>, completions: bool) returns (at: seq<nat>)
    ensures PickedAt(ts, Chosen(ts, completions), completions, at)
  {
    at := [];
    if ts != [] {
      var front, last := ts[..|ts| - 1], ts[|ts| - 1];
      at := ChosenInOrder(front, completions);
      hide PickedAt;
      PickedMore(front, Chosen(front, completions), completions, at, last);
      assert front + [last] == ts;
      if last.request.write.Complete? == completions {
        at := at + [|front|];
      }
    }
  }

  /** Each requester is in exactly one of the two parts. */
  lemma {:induction false} ChosenTickets(ts: seq<Ticketed>)
    ensures Tickets(ts) == Tickets(Chosen(ts, true)) + Tickets(Chosen(ts, false))
  {
    if ts != [] {
      var front, last := ts[..|ts| - 1], ts[|ts| - 1];
      ChosenTickets(front);
      TicketsAppend(front, last);
      TicketsAppend(Chosen(front, last.request.write.Complete?), last);
      assert ts == front + [last];
      assert Chosen(ts, !last.request.write.Complete?) == Chosen(front, !last.request.write.Complete?);
    }
  }

  lemma TicketsAppend(ts: seq<Ticketed>, t: Ticketed)
    ensures Tickets(ts + [t]) == Tickets(ts) + {t.ticket}
  {
    var all := ts + [t];
    forall k | k in Tickets(ts)
      ensures k in Tickets(all)
    {
      var i :| 0 <= i < |ts| && ts[i].ticket == k;
      assert all[i].ticket == k;
    }
    assert all[|ts|].ticket == t.ticket;
  }

  // ----------------------------------------------------------- the database

  class Store {
    var state: State

    constructor (state: State)
      ensures this.state == state
    {
      this.state := state;
    }

    /** `complete_many`, `fail_many`: one UPDATE and its answers, or an error, after which it may have been applied. */
    method WriteMany(rs: seq<Request>, fault: Fault) returns (answers: Option<seq<Reply>>)
      modifies this
      ensures answers.Some? <==> rs == [] || (Distinct(rs) && fault.Fine?)
      ensures answers.Some? ==> answers.value == BatchAnswers(old(state), rs)
      ensures state == if rs != [] && Distinct(rs) && !fault.Refused? then BatchState(old(state), rs) else old(state)
    {
      if rs == [] {
        return Some([]);
      }
      DistinctBySize(rs);
      if |Ids(rs)| != |rs| || fault.Refused? {
        return None;
      }
      answers := if fault.Fine? then Some(BatchAnswers(state, rs)) else None;
      state := BatchState(state, rs);
    }

    /** `complete`, `fail`. */
    method WriteOne(r: Request, fault: Fault) returns (answer: Answer)
      modifies this
      ensures state == if fault.Refused? then old(state) else Apply(old(state), By(r.lease, r.write)).0
      ensures answer == if fault.Fine? then Answered(Apply(old(state), By(r.lease, r.write)).1) else Errored
    {
      if fault.Refused? {
        return Errored;
      }
      answer := if fault.Fine? then Answered(Apply(state, By(r.lease, r.write)).1) else Errored;
      state := Apply(state, By(r.lease, r.write)).0;
    }
  }

  // ------------------------------------------------- what the writer does

  /** The batch call was applied. */
  predicate Applied(part: seq<Ticketed>, fault: Fault) {
    part != [] && Distinct(Requests(part)) && !fault.Refused?
  }

  /** It also answered, or there was nothing to call for. */
  predicate Replied(part: seq<Ticketed>, fault: Fault) {
    part == [] || (Distinct(Requests(part)) && fault.Fine?)
  }

  function AfterCall(s: State, part: seq<Ticketed>, fault: Fault): State {
    if Applied(part, fault) then BatchState(s, Requests(part)) else s
  }

  /** The batch call, and without a reply to it every request on its own. */
  function PartState(s: State, part: seq<Ticketed>, fault: Fault, alone: Singles): State {
    if Replied(part, fault) then AfterCall(s, part, fault) else AloneState(AfterCall(s, part, fault), part, alone)
  }

  function PartAnswer(s: State, part: seq<Ticketed>, fault: Fault, alone: Singles, i: nat): Answer
    requires i < |part|
  {
    if Replied(part, fault) then Answered(BatchAnswer(s, part[i].request))
    else AloneAnswer(AfterCall(s, part, fault), part, alone, i)
  }

  /** Every requester of `part` was sent its answer. */
  ghost predicate Delivered(part: seq<Ticketed>, answers: seq<Answer>, sent: map<nat, Answer>)
    requires |answers| == |part|
  {
    forall i | 0 <= i < |part| :: part[i].ticket in sent && sent[part[i].ticket] == answers[i]
  }

  ghost function PartAnswers(s: State, part: seq<Ticketed>, fault: Fault, alone: Singles): (r: seq<Answer>)
    ensures |r| == |part|
  {
    seq(|part|, i requires 0 <= i < |part| => PartAnswer(s, part, fault, alone, i))
  }

  ghost function AloneAnswers(s: State, part: seq<Ticketed>, failing: Singles): (r: seq<Answer>)
    ensures |r| == |part|
  {
    seq(|part|, i requires 0 <= i < |part| => AloneAnswer(s, part, failing, i))
  }

  lemma DeliveredMore(part: seq<Ticketed>, answers: seq<Answer>, k: nat, sent: map<nat, Answer>)
    requires |answers| == |part| && k < |part| && UniqueTickets(part) && Delivered(part[..k], answers[..k], sent)
    ensures Delivered(part[..k + 1], answers[..k + 1], sent[part[k].ticket := answers[k]])
  {
    forall i | 0 <= i < k
      ensures part[i].ticket in sent && sent[part[i].ticket] == answers[i]
    {
      assert part[..k][i] == part[i] && answers[..k][i] == answers[i];
    }
  }

  /** Hands each requester its answer, and touches nobody else's. */
  method SendAnswers(part: seq<Ticketed>, answers: seq<Answer>, before: map<nat, Answer>) returns (sent: map<nat, Answer>)
    requires UniqueTickets(part) && |answers| == |part|
    ensures Delivered(part, answers, sent)
    ensures sent.Keys == before.Keys + Tickets(part)
    ensures forall k | k in before && k !in Tickets(part) :: sent[k] == before[k]
  {
    sent := before;
    for k := 0 to |part|
      invariant Delivered(part[..k], answers[..k], sent)
      invariant sent.Keys == before.Keys + Tickets(part[..k])
      invariant forall t | t in before && t !in Tickets(part[..k]) :: sent[t] == before[t]
    {
      assert part[..k + 1] == part[..k] + [part[k]];
      TicketsAppend(part[..k], part[k]);
      DeliveredMore(part, answers, k, sent);
      sent := sent[part[k].ticket := answers[k]];
    }
    assert part[..|part|] == part && answers[..|part|] == answers;
  }

  /** The fallback: each request on its own. */
  method WriteEach(store: Store, part: seq<Ticketed>, alone: Singles) returns (answers: seq<Answer>)
    modifies store
    ensures store.state == AloneState(old(store.state), part, alone)
    ensures answers == AloneAnswers(old(store.state), part, alone)
  {
    hide Apply;
    ghost var s := store.state;
    answers := [];
    for k := 0 to |part|
      invariant store.state == AloneState(s, part[..k], alone)
      invariant |answers| == k && forall i | 0 <= i < k :: answers[i] == AloneAnswer(s, part, alone, i)
    {
      var answer := store.WriteOne(part[k].request, alone.Of(part[k].ticket));
      assert part[..k + 1][..k] == part[..k];
      answers := answers + [answer];
    }
    assert part[..|part|] == part;
  }

  /** One batch call, answered to each requester, or one write per request if no answer comes back. */
  method WritePart(store: Store, part: seq<Ticketed>, fault: Fault, alone: Singles, before: map<nat, Answer>)
    returns (sent: map<nat, Answer>)
    requires UniqueTickets(part)
    modifies store
    ensures store.state == PartState(old(store.state), part, fault, alone)
    ensures Delivered(part, PartAnswers(old(store.state), part, fault, alone), sent)
    ensures sent.Keys == before.Keys + Tickets(part)
    ensures forall k | k in before && k !in Tickets(part) :: sent[k] == before[k]
  {
    hide BatchState, BatchAnswer, AloneState, AloneAnswer, Distinct, UniqueTickets, Tickets;
    ghost var s := store.state;
    var replies := store.WriteMany(Requests(part), fault);
    var answers: seq<Answer>;
    match replies {
      case Some(rs) => answers := seq(|rs|, i requires 0 <= i < |rs| => Answered(rs[i]));
      case None => answers := WriteEach(store, part, alone);
    }
    assert answers == PartAnswers(s, part, fault, alone);
    sent := SendAnswers(part, answers, before);
  }

  /** Where the completions leave the store. */
  function Completed(s: State, requests: seq<Ticketed>, faults: Faults): State {
    PartState(s, Chosen(requests, true), faults.completeMany, faults.alone)
  }

  /** No reply is lost, and no request is about an ancestor of another's task. */
  ghost predicate Orderly(s: State, requests: seq<Ticketed>, faults: Faults) {
    && Core(s) && AllFinishing(Requests(requests)) && Unrelated(s.tasks, requests)
    && !faults.completeMany.ReplyLost? && !faults.failMany.ReplyLost?
  }

  /**
    The store is as if all completions had been written one by one in arrival order and then all failures, and
    every requester has exactly the answer of its own write.
  */
  ghost predicate OneByOne(s: State, requests: seq<Ticketed>, faults: Faults, after: State, sent: map<nat, Answer>) {
    var cs, fs := Chosen(requests, true), Chosen(requests, false);
    var cFailing, fFailing := Failing(cs, faults.completeMany, faults.alone), Failing(fs, faults.failMany, faults.alone);
    var completed := AloneState(s, cs, cFailing);
    && after == AloneState(completed, fs, fFailing)
    && Delivered(cs, AloneAnswers(s, cs, cFailing), sent)
    && Delivered(fs, AloneAnswers(completed, fs, fFailing), sent)
  }

  /** `write_transition_batch`, absent shutdown: the completions, then the failures, each requester told its answer. */
  method WriteBatch(store: Store, requests: seq<Ticketed>, faults: Faults) returns (sent: map<nat, Answer>)
    requires UniqueTickets(requests)
    modifies store
    ensures var s, cs, fs := old(store.state), Chosen(requests, true), Chosen(requests, false);
      && store.state == PartState(Completed(s, requests, faults), fs, faults.failMany, faults.alone)
      && Delivered(cs, PartAnswers(s, cs, faults.completeMany, faults.alone), sent)
      && Delivered(fs, PartAnswers(Completed(s, requests, faults), fs, faults.failMany, faults.alone), sent)
    ensures sent.Keys == Tickets(requests)
    ensures Orderly(old(store.state), requests, faults) ==> OneByOne(old(store.state), requests, faults, store.state, sent)
  {
    hide PartState, PartAnswers, AloneState, AloneAnswers, Delivered, UniqueTickets, Tickets, Orderly;
    var completions, failures := Partition(requests);
    ghost var s := store.state;
    ChosenUnique(requests, true);
    ChosenUnique(requests, false);
    PartsApart(requests);
    sent := WritePart(store, completions, faults.completeMany, faults.alone, map[]);
    ghost var first := sent;
    sent := WritePart(store, failures, faults.failMany, faults.alone, sent);
    ChosenTickets(requests);
    DeliveryKept(completions, PartAnswers(s, completions, faults.completeMany, faults.alone), first, failures, sent);
    if Orderly(s, requests, faults) {
      BatchIsOneByOne(s, requests, faults);
    }
  }

  /** Splits the requests, keeping arrival order within each part. */
  method Partition(requests: seq<Ticketed>) returns (completions: seq<Ticketed>, failures: seq<Ticketed>)
    ensures exists at :: PickedAt(requests, completions, true, at)
    ensures exists at :: PickedAt(requests, failures, false, at)
    ensures completions == Chosen(requests, true) && failures == Chosen(requests, false)
  {
    ghost var first := ChosenInOrder(requests, true);
    ghost var second := ChosenInOrder(requests, false);
    hide PickedAt;
    completions, failures := [], [];
    for k := 0 to |requests|
      invariant completions == Chosen(requests[..k], true) && failures == Chosen(requests[..k], false)
    {
      assert requests[..k + 1][..k] == requests[..k];
      if requests[k].request.write.Complete? {
        completions := completions + [requests[k]];
      } else {
        failures := failures + [requests[k]];
      }
    }
    assert requests[..|requests|] == requests;
  }

  lemma DeliveryKept(part: seq<Ticketed>, answers: seq<Answer>, first: map<nat, Answer>, others: seq<Ticketed>, sent: map<nat, Answer>)
    requires |answers| == |part| && Delivered(part, answers, first) && Tickets(part) !! Tickets(others)
    requires first.Keys <= sent.Keys && forall k | k in first && k !in Tickets(others) :: sent[k] == first[k]
    ensures Delivered(part, answers, sent)
  {
    forall i | 0 <= i < |part|
      ensures part[i].ticket in sent && sent[part[i].ticket] == first[part[i].ticket]
    {
      assert part[i].ticket in Tickets(part);
    }
  }

  lemma PartIsSound(tasks: Tasks, ts: seq<Ticketed>, completions: bool)
    requires AllFinishing(Requests(ts)) && Unrelated(tasks, ts)
    ensures AllFinishing(Requests(Chosen(ts, completions))) && Unrelated(tasks, Chosen(ts, completions))
  {
    var part := Chosen(ts, completions);
    forall i | 0 <= i < |part|
      ensures Finishing(part[i].request) && exists k :: 0 <= k < |ts| && ts[k] == part[i]
    {
      ChosenKeeps(ts, completions, i);
      var k :| 0 <= k < |ts| && ts[k] == part[i];
      assert Finishing(Requests(ts)[k]);
    }
    forall i, j | 0 <= i < |part| && 0 <= j < |part|
      ensures !Below(tasks, part[i].request.lease.task, {part[j].request.lease.task})
    {
      var k :| 0 <= k < |ts| && ts[k] == part[i];
      var l :| 0 <= l < |ts| && ts[l] == part[j];
    }
  }

  lemma {:induction false} ChosenUnique(ts: seq<Ticketed>, completions: bool)
    requires UniqueTickets(ts)
    ensures UniqueTickets(Chosen(ts, completions))
  {
    if ts != [] {
      var front, last := ts[..|ts| - 1], ts[|ts| - 1];
      ChosenUnique(front, completions);
      forall i | 0 <= i < |Chosen(front, completions)|
        ensures Chosen(front, completions)[i].ticket != last.ticket
      {
        ChosenKeeps(front, completions, i);
        var k :| 0 <= k < |front| && front[k] == Chosen(front, completions)[i];
        assert ts[k] == front[k];
      }
    }
  }

  lemma PartsApart(ts: seq<Ticketed>)
    requires UniqueTickets(ts)
    ensures Tickets(Chosen(ts, true)) !! Tickets(Chosen(ts, false))
  {
    var cs, fs := Chosen(ts, true), Chosen(ts, false);
    forall i, j | 0 <= i < |cs| && 0 <= j < |fs|
      ensures cs[i].ticket != fs[j].ticket
    {
      ChosenKeeps(ts, true, i);
      ChosenKeeps(ts, false, j);
      var k :| 0 <= k < |ts| && ts[k] == cs[i];
      var l :| 0 <= l < |ts| && ts[l] == fs[j];
      assert k != l;
    }
  }

  // ------------------------------------------------ one by one, and when not

  /** The single writes that fail: none while the batch goes through. */
  function Failing(part: seq<Ticketed>, fault: Fault, alone: Singles): Singles {
    if Replied(part, fault) then AllFine else alone
  }

  /** With its reply, or applying nothing, a part is its requests one by one, unless one comes after what it hangs under. */
  lemma PartIsOneByOne(s: State, part: seq<Ticketed>, fault: Fault, alone: Singles)
    requires Core(s) && AllFinishing(Requests(part)) && (Applied(part, fault) ==> Replied(part, fault) && Unshadowed(s, Requests(part)))
    ensures PartState(s, part, fault, alone) == AloneState(s, part, Failing(part, fault, alone))
    ensures PartAnswers(s, part, fault, alone) == AloneAnswers(s, part, Failing(part, fault, alone))
  {
    hide Core, Apply, BatchState, Unshadowed, AloneState, AloneAnswer, Distinct;
    if Applied(part, fault) {
      var rs := Requests(part);
      BatchEqualsSequence(s, rs);
      AloneIsSequence(s, part);
      forall i | 0 <= i < |part|
        ensures PartAnswer(s, part, fault, alone, i) == AloneAnswer(s, part, AllFine, i)
      {
        assert BatchAnswers(s, rs)[i] == BatchAnswer(s, part[i].request);
      }
    } else if part == [] {
      NothingAlone(s, part, AllFine);
    }
  }

  lemma NothingAlone(s: State, part: seq<Ticketed>, failing: Singles)
    requires part == []
    ensures AloneState(s, part, failing) == s
  {
  }

  /** And exactly unless: for distinct tasks and a reply. */
  lemma PartExact(s: State, part: seq<Ticketed>, alone: Singles)
    requires Core(s) && AllFinishing(Requests(part)) && part != [] && Distinct(Requests(part))
    ensures (PartState(s, part, Fine, alone) == AloneState(s, part, AllFine)
             && PartAnswers(s, part, Fine, alone) == AloneAnswers(s, part, AllFine))
      <==> Unshadowed(s, Requests(part))
    ensures PartAnswers(s, part, Fine, alone) == AloneAnswers(s, part, AllFine) <==> Unshadowed(s, Requests(part))
  {
    hide Core, Apply, BatchState, Unshadowed, AloneState, AloneAnswer, Distinct, BatchAnswer;
    var rs := Requests(part);
    BatchExact(s, rs);
    AloneIsSequence(s, part);
    SeqAnswersLength(s, rs);
    var batch, single := PartAnswers(s, part, Fine, alone), AloneAnswers(s, part, AllFine);
    forall i | 0 <= i < |part|
      ensures batch[i] == single[i] <==> BatchAnswers(s, rs)[i] == SeqAnswers(s, rs)[i]
    {
      assert BatchAnswers(s, rs)[i] == BatchAnswer(s, part[i].request);
    }
    assert batch == single <==> BatchAnswers(s, rs) == SeqAnswers(s, rs);
  }

  /** After a batch no request's lease is live any more. */
  lemma NoneOwnedAfter(s: State, rs: seq<Request>, i: nat)
    requires Core(s) && AllFinishing(rs) && Distinct(rs) && i < |rs|
    ensures !Owns(BatchState(s, rs), rs[i].lease)
  {
    BatchOutcome(s, rs);
    BatchRowsExact(s, rs);
    assert Finishing(rs[i]);
    hide Outcome, Doomed, NewlyTerminal, BatchState;
    OutcomeRow(s, s.tasks + BatchRows(s, rs), BatchState(s, rs), rs[i].lease.task);
  }

  lemma OutcomeRow(s: State, all: Tasks, after: State, x: TaskId)
    requires Outcome(s, all, after)
    ensures x in after.tasks ==> x in all && (after.tasks[x] == all[x] || !after.tasks[x].phase.Running?)
  {
  }

  lemma {:induction false} AllFenced(s: State, part: seq<Ticketed>, failing: Singles)
    requires forall i | 0 <= i < |part| :: !Owns(s, part[i].request.lease)
    ensures AloneState(s, part, failing) == s
    ensures forall i | 0 <= i < |part| ::
      AloneAnswer(s, part, failing, i) == if failing.Of(part[i].ticket).Fine? then Answered(Fenced) else Errored
  {
    if part != [] {
      var front := part[..|part| - 1];
      AllFenced(s, front, failing);
      forall i | 0 <= i < |part|
        ensures AloneState(s, part[..i], failing) == s
      {
        AllFenced(s, part[..i], failing);
      }
    }
  }

  /**
    A batch that committed but whose reply was lost leaves the store it would have left, and the fallback
    changes nothing more; but every requester is told that its lease was lost, or gets an error.
  */
  lemma LostReply(s: State, part: seq<Ticketed>, alone: Singles)
    requires Core(s) && AllFinishing(Requests(part)) && part != [] && Distinct(Requests(part))
    ensures PartState(s, part, ReplyLost, alone) == BatchState(s, Requests(part))
    ensures forall i | 0 <= i < |part| ::
      PartAnswer(s, part, ReplyLost, alone, i) == if alone.Of(part[i].ticket).Fine? then Answered(Fenced) else Errored
  {
    hide Core, Owns, BatchState, AloneState, AloneAnswer, Distinct;
    var rs := Requests(part);
    forall i | 0 <= i < |part|
      ensures !Owns(BatchState(s, rs), part[i].request.lease)
    {
      NoneOwnedAfter(s, rs, i);
    }
    AllFenced(BatchState(s, rs), part, alone);
  }

  /** So with the single writes working, the answers that change are exactly those of the writes that landed. */
  lemma LostAnswers(s: State, part: seq<Ticketed>, alone: Singles, i: nat)
    requires Core(s) && AllFinishing(Requests(part)) && Distinct(Requests(part)) && i < |part| && alone.Of(part[i].ticket).Fine?
    ensures PartAnswer(s, part, ReplyLost, alone, i) != PartAnswer(s, part, Fine, alone, i) <==> Owns(s, part[i].request.lease)
  {
    LostReply(s, part, alone);
  }

  /** Whatever calls are refused, and whatever falls back. */
  lemma BatchIsOneByOne(s: State, requests: seq<Ticketed>, faults: Faults)
    requires Orderly(s, requests, faults)
    ensures var cs, fs := Chosen(requests, true), Chosen(requests, false);
      var cFailing := Failing(cs, faults.completeMany, faults.alone);
      var fFailing := Failing(fs, faults.failMany, faults.alone);
      var completed := AloneState(s, cs, cFailing);
      && Completed(s, requests, faults) == completed
      && PartState(completed, fs, faults.failMany, faults.alone) == AloneState(completed, fs, fFailing)
      && PartAnswers(s, cs, faults.completeMany, faults.alone) == AloneAnswers(s, cs, cFailing)
      && PartAnswers(completed, fs, faults.failMany, faults.alone) == AloneAnswers(completed, fs, fFailing)
  {
    hide Core, Apply, Unshadowed, AloneState, PartState, PartAnswers, AloneAnswers, Unrelated, AllFinishing;
    var cs, fs := Chosen(requests, true), Chosen(requests, false);
    PartIsSound(s.tasks, requests, true);
    PartIsSound(s.tasks, requests, false);
    var cFailing := Failing(cs, faults.completeMany, faults.alone);
    var completed := AloneState(s, cs, cFailing);
    AloneKeeps(s, cs, cFailing);
    UnrelatedUnshadowed(s, s.tasks, cs) by { assert SameParents(s.tasks, s.tasks); }
    UnrelatedUnshadowed(completed, s.tasks, fs);
    PartIsOneByOne(s, cs, faults.completeMany, faults.alone);
    PartIsOneByOne(completed, fs, faults.failMany, faults.alone);
  }

  lemma NothingExact(s: State, part: seq<Ticketed>, alone: Singles)
    requires part == []
    ensures PartState(s, part, Fine, alone) == s == AloneState(s, part, AllFine)
    ensures PartAnswers(s, part, Fine, alone) == AloneAnswers(s, part, AllFine) && Unshadowed(s, Requests(part))
  {
  }

  /** The answers alone tell, and when they agree so do the stores. */
  lemma AnsweredExact(s: State, part: seq<Ticketed>, alone: Singles)
    requires Core(s) && AllFinishing(Requests(part)) && Distinct(Requests(part))
    ensures PartAnswers(s, part, Fine, alone) == AloneAnswers(s, part, AllFine) <==> Unshadowed(s, Requests(part))
    ensures Unshadowed(s, Requests(part)) ==> PartState(s, part, Fine, alone) == AloneState(s, part, AllFine)
  {
    hide Core, PartState, PartAnswers, AloneState, AloneAnswers, Unshadowed, AllFinishing, Distinct;
    if part == [] {
      NothingExact(s, part, alone);
    } else {
      PartExact(s, part, alone);
    }
  }

  /** Completions and failures, each answered as a part, leave the store and the answers of writing all one by one. */
  ghost predicate WholeOneByOne(s: State, cs: seq<Ticketed>, fs: seq<Ticketed>, alone: Singles) {
    var batched, single := PartState(s, cs, Fine, alone), AloneState(s, cs, AllFine);
    && PartState(batched, fs, Fine, alone) == AloneState(single, fs, AllFine)
    && PartAnswers(s, cs, Fine, alone) == AloneAnswers(s, cs, AllFine)
    && PartAnswers(batched, fs, Fine, alone) == AloneAnswers(single, fs, AllFine)
  }

  /**
    The whole batch, both calls answered and each about distinct tasks, is all completions and then all failures
    one by one if and only if no completion is shadowed, nor any failure in the store the completions leave.
  */
  lemma WholeBatchExact(s: State, requests: seq<Ticketed>, alone: Singles)
    requires Core(s) && AllFinishing(Requests(requests))
    requires Distinct(Requests(Chosen(requests, true))) && Distinct(Requests(Chosen(requests, false)))
    ensures WholeOneByOne(s, Chosen(requests, true), Chosen(requests, false), alone)
      <==> (&& Unshadowed(s, Requests(Chosen(requests, true)))
            && Unshadowed(Completed(s, requests, Faults(Fine, Fine, alone)), Requests(Chosen(requests, false))))
  {
    hide Core, PartState, PartAnswers, AloneState, AloneAnswers, Unshadowed, AllFinishing, Distinct;
    var cs, fs := Chosen(requests, true), Chosen(requests, false);
    ChosenFinishing(requests, true);
    ChosenFinishing(requests, false);
    AnsweredExact(s, cs, alone);
    if Unshadowed(s, Requests(cs)) {
      AloneKeeps(s, cs, AllFine);
      AnsweredExact(Completed(s, requests, Faults(Fine, Fine, alone)), fs, alone);
    }
  }

  lemma ChosenFinishing(ts: seq<Ticketed>, completions: bool)
    requires AllFinishing(Requests(ts))
    ensures AllFinishing(Requests(Chosen(ts, completions)))
  {
    var part := Chosen(ts, completions);
    forall i | 0 <= i < |part|
      ensures Finishing(part[i].request)
    {
      ChosenKeeps(ts, completions, i);
      var k :| 0 <= k < |ts| && ts[k] == part[i];
      assert Finishing(Requests(ts)[k]);
    }
  }
}
