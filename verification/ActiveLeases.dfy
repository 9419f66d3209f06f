/**
  The worker's table of active leases: what renewal, failed renewal, and finished handlers do to it.
  Durations are nanoseconds.
*/
module ActiveLeases {
  import opened Common

  type TaskId = nat
  type Cancel = nat    // a cancellation token

  datatype Renewal = Renewal(task: TaskId, attempt: nat, token: nat)

  datatype Entry = Entry(renewal: Renewal, lost: Cancel, lastRenewed: int)

  /** The lease an entry of the snapshot was taken of is still the one in the table. */
  ghost predicate Covers(leases: seq<Entry>, e: Entry) {
    exists i | 0 <= i < |leases| :: leases[i].renewal == e.renewal
  }

  // ------------------------------------------------------------ the table

  /** Each entry is filed under its own task. */
  predicate Filed(active: map<TaskId, Entry>) {
    forall t | t in active :: active[t].renewal.task == t
  }

  ghost function AfterRenewal(active: map<TaskId, Entry>, leases: seq<Entry>, renewed: set<TaskId>, now: int): map<TaskId, Entry> {
    map t | t in active ::
      if Covers(leases, active[t]) && t in renewed then active[t].(lastRenewed := now) else active[t]
  }

  /** The tokens a renewal cancels: leases it asked about, still current, that the database did not renew. */
  ghost function NotRenewed(active: map<TaskId, Entry>, leases: seq<Entry>, renewed: set<TaskId>): set<Cancel> {
    set t | t in active && Covers(leases, active[t]) && t !in renewed :: active[t].lost
  }

  /** Some snapshot of this lease was, when looked at, too long without a renewal. */
  ghost predicate Uncertain(leases: seq<Entry>, clock: seq<int>, duration: nat, e: Entry)
    requires |clock| == |leases|
  {
    exists i | 0 <= i < |leases| :: leases[i].renewal == e.renewal && clock[i] - leases[i].lastRenewed >= duration * 2 / 3
  }

  ghost function Overdue(active: map<TaskId, Entry>, leases: seq<Entry>, clock: seq<int>, duration: nat): set<Cancel>
    requires |clock| == |leases|
  {
    set t | t in active && Uncertain(leases, clock, duration, active[t]) :: active[t].lost
  }

  class Leases {
    var active: map<TaskId, Entry>
    var cancelled: set<Cancel>

    method Insert(e: Entry)
      requires Filed(active)
      modifies this
      ensures Filed(active) && active == old(active)[e.renewal.task := e] && cancelled == old(cancelled)
    {
      active := active[e.renewal.task := e];
    }

    /** A finished handler takes out whatever is filed under its task. */
    method Remove(task: TaskId)
      requires Filed(active)
      modifies this
      ensures Filed(active) && active == old(active) - {task} && cancelled == old(cancelled)
    {
      active := active - {task};
    }

    method Snapshot() returns (leases: seq<Entry>)
      requires Filed(active)
      ensures |leases| == |active|
      ensures forall i | 0 <= i < |leases| :: leases[i].renewal.task in active && active[leases[i].renewal.task] == leases[i]
      ensures forall t | t in active :: active[t] in leases
    {
      leases := [];
      var rest := active.Keys;
      while rest != {}
        invariant rest <= active.Keys && |leases| + |rest| == |active|
        invariant forall i | 0 <= i < |leases| :: leases[i].renewal.task in active && active[leases[i].renewal.task] == leases[i]
        invariant forall t | t in active.Keys - rest :: active[t] in leases
        decreases rest
      {
        var t :| t in rest;
        leases := leases + [active[t]];
        rest := rest - {t};
      }
    }

    /** `update_renewed_leases`. */
    method UpdateRenewed(leases: seq<Entry>, renewed: set<TaskId>, now: int)
      requires Filed(active)
      modifies this
      ensures Filed(active)
      ensures active == AfterRenewal(old(active), leases, renewed, now)
      ensures cancelled == old(cancelled) + NotRenewed(old(active), leases, renewed)
    {
      hide AfterRenewal, NotRenewed;
      var i := 0;
      RenewalStart(active, renewed, now);
      while i < |leases|
        invariant i <= |leases| && Filed(active)
        invariant active == AfterRenewal(old(active), leases[..i], renewed, now)
        invariant cancelled == old(cancelled) + NotRenewed(old(active), leases[..i], renewed)
      {
        var lease := leases[i];
        RenewalNext(old(active), leases, i, renewed, now);
        RenewalKeeps(old(active), leases[..i], renewed, now);
        var task := lease.renewal.task;
        if task in active && active[task].renewal == lease.renewal {
          if task in renewed {
            active := active[task := active[task].(lastRenewed := now)];
          } else {
            cancelled := cancelled + {active[task].lost};
          }
        }
        i := i + 1;
      }
      assert leases[..i] == leases;
    }

    /** `cancel_uncertain_leases`; `clock` holds the reading each snapshot is judged by. */
    method CancelUncertain(leases: seq<Entry>, clock: seq<int>, duration: nat)
      requires Filed(active) && |clock| == |leases|
      modifies this
      ensures active == old(active)
      ensures cancelled == old(cancelled) + Overdue(active, leases, clock, duration)
    {
      var i := 0;
      while i < |leases|
        invariant i <= |leases| && active == old(active)
        invariant cancelled == old(cancelled) + Overdue(active, leases[..i], clock[..i], duration)
      {
        var lease := leases[i];
        OverdueNext(active, leases, clock, duration, i);
        var task := lease.renewal.task;
        if clock[i] - lease.lastRenewed >= duration * 2 / 3 && task in active && active[task].renewal == lease.renewal {
          cancelled := cancelled + {active[task].lost};
        }
        i := i + 1;
      }
      assert leases[..i] == leases && clock[..i] == clock;
    }
  }

  lemma RenewalStart(active: map<TaskId, Entry>, renewed: set<TaskId>, now: int)
    ensures AfterRenewal(active, [], renewed, now) == active && NotRenewed(active, [], renewed) == {}
  {
  }

  lemma CoversNext(leases: seq<Entry>, i: nat, e: Entry)
    requires i < |leases|
    ensures Covers(leases[..i + 1], e) <==> Covers(leases[..i], e) || leases[i].renewal == e.renewal
  {
  }

  lemma RenewalKeeps(active: map<TaskId, Entry>, leases: seq<Entry>, renewed: set<TaskId>, now: int)
    ensures var after := AfterRenewal(active, leases, renewed, now);
      && after.Keys == active.Keys
      && forall t | t in active :: after[t].renewal == active[t].renewal && after[t].lost == active[t].lost
  {
  }

  lemma RenewalNext(active: map<TaskId, Entry>, leases: seq<Entry>, i: nat, renewed: set<TaskId>, now: int)
    requires Filed(active) && i < |leases|
    ensures var before := AfterRenewal(active, leases[..i], renewed, now);
      var task := leases[i].renewal.task;
      var hit := task in active && active[task].renewal == leases[i].renewal;
      && AfterRenewal(active, leases[..i + 1], renewed, now)
           == (if hit && task in renewed then before[task := before[task].(lastRenewed := now)] else before)
      && NotRenewed(active, leases[..i + 1], renewed)
           == NotRenewed(active, leases[..i], renewed) + (if hit && task !in renewed then {active[task].lost} else {})
  {
    forall e: Entry
      ensures Covers(leases[..i + 1], e) <==> Covers(leases[..i], e) || leases[i].renewal == e.renewal
    {
      CoversNext(leases, i, e);
    }
    hide Covers;
  }

  lemma OverdueNext(active: map<TaskId, Entry>, leases: seq<Entry>, clock: seq<int>, duration: nat, i: nat)
    requires Filed(active) && i < |leases| == |clock|
    ensures var task := leases[i].renewal.task;
      var hit := clock[i] - leases[i].lastRenewed >= duration * 2 / 3
        && task in active && active[task].renewal == leases[i].renewal;
      Overdue(active, leases[..i + 1], clock[..i + 1], duration)
        == Overdue(active, leases[..i], clock[..i], duration) + (if hit then {active[task].lost} else {})
  {
    forall e: Entry
      ensures Uncertain(leases[..i + 1], clock[..i + 1], duration, e) <==>
        Uncertain(leases[..i], clock[..i], duration, e)
        || (leases[i].renewal == e.renewal && clock[i] - leases[i].lastRenewed >= duration * 2 / 3)
    {
      UncertainNext(leases, clock, duration, i, e);
    }
    hide Uncertain;
  }

  lemma UncertainNext(leases: seq<Entry>, clock: seq<int>, duration: nat, i: nat, e: Entry)
    requires i < |leases| == |clock|
    ensures Uncertain(leases[..i + 1], clock[..i + 1], duration, e) <==>
      Uncertain(leases[..i], clock[..i], duration, e)
      || (leases[i].renewal == e.renewal && clock[i] - leases[i].lastRenewed >= duration * 2 / 3)
  {
  }
}
