/**
  An outage in which a failing renewal takes its time: it is asked for at a tick, each lease is judged only
  when the failure has come back, at most some delay later, and a failure slower than the ticks holds the
  next one up. Handlers start and end meanwhile.
*/
module SlowRenewals {
  import opened Common
  import opened ActiveLeases
  import opened LeaseRuns

  /** When each question of the outage is asked. */
  type Questions = nat -> int

  /** How many renewals have failed. */
  function Rounds(steps: seq<Step>): nat {
    if steps == [] then 0 else Rounds(steps[..|steps| - 1]) + if steps[|steps| - 1].Errored? then 1 else 0
  }

  lemma RoundsNext(steps: seq<Step>, from: nat, i: nat)
    requires from <= i < |steps|
    ensures Rounds(steps[from..i + 1]) == Rounds(steps[from..i]) + if steps[i].Errored? then 1 else 0
  {
    assert steps[from..i + 1][..i - from] == steps[from..i];
  }

  lemma NoRounds(steps: seq<Step>, from: nat)
    requires from <= |steps|
    ensures Rounds(steps[from..from]) == 0
  {
  }

  /** The failure of question `k` is read within `delay` of it, all leases within a third of each other. */
  predicate ReadsInTime(clock: seq<int>, q: Questions, k: nat, third: nat, delay: nat) {
    && (forall i | 0 <= i < |clock| :: q(k) <= clock[i] <= q(k) + delay)
    && (forall i, j | 0 <= i < |clock| && 0 <= j < |clock| :: clock[j] <= clock[i] + third)
  }

  /** The next question is asked a third after the last, or once its failure has been read, whichever is later. */
  predicate AsksNext(clock: seq<int>, q: Questions, k: nat, third: nat) {
    && q(k) + third <= q(k + 1)
    && (q(k + 1) <= q(k) + third || exists i | 0 <= i < |clock| :: q(k + 1) <= clock[i])
  }

  /** Nothing succeeds and nothing is about `t`. */
  predicate SparesSlowly(s: Step, t: TaskId, q: Questions, k: nat, third: nat, delay: nat) {
    match s
    case Spawn(renewal, _) => renewal.task != t
    case Finish(renewal) => renewal.task != t
    case Ask(_) => true
    case Errored(clock) => ReadsInTime(clock, q, k, third, delay) && AsksNext(clock, q, k, third)
    case _ => false
  }

  /** From world `from` on, where the table has just been asked about; the k-th failure answers the k-th question. */
  ghost predicate SlowOutage(steps: seq<Step>, from: nat, third: nat, q: Questions, delay: nat, t: TaskId)
    requires from <= |steps|
  {
    forall i | from <= i < |steps| :: SparesSlowly(steps[i], t, q, Rounds(steps[from..i]), third, delay)
  }

  lemma OutageAt(steps: seq<Step>, from: nat, third: nat, q: Questions, delay: nat, t: TaskId, i: nat)
    requires from <= i < |steps| && SlowOutage(steps, from, third, q, delay, t)
    ensures SparesSlowly(steps[i], t, q, Rounds(steps[from..i]), third, delay)
  {
  }

  /** The lease is in the table, and the pending question is about it as it stands. */
  ghost predicate Asked(w: World, t: TaskId, e: Entry) {
    && t in w.active && w.active[t] == e
    && e in w.asked && forall x | x in w.asked && x.renewal == e.renewal :: x == e
  }

  /** Some reading of a failure finds the lease overdue. */
  ghost predicate ReadsLate(w: World, s: Step, duration: nat, e: Entry) {
    s.Errored? && exists i | 0 <= i < |s.clock| && i < |w.asked| :: w.asked[i] == e && Late(duration, e.lastRenewed, s.clock[i])
  }

  /** One step: the lease stays asked about, and is cancelled exactly by a late reading of it. */
  lemma SlowStep(w: World, s: Step, duration: nat, t: TaskId, e: Entry, q: Questions, k: nat, third: nat, delay: nat)
    requires Sound(w) && Enabled(w, s) && Asked(w, t, e) && SparesSlowly(s, t, q, k, third, delay)
    ensures Asked(Next(w, s, duration), t, e)
    ensures e.lost in Next(w, s, duration).cancelled <==> e.lost in w.cancelled || ReadsLate(w, s, duration, e)
    ensures s.Errored? && Late(duration, e.lastRenewed, q(k)) ==> ReadsLate(w, s, duration, e)
  {
    match s
    case Ask(leases) =>
      assert e in w.active.Values;
      forall x | x in leases && x.renewal == e.renewal
        ensures x == e
      {
        var u :| u in w.active && w.active[u] == x;
      }
    case Errored(clock) =>
      var i :| 0 <= i < |w.asked| && w.asked[i] == e;
      assert q(k) <= clock[i];
      assert Uncertain(w.asked, clock, duration, e) <==> ReadsLate(w, s, duration, e);
    case _ =>
  }

  /** A failure that does not find the lease overdue is followed by a question within the lease. */
  lemma NextInTime(w: World, s: Step, duration: nat, t: TaskId, e: Entry, q: Questions, k: nat, delay: nat)
    requires Enabled(w, s) && s.Errored? && Asked(w, t, e) && SparesSlowly(s, t, q, k, duration / 3, delay)
    requires !ReadsLate(w, s, duration, e)
    ensures q(k + 1) < e.lastRenewed + duration
  {
    var i :| 0 <= i < |w.asked| && w.asked[i] == e;
    assert !Late(duration, e.lastRenewed, s.clock[i]);
    assert q(k) <= s.clock[i];
    assert duration * 2 / 3 + duration / 3 <= duration;
  }

  /** The setting of the theorem. */
  ghost predicate Starts(ws: seq<World>, steps: seq<Step>, duration: nat, from: nat, q: Questions, delay: nat, t: TaskId, e: Entry) {
    && Run(ws, steps, duration) && duration >= 3 && from < |ws|
    && SlowOutage(steps, from, duration / 3, q, delay, t)
    && Asked(ws[from], t, e) && e.lost !in ws[from].cancelled
    && e.lastRenewed < q(0) <= e.lastRenewed + duration / 3
  }

  /** After `rounds` failures: the questions have kept their distance, and while the lease is not cancelled they are within it. */
  ghost predicate OnTime(w: World, duration: nat, q: Questions, e: Entry, rounds: nat)
    requires duration >= 3
  {
    && TickTime(duration, q(0), rounds) <= q(rounds)
    && (e.lost !in w.cancelled ==> q(rounds) < e.lastRenewed + duration)
    && (rounds > FirstLate(duration, q(0), e.lastRenewed) ==> e.lost in w.cancelled)
  }

  lemma TickNext(duration: nat, first: int, k: nat)
    ensures TickTime(duration, first, k + 1) == TickTime(duration, first, k) + duration / 3
  {
    assert (k + 1) * (duration / 3) == k * (duration / 3) + duration / 3;
  }

  /** Two thirds in, and later, a question finds the lease overdue. */
  lemma LateSince(duration: nat, q: Questions, renewed: int, k: nat)
    requires duration >= 3 && renewed < q(0) <= renewed + duration / 3
    requires k >= FirstLate(duration, q(0), renewed) && TickTime(duration, q(0), k) <= q(k)
    ensures Late(duration, renewed, q(k))
  {
    LateFrom(duration, q(0), renewed, k);
    hide TickTime, FirstLate;
  }

  lemma OnTimeStep(w: World, s: Step, duration: nat, q: Questions, delay: nat, t: TaskId, e: Entry, k: nat)
    requires Sound(w) && Enabled(w, s) && Asked(w, t, e) && SparesSlowly(s, t, q, k, duration / 3, delay)
    requires duration >= 3 && e.lastRenewed < q(0) <= e.lastRenewed + duration / 3 && OnTime(w, duration, q, e, k)
    ensures OnTime(Next(w, s, duration), duration, q, e, k + if s.Errored? then 1 else 0)
  {
    SlowStep(w, s, duration, t, e, q, k, duration / 3, delay);
    TickNext(duration, q(0), k);
    if s.Errored? {
      if k >= FirstLate(duration, q(0), e.lastRenewed) {
        LateSince(duration, q, e.lastRenewed, k);
      }
      if !ReadsLate(w, s, duration, e) {
        NextInTime(w, s, duration, t, e, q, k, delay);
      }
    }
    hide TickTime, FirstLate, Next, Sound, Asked, ReadsLate, Late;
  }

  lemma {:induction false} StaysOnTime(ws: seq<World>, steps: seq<Step>, duration: nat, from: nat, n: nat, q: Questions, delay: nat,
                                       t: TaskId, e: Entry)
    requires Starts(ws, steps, duration, from, q, delay, t, e) && from <= n < |ws|
    ensures Asked(ws[n], t, e) && OnTime(ws[n], duration, q, e, Rounds(steps[from..n]))
    decreases n
  {
    hide SlowOutage, Sound, Enabled, Next, Rounds, Asked, OnTime, SparesSlowly;
    if n > from {
      var rounds := Rounds(steps[from..n - 1]);
      StaysOnTime(ws, steps, duration, from, n - 1, q, delay, t, e);
      RunSound(ws, steps, duration, n - 1);
      OutageAt(steps, from, duration / 3, q, delay, t, n - 1);
      RoundsNext(steps, from, n - 1);
      SlowStep(ws[n - 1], steps[n - 1], duration, t, e, q, rounds, duration / 3, delay);
      OnTimeStep(ws[n - 1], steps[n - 1], duration, q, delay, t, e, rounds);
    } else {
      NoRounds(steps, from);
      AtFirst(ws[n], duration, q, e);
    }
  }

  lemma AtFirst(w: World, duration: nat, q: Questions, e: Entry)
    requires duration >= 3 && e.lastRenewed < q(0) <= e.lastRenewed + duration / 3 && e.lost !in w.cancelled
    ensures OnTime(w, duration, q, e, 0)
  {
  }

  lemma {:induction false} FirstCancelled(ws: seq<World>, from: nat, n: nat, lost: Cancel) returns (i: nat)
    requires from <= n < |ws| && lost !in ws[from].cancelled && lost in ws[n].cancelled
    ensures from <= i < n && lost !in ws[i].cancelled && lost in ws[i + 1].cancelled
    decreases n
  {
    if lost in ws[n - 1].cancelled {
      i := FirstCancelled(ws, from, n - 1, lost);
    } else {
      i := n - 1;
    }
  }

  /**
    Once more failures are in than the first late tick's, the lease has been cancelled, and it was cancelled
    by a reading that found at least two thirds of it, and less than all of it and the delay, gone by.
  */
  lemma CancelledInTime(ws: seq<World>, steps: seq<Step>, duration: nat, from: nat, n: nat, q: Questions, delay: nat, t: TaskId, e: Entry)
    returns (i: nat, reading: int)
    requires Starts(ws, steps, duration, from, q, delay, t, e) && from <= n < |ws|
    requires Rounds(steps[from..n]) > FirstLate(duration, q(0), e.lastRenewed)
    ensures from <= i < n && steps[i].Errored? && reading in steps[i].clock
    ensures e.lost !in ws[i].cancelled && e.lost in ws[i + 1].cancelled
    ensures duration * 2 / 3 <= reading - e.lastRenewed < duration + delay
  {
    hide SlowOutage, FirstLate, Sound, Enabled, Next, TickTime, Rounds, Asked;
    StaysOnTime(ws, steps, duration, from, n, q, delay, t, e);
    i := FirstCancelled(ws, from, n, e.lost);
    StaysOnTime(ws, steps, duration, from, i, q, delay, t, e);
    RunSound(ws, steps, duration, i);
    OutageAt(steps, from, duration / 3, q, delay, t, i);
    var rounds := Rounds(steps[from..i]);
    SlowStep(ws[i], steps[i], duration, t, e, q, rounds, duration / 3, delay);
    var k :| 0 <= k < |steps[i].clock| && k < |ws[i].asked| && ws[i].asked[k] == e && Late(duration, e.lastRenewed, steps[i].clock[k]);
    reading := steps[i].clock[k];
    assert reading <= q(rounds) + delay;
  }
}
