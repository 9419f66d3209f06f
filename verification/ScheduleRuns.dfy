/**
  Any number of schedulers racing on one schedule row. A scheduler reads a clock, claims the row if
  it is due by a second clock reading, computes outside the database, and writes back through a
  fence on the cursor it claimed. Nothing is assumed of the clocks: they may run backwards.
*/
module ScheduleRuns {
  import opened Common
  import opened Schedule

  type Scheduler = nat

  const RETRY_DELAY: int := 60 * SECOND
  const MICRO: int := 1_000   // the precision of the database's clock and of stored instants

  datatype Claim = Claim(expected: Instant, now: Instant)

  /** `rows` are the tasks of this schedule still stored; `created` is every insertion ever made. */
  datatype Row = Row(cursor: Instant, paused: bool, rows: set<Instant>, created: seq<Instant>, claims: map<Scheduler, Claim>)

  datatype Step =
    | Claims(who: Scheduler, now: Instant, claimAt: Instant)
    | Stores(who: Scheduler, m: Materialization, room: nat)   // `room`: what the queue's capacity lets in
    | Defers(who: Scheduler)                                  // a deterministic failure, retried later
    | Abandons(who: Scheduler)
    | SetPaused(paused: bool)
    | Retires(task: Instant)                                 // retention deletes a stored task

  /** `unreadable`: the schedulers, of another version, that cannot parse the row. They only ever defer it. */
  datatype Plan = Plan(definition: Definition, policy: Policy, unreadable: iset<Scheduler>)

  /**
    A deferral follows a failure: the row cannot be parsed, or it is due and materializing it or writing
    what was materialized failed. One that is not due is stored as it is, and nothing can fail.
  */
  ghost predicate CanFail(p: Plan, who: Scheduler, c: Claim) {
    who in p.unreadable || c.expected <= c.now
  }

  ghost predicate Enabled(p: Plan, r: Row, s: Step) {
    match s
    case Claims(_, now, claimAt) => !r.paused && r.cursor <= claimAt && now % MICRO == 0 && claimAt % MICRO == 0
    case Stores(who, m, _) =>
      && who in r.claims && who !in p.unreadable
      && Materialized(p.definition, r.claims[who].expected, r.claims[who].now, p.policy, m)
    case Defers(who) => who in r.claims && CanFail(p, who, r.claims[who]) && Plus(r.claims[who].now, RETRY_DELAY).Ok?
    case Abandons(who) => who in r.claims
    case SetPaused(_) => true
    case Retires(_) => true
  }

  /** The fence of `materialize_schedule`. */
  predicate Current(r: Row, c: Claim) {
    !r.paused && r.cursor == c.expected
  }

  /** Insertion that ignores occurrences already stored. */
  function Insert(rows: set<Instant>, created: seq<Instant>, picked: seq<Instant>): (set<Instant>, seq<Instant>)
    decreases |picked|
  {
    if picked == [] then (rows, created)
    else if picked[0] in rows then Insert(rows, created, picked[1..])
    else Insert(rows + {picked[0]}, created + [picked[0]], picked[1..])
  }

  /** `materialize_schedule`: what fits is created, and the cursor rests on the first that did not fit. */
  function Store(r: Row, c: Claim, picked: seq<Instant>, next: Instant, room: nat): Row {
    if !Current(r, c) then r
    else
      var allowed := Min(|picked|, room);
      var cursor := if allowed < |picked| then picked[allowed] else next;
      var stored := Insert(r.rows, r.created, picked[..allowed]);
      r.(cursor := cursor, rows := stored.0, created := stored.1)
  }

  function Next(r: Row, s: Step): Row
    requires s.Stores? || s.Defers? || s.Abandons? ==> s.who in r.claims
    requires s.Defers? ==> Plus(r.claims[s.who].now, RETRY_DELAY).Ok?
  {
    match s
    case Claims(who, now, _) => r.(claims := r.claims[who := Claim(r.cursor, now)])
    case Stores(who, m, room) =>
      Store(r, r.claims[who], m.occurrences, m.nextRunAt, room).(claims := r.claims - {who})
    case Defers(who) =>
      Store(r, r.claims[who], [], Plus(r.claims[who].now, RETRY_DELAY).value, 0).(claims := r.claims - {who})
    case Abandons(who) => r.(claims := r.claims - {who})
    case SetPaused(paused) => r.(paused := paused)
    case Retires(task) => r.(rows := r.rows - {task})
  }

  ghost predicate Run(p: Plan, rs: seq<Row>, steps: seq<Step>) {
    && |rs| == |steps| + 1
    && rs[0].cursor % MICRO == 0 && rs[0].rows == {} && rs[0].created == [] && rs[0].claims == map[]
    && forall i | 0 <= i < |steps| :: Enabled(p, rs[i], steps[i]) && rs[i + 1] == Next(rs[i], steps[i])
  }

  /** No claim of a scheduler that cannot parse the row is by a clock more than `gap` ahead of the one it defers from. */
  ghost predicate Prompt(p: Plan, steps: seq<Step>, gap: int) {
    forall i | 0 <= i < |steps| && steps[i].Claims? && steps[i].who in p.unreadable ::
      steps[i].claimAt <= steps[i].now + gap
  }

  predicate Increasing(s: seq<Instant>) {
    forall i, j | 0 <= i < j < |s| :: s[i] < s[j]
  }

  // ------------------------------------------------------------- one step

  /** When one store leaves the cursor where it was or moves it forward past its clock: exactly this. */
  lemma StoreMovesPast(p: Plan, r: Row, c: Claim, m: Materialization, room: nat)
    requires Materialized(p.definition, c.expected, c.now, p.policy, m) && Current(r, c)
    ensures var next := Store(r, c, m.occurrences, m.nextRunAt, room).cursor;
      (next == r.cursor || (r.cursor < next && c.now < next))
      <==> (room >= |m.occurrences| || m.occurrences[room] == r.cursor)
  {
  }

  /** A deferral by a scheduler that can parse the row always does; by another, exactly within the retry delay. */
  lemma DeferralMovesPast(p: Plan, r: Row, who: Scheduler)
    requires Enabled(p, r, Defers(who)) && Current(r, r.claims[who])
    ensures var next := Next(r, Defers(who)).cursor;
      (next == r.cursor || (r.cursor < next && r.claims[who].now < next))
      <==> (who in p.unreadable ==> r.cursor <= r.claims[who].now + RETRY_DELAY)
  {
  }

  /** Everything created lies before anything that can still be created. */
  ghost predicate Behind(p: Plan, r: Row) {
    && Increasing(r.created)
    && (forall i | 0 <= i < |r.created| :: r.created[i] < Earliest(p.definition, r.cursor, p.policy))
  }

  ghost predicate ClaimsPrompt(p: Plan, r: Row) {
    forall who | who in r.claims && who in p.unreadable :: r.claims[who].expected <= r.claims[who].now + RETRY_DELAY
  }

  lemma {:induction false} InsertBehind(rows: set<Instant>, created: seq<Instant>, picked: seq<Instant>, bound: int)
    requires Increasing(created) && Increasing(picked)
    requires forall i, j | 0 <= i < |created| && 0 <= j < |picked| :: created[i] < picked[j]
    requires forall i | 0 <= i < |created| :: created[i] < bound
    requires forall i | 0 <= i < |picked| :: picked[i] < bound
    ensures Increasing(Insert(rows, created, picked).1)
    ensures forall i | 0 <= i < |Insert(rows, created, picked).1| :: Insert(rows, created, picked).1[i] < bound
    decreases |picked|
  {
    if picked != [] {
      if picked[0] in rows {
        InsertBehind(rows, created, picked[1..], bound);
      } else {
        InsertBehind(rows + {picked[0]}, created + [picked[0]], picked[1..], bound);
      }
    }
  }

  /** Cron occurrences are whole seconds, so flooring the new cursor loses none of what was created before it. */
  lemma NewEarliest(p: Plan, c: Claim, m: Materialization, room: nat)
    requires Parsed(p.definition) && Materialized(p.definition, c.expected, c.now, p.policy, m)
    ensures var next := if room < |m.occurrences| then m.occurrences[room] else m.nextRunAt;
      && Earliest(p.definition, c.expected, p.policy) <= Earliest(p.definition, next, p.policy)
      && forall i | 0 <= i < Min(|m.occurrences|, room) :: m.occurrences[i] < Earliest(p.definition, next, p.policy)
  {
  }

  lemma StoreBehind(p: Plan, r: Row, c: Claim, m: Materialization, room: nat)
    requires Parsed(p.definition) && Materialized(p.definition, c.expected, c.now, p.policy, m) && Behind(p, r)
    ensures var r' := Store(r, c, m.occurrences, m.nextRunAt, room);
      && Behind(p, r')
      && Earliest(p.definition, r.cursor, p.policy) <= Earliest(p.definition, r'.cursor, p.policy)
  {
    if Current(r, c) {
      NewEarliest(p, c, m, room);
      var allowed := Min(|m.occurrences|, room);
      var next := if allowed < |m.occurrences| then m.occurrences[allowed] else m.nextRunAt;
      InsertBehind(r.rows, r.created, m.occurrences[..allowed], Earliest(p.definition, next, p.policy));
    }
  }

  lemma StepBehind(p: Plan, r: Row, s: Step)
    requires Parsed(p.definition) && Enabled(p, r, s) && Behind(p, r) && ClaimsPrompt(p, r)
    requires s.Claims? && s.who in p.unreadable ==> s.claimAt <= s.now + RETRY_DELAY
    ensures Behind(p, Next(r, s)) && ClaimsPrompt(p, Next(r, s))
    ensures Earliest(p.definition, r.cursor, p.policy) <= Earliest(p.definition, Next(r, s).cursor, p.policy)
  {
    match s
    case Stores(who, m, room) => StoreBehind(p, r, r.claims[who], m, room);
    case _ =>
  }

  // ------------------------------------------------------------ whole runs

  lemma {:induction false} RunBehind(p: Plan, rs: seq<Row>, steps: seq<Step>, n: nat)
    requires Parsed(p.definition) && Run(p, rs, steps) && Prompt(p, steps, RETRY_DELAY) && n <= |steps|
    ensures Behind(p, rs[n]) && ClaimsPrompt(p, rs[n])
    ensures n > 0 ==> Earliest(p.definition, rs[n - 1].cursor, p.policy) <= Earliest(p.definition, rs[n].cursor, p.policy)
    decreases n
  {
    if n > 0 {
      RunBehind(p, rs, steps, n - 1);
      StepBehind(p, rs[n - 1], steps[n - 1]);
    }
  }

  // ------------------------------------------------- what moves the schedule

  /** The claim a step writes back is still good: the schedule runs, and nobody has moved its cursor since. */
  predicate WritesBack(r: Row, s: Step) {
    (s.Stores? || s.Defers?) && s.who in r.claims && !r.paused && r.cursor == r.claims[s.who].expected
  }

  /** Only that moves the cursor or creates anything. */
  lemma MovedBy(p: Plan, rs: seq<Row>, steps: seq<Step>, i: nat)
    requires Run(p, rs, steps) && i < |steps| && !WritesBack(rs[i], steps[i])
    ensures rs[i + 1].cursor == rs[i].cursor && rs[i + 1].created == rs[i].created
    ensures rs[i + 1].rows == rs[i].rows - if steps[i].Retires? then {steps[i].task} else {}
    ensures rs[i + 1].paused == if steps[i].SetPaused? then steps[i].paused else rs[i].paused
  {
  }

  /** A claim is of the cursor as it stood, made only while the schedule runs and is due, and held until its holder is done with it. */
  lemma ClaimedExactly(p: Plan, rs: seq<Row>, steps: seq<Step>, i: nat, who: Scheduler)
    requires Run(p, rs, steps) && i < |steps|
    ensures var r, r', s := rs[i], rs[i + 1], steps[i];
      if s.Claims? && s.who == who
      then !r.paused && r.cursor <= s.claimAt && who in r'.claims && r'.claims[who] == Claim(r.cursor, s.now)
      else if (s.Stores? || s.Defers? || s.Abandons?) && s.who == who then who !in r'.claims
      else (who in r'.claims <==> who in r.claims) && (who in r.claims ==> r'.claims[who] == r.claims[who])
  {
  }

  /**
    What does, exactly: a store creates the occurrences its queue has room for, in order, except those still stored,
    and rests on the first left over or else on the next time; a deferral creates nothing and rests 60 seconds after its
    clock.
  */
  lemma WrittenBack(p: Plan, rs: seq<Row>, steps: seq<Step>, i: nat)
    requires Run(p, rs, steps) && i < |steps| && WritesBack(rs[i], steps[i])
    ensures var r, r', s := rs[i], rs[i + 1], steps[i];
      && r.created <= r'.created && !r'.paused
      && (s.Defers? ==>
            r'.cursor == r.claims[s.who].now + 60 * SECOND && r'.created == r.created && r'.rows == r.rows)
      && (s.Stores? ==>
            var n := Min(|s.m.occurrences|, s.room);
            && r'.cursor == (if n < |s.m.occurrences| then s.m.occurrences[n] else s.m.nextRunAt)
            && r'.rows == r.rows + (set t | t in s.m.occurrences[..n])
            && (forall t :: t in r'.created[|r.created|..] <==> t in s.m.occurrences[..n] && t !in r.rows)
            && Increasing(r'.created[|r.created|..]))
  {
    var r, s := rs[i], steps[i];
    if s.Stores? {
      var picked := s.m.occurrences[..Min(|s.m.occurrences|, s.room)];
      InsertedRows(r.rows, r.created, picked);
      var news := InsertedNews(r.rows, r.created, picked);
      assert rs[i + 1].created == r.created + news;
      assert rs[i + 1].created[|r.created|..] == news;
    }
  }

  lemma {:induction false} InsertedRows(rows: set<Instant>, created: seq<Instant>, picked: seq<Instant>)
    ensures Insert(rows, created, picked).0 == rows + set t | t in picked
    decreases |picked|
  {
    if picked != [] {
      assert (set t | t in picked) == {picked[0]} + set t | t in picked[1..];
      InsertedRows(rows, created, picked[1..]);
      InsertedRows(rows + {picked[0]}, created + [picked[0]], picked[1..]);
    }
  }

  lemma {:induction false} InsertedNews(rows: set<Instant>, created: seq<Instant>, picked: seq<Instant>) returns (news: seq<Instant>)
    requires Increasing(picked)
    ensures Insert(rows, created, picked).1 == created + news && Increasing(news)
    ensures forall t :: t in news <==> t in picked && t !in rows
    decreases |picked|
  {
    news := [];
    if picked != [] {
      var first, rest := picked[0], picked[1..];
      LaterThanFirst(picked);
      if first in rows {
        news := InsertedNews(rows, created, rest);
      } else {
        hide Increasing;
        var more := InsertedNews(rows + {first}, created + [first], rest);
        news := [first] + more;
        FirstIsLess(first, more);
        assert created + [first] + more == created + news;
      }
    }
  }

  lemma LaterThanFirst(picked: seq<Instant>)
    requires Increasing(picked) && picked != []
    ensures Increasing(picked[1..])
    ensures forall t | t in picked[1..] :: picked[0] < t
    ensures forall t :: t in picked <==> t == picked[0] || t in picked[1..]
  {
  }

  lemma FirstIsLess(first: Instant, more: seq<Instant>)
    requires Increasing(more) && forall t | t in more :: first < t
    ensures Increasing([first] + more)
  {
    assert forall k | 0 <= k < |more| :: more[k] in more;
  }

  /** From a pause until it is lifted, whatever schedulers still hold claims: nothing is claimed or created, and the cursor stays. */
  lemma {:induction false} PausedRests(p: Plan, rs: seq<Row>, steps: seq<Step>, i: nat, j: nat)
    requires Run(p, rs, steps) && i < j < |rs| && steps[i] == SetPaused(true)
    requires forall k | i < k < j :: steps[k] != SetPaused(false)
    ensures rs[j].paused && rs[j].cursor == rs[i].cursor && rs[j].created == rs[i].created
    ensures forall k | i < k < j :: !steps[k].Claims?
    decreases j
  {
    if i + 1 < j {
      PausedRests(p, rs, steps, i, j - 1);
    }
    MovedBy(p, rs, steps, j - 1);
  }

  /** One more step. */
  lemma Took(p: Plan, rs: seq<Row>, steps: seq<Step>, s: Step) returns (rs': seq<Row>, steps': seq<Step>)
    requires Run(p, rs, steps) && Enabled(p, rs[|rs| - 1], s)
    ensures Run(p, rs', steps') && steps' == steps + [s] && rs'[|rs'| - 1] == Next(rs[|rs| - 1], s)
  {
    rs', steps' := rs + [Next(rs[|rs| - 1], s)], steps + [s];
  }

  /** Scheduler 1 cannot parse the row; scheduler 0 can. */
  ghost const EveryMilli := Plan(Interval(MILLI), Skip, iset{1})

  lemma OneDue(cursor: Instant)
    requires -MILLI <= cursor <= MILLI
    ensures Materialized(EveryMilli.definition, cursor, cursor, Skip, Materialization([cursor], cursor + MILLI, 0))
  {
    var d := EveryMilli.definition;
    assert Nth(d, cursor, 0) == Some(cursor) && Nth(d, cursor, 1) == Some(cursor + MILLI);
    assert DueTimes(d, cursor, cursor, 1);
  }

  lemma InsertOne(created: seq<Instant>, t: Instant)
    ensures Insert({}, created, [t]) == ({t}, created + [t])
  {
    var none: set<Instant> := {};
    assert none + {t} == {t};
    assert [t][1..] == [];
    assert Insert(none + {t}, created + [t], []) == (none + {t}, created + [t]);
  }

  /** A due schedule is claimed and stored at its cursor. */
  lemma Fire(rs: seq<Row>, steps: seq<Step>, cursor: Instant, created: seq<Instant>)
    returns (rs': seq<Row>, steps': seq<Step>)
    requires Run(EveryMilli, rs, steps) && Prompt(EveryMilli, steps, RETRY_DELAY + MICRO) && -MILLI <= cursor <= MILLI && cursor % MICRO == 0
    requires rs[|rs| - 1] == Row(cursor, false, {}, created, map[])
    ensures Run(EveryMilli, rs', steps') && Prompt(EveryMilli, steps', RETRY_DELAY + MICRO)
    ensures rs'[|rs'| - 1] == Row(cursor + MILLI, false, {cursor}, created + [cursor], map[])
  {
    hide Run;
    OneDue(cursor);
    var m := Materialization([cursor], cursor + MILLI, 0);
    assert [cursor][..1] == [cursor] && [cursor][1..] == [];
    InsertOne(created, cursor);
    rs', steps' := Took(EveryMilli, rs, steps, Claims(0, cursor, cursor));
    rs', steps' := Took(EveryMilli, rs', steps', Stores(0, m, 1));
    assert rs'[|rs'| - 1].claims == map[];
  }

  /** A claim made by a clock just over the retry delay ahead, and deferred, moves the cursor back. */
  lemma {:induction false} Rewind(rs: seq<Row>, steps: seq<Step>, cursor: Instant, target: Instant, rows: set<Instant>, created: seq<Instant>)
    returns (rs': seq<Row>, steps': seq<Step>)
    requires Run(EveryMilli, rs, steps) && Prompt(EveryMilli, steps, RETRY_DELAY + MICRO) && -MILLI <= target <= cursor <= MILLI
    requires cursor % MICRO == 0 && target % MICRO == 0
    requires rs[|rs| - 1] == Row(cursor, false, rows, created, map[])
    ensures Run(EveryMilli, rs', steps') && Prompt(EveryMilli, steps', RETRY_DELAY + MICRO)
    ensures rs'[|rs'| - 1] == Row(target, false, rows, created, map[])
    decreases cursor - target
  {
    hide Run;
    rs', steps' := rs, steps;
    if cursor > target {
      rs', steps' := Took(EveryMilli, rs', steps', Claims(1, cursor - RETRY_DELAY - MICRO, cursor));
      rs', steps' := Took(EveryMilli, rs', steps', Defers(1));
      assert rs'[|rs'| - 1] == Row(cursor - MICRO, false, rows, created, map[]);
      rs', steps' := Rewind(rs', steps', cursor - MICRO, target, rows, created);
    }
  }

  /**
    When every scheduler can parse the row, then for any number of them, over any run and whatever the clocks
    read: the occurrences created strictly increase, so none is created twice, even after its task was
    deleted, and what can still be created never moves back.
  */
  lemma AlwaysInOrder(p: Plan, rs: seq<Row>, steps: seq<Step>)
    requires Parsed(p.definition) && Run(p, rs, steps) && p.unreadable == iset{}
    ensures Increasing(rs[|rs| - 1].created)
    ensures forall i | 0 < i < |rs| ::
      Earliest(p.definition, rs[i - 1].cursor, p.policy) <= Earliest(p.definition, rs[i].cursor, p.policy)
  {
    forall i | 0 <= i < |rs|
      ensures Behind(p, rs[i])
      ensures i > 0 ==> Earliest(p.definition, rs[i - 1].cursor, p.policy) <= Earliest(p.definition, rs[i].cursor, p.policy)
    {
      RunBehind(p, rs, steps, i);
    }
  }

  /**
    With schedulers among them that cannot, whatever the other clocks read: the same if and only if no claim
    of such a scheduler is by a clock more than the retry delay ahead of the one it defers from.
  */
  lemma CreatedInOrder(gap: int)
    requires gap % MICRO == 0
    ensures gap <= RETRY_DELAY <==>
      forall p: Plan, rs: seq<Row>, steps: seq<Step> | Parsed(p.definition) && Run(p, rs, steps) && Prompt(p, steps, gap) ::
        Increasing(rs[|rs| - 1].created)
  {
    if gap <= RETRY_DELAY {
      forall p: Plan, rs: seq<Row>, steps: seq<Step> | Parsed(p.definition) && Run(p, rs, steps) && Prompt(p, steps, gap)
        ensures Increasing(rs[|rs| - 1].created)
      {
        RunBehind(p, rs, steps, |steps|);
      }
    } else {
      var rs, steps := OutOfOrder();
      assert Parsed(EveryMilli.definition) && Run(EveryMilli, rs, steps) && Prompt(EveryMilli, steps, gap);
    }
  }

  lemma OutOfOrder() returns (rs: seq<Row>, steps: seq<Step>)
    ensures Run(EveryMilli, rs, steps) && Prompt(EveryMilli, steps, RETRY_DELAY + MICRO)
    ensures !Increasing(rs[|rs| - 1].created)
  {
    rs, steps := [Row(0, false, {}, [], map[])], [];
    rs, steps := Fire(rs, steps, 0, []);
    rs, steps := Took(EveryMilli, rs, steps, Retires(0));
    assert rs[|rs| - 1].rows == {};
    rs, steps := Rewind(rs, steps, MILLI, -MICRO, {}, [0]);
    rs, steps := Fire(rs, steps, -MICRO, [0]);
    assert rs[|rs| - 1].created[0] > rs[|rs| - 1].created[1];
  }

  // ---------------------------------------------------------- a full queue

  lemma LatestOfTwo()
    ensures Materialized(Interval(MILLI), 0, MILLI, Latest, Materialization([MILLI], 2 * MILLI, 1))
  {
    var d := Interval(MILLI);
    assert Nth(d, 0, 0) == Some(0) && Nth(d, 0, 1) == Some(MILLI) && Nth(d, 0, 2) == Some(2 * MILLI);
    assert DueTimes(d, 0, MILLI, 2);
    forall n: nat | DueTimes(d, 0, MILLI, n)
      ensures n > 0 && Nth(d, 0, n - 1) == Some(MILLI)
    {
      LastOfInterval(d, 0, MILLI, n, 1);
    }
  }

  /** A run in which the cursor moves, but not past the clock: the queue has no room for the one occurrence picked. */
  lemma RestsAtNow() returns (rs: seq<Row>, steps: seq<Step>)
    ensures Run(Plan(Interval(MILLI), Latest, iset{}), rs, steps)
    ensures steps == [Claims(0, MILLI, MILLI), Stores(0, Materialization([MILLI], 2 * MILLI, 1), 0)]
    ensures rs[1].cursor < rs[2].cursor == rs[1].claims[0].now
  {
    var p := Plan(Interval(MILLI), Latest, iset{});
    LatestOfTwo();
    rs, steps := [Row(0, false, {}, [], map[])], [];
    rs, steps := Took(p, rs, steps, Claims(0, MILLI, MILLI));
    rs, steps := Took(p, rs, steps, Stores(0, Materialization([MILLI], 2 * MILLI, 1), 0));
  }

  // ------------------------------------------------- slots of the queue

  // The trigger that counts a new task against its queue's limit runs before the insertion finds that the
  // occurrence is already stored.

  /** The slots of the queue a store takes. */
  function SlotsTaken(r: Row, c: Claim, m: Materialization, room: nat): nat {
    if Current(r, c) then Min(|m.occurrences|, room) else 0
  }

  /** The tasks it adds. */
  function TasksAdded(r: Row, c: Claim, m: Materialization, room: nat): int {
    |Store(r, c, m.occurrences, m.nextRunAt, room).created| - |r.created|
  }

  lemma {:induction false} InsertCount(rows: set<Instant>, created: seq<Instant>, picked: seq<Instant>)
    requires Increasing(picked)
    ensures |Insert(rows, created, picked).1| <= |created| + |picked|
    ensures |Insert(rows, created, picked).1| == |created| + |picked| <==> forall i | 0 <= i < |picked| :: picked[i] !in rows
    decreases |picked|
  {
    if picked != [] {
      var rest := picked[1..];
      assert forall i | 0 <= i < |rest| :: rest[i] == picked[i + 1] && rest[i] > picked[0];
      if picked[0] in rows {
        InsertCount(rows, created, rest);
      } else {
        InsertCount(rows + {picked[0]}, created + [picked[0]], rest);
        assert (forall i | 0 <= i < |picked| :: picked[i] !in rows) <==> forall i | 0 <= i < |rest| :: rest[i] !in rows;
      }
    }
  }

  /** A store takes as many slots as it adds tasks if and only if none of what it inserts is stored already. */
  lemma SlotsMatchTasks(p: Plan, r: Row, c: Claim, m: Materialization, room: nat)
    requires Materialized(p.definition, c.expected, c.now, p.policy, m)
    ensures TasksAdded(r, c, m, room) <= SlotsTaken(r, c, m, room)
    ensures TasksAdded(r, c, m, room) == SlotsTaken(r, c, m, room)
      <==> (Current(r, c) ==> forall i | 0 <= i < Min(|m.occurrences|, room) :: m.occurrences[i] !in r.rows)
  {
    if Current(r, c) {
      InsertCount(r.rows, r.created, m.occurrences[..Min(|m.occurrences|, room)]);
    }
  }

  lemma {:induction false} InsertKeeps(rows: set<Instant>, created: seq<Instant>, picked: seq<Instant>)
    requires forall t | t in rows :: t in created
    ensures forall t | t in Insert(rows, created, picked).0 :: t in Insert(rows, created, picked).1
    decreases |picked|
  {
    if picked != [] {
      if picked[0] in rows {
        InsertKeeps(rows, created, picked[1..]);
      } else {
        InsertKeeps(rows + {picked[0]}, created + [picked[0]], picked[1..]);
      }
    }
  }

  lemma {:induction false} RowsWereCreated(p: Plan, rs: seq<Row>, steps: seq<Step>, n: nat)
    requires Run(p, rs, steps) && n <= |steps|
    ensures forall t | t in rs[n].rows :: t in rs[n].created
    decreases n
  {
    if n > 0 {
      RowsWereCreated(p, rs, steps, n - 1);
      var r, s := rs[n - 1], steps[n - 1];
      match s
      case Stores(who, m, room) => InsertKeeps(r.rows, r.created, m.occurrences[..Min(|m.occurrences|, room)]);
      case _ =>
    }
  }

  /** So while the created occurrences are in order the queue's counter never drifts: in particular when every scheduler parses the row. */
  lemma SlotsNeverDrift(p: Plan, rs: seq<Row>, steps: seq<Step>, i: nat)
    requires Parsed(p.definition) && Run(p, rs, steps) && Prompt(p, steps, RETRY_DELAY) && i < |steps| && steps[i].Stores?
    ensures var c := rs[i].claims[steps[i].who];
      TasksAdded(rs[i], c, steps[i].m, steps[i].room) == SlotsTaken(rs[i], c, steps[i].m, steps[i].room)
  {
    var r, c, m := rs[i], rs[i].claims[steps[i].who], steps[i].m;
    RunBehind(p, rs, steps, i);
    RowsWereCreated(p, rs, steps, i);
    SlotsMatchTasks(p, r, c, m, steps[i].room);
    if Current(r, c) {
      forall k | 0 <= k < Min(|m.occurrences|, steps[i].room)
        ensures m.occurrences[k] !in r.rows
      {
        assert m.occurrences[k] >= Earliest(p.definition, r.cursor, p.policy);
      }
    }
  }

  /** A run in which it drifts: a cursor moved back to an occurrence that is stored. */
  lemma SlotDrifts() returns (rs: seq<Row>, steps: seq<Step>)
    ensures Run(EveryMilli, rs, steps) && 0 in rs[|rs| - 1].claims
    ensures var m := Materialization([0], MILLI, 0);
      && Enabled(EveryMilli, rs[|rs| - 1], Stores(0, m, 1))
      && SlotsTaken(rs[|rs| - 1], rs[|rs| - 1].claims[0], m, 1) == 1
      && TasksAdded(rs[|rs| - 1], rs[|rs| - 1].claims[0], m, 1) == 0
  {
    rs, steps := [Row(0, false, {}, [], map[])], [];
    rs, steps := Fire(rs, steps, 0, []);
    var none: seq<Instant> := [];
    assert none + [0] == [0];
    rs, steps := Rewind(rs, steps, MILLI, 0, {0}, [0]);
    rs, steps := Took(EveryMilli, rs, steps, Claims(0, 0, 0));
    OneDue(0);
    assert [0 as Instant][..1] == [0] && [0 as Instant][1..] == [];
  }
}
