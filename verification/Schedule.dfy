/**
  Turning a recurring schedule into the occurrences that are due. Instants are nanoseconds
  since the epoch, within chrono's `DateTime<Utc>` range.
*/
module Schedule {
  import opened Common

  const MILLI: int := 1_000_000
  const SECOND: int := 1_000_000_000
  const MIN_SECOND: int := -8_334_601_228_800
  const MAX_SECOND: int := 8_210_266_876_799
  const MAX_MILLIS: int := 9_223_372_036_854_775_807   // i64::MAX; also the longest `TimeDelta`
  const DUE_COUNT_LIMIT: nat := 10_000

  type Instant = t: int | MIN_SECOND * SECOND <= t < (MAX_SECOND + 1) * SECOND witness 0

  datatype ScheduleError =
    | ZeroInterval
    | UnsupportedIntervalPrecision
    | IntervalOutOfRange
    | NoFutureOccurrence
    | DateOutOfRange

  /** An interval in nanoseconds, or the occurrences of a parsed cron expression with their successor. */
  datatype Definition =
    | Interval(every: nat)
    | Cron(occurs: Instant -> bool, next: Instant -> Option<Instant>)

  type Limit = n: nat | 1 <= n <= 65_535 witness 1

  datatype Policy = Skip | Latest | CatchUp(limit: Limit)

  datatype Materialization = Materialization(occurrences: seq<Instant>, nextRunAt: Instant, skipped: nat)

  /** `next(t)` is the first occurrence strictly after `t`, and occurrences are whole seconds. */
  ghost predicate Parsed(d: Definition) {
    d.Cron? ==>
      && (forall u: Instant | d.occurs(u) :: u % SECOND == 0)
      && (forall t: Instant | d.next(t).Some? :: t < d.next(t).value && d.occurs(d.next(t).value))
      && (forall t: Instant, u: Instant | t < u && d.occurs(u) :: d.next(t).Some? && d.next(t).value <= u)
  }

  function IntervalMillis(every: nat): Result<nat, ScheduleError> {
    if every == 0 then Err(ZeroInterval)
    else if every % MILLI != 0 then Err(UnsupportedIntervalPrecision)
    else if every / MILLI > MAX_MILLIS then Err(IntervalOutOfRange)
    else Ok(every / MILLI)
  }

  function Plus(t: Instant, delta: int): Result<Instant, ScheduleError> {
    if MIN_SECOND * SECOND <= t + delta < (MAX_SECOND + 1) * SECOND then Ok(t + delta) else Err(DateOutOfRange)
  }

  function NextAfter(d: Definition, after: Instant): Result<Instant, ScheduleError> {
    match d
    case Interval(every) => if every > MAX_MILLIS * MILLI then Err(IntervalOutOfRange) else Plus(after, every)
    case Cron(_, next) => if next(after).Some? then Ok(next(after).value) else Err(NoFutureOccurrence)
  }

  // ------------------------------------------------------------ due times

  /** The `k`-th due time, counted from the cursor: it, then what follows it, and so on. */
  function Nth(d: Definition, first: Instant, k: nat): Option<Instant> {
    if k == 0 then Some(first)
    else
      var before := Nth(d, first, k - 1);
      if before.Some? && NextAfter(d, before.value).Ok? then Some(NextAfter(d, before.value).value) else None
  }

  /** `n` is the number of due times up to `now`: the first `n` are due and the next one is not. */
  ghost predicate DueTimes(d: Definition, first: Instant, now: Instant, n: nat) {
    && (forall k: nat | k < n :: Nth(d, first, k).Some? && Nth(d, first, k).value <= now)
    && Nth(d, first, n).Some? && now < Nth(d, first, n).value
  }

  /** `n` is that number, or `cap` if there are at least that many. */
  ghost predicate CappedDueTimes(d: Definition, first: Instant, now: Instant, cap: nat, n: nat) {
    && n <= cap
    && (forall k: nat | k < n :: Nth(d, first, k).Some? && Nth(d, first, k).value <= now)
    && (n == cap || (Nth(d, first, n).Some? && now < Nth(d, first, n).value))
  }

  /** An interval the code can step by. */
  predicate Steps(d: Definition) {
    d.Interval? ==> d.every > 0 && d.every % MILLI == 0 && d.every <= MAX_MILLIS * MILLI
  }

  lemma {:induction false} NthOfInterval(d: Definition, first: Instant, k: nat)
    requires d.Interval? && Steps(d) && first + k * d.every < (MAX_SECOND + 1) * SECOND
    ensures Nth(d, first, k) == Some(first + k * d.every)
  {
    if k > 0 {
      assert k * d.every == (k - 1) * d.every + d.every;
      assert (k - 1) * d.every >= 0;
      NthOfInterval(d, first, k - 1);
    }
  }

  /** Due times are strictly increasing. */
  lemma {:induction false} NthIncreases(d: Definition, first: Instant, j: nat, k: nat)
    requires Parsed(d) && Steps(d) && j < k && Nth(d, first, k).Some?
    ensures Nth(d, first, j).Some? && Nth(d, first, j).value < Nth(d, first, k).value
    decreases k
  {
    if j < k - 1 {
      NthIncreases(d, first, j, k - 1);
    }
  }

  /** Truncating the clock to milliseconds before dividing loses nothing: floor of floor. */
  lemma FloorOfFloor(elapsed: nat, count: nat)
    requires count > 0
    ensures elapsed / MILLI / count == elapsed / (MILLI * count)
  {
    var q, r := elapsed / MILLI, elapsed % MILLI;
    var p, s := q / count, q % count;
    var whole := count * p;
    assert q == whole + s;
    assert MILLI * count * p == MILLI * whole;
    Quotient(elapsed, MILLI * count, p, MILLI * s + r);
  }

  lemma Quotient(n: int, d: int, q: int, r: int)
    requires 0 <= r < d && n == d * q + r
    ensures n / d == q
  {
    var e := n / d - q;
    assert n == d * (n / d) + n % d;
    assert d * e == r - n % d by { assert d * e == d * (n / d) - d * q; }
    assert e >= 1 ==> d * e >= d;
    assert e <= -1 ==> d * e <= -d;
  }

  // ------------------------------------------------------------- counting

  /** How many times an interval is due: arithmetic on clocks truncated to the millisecond. */
  function IntervalDueCount(every: nat, first: Instant, now: Instant): Result<nat, ScheduleError> {
    var millis := IntervalMillis(every);
    if millis.Err? then Err(millis.error)
    else Ok(Max((now - first) / MILLI, 0) / millis.value + 1)
  }

  lemma WholeIntervals(elapsed: nat, every: nat)
    requires every > 0 && every % MILLI == 0
    ensures elapsed / MILLI / (every / MILLI) == elapsed / every
    ensures elapsed / every * every <= elapsed < (elapsed / every + 1) * every == elapsed / every * every + every
  {
    FloorOfFloor(elapsed, every / MILLI);
    assert elapsed == every * (elapsed / every) + elapsed % every;
  }

  lemma DueUpTo(d: Definition, first: Instant, now: Instant, q: nat)
    requires d.Interval? && Steps(d) && NextAfter(d, now).Ok?
    requires first + q * d.every <= now < first + (q + 1) * d.every <= now + d.every
    ensures DueTimes(d, first, now, q + 1)
  {
    NthOfInterval(d, first, q + 1);
    forall k: nat | k < q + 1
      ensures Nth(d, first, k).Some? && Nth(d, first, k).value <= now
    {
      assert k * d.every <= q * d.every;
      NthOfInterval(d, first, k);
    }
  }

  /** Despite the truncation that is the true number of due times. */
  lemma IntervalCountExact(d: Definition, first: Instant, now: Instant)
    requires d.Interval? && Steps(d) && first <= now && NextAfter(d, now).Ok?
    ensures IntervalDueCount(d.every, first, now).Ok?
    ensures DueTimes(d, first, now, IntervalDueCount(d.every, first, now).value)
  {
    WholeIntervals(now - first, d.every);
    DueUpTo(d, first, now, (now - first) / d.every);
  }

  lemma NthNext(d: Definition, first: Instant, k: nat, t: Instant)
    requires Nth(d, first, k) == Some(t) && NextAfter(d, t).Ok?
    ensures Nth(d, first, k + 1) == Some(NextAfter(d, t).value)
  {
  }

  lemma NthZero(d: Definition, first: Instant)
    ensures Nth(d, first, 0) == Some(first)
  {
  }

  /** What the clock allows at `now` it allows at every earlier time. */
  lemma NextBefore(d: Definition, t: Instant, now: Instant)
    requires Parsed(d) && t <= now && NextAfter(d, now).Ok?
    ensures NextAfter(d, t).Ok?
  {
  }

  method DueCount(d: Definition, first: Instant, now: Instant) returns (r: Result<nat, ScheduleError>)
    requires Parsed(d)
    ensures d.Interval? ==> r == IntervalDueCount(d.every, first, now)
    ensures d.Cron? && r.Ok? ==> CappedDueTimes(d, first, now, DUE_COUNT_LIMIT, r.value)
    ensures d.Cron? && r.Err? ==> r.error == NoFutureOccurrence && d.next(now).None?
  {
    match d
    case Interval(every) =>
      r := IntervalDueCount(every, first, now);
    case Cron(_, _) =>
      hide Nth, Parsed;
      NthZero(d, first);
      var count: nat := 0;
      var occurrence := first;
      while occurrence <= now && count < DUE_COUNT_LIMIT
        invariant count <= DUE_COUNT_LIMIT
        invariant Nth(d, first, count) == Some(occurrence)
        invariant forall k: nat | k < count :: Nth(d, first, k).Some? && Nth(d, first, k).value <= now
        decreases DUE_COUNT_LIMIT - count
      {
        var next := NextAfter(d, occurrence);
        if d.next(now).Some? {
          NextBefore(d, occurrence, now);
        }
        if next.Err? {
          return Err(next.error);
        }
        NthNext(d, first, count, occurrence);
        count := count + 1;
        occurrence := next.value;
      }
      r := Ok(count);
  }

  // ----------------------------------------------------- the latest due time

  /**
    Some occurrence lies strictly after `floor(first) - 1s` and at or before `now`. One at the very
    first representable second is out of reach: the search would have to start before it.
  */
  ghost predicate SomeDue(d: Definition, first: Instant, now: Instant)
    requires d.Cron?
  {
    exists u: Instant :: d.occurs(u) && first / SECOND * SECOND - SECOND < u <= now && MIN_SECOND * SECOND < u
  }

  ghost predicate Greatest(d: Definition, u: Instant, now: Instant)
    requires d.Cron?
  {
    d.occurs(u) && u <= now && forall v: Instant | d.occurs(v) && v <= now :: v <= u
  }

  function FromTimestamp(second: int): Result<Instant, ScheduleError> {
    if MIN_SECOND <= second <= MAX_SECOND then Ok(second * SECOND) else Err(DateOutOfRange)
  }

  /** The first occurrence after this whole second exists and is due. */
  ghost predicate DueAfter(d: Definition, now: Instant, second: int)
    requires d.Cron?
  {
    MIN_SECOND <= second <= MAX_SECOND && d.next(second * SECOND).Some? && d.next(second * SECOND).value <= now
  }

  ghost predicate NoneAfter(d: Definition, now: Instant, second: int)
    requires d.Cron?
  {
    MIN_SECOND <= second <= MAX_SECOND && d.next(second * SECOND).Some? && d.next(second * SECOND).value > now
  }

  lemma Successor(d: Definition, t: Instant, now: Instant)
    requires d.Cron? && Parsed(d) && t <= now && d.next(now).Some?
    ensures d.next(t).Some?
  {
  }

  /** Where the bounds meet, the next occurrence after the lower one is the answer. */
  lemma SearchFound(d: Definition, now: Instant, low: int, high: int)
    requires d.Cron? && Parsed(d) && low + 1 >= high
    requires high == now / SECOND + 1 || NoneAfter(d, now, high)
    requires DueAfter(d, now, low)
    ensures Greatest(d, d.next(low * SECOND).value, now) && low * SECOND < d.next(low * SECOND).value
  {
  }

  lemma SearchMissed(d: Definition, first: Instant, now: Instant, low: int)
    requires d.Cron? && Parsed(d) && d.next(now).Some? && low == first / SECOND - 1 && !DueAfter(d, now, low)
    requires MIN_SECOND <= low <= MAX_SECOND || NoneAfter(d, now, MIN_SECOND)
    ensures !SomeDue(d, first, now)
  {
  }

  method CronLatest(d: Definition, first: Instant, now: Instant) returns (r: Result<Instant, ScheduleError>)
    requires d.Cron? && Parsed(d)
    ensures r.Ok? ==> Greatest(d, r.value, now) && first / SECOND * SECOND - SECOND < r.value
    ensures d.next(now).Some? ==> (r.Ok? <==> SomeDue(d, first, now))
    ensures d.next(now).Some? && r.Err? && first / SECOND > MIN_SECOND ==> r.error == NoFutureOccurrence
  {
    hide Parsed, Greatest;
    var low, high := first / SECOND - 1, now / SECOND + 1;
    while low + 1 < high
      invariant first / SECOND - 1 <= low
      invariant low == first / SECOND - 1 || DueAfter(d, now, low)
      invariant high == now / SECOND + 1 || (NoneAfter(d, now, high) && high <= now / SECOND)
      decreases high - low
    {
      var middle := low + (high - low) / 2;
      var at := FromTimestamp(middle);
      if at.Err? {
        return at;
      }
      if d.next(now).Some? {
        Successor(d, at.value, now);
      }
      var next := NextAfter(d, at.value);
      if next.Err? {
        return next;
      }
      if next.value <= now {
        low := middle;
      } else {
        high := middle;
      }
    }
    if DueAfter(d, now, low) {
      SearchFound(d, now, low, high);
      GreatestOccurs(d, d.next(low * SECOND).value, now);
    } else if d.next(now).Some? {
      SearchMissed(d, first, now, low);
    }
    var at := FromTimestamp(low);
    if at.Err? {
      return at;
    }
    var next := NextAfter(d, at.value);
    r := if next.Ok? && next.value <= now then next else Err(NoFutureOccurrence);
  }

  lemma GreatestOccurs(d: Definition, u: Instant, now: Instant)
    requires d.Cron? && Greatest(d, u, now)
    ensures d.occurs(u)
  {
  }

  function IntervalLatest(every: nat, first: Instant, now: Instant): Result<Instant, ScheduleError>
    requires first <= now
  {
    var millis := IntervalMillis(every);
    if millis.Err? then Err(millis.error)
    else
      var intervals := (now - first) / MILLI / millis.value;
      Plus(first, intervals * millis.value * MILLI)
  }

  lemma BackToNanos(intervals: nat, every: nat)
    requires every % MILLI == 0
    ensures intervals * (every / MILLI) * MILLI == intervals * every
  {
  }

  lemma IntervalLatestExact(d: Definition, first: Instant, now: Instant)
    requires d.Interval? && first <= now
    ensures IntervalLatest(d.every, first, now).Ok? <==> Steps(d)
    ensures Steps(d) ==> forall n: nat | DueTimes(d, first, now, n) ::
      n > 0 && Nth(d, first, n - 1) == Some(IntervalLatest(d.every, first, now).value)
  {
    if Steps(d) {
      WholeIntervals(now - first, d.every);
      var q := (now - first) / d.every;
      BackToNanos(q, d.every);
      assert IntervalLatest(d.every, first, now) == Ok(first + q * d.every);
      forall n: nat | DueTimes(d, first, now, n)
        ensures n > 0 && Nth(d, first, n - 1) == Some(first + q * d.every)
      {
        LastOfInterval(d, first, now, n, q);
      }
    }
  }

  method LatestDue(d: Definition, first: Instant, now: Instant) returns (r: Result<Instant, ScheduleError>)
    requires Parsed(d) && first <= now
    ensures d.Interval? ==> (r.Ok? <==> Steps(d))
    ensures d.Interval? && r.Ok? ==>
      forall n: nat | DueTimes(d, first, now, n) :: n > 0 && Nth(d, first, n - 1) == Some(r.value)
    ensures d.Cron? && r.Ok? ==> Greatest(d, r.value, now) && first / SECOND * SECOND - SECOND < r.value
    ensures d.Cron? && d.next(now).Some? ==> (r.Ok? <==> SomeDue(d, first, now))
  {
    hide Nth, Parsed, DueTimes, SomeDue, Greatest;
    match d
    case Interval(every) =>
      r := IntervalLatest(every, first, now);
      IntervalLatestExact(d, first, now);
    case Cron(_, _) =>
      r := CronLatest(d, first, now);
  }

  lemma LastOfInterval(d: Definition, first: Instant, now: Instant, n: nat, q: nat)
    requires d.Interval? && Steps(d) && DueTimes(d, first, now, n)
    requires first + q * d.every <= now < first + (q + 1) * d.every
    ensures n > 0 && Nth(d, first, n - 1) == Some(first + q * d.every)
  {
    assert Nth(d, first, 0) == Some(first);
    ValueOfNth(d, first, n);
    ValueOfNth(d, first, n - 1);
    Between(d.every, n, q);
  }

  lemma {:induction false} ValueOfNth(d: Definition, first: Instant, k: nat)
    requires d.Interval? && Nth(d, first, k).Some?
    ensures Nth(d, first, k).value == first + k * d.every
  {
    if k > 0 {
      ValueOfNth(d, first, k - 1);
      assert k * d.every == (k - 1) * d.every + d.every;
    }
  }

  lemma Between(every: nat, n: nat, q: nat)
    requires n > 0 && (n - 1) * every < (q + 1) * every && q * every < n * every
    ensures n == q + 1
  {
  }

  // -------------------------------------------------------- materializing

  /** Exactly when a due schedule can be materialized. */
  ghost predicate Possible(d: Definition, cursor: Instant, now: Instant, policy: Policy) {
    && Steps(d)
    && NextAfter(d, now).Ok?
    && (d.Cron? && policy.Latest? ==> SomeDue(d, cursor, now))
  }

  /** Which due times the policy picks. */
  ghost predicate Picks(d: Definition, cursor: Instant, now: Instant, policy: Policy, picked: seq<Instant>) {
    match policy
    case Skip => picked == [cursor]
    case Latest =>
      |picked| == 1 && (
        if d.Cron? then Greatest(d, picked[0], now) && cursor / SECOND * SECOND - SECOND < picked[0]
        else forall n: nat | DueTimes(d, cursor, now, n) :: n > 0 && Nth(d, cursor, n - 1) == Some(picked[0]))
    case CatchUp(limit) =>
      && CappedDueTimes(d, cursor, now, limit, |picked|)
      && forall i: nat | i < |picked| :: Nth(d, cursor, i) == Some(picked[i])
  }

  /** What is reported as skipped: every due time not picked; for cron, of the first ten thousand. */
  ghost predicate Accounts(d: Definition, cursor: Instant, now: Instant, m: Materialization) {
    if d.Interval? then DueTimes(d, cursor, now, |m.occurrences| + m.skipped)
    else exists due: nat :: CappedDueTimes(d, cursor, now, DUE_COUNT_LIMIT, due) && m.skipped == Minus(due, |m.occurrences|)
  }

  /** The earliest instant a materialization may create: the cursor, floored to the second for cron `Latest`. */
  function Earliest(d: Definition, cursor: Instant, policy: Policy): int {
    if d.Cron? && policy.Latest? then cursor / SECOND * SECOND else cursor
  }

  ghost predicate Within(picked: seq<Instant>, from: int, now: Instant) {
    && (forall i | 0 <= i < |picked| :: from <= picked[i] <= now)
    && (forall i, j | 0 <= i < j < |picked| :: picked[i] < picked[j])
  }

  lemma PicksWithin(d: Definition, cursor: Instant, now: Instant, policy: Policy, picked: seq<Instant>)
    requires Parsed(d) && Possible(d, cursor, now, policy) && cursor <= now && Picks(d, cursor, now, policy, picked)
    ensures Within(picked, Earliest(d, cursor, policy), now)
  {
    match policy
    case Skip =>
    case Latest =>
      if d.Interval? {
        IntervalCountExact(d, cursor, now);
        var n := IntervalDueCount(d.every, cursor, now).value;
        NthFromCursor(d, cursor, n - 1);
      }
    case CatchUp(limit) =>
      forall i, j | 0 <= i < j < |picked|
        ensures picked[i] < picked[j]
      {
        NthIncreases(d, cursor, i, j);
      }
      forall i | 0 <= i < |picked|
        ensures cursor <= picked[i] <= now
      {
        NthFromCursor(d, cursor, i);
      }
  }

  lemma NthFromCursor(d: Definition, cursor: Instant, k: nat)
    requires Parsed(d) && Steps(d) && Nth(d, cursor, k).Some?
    ensures cursor <= Nth(d, cursor, k).value
  {
  }

  method CatchUpTimes(d: Definition, cursor: Instant, now: Instant, limit: Limit) returns (r: Result<seq<Instant>, ScheduleError>)
    requires Parsed(d)
    ensures NextAfter(d, now).Ok? ==> r.Ok?
    ensures r.Ok? ==> Picks(d, cursor, now, CatchUp(limit), r.value)
  {
    hide Nth, Parsed;
    NthZero(d, cursor);
    var occurrences: seq<Instant> := [];
    var occurrence := cursor;
    while occurrence <= now && |occurrences| < limit
      invariant |occurrences| <= limit
      invariant Nth(d, cursor, |occurrences|) == Some(occurrence)
      invariant forall i: nat | i < |occurrences| :: Nth(d, cursor, i) == Some(occurrences[i]) && occurrences[i] <= now
      decreases limit - |occurrences|
    {
      var next := NextAfter(d, occurrence);
      if NextAfter(d, now).Ok? {
        NextBefore(d, occurrence, now);
      }
      if next.Err? {
        return Err(next.error);
      }
      NthNext(d, cursor, |occurrences|, occurrence);
      occurrences := occurrences + [occurrence];
      occurrence := next.value;
    }
    r := Ok(occurrences);
  }

  lemma SameCount(d: Definition, cursor: Instant, now: Instant, cap: nat, n: nat, m: nat)
    requires DueTimes(d, cursor, now, n) && CappedDueTimes(d, cursor, now, cap, m)
    ensures m == Min(n, cap)
  {
  }

  lemma AccountsFor(d: Definition, cursor: Instant, now: Instant, policy: Policy, m: Materialization, due: nat)
    requires Parsed(d) && Possible(d, cursor, now, policy) && cursor <= now && Picks(d, cursor, now, policy, m.occurrences)
    requires m.skipped == Minus(due, |m.occurrences|)
    requires d.Interval? ==> Ok(due) == IntervalDueCount(d.every, cursor, now)
    requires d.Cron? ==> CappedDueTimes(d, cursor, now, DUE_COUNT_LIMIT, due)
    ensures Accounts(d, cursor, now, m)
  {
    if d.Interval? {
      IntervalCountExact(d, cursor, now);
      assert due > 0 by { assert Nth(d, cursor, 0) == Some(cursor); }
      if policy.CatchUp? {
        SameCount(d, cursor, now, policy.limit, due, |m.occurrences|);
      }
    }
  }

  /** A correct materialization of the schedule whose cursor is `cursor`, at `now`. */
  ghost predicate Materialized(d: Definition, cursor: Instant, now: Instant, policy: Policy, m: Materialization) {
    if cursor > now then m == Materialization([], cursor, 0)
    else
      && Possible(d, cursor, now, policy)
      && Picks(d, cursor, now, policy, m.occurrences)
      && Within(m.occurrences, Earliest(d, cursor, policy), now)
      && Accounts(d, cursor, now, m)
      && Ok(m.nextRunAt) == NextAfter(d, now) && now < m.nextRunAt
  }

  method Materialize(d: Definition, cursor: Instant, now: Instant, policy: Policy)
    returns (r: Result<Materialization, ScheduleError>)
    requires Parsed(d)
    ensures r.Ok? <==> cursor > now || Possible(d, cursor, now, policy)
    ensures r.Ok? ==> Materialized(d, cursor, now, policy, r.value)
  {
    hide Parsed, Nth, DueTimes, CappedDueTimes, SomeDue, Greatest;
    if cursor > now {
      return Ok(Materialization([], cursor, 0));
    }
    var occurrences: seq<Instant>;
    match policy {
      case Skip =>
        occurrences := [cursor];
      case Latest =>
        var latest := LatestDue(d, cursor, now);
        if latest.Err? {
          return Err(latest.error);
        }
        occurrences := [latest.value];
      case CatchUp(limit) =>
        var times := CatchUpTimes(d, cursor, now, limit);
        if times.Err? {
          return Err(times.error);
        }
        occurrences := times.value;
    }
    var due := DueCount(d, cursor, now);
    if due.Err? {
      return Err(due.error);
    }
    var next := NextAfter(d, now);
    if next.Err? {
      return Err(next.error);
    }
    r := Ok(Materialization(occurrences, next.value, Minus(due.value, |occurrences|)));
    NextIsLater(d, now);
    PicksWithin(d, cursor, now, policy, occurrences);
    AccountsFor(d, cursor, now, policy, r.value, due.value);
  }

  lemma NextIsLater(d: Definition, now: Instant)
    requires Parsed(d) && Steps(d) && NextAfter(d, now).Ok?
    ensures now < NextAfter(d, now).value
  {
  }
}
