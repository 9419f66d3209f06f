/**
  How many tasks a worker runs at once: the admission limit, the detector that lowers it under
  overload and raises it again, and the loop that claims tasks up to it.
*/
module Admission {
  import opened Common

  const U16_MAX: nat := 65_535

  type NonZeroU16 = n: nat | 1 <= n <= U16_MAX witness 1
  type U16 = n: nat | n <= U16_MAX

  datatype Config = Config(
    enabled: bool,
    enforce: bool,
    lagThreshold: nat,
    sustained: NonZeroU16,
    recovery: NonZeroU16,
    minimum: NonZeroU16)

  datatype Observation = Observation(
    runtimeLag: nat,
    database: bool,
    activeLeases: bool,
    leaseRenewal: bool,
    leaseRenewalAge: nat)

  /** The detector's counters and the limits it steers. */
  datatype Gauge = Gauge(lagSamples: U16, recoverySamples: U16, effective: NonZeroU16, proposed: NonZeroU16)

  function Saturating(n: nat): U16 {
    Min(n, U16_MAX)
  }

  // ------------------------------------------------------------- one sample

  /** Whether the sample counts as overload, given how many samples in a row have lagged. */
  predicate Overloaded(c: Config, threshold: nat, o: Observation, lagSamples: nat) {
    || !o.database
    || (o.activeLeases && (!o.leaseRenewal || o.leaseRenewalAge >= threshold))
    || lagSamples >= c.sustained
  }

  function Lag(c: Config, o: Observation, lagSamples: U16): U16 {
    if o.runtimeLag >= c.lagThreshold then Saturating(lagSamples + 1) else 0
  }

  function Proposal(c: Config, configured: NonZeroU16, overloaded: bool, effective: NonZeroU16): NonZeroU16 {
    if overloaded then Max(effective / 2, c.minimum) else Min(Saturating(effective + 1), configured)
  }

  /** What a sample does: halve on overload; otherwise, once enough healthy samples have passed, add one. */
  function Observed(c: Config, configured: NonZeroU16, threshold: nat, o: Observation, g: Gauge): Gauge {
    if !c.enabled then g
    else
      var lag := Lag(c, o, g.lagSamples);
      var overloaded := Overloaded(c, threshold, o, lag);
      var recovery := if overloaded then 0 else Saturating(g.recoverySamples + 1);
      if !overloaded && recovery < c.recovery then g.(lagSamples := lag, recoverySamples := recovery)
      else
        var proposed := Proposal(c, configured, overloaded, g.effective);
        Gauge(lag, recovery, if c.enforce then proposed else g.effective, proposed)
  }

  class WorkerControl {
    const configured: NonZeroU16
    var effective: NonZeroU16
    var proposed: NonZeroU16

    constructor (configured: NonZeroU16)
      ensures this.configured == configured && effective == configured && proposed == configured
    {
      this.configured := configured;
      effective := configured;
      proposed := configured;
    }

    predicate Valid()
      reads this
    {
      effective <= configured && proposed <= configured
    }

    method ApplyEffective(limit: NonZeroU16) returns (ok: bool)
      modifies this`effective
      ensures ok <==> limit <= configured
      ensures effective == if ok then limit else old(effective)
    {
      if limit > configured {
        return false;
      }
      effective := limit;
      return true;
    }

    method RecordProposed(limit: NonZeroU16)
      modifies this`proposed
      ensures proposed == limit
    {
      proposed := limit;
    }
  }

  class OverloadDetector {
    var lagSamples: U16
    var recoverySamples: U16

    constructor ()
      ensures lagSamples == 0 && recoverySamples == 0
    {
      lagSamples, recoverySamples := 0, 0;
    }

    ghost function Reading(control: WorkerControl): Gauge
      reads this, control
    {
      Gauge(lagSamples, recoverySamples, control.effective, control.proposed)
    }

    method Observe(control: WorkerControl, c: Config, threshold: nat, o: Observation)
      requires control.Valid() && c.minimum <= control.configured
      modifies this, control
      ensures control.Valid()
      ensures Reading(control) == old(Observed(c, control.configured, threshold, o, Reading(control)))
    {
      if !c.enabled {
        return;
      }
      if o.runtimeLag >= c.lagThreshold {
        lagSamples := Saturating(lagSamples + 1);
      } else {
        lagSamples := 0;
      }
      var overloaded := false;
      if !o.database {
        overloaded := true;
      } else if o.activeLeases && (!o.leaseRenewal || o.leaseRenewalAge >= threshold) {
        overloaded := true;
      } else if lagSamples >= c.sustained {
        overloaded := true;
      }
      if overloaded {
        recoverySamples := 0;
      } else {
        recoverySamples := Saturating(recoverySamples + 1);
        if recoverySamples < c.recovery {
          return;
        }
      }
      var proposed: NonZeroU16 :=
        if overloaded then Max(control.effective / 2, c.minimum)
        else Min(Saturating(control.effective + 1), control.configured);
      control.RecordProposed(proposed);
      if c.enforce {
        var applied := control.ApplyEffective(proposed);
        assert applied;   // the proposal is never refused
      }
    }
  }

  // ------------------------------------------------------------ whole runs

  datatype Input = Sample(o: Observation) | Manual(limit: NonZeroU16)

  function Next(c: Config, configured: NonZeroU16, threshold: nat, g: Gauge, i: Input): Gauge {
    match i
    case Sample(o) => Observed(c, configured, threshold, o, g)
    case Manual(limit) => if limit <= configured then g.(effective := limit) else g
  }

  function After(c: Config, configured: NonZeroU16, threshold: nat, g: Gauge, inputs: seq<Input>): Gauge {
    if inputs == [] then g
    else Next(c, configured, threshold, After(c, configured, threshold, g, inputs[..|inputs| - 1]), inputs[|inputs| - 1])
  }

  /** A new worker: full concurrency, nothing counted. */
  function Fresh(configured: NonZeroU16): Gauge {
    Gauge(0, 0, configured, configured)
  }

  /** The supervisor's loop over a fresh worker, with limits set by hand in between: exactly the run of its inputs. */
  method Supervise(c: Config, configured: NonZeroU16, threshold: nat, inputs: seq<Input>)
    returns (effective: NonZeroU16, proposed: NonZeroU16)
    requires c.minimum <= configured
    ensures effective == After(c, configured, threshold, Fresh(configured), inputs).effective <= configured
    ensures proposed == After(c, configured, threshold, Fresh(configured), inputs).proposed <= configured
  {
    var control := new WorkerControl(configured);
    var detector := new OverloadDetector();
    for i := 0 to |inputs|
      invariant control.Valid() && control.configured == configured
      invariant fresh(control) && fresh(detector)
      invariant detector.Reading(control) == After(c, configured, threshold, Fresh(configured), inputs[..i])
    {
      assert inputs[..i + 1][..i] == inputs[..i];
      match inputs[i]
      case Sample(o) => detector.Observe(control, c, threshold, o);
      case Manual(limit) => var _ := control.ApplyEffective(limit);
    }
    assert inputs[..|inputs|] == inputs;
    effective, proposed := control.effective, control.proposed;
  }

  /** The limit never leaves `1..configured`, and neither does any proposal, so applying one never fails. */
  lemma {:induction false} LimitInRange(c: Config, configured: NonZeroU16, threshold: nat, g: Gauge, inputs: seq<Input>)
    requires c.minimum <= configured && g.effective <= configured && g.proposed <= configured
    ensures var h := After(c, configured, threshold, g, inputs);
      1 <= h.effective <= configured && 1 <= h.proposed <= configured
  {
    if inputs != [] {
      LimitInRange(c, configured, threshold, g, inputs[..|inputs| - 1]);
    }
  }

  /** Left to the detector, the limit stays at or above the minimum. */
  lemma {:induction false} AboveMinimum(c: Config, configured: NonZeroU16, threshold: nat, g: Gauge, inputs: seq<Input>)
    requires c.minimum <= configured && c.minimum <= g.effective <= configured
    requires forall i | 0 <= i < |inputs| :: inputs[i].Sample?
    ensures c.minimum <= After(c, configured, threshold, g, inputs).effective <= configured
  {
    if inputs != [] {
      AboveMinimum(c, configured, threshold, g, inputs[..|inputs| - 1]);
    }
  }

  // ------------------------------------------------- told from the samples

  /** How many samples in a row, up to the last, found the event loop too slow; `before` when there was none yet. */
  function Lagging(c: Config, before: nat, inputs: seq<Input>): nat {
    if inputs == [] then before
    else
      match inputs[|inputs| - 1]
      case Manual(_) => Lagging(c, before, inputs[..|inputs| - 1])
      case Sample(o) => if o.runtimeLag >= c.lagThreshold then Lagging(c, before, inputs[..|inputs| - 1]) + 1 else 0
  }

  /** The last input is a sample with the database away, leases not renewed in time, or one lagging sample too many. */
  predicate Troubled(c: Config, threshold: nat, before: nat, inputs: seq<Input>) {
    && inputs != [] && inputs[|inputs| - 1].Sample?
    && var o := inputs[|inputs| - 1].o;
       || !o.database
       || (o.activeLeases && !o.leaseRenewal)
       || (o.activeLeases && o.leaseRenewalAge >= threshold)
       || Lagging(c, before, inputs) >= c.sustained
  }

  /** How many samples in a row, up to the last, were free of all that. */
  function Calm(c: Config, threshold: nat, g: Gauge, inputs: seq<Input>): nat {
    if inputs == [] then g.recoverySamples
    else if inputs[|inputs| - 1].Manual? then Calm(c, threshold, g, inputs[..|inputs| - 1])
    else if Troubled(c, threshold, g.lagSamples, inputs) then 0
    else Calm(c, threshold, g, inputs[..|inputs| - 1]) + 1
  }

  lemma {:induction false} CountersTold(c: Config, configured: NonZeroU16, threshold: nat, g: Gauge, inputs: seq<Input>)
    requires c.enabled
    ensures After(c, configured, threshold, g, inputs).lagSamples == Saturating(Lagging(c, g.lagSamples, inputs))
    ensures After(c, configured, threshold, g, inputs).recoverySamples == Saturating(Calm(c, threshold, g, inputs))
  {
    if inputs != [] {
      CountersTold(c, configured, threshold, g, inputs[..|inputs| - 1]);
    }
  }

  /**
    What a sample does, told from the samples so far. Away database, late renewals, and lag sustained for long
    enough halve the limit, down to the minimum; any other sample leaves it, or adds one once enough of them
    have come in a row. Nothing is proposed without protection enabled, nor applied without it enforced.
  */
  lemma SampleExact(c: Config, configured: NonZeroU16, threshold: nat, g: Gauge, inputs: seq<Input>)
    requires inputs != [] && inputs[|inputs| - 1].Sample?
    ensures var before, after := After(c, configured, threshold, g, inputs[..|inputs| - 1]), After(c, configured, threshold, g, inputs);
      var target :=
        if Troubled(c, threshold, g.lagSamples, inputs) then Some(Max(before.effective / 2, c.minimum))
        else if Calm(c, threshold, g, inputs) >= c.recovery then Some(Min(Min(before.effective + 1, U16_MAX), configured))
        else None;
      && after.proposed == (if c.enabled && target.Some? then target.value else before.proposed)
      && after.effective == (if c.enabled && c.enforce && target.Some? then target.value else before.effective)
  {
    if c.enabled {
      CountersTold(c, configured, threshold, g, inputs[..|inputs| - 1]);
      CountersTold(c, configured, threshold, g, inputs);
    }
  }

  /** The limit goes down only by a troubled sample or by hand. */
  lemma LoweredExactly(c: Config, configured: NonZeroU16, threshold: nat, g: Gauge, inputs: seq<Input>)
    requires inputs != [] && g.effective <= configured && c.minimum <= configured
    ensures var before, after := After(c, configured, threshold, g, inputs[..|inputs| - 1]), After(c, configured, threshold, g, inputs);
      after.effective < before.effective <==>
        match inputs[|inputs| - 1]
        case Sample(_) =>
          c.enabled && c.enforce && Troubled(c, threshold, g.lagSamples, inputs) && c.minimum < before.effective
        case Manual(limit) => limit < before.effective
  {
    Ranged(c, configured, threshold, g, inputs[..|inputs| - 1]);
    if inputs[|inputs| - 1].Sample? {
      SampleExact(c, configured, threshold, g, inputs);
    }
  }

  lemma {:induction false} Ranged(c: Config, configured: NonZeroU16, threshold: nat, g: Gauge, inputs: seq<Input>)
    requires c.minimum <= configured && g.effective <= configured
    ensures After(c, configured, threshold, g, inputs).effective <= configured
  {
    if inputs != [] {
      Ranged(c, configured, threshold, g, inputs[..|inputs| - 1]);
    }
  }

  /** Set by hand below the minimum, the limit is raised by a troubled sample, and only then. */
  lemma OverloadRaises(c: Config, configured: NonZeroU16, threshold: nat, g: Gauge, inputs: seq<Input>)
    requires c.enabled && c.enforce && Troubled(c, threshold, g.lagSamples, inputs)
    ensures var before, after := After(c, configured, threshold, g, inputs[..|inputs| - 1]), After(c, configured, threshold, g, inputs);
      after.effective > before.effective <==> before.effective < c.minimum
  {
    SampleExact(c, configured, threshold, g, inputs);
  }

  /** For one: with a minimum of 4, a limit set to 1 by hand is 4 after the database goes away. */
  lemma RaisedWhenDown(c: Config, threshold: nat, o: Observation)
    requires c.enabled && c.enforce && c.minimum == 4 && !o.database
    ensures After(c, 8, threshold, Fresh(8), [Manual(1)]).effective == 1
    ensures After(c, 8, threshold, Fresh(8), [Manual(1), Sample(o)]).effective == 4
  {
    assert [Manual(1), Sample(o)][..1] == [Manual(1)] && [Manual(1)][..0] == [];
  }

  function Halved(n: nat, times: nat): nat {
    if times == 0 then n else Halved(n, times - 1) / 2
  }

  /** Troubled samples in a row, whatever the troubles, halve the limit each time, down to the minimum and no further. */
  lemma {:induction false} OverloadRun(c: Config, configured: NonZeroU16, threshold: nat, g: Gauge, inputs: seq<Input>)
    requires c.enabled && c.enforce && c.minimum <= g.effective
    requires forall n | 0 < n <= |inputs| :: Troubled(c, threshold, g.lagSamples, inputs[..n])
    ensures After(c, configured, threshold, g, inputs).effective == Max(Halved(g.effective, |inputs|), c.minimum)
  {
    if inputs != [] {
      var front := inputs[..|inputs| - 1];
      forall n | 0 < n <= |front|
        ensures Troubled(c, threshold, g.lagSamples, front[..n])
      {
        assert front[..n] == inputs[..n];
      }
      OverloadRun(c, configured, threshold, g, front);
      assert inputs[..|inputs|] == inputs;
      SampleExact(c, configured, threshold, g, inputs);
    }
  }

  /** Lag alone: of lagging samples in a row, otherwise good, the first to halve the limit is the `sustained`-th. */
  lemma LagRun(c: Config, configured: NonZeroU16, threshold: nat, inputs: seq<Input>)
    requires c.enabled && c.enforce && c.minimum < configured && inputs != []
    requires forall i | 0 <= i < |inputs| ::
      inputs[i].Sample? && inputs[i].o.runtimeLag >= c.lagThreshold && inputs[i].o.database && !inputs[i].o.activeLeases
    ensures After(c, configured, threshold, Fresh(configured), inputs).effective < configured <==> |inputs| >= c.sustained
  {
    LagCounted(c, inputs);
    if |inputs| < c.sustained {
      LagIsCalm(c, configured, threshold, inputs);
    } else {
      LagLowers(c, configured, threshold, inputs);
    }
  }

  lemma {:induction false} LagCounted(c: Config, inputs: seq<Input>)
    requires forall i | 0 <= i < |inputs| :: inputs[i].Sample? && inputs[i].o.runtimeLag >= c.lagThreshold
    ensures Lagging(c, 0, inputs) == |inputs|
  {
    if inputs != [] {
      LagCounted(c, inputs[..|inputs| - 1]);
    }
  }

  lemma {:induction false} LagIsCalm(c: Config, configured: NonZeroU16, threshold: nat, inputs: seq<Input>)
    requires c.enabled && c.enforce && |inputs| < c.sustained
    requires forall i | 0 <= i < |inputs| ::
      inputs[i].Sample? && inputs[i].o.runtimeLag >= c.lagThreshold && inputs[i].o.database && !inputs[i].o.activeLeases
    ensures After(c, configured, threshold, Fresh(configured), inputs).effective == configured
  {
    if inputs != [] {
      LagIsCalm(c, configured, threshold, inputs[..|inputs| - 1]);
      LagCounted(c, inputs);
      SampleExact(c, configured, threshold, Fresh(configured), inputs);
    }
  }

  lemma {:induction false} LagLowers(c: Config, configured: NonZeroU16, threshold: nat, inputs: seq<Input>)
    requires c.enabled && c.enforce && c.minimum < configured && |inputs| >= c.sustained
    requires forall i | 0 <= i < |inputs| ::
      inputs[i].Sample? && inputs[i].o.runtimeLag >= c.lagThreshold && inputs[i].o.database && !inputs[i].o.activeLeases
    ensures After(c, configured, threshold, Fresh(configured), inputs).effective < configured
  {
    var front := inputs[..|inputs| - 1];
    if |front| >= c.sustained {
      LagLowers(c, configured, threshold, front);
    } else {
      LagIsCalm(c, configured, threshold, front);
    }
    LagCounted(c, inputs);
    SampleExact(c, configured, threshold, Fresh(configured), inputs);
  }

  // -------------------------------------------------------------- recovery

  predicate Healthy(c: Config, threshold: nat, o: Observation) {
    && o.runtimeLag < c.lagThreshold
    && o.database
    && (o.activeLeases ==> o.leaseRenewal && o.leaseRenewalAge < threshold)
  }

  /** Where the limit stands after `n` healthy samples in a row. */
  lemma {:induction false} HealthyRun(c: Config, configured: NonZeroU16, threshold: nat, g: Gauge, inputs: seq<Input>)
    requires c.enabled && c.enforce && g.effective <= configured
    requires forall i | 0 <= i < |inputs| :: inputs[i].Sample? && Healthy(c, threshold, inputs[i].o)
    ensures var h := After(c, configured, threshold, g, inputs);
      && h.effective == Min(configured, g.effective + Minus(|inputs|, Minus(c.recovery - 1, g.recoverySamples)))
      && h.recoverySamples == Saturating(g.recoverySamples + |inputs|)
  {
    if inputs != [] {
      HealthyRun(c, configured, threshold, g, inputs[..|inputs| - 1]);
    }
  }

  /** After an overload: full concurrency is back after `recovery - 1 + (configured - effective)` healthy samples and not before. */
  lemma RestoredExactly(c: Config, configured: NonZeroU16, threshold: nat, g: Gauge, inputs: seq<Input>)
    requires c.enabled && c.enforce && g.effective < configured && g.recoverySamples == 0
    requires forall i | 0 <= i < |inputs| :: inputs[i].Sample? && Healthy(c, threshold, inputs[i].o)
    ensures After(c, configured, threshold, g, inputs).effective == configured
      <==> |inputs| >= c.recovery - 1 + (configured - g.effective)
  {
    HealthyRun(c, configured, threshold, g, inputs);
  }

  /** From any state that many suffice. */
  lemma RestoredBy(c: Config, configured: NonZeroU16, threshold: nat, g: Gauge, inputs: seq<Input>)
    requires c.enabled && c.enforce && g.effective <= configured
    requires forall i | 0 <= i < |inputs| :: inputs[i].Sample? && Healthy(c, threshold, inputs[i].o)
    requires |inputs| >= c.recovery - 1 + (configured - g.effective)
    ensures After(c, configured, threshold, g, inputs).effective == configured
  {
    HealthyRun(c, configured, threshold, g, inputs);
  }
}
