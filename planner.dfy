/**
 * The planning state machine of the explorer: `_get_next_move` (the brake and
 * jam gates in front of the selector) and one iteration of the `run` loop,
 * which holds each plan for `keep_for` ticks and counts the ticks a command
 * has been repeated.
 */
module Planner {
  import opened Params
  import opened Geometry
  import opened Sectors
  import opened ObstacleFilter
  import opened Analyzer
  import opened Selector

  /**
   * What one decision reads from the outside world: the lidar returns with their
   * cartesian conversion, the odometry speed and direction of motion (positive
   * forward, negative backward, zero at rest), and the grid's sector weights.
   */
  datatype TickInput = TickInput(readings: seq<Reading>, speed: real, motion: real, weights: map<Sector, real>)

  /** A command and the number of ticks to hold it. */
  datatype Plan = Plan(command: Command, keepFor: int)

  predicate IsFullThrottle(throttle: real)
  {
    throttle == ForwardThrottle || throttle == BackwardThrottle
  }

  /** The car still moves the way the brake `throttle` is meant to stop. */
  predicate StillMovingAgainst(throttle: real, motion: real)
  {
    (motion > 0.0 && throttle == ForwardBrake) || (motion < 0.0 && throttle == BackwardBrake)
  }

  /** The car has been commanded to drive for more than three ticks and does not move. */
  predicate Jammed(prev: Command, steps: nat, motion: real)
  {
    IsFullThrottle(prev.throttle) && motion == 0.0 && steps > 3
  }

  /**
   * `_get_next_move`: after a brake, keep braking while the car still moves,
   * else stop; after a full throttle that left the car standing for more than
   * three ticks, stop for four ticks; otherwise scan and select.
   */
  function NextMove(body: Body, prev: Command, steps: nat, input: TickInput): Plan
    requires Complete(input.weights)
  {
    if IsBrakeThrottle(prev.throttle) then
      if StillMovingAgainst(prev.throttle, input.motion) then Plan(prev, 1) else Plan(Stop, 1)
    else if Jammed(prev, steps, input.motion) then
      Plan(Stop, 4)
    else
      var can := CanMove(NearbyPoints(body, input.readings), body, input.speed);
      Plan(Select(prev, can, input.weights), 1)
  }

  /** A brake is repeated exactly while the car still moves against it, and is followed by a stop. */
  lemma BrakeUntilStill(body: Body, prev: Command, steps: nat, input: TickInput)
    requires Complete(input.weights)
    requires IsBrakeThrottle(prev.throttle)
    ensures NextMove(body, prev, steps, input) ==
      if StillMovingAgainst(prev.throttle, input.motion) then Plan(prev, 1) else Plan(Stop, 1)
    ensures NextMove(body, prev, steps, input).command.throttle in {prev.throttle, 0.0}
  {
  }

  /** A jammed car is stopped for four ticks whatever the scans would say. */
  lemma JamStops(body: Body, prev: Command, steps: nat, input: TickInput)
    requires Complete(input.weights)
    requires IsFullThrottle(prev.throttle) && input.motion == 0.0 && steps > 3
    ensures NextMove(body, prev, steps, input) == Plan(Stop, 4)
  {
  }

  /** Every plan is held for one tick, except the four-tick stop of a jam. */
  lemma NextMoveHold(body: Body, prev: Command, steps: nat, input: TickInput)
    requires Complete(input.weights)
    ensures var p := NextMove(body, prev, steps, input);
      (p.keepFor == 1 || p.keepFor == 4) && (p.keepFor == 4 <==> Jammed(prev, steps, input.motion) && !IsBrakeThrottle(prev.throttle))
  {
  }

  /**
   * The throttle moves only along the brake cycle: full forward is followed by
   * full forward, the forward brake or a stop; the forward brake by itself or a
   * stop; a stop by a stop or either full throttle; and the same backward.
   */
  lemma NextMoveThrottleTransitions(body: Body, prev: Command, steps: nat, input: TickInput)
    requires Complete(input.weights)
    ensures var t := NextMove(body, prev, steps, input).command.throttle;
      && (prev.throttle == ForwardThrottle ==> t in {ForwardThrottle, ForwardBrake, 0.0})
      && (prev.throttle == BackwardThrottle ==> t in {BackwardThrottle, BackwardBrake, 0.0})
      && (prev.throttle == ForwardBrake ==> t in {ForwardBrake, 0.0})
      && (prev.throttle == BackwardBrake ==> t in {BackwardBrake, 0.0})
      && (prev.throttle == 0.0 ==> t in {0.0, ForwardThrottle, BackwardThrottle})
  {
    if !IsBrakeThrottle(prev.throttle) && !Jammed(prev, steps, input.motion) {
      var can := CanMove(NearbyPoints(body, input.readings), body, input.speed);
      SelectThrottleTransitions(prev, can, input.weights);
    }
  }

  /** Every command planned from a command on the fixed levels is on the fixed levels. */
  lemma NextMoveCanonical(body: Body, prev: Command, steps: nat, input: TickInput)
    requires Complete(input.weights)
    requires Canonical(prev)
    ensures Canonical(NextMove(body, prev, steps, input).command)
  {
    var can := CanMove(NearbyPoints(body, input.readings), body, input.speed);
    SelectCanonical(prev, can, input.weights);
  }

  // The run loop

  /** The variables of the `run` loop between ticks. */
  datatype PlanState = PlanState(direction: Command, keepFor: int, steps: nat)

  const Initial: PlanState := PlanState(Stop, 0, 0)

  /** What holds between ticks: the command is on the fixed levels and is held for at most three more ticks. */
  predicate Inv(st: PlanState)
  {
    Canonical(st.direction) && 0 <= st.keepFor <= 3
  }

  /**
   * One iteration of `run`: replan when the current plan has run out, count the
   * tick against the plan, and count how many ticks in a row the command was kept.
   */
  function Step(body: Body, st: PlanState, input: TickInput): PlanState
    requires Complete(input.weights)
  {
    var plan := if st.keepFor <= 0 then NextMove(body, st.direction, st.steps, input) else Plan(st.direction, st.keepFor);
    PlanState(plan.command, plan.keepFor - 1, if plan.command == st.direction then st.steps + 1 else 0)
  }

  /** A tick keeps the invariant. */
  lemma StepKeepsInv(body: Body, st: PlanState, input: TickInput)
    requires Complete(input.weights)
    requires Inv(st)
    ensures Inv(Step(body, st, input))
  {
    NextMoveCanonical(body, st.direction, st.steps, input);
    NextMoveHold(body, st.direction, st.steps, input);
  }

  /** The ticks of `inputs`, one after the other. */
  function Run(body: Body, st: PlanState, inputs: seq<TickInput>): PlanState
    requires forall i :: 0 <= i < |inputs| ==> Complete(inputs[i].weights)
    decreases |inputs|
  {
    if inputs == [] then st else Run(body, Step(body, st, inputs[0]), inputs[1..])
  }

  /** Any run from a state meeting the invariant keeps it. */
  lemma {:induction false} RunKeepsInv(body: Body, st: PlanState, inputs: seq<TickInput>)
    requires forall i :: 0 <= i < |inputs| ==> Complete(inputs[i].weights)
    requires Inv(st)
    ensures Inv(Run(body, st, inputs))
    decreases |inputs|
  {
    if inputs != [] {
      StepKeepsInv(body, st, inputs[0]);
      RunKeepsInv(body, Step(body, st, inputs[0]), inputs[1..]);
    }
  }

  /**
   * While a plan has ticks left, the inputs are not consulted: the command stays,
   * the ticks left go down by one per tick and the repeat count goes up.
   */
  lemma {:induction false} HeldPlan(body: Body, st: PlanState, inputs: seq<TickInput>)
    requires forall i :: 0 <= i < |inputs| ==> Complete(inputs[i].weights)
    requires |inputs| <= st.keepFor
    ensures Run(body, st, inputs) == PlanState(st.direction, st.keepFor - |inputs|, st.steps + |inputs|)
    decreases |inputs|
  {
    if inputs != [] {
      HeldPlan(body, Step(body, st, inputs[0]), inputs[1..]);
    }
  }

  /** A jam stop is held for the tick that decides it and the three ticks after. */
  lemma {:induction false} JamStopHeld(body: Body, st: PlanState, inputs: seq<TickInput>)
    requires forall i :: 0 <= i < |inputs| ==> Complete(inputs[i].weights)
    requires 1 <= |inputs| <= 4
    requires st.keepFor <= 0 && Jammed(st.direction, st.steps, inputs[0].motion)
    ensures Run(body, st, inputs).direction == Stop
    ensures Run(body, st, inputs).keepFor == 4 - |inputs|
  {
    assert !IsBrakeThrottle(st.direction.throttle);
    var next := Step(body, st, inputs[0]);
    assert next.direction == Stop && next.keepFor == 3;
    HeldPlan(body, next, inputs[1..]);
  }

  /**
   * The car never goes from one full throttle to the other without a stop in
   * between: a full throttle follows a standstill or the same full throttle.
   */
  lemma FullThrottleOnlyFromStandstill(body: Body, st: PlanState, input: TickInput)
    requires Complete(input.weights)
    requires Inv(st)
    ensures var t := Step(body, st, input).direction.throttle;
      IsFullThrottle(t) && t != st.direction.throttle ==> st.direction.throttle == 0.0
  {
    if st.keepFor <= 0 {
      NextMoveThrottleTransitions(body, st.direction, st.steps, input);
    }
  }

  /** The explorer's loop state and the body footprint it plans for. */
  class Explorer {
    const body: Body
    var direction: Command
    var keepFor: int
    var stepsWithDirection: nat

    /** The loop variables as a value. */
    function State(): PlanState
      reads this
    {
      PlanState(direction, keepFor, stepsWithDirection)
    }

    ghost predicate Valid()
      reads this
    {
      Inv(State())
    }

    /** The start of `run`: stopped, no plan, no repeats. */
    constructor(body: Body)
      ensures this.body == body
      ensures State() == Initial
      ensures Valid()
    {
      this.body := body;
      direction := Stop;
      keepFor := 0;
      stepsWithDirection := 0;
    }

    /** `_get_next_move`, scanning every sector and adjusting the weights in place. */
    method NextMoveOf(prev: Command, steps: nat, input: TickInput) returns (plan: Plan)
      requires Complete(input.weights)
      ensures plan == NextMove(body, prev, steps, input)
    {
      if IsBrakeThrottle(prev.throttle) {
        if (input.motion > 0.0 && prev.throttle == ForwardBrake) || (input.motion < 0.0 && prev.throttle == BackwardBrake) {
          return Plan(prev, 1);
        } else {
          return Plan(Stop, 1);
        }
      } else if prev.throttle == ForwardThrottle || prev.throttle == BackwardThrottle {
        if input.motion == 0.0 && steps > 3 {
          return Plan(Stop, 4);
        }
      }

      var pts := NearbyPoints(body, input.readings);
      var speed := input.speed;
      var can := ScanAll(pts, body, speed);

      if prev.throttle == ForwardThrottle && BlockedToward(can, Forward) {
        return Plan(Command(prev.steering, ForwardBrake), 1);
      } else if prev.throttle == BackwardThrottle && BlockedToward(can, Backward) {
        return Plan(Command(prev.steering, BackwardBrake), 1);
      } else if AllBlocked(can) {
        return Plan(Stop, 1);
      }

      var adj := AdjustWeights(can, prev.throttle, input.weights);
      var chosen := if Positive(adj) != [] then Heaviest(adj) else Roomiest(can, prev.throttle);
      return Plan(SectorCommand(prev.throttle, chosen), 1);
    }

    /** One iteration of the `run` loop; returns the command sent to the actuators. */
    method Tick(input: TickInput) returns (applied: Command)
      requires Complete(input.weights)
      requires Valid()
      modifies this
      ensures State() == Step(body, old(State()), input)
      ensures Valid()
      ensures applied == direction
    {
      StepKeepsInv(body, State(), input);
      var prev := direction;
      if keepFor <= 0 {
        var plan := NextMoveOf(direction, stepsWithDirection, input);
        direction, keepFor := plan.command, plan.keepFor;
      }
      keepFor := keepFor - 1;
      if prev == direction {
        stepsWithDirection := stepsWithDirection + 1;
      } else {
        stepsWithDirection := 0;
      }
      applied := direction;
    }

    /** The `run` loop over a finite sequence of ticks. */
    method RunTicks(inputs: seq<TickInput>)
      requires forall i :: 0 <= i < |inputs| ==> Complete(inputs[i].weights)
      requires Valid()
      modifies this
      ensures State() == Run(body, old(State()), inputs)
      ensures Valid()
    {
      ghost var start := State();
      for i := 0 to |inputs|
        invariant Valid()
        invariant Run(body, start, inputs) == Run(body, State(), inputs[i..])
      {
        assert inputs[i..][1..] == inputs[i + 1..];
        var _ := Tick(inputs[i]);
      }
    }
  }
}
