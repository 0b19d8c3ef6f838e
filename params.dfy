/** The tuning constants of the explorer, one per class constant of `Explorer`. */
module Params {
  const TurnDiameter: real := 0.88
  const CheckRadius: real := 2.0
  /** Distance from the car to the pivot of a slight turn. */
  const ABitCenterY: real := CheckRadius / 2.0 * 2.5
  const StopDistance: real := 0.35
  /** Distance from the lidar to the centre of the car. */
  const FromLidarToCenter: real := 0.07
  /** Safety margin added to every geometric boundary. */
  const FearDistance: real := 0.05
  const CarWidth: real := 0.18
  const HalfCarWidth: real := CarWidth / 2.0
  /** How far the footprint is shrunk before it is used to drop self-returns. */
  const InnerOffset: real := 0.03

  // Throttle levels
  const ForwardThrottle: real := 0.5
  const BackwardThrottle: real := -0.5
  /** Throttle applied to stop a car that is moving forward. */
  const ForwardBrake: real := -0.4
  /** Throttle applied to stop a car that is moving backward. */
  const BackwardBrake: real := 0.4

  // Steering levels
  const RightSteering: real := 1.0
  const LeftSteering: real := -1.0
  const ABitRightSteering: real := 0.5
  const ABitLeftSteering: real := -0.5

  /** The value of Python's `math.pi`, written as a decimal. */
  const Pi: real := 3.141592653589793
  const HalfPi: real := Pi / 2.0
  const TwoPi: real := 2.0 * Pi
}
