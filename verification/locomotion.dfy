/** The two deadline guards of the locomotion step (`MovePlayer` in
    Assets/Scripts/PlayerController.cs): whether the stick may turn the
    board, and the horizontal speed cap. Forces, friction and yaw
    integration are float physics on the engine's body and are not modelled;
    speeds are horizontal magnitudes. */
module Locomotion {
  import opened Common
  import PlayerController
  import opened TrickData

  /** Yaw input is applied when the stick leaves 0.01 and the board is on the
      ground or the air-turn suppression has run out. */
  predicate TurnAllowed(grounded: bool, now: real, suppressAirTurnUntil: real, inputX: real)
  {
    Abs(inputX) > 0.01 && (grounded || now >= suppressAirTurnUntil)
  }

  /** The speed cap: the base cap, raised by max(1, multiplier) while the
      overspeed window is open. */
  function AllowedMaxSpeed(maxSpeed: real, multiplier: real, now: real, allowOverspeedUntil: real): (r: real)
    ensures now >= allowOverspeedUntil ==> r == maxSpeed
    ensures maxSpeed >= 0.0 ==> r >= maxSpeed
    ensures now < allowOverspeedUntil && multiplier >= 1.0 ==> r == maxSpeed * multiplier
  {
    if now < allowOverspeedUntil then maxSpeed * Max(1.0, multiplier) else maxSpeed
  }

  /** The clamp: a speed above a cap greater than 0.0001 is rescaled to the
      cap; vertical motion is not part of this magnitude and stays as is. */
  function ClampHorizontalSpeed(speed: real, allowed: real): (r: real)
    ensures allowed > 0.0001 ==> r <= allowed
    ensures r <= speed
    ensures allowed <= 0.0001 || speed <= allowed ==> r == speed
    ensures r == speed || r == allowed
  {
    if allowed > 0.0001 && speed > allowed then allowed else speed
  }

  /** Clamping twice is clamping once. */
  lemma ClampIdempotent(speed: real, allowed: real)
    ensures ClampHorizontalSpeed(ClampHorizontalSpeed(speed, allowed), allowed) == ClampHorizontalSpeed(speed, allowed)
  {
  }

  /** With a cap of 10, a speed of 15 is cut to 10; inside an overspeed
      window with multiplier 1.5 it is kept at 15. */
  lemma SpeedClampExamples(now: real)
    ensures ClampHorizontalSpeed(15.0, AllowedMaxSpeed(10.0, 1.5, now, now)) == 10.0
    ensures ClampHorizontalSpeed(15.0, AllowedMaxSpeed(10.0, 1.5, now, now + 0.75)) == 15.0
  {
  }

  /** A Left/Right tap buffered in the air at time `now` holds off air
      turning for every later moment before `now + airTurnSuppressDuration`. */
  lemma TapSuppressesAirTurn(cfg: PlayerController.Config, s: PlayerController.Controller,
                             d: Direction, now: real, t: real, inputX: real)
    requires cfg.airTurnSuppressDuration > 0.0
    requires d == Left || d == Right
    requires now <= t < now + cfg.airTurnSuppressDuration
    ensures !TurnAllowed(false, t, PlayerController.OnNewDirection(cfg, s, d, false, now).suppressAirTurnUntil, inputX)
  {
  }

  /** A boosted landing at `now` (with a positive duration and a multiplier
      above 1) raises the cap for every moment before `now + duration`. */
  lemma BoostOpensOverspeedWindow(cfg: PlayerController.Config, s: PlayerController.Controller, dt: real, now: real, t: real)
    requires !s.isRagdoll && !s.wasGrounded && !s.trickLocked && s.landingBoostPending
    requires cfg.landingTrickBoostImpulse > 0.0 && cfg.landingTrickBoostOverspeedDuration > 0.0
    requires cfg.landingTrickBoostMaxSpeedMultiplier > 1.0
    requires now <= t < now + cfg.landingTrickBoostOverspeedDuration
    ensures var s1 := PlayerController.Update(cfg, s, true, dt, now).next;
            AllowedMaxSpeed(cfg.maxSpeed, cfg.landingTrickBoostMaxSpeedMultiplier, t, s1.allowOverspeedUntil)
              == cfg.maxSpeed * cfg.landingTrickBoostMaxSpeedMultiplier
  {
  }
}
