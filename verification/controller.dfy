/** The player controller's discrete state: the trick flags, the direction
    buffer, the jump-charge bookkeeping and the ragdoll switch
    (Assets/Scripts/PlayerController.cs). Physics queries, clocks and
    coroutines are inputs: `grounded` is the ground ray-cast of that call,
    `now` is `Time.time`, `dt` is `Time.deltaTime`, and the trick-unlock
    coroutine firing is the event `UnlockFired`. */
module PlayerController {
  import opened Common
  import opened TrickData
  import opened TrickInput

  /** A velocity sample of the controller body; only copied, never computed. */
  datatype Vec3 = Vec3(x: real, y: real, z: real)

  /** The serialized settings the discrete logic reads. */
  datatype Config = Config(
    catalog: seq<Trick>,
    trickDirectionDeadzone: real,
    maxBufferedDirections: int,
    airTurnSuppressDuration: real,
    jumpCooldown: real,
    jumpImpulseHoldMax: real,
    maxSpeed: real,
    landingTrickBoostImpulse: real,
    landingTrickBoostMaxSpeedMultiplier: real,
    landingTrickBoostOverspeedDuration: real)

  /** The inspector defaults of the component, around a given catalog. */
  function DefaultConfig(catalog: seq<Trick>): Config
  {
    Config(catalog, 0.5, 8, 0.12, 0.1, 0.5, 10.0, 3.0, 1.5, 0.75)
  }

  /** The shortest lock a trick can impose, whatever its configured time. */
  const MinTrickDuration: real := 0.01

  /** The fields of the component that the discrete logic reads or writes.
      `pendingUnlock` is the delay of the scheduled unlock coroutine, if one
      is running; `ragdollVelocity` is the velocity handed to the ragdoll
      bodies when they were switched on. */
  datatype Controller = Controller(
    playerInputX: real,
    playerInputY: real,
    wasGrounded: bool,
    trickLocked: bool,
    landingBoostPending: bool,
    isRagdoll: bool,
    buffer: seq<Direction>,
    lastBufferedDirection: Option<Direction>,
    isTricking: real,
    wasTricking: real,
    suppressAirTurnUntil: real,
    allowOverspeedUntil: real,
    isJumpHold: bool,
    currentJumpImpulse: real,
    lastJumpTime: real,
    pendingUnlock: Option<real>,
    lastAirVelocity: Vec3,
    ragdollVelocity: Option<Vec3>)

  /** The state right after `Awake`: every field at its C# default. */
  const Initial: Controller :=
    Controller(0.0, 0.0, false, false, false, false, [], None, 0.0, 0.0, 0.0, 0.0,
               false, 0.0, 0.0, None, Vec3(0.0, 0.0, 0.0), None)

  /** What the grounded-edge handling of one frame did. `boosted` says
      whether the landing impulse was applied. */
  datatype Landing = NoEdge | TookOff | Fell | Landed(boosted: bool)

  datatype Step = Step(next: Controller, landing: Landing)

  /** The state every reachable controller is in. */
  predicate Inv(cfg: Config, s: Controller)
  {
    && (cfg.maxBufferedDirections > 0 ==> |s.buffer| <= cfg.maxBufferedDirections)
    && (s.trickLocked <==> s.pendingUnlock.Some?)
    && (s.pendingUnlock.Some? ==> s.pendingUnlock.value >= MinTrickDuration)
    && (cfg.jumpImpulseHoldMax >= 0.0 ==> 0.0 <= s.currentJumpImpulse <= cfg.jumpImpulseHoldMax)
    && (s.isRagdoll <==> s.ragdollVelocity.Some?)
  }

  /** Unity's `Mathf.Clamp`: the lower bound is checked first. */
  function Clamp(v: real, lo: real, hi: real): (r: real)
    ensures lo <= hi ==> lo <= r <= hi
    ensures lo <= v <= hi ==> r == v
    ensures v < lo ==> r == lo
    ensures lo <= v && hi < v ==> r == hi
  {
    if v < lo then lo else if v > hi then hi else v
  }

  /** One frame of holding the jump button: the charge grows by `dt` and
      stays within [0, holdMax]. */
  function HoldJump(charge: real, dt: real, holdMax: real): (r: real)
    ensures holdMax >= 0.0 ==> 0.0 <= r <= holdMax
    ensures 0.0 <= charge + dt <= holdMax ==> r == charge + dt
    ensures holdMax >= 0.0 && charge + dt >= holdMax ==> r == holdMax
  {
    Clamp(charge + dt, 0.0, holdMax)
  }

  /** Locks tricks, schedules the unlock after max(0.01, trickTime), and
      marks a landing boost when airborne. Nothing else changes. */
  function ExecuteTrick(cfg: Config, s: Controller, i: nat, grounded: bool): (r: Controller)
    requires i < |cfg.catalog|
    ensures r.trickLocked
    ensures r.pendingUnlock == Some(Max(MinTrickDuration, cfg.catalog[i].trickTime))
    ensures r.landingBoostPending == (s.landingBoostPending || !grounded)
    ensures r.(trickLocked := s.trickLocked, landingBoostPending := s.landingBoostPending,
               pendingUnlock := s.pendingUnlock) == s
  {
    s.(trickLocked := true,
       landingBoostPending := if !grounded then true else s.landingBoostPending,
       pendingUnlock := Some(Max(MinTrickDuration, cfg.catalog[i].trickTime)))
  }

  /** The quick-trick path: while airborne and unlocked, the first
      one-direction trick for `d` is executed. */
  function TryExecuteSingleDirectionTrick(cfg: Config, s: Controller, d: Direction, grounded: bool): (r: Controller)
    ensures s.trickLocked || grounded || SingleDirectionTrick(cfg.catalog, d).None? ==> r == s
    ensures r != s ==> !s.trickLocked && !grounded && r.trickLocked && r.landingBoostPending
    ensures r != s ==> exists i :: 0 <= i < |cfg.catalog| && cfg.catalog[i].directions == [d]
                        && r.pendingUnlock == Some(Max(MinTrickDuration, cfg.catalog[i].trickTime))
    // airborne and unlocked with a one-direction trick for d: the first such trick runs
    ensures !s.trickLocked && !grounded && SingleDirectionTrick(cfg.catalog, d).Some? ==>
              r == ExecuteTrick(cfg, s, SingleDirectionTrick(cfg.catalog, d).value, grounded)
  {
    if s.trickLocked || grounded then s
    else match SingleDirectionTrick(cfg.catalog, d)
      case None => s
      case Some(i) => ExecuteTrick(cfg, s, i, grounded)
  }

  /** The unlock delay the quick trick for `d` schedules: max(0.01, trickTime)
      of the first one-direction entry for `d`, or `None` when there is none. */
  function QuickTrickUnlock(cfg: Config, d: Direction): Option<real>
  {
    match SingleDirectionTrick(cfg.catalog, d)
    case None => None
    case Some(i) => Some(Max(MinTrickDuration, cfg.catalog[i].trickTime))
  }

  /** The `OnMove` input callback with the stick vector (x, y). */
  function OnMove(cfg: Config, s: Controller, x: real, y: real, grounded: bool, now: real): (r: Controller)
    ensures r.playerInputX == x && r.playerInputY == y
    // inside the deadzone: only the raw input and the marker change
    ensures MapInputToDirection(x, y, cfg.trickDirectionDeadzone).None? ==>
              r == s.(playerInputX := x, playerInputY := y, lastBufferedDirection := None)
    // a repeated direction is debounced: nothing but the raw input changes
    ensures MapInputToDirection(x, y, cfg.trickDirectionDeadzone).Some?
            && s.lastBufferedDirection == MapInputToDirection(x, y, cfg.trickDirectionDeadzone) ==>
              r == s.(playerInputX := x, playerInputY := y)
    // a new direction becomes the marker, and is buffered only while airborne
    ensures var m := MapInputToDirection(x, y, cfg.trickDirectionDeadzone);
            m.Some? && s.lastBufferedDirection != m ==>
              && r.lastBufferedDirection == m
              && r.buffer == (if grounded then s.buffer else BufferDirection(s.buffer, m.value, cfg.maxBufferedDirections))
              // with the trigger held, airborne and unlocked, the quick trick for the direction runs
              && (s.isTricking > 0.5 && !grounded && !s.trickLocked && QuickTrickUnlock(cfg, m.value).Some? ==>
                    r.trickLocked && r.landingBoostPending && r.pendingUnlock == QuickTrickUnlock(cfg, m.value))
    // and the rest of the state is exactly what `OnNewDirection` makes of it
    ensures var m := MapInputToDirection(x, y, cfg.trickDirectionDeadzone);
            m.Some? && s.lastBufferedDirection != m ==>
              r == OnNewDirection(cfg, s.(playerInputX := x, playerInputY := y), m.value, grounded, now)
    ensures r.isRagdoll == s.isRagdoll && r.wasGrounded == s.wasGrounded
    ensures r.isTricking == s.isTricking && r.wasTricking == s.wasTricking
    // with the trigger released a stick move never starts a trick
    ensures s.isTricking <= 0.5 ==> r.trickLocked == s.trickLocked && r.pendingUnlock == s.pendingUnlock
                                    && r.landingBoostPending == s.landingBoostPending
  {
    var s0 := s.(playerInputX := x, playerInputY := y);
    match MapInputToDirection(x, y, cfg.trickDirectionDeadzone)
    case None => s0.(lastBufferedDirection := None)
    case Some(d) =>
      if s0.lastBufferedDirection != Some(d) then OnNewDirection(cfg, s0, d, grounded, now) else s0
  }

  /** `OnMove` for a direction that differs from the marker: buffered while
      airborne (a Left/Right tap also holds off air turning), tried as a
      quick trick while the trigger is held, and made the new marker. */
  function OnNewDirection(cfg: Config, s: Controller, d: Direction, grounded: bool, now: real): (r: Controller)
    ensures r.lastBufferedDirection == Some(d)
    ensures grounded ==> r.buffer == s.buffer
    ensures !grounded ==> r.buffer == BufferDirection(s.buffer, d, cfg.maxBufferedDirections)
    ensures !grounded && cfg.airTurnSuppressDuration > 0.0 && (d == Left || d == Right) ==>
              r.suppressAirTurnUntil == now + cfg.airTurnSuppressDuration
    ensures grounded || cfg.airTurnSuppressDuration <= 0.0 || !(d == Left || d == Right) ==>
              r.suppressAirTurnUntil == s.suppressAirTurnUntil
    ensures s.isTricking <= 0.5 || grounded || s.trickLocked || QuickTrickUnlock(cfg, d).None? ==>
              r.trickLocked == s.trickLocked && r.pendingUnlock == s.pendingUnlock
              && r.landingBoostPending == s.landingBoostPending
    // with the trigger held, airborne and unlocked, the first one-direction trick for d runs
    ensures s.isTricking > 0.5 && !grounded && !s.trickLocked && QuickTrickUnlock(cfg, d).Some? ==>
              r.trickLocked && r.landingBoostPending && r.pendingUnlock == QuickTrickUnlock(cfg, d)
    // only the buffer, the suppression deadline, the marker and the trick state change
    ensures r == s.(buffer := r.buffer, suppressAirTurnUntil := r.suppressAirTurnUntil, lastBufferedDirection := Some(d),
                    trickLocked := r.trickLocked, pendingUnlock := r.pendingUnlock,
                    landingBoostPending := r.landingBoostPending)
  {
    var s1 := BufferIfAirborne(cfg, s, d, grounded, now);
    var s2 := if s.isTricking > 0.5 then TryExecuteSingleDirectionTrick(cfg, s1, d, grounded) else s1;
    s2.(lastBufferedDirection := Some(d))
  }

  /** The buffering half of `OnNewDirection`. */
  function BufferIfAirborne(cfg: Config, s: Controller, d: Direction, grounded: bool, now: real): (r: Controller)
    ensures grounded ==> r == s
    ensures !grounded ==> r.buffer == BufferDirection(s.buffer, d, cfg.maxBufferedDirections)
    ensures !grounded && cfg.airTurnSuppressDuration > 0.0 && (d == Left || d == Right) ==>
              r.suppressAirTurnUntil == now + cfg.airTurnSuppressDuration
    ensures !(!grounded && cfg.airTurnSuppressDuration > 0.0 && (d == Left || d == Right)) ==>
              r.suppressAirTurnUntil == s.suppressAirTurnUntil
    ensures r.(buffer := s.buffer, suppressAirTurnUntil := s.suppressAirTurnUntil) == s
  {
    if grounded then s
    else
      s.(buffer := BufferDirection(s.buffer, d, cfg.maxBufferedDirections),
         suppressAirTurnUntil :=
           if cfg.airTurnSuppressDuration > 0.0 && (d == Left || d == Right)
           then now + cfg.airTurnSuppressDuration else s.suppressAirTurnUntil)
  }

  /** A press is the crossing of 0.5 from at-or-below to above. */
  predicate RisingEdge(previous: real, current: real)
  {
    current > 0.5 && previous <= 0.5
  }

  /** The `OnTrick` input callback with the trigger value. */
  function OnTrick(cfg: Config, s: Controller, value: real, grounded: bool): (r: Controller)
    ensures r.isTricking == value && r.wasTricking == value
    ensures r.buffer == s.buffer && r.isRagdoll == s.isRagdoll
    // without a rising edge, while locked, or when grounded, only the trigger level is recorded
    ensures !RisingEdge(s.wasTricking, value) || s.trickLocked || grounded ==>
              r == s.(isTricking := value, wasTricking := value)
    // a valid press executes the best suffix match, if any
    ensures RisingEdge(s.wasTricking, value) && !s.trickLocked && !grounded ==>
              match FindBestTrickFromBuffer(cfg.catalog, s.buffer)
              case None => r == s.(isTricking := value, wasTricking := value)
              case Some(i) => r == ExecuteTrick(cfg, s.(isTricking := value, wasTricking := value), i, grounded)
  {
    var pressed := RisingEdge(s.wasTricking, value);
    var s1 := s.(isTricking := value, wasTricking := value);
    if !pressed || s1.trickLocked || grounded then s1
    else match FindBestTrickFromBuffer(cfg.catalog, s1.buffer)
      case None => s1
      case Some(i) => ExecuteTrick(cfg, s1, i, grounded)
  }

  /** Holding the trigger is one press: once a sample above 0.5 is recorded,
      a further sample above 0.5 has no rising edge and only updates the level. */
  lemma HeldTriggerPressesOnce(cfg: Config, s: Controller, v1: real, v2: real, grounded1: bool, grounded2: bool)
    requires v1 > 0.5 && v2 > 0.5
    ensures var s1 := OnTrick(cfg, s, v1, grounded1);
            !RisingEdge(s1.wasTricking, v2)
            && OnTrick(cfg, s1, v2, grounded2) == s1.(isTricking := v2, wasTricking := v2)
  {
  }

  /** The unlock coroutine firing: the lock is released and the coroutine is gone. */
  function UnlockFired(s: Controller): (r: Controller)
    ensures !r.trickLocked && r.pendingUnlock == None
    ensures r.(trickLocked := s.trickLocked, pendingUnlock := s.pendingUnlock) == s
  {
    s.(trickLocked := false, pendingUnlock := None)
  }

  /** Switches to the ragdoll bodies, handing them the last airborne
      velocity; a no-op when already ragdolled. */
  function EnterRagdoll(s: Controller): (r: Controller)
    ensures r.isRagdoll
    ensures s.isRagdoll ==> r == s
    ensures !s.isRagdoll ==> r == s.(isRagdoll := true, ragdollVelocity := Some(s.lastAirVelocity))
  {
    if s.isRagdoll then s
    else s.(isRagdoll := true, ragdollVelocity := Some(s.lastAirVelocity))
  }

  /** Entering the ragdoll twice is the same as entering it once. */
  lemma EnterRagdollIdempotent(s: Controller)
    ensures EnterRagdoll(EnterRagdoll(s)) == EnterRagdoll(s)
  {
  }

  /** The landing boost: with a positive impulse it is applied, and with a
      configured duration and a multiplier above 1 the overspeed window is
      reopened from `now`. The impulse itself is physics and not modelled. */
  function ApplyLandingTrickBoost(cfg: Config, s: Controller, now: real): (r: Controller)
    ensures cfg.landingTrickBoostImpulse > 0.0 && cfg.landingTrickBoostOverspeedDuration > 0.0
            && cfg.landingTrickBoostMaxSpeedMultiplier > 1.0 ==>
              r == s.(allowOverspeedUntil := now + cfg.landingTrickBoostOverspeedDuration)
    ensures (cfg.landingTrickBoostImpulse <= 0.0 || cfg.landingTrickBoostOverspeedDuration <= 0.0
             || cfg.landingTrickBoostMaxSpeedMultiplier <= 1.0) ==> r == s
  {
    if cfg.landingTrickBoostImpulse <= 0.0 then s
    else if cfg.landingTrickBoostOverspeedDuration > 0.0 && cfg.landingTrickBoostMaxSpeedMultiplier > 1.0
    then s.(allowOverspeedUntil := now + cfg.landingTrickBoostOverspeedDuration)
    else s
  }

  /** The jump charge after one frame's `HoldJump`, applied only while the
      button is held. */
  function ChargeAfterFrame(cfg: Config, s: Controller, dt: real): real
  {
    if s.isJumpHold then HoldJump(s.currentJumpImpulse, dt, cfg.jumpImpulseHoldMax) else s.currentJumpImpulse
  }

  /** One frame of `Update`: the jump charge, then the grounded-edge logic. */
  function Update(cfg: Config, s: Controller, grounded: bool, dt: real, now: real): (r: Step)
    // ragdolled: nothing changes
    ensures s.isRagdoll ==> r == Step(s, NoEdge)
    ensures !s.isRagdoll && r.landing != Fell ==> r.next.wasGrounded == grounded && !r.next.isRagdoll
    // landing while a trick is still locked: fall, without boost and without clearing the combo
    ensures !s.isRagdoll && grounded && !s.wasGrounded && s.trickLocked ==>
              && r.landing == Fell && r.next.isRagdoll && r.next.wasGrounded
              && r.next.buffer == s.buffer && r.next.lastBufferedDirection == s.lastBufferedDirection
              && r.next.landingBoostPending == s.landingBoostPending
              && r.next.allowOverspeedUntil == s.allowOverspeedUntil
    // a clean landing: the pending boost is used up and the combo cleared
    ensures !s.isRagdoll && grounded && !s.wasGrounded && !s.trickLocked ==>
              && r.landing == Landed(s.landingBoostPending && cfg.landingTrickBoostImpulse > 0.0)
              && !r.next.landingBoostPending && r.next.buffer == [] && r.next.lastBufferedDirection == None
    // leaving the ground clears the combo too
    ensures !s.isRagdoll && !grounded && s.wasGrounded ==>
              r.landing == TookOff && r.next.buffer == [] && r.next.lastBufferedDirection == None
              && r.next.landingBoostPending == s.landingBoostPending
    // no edge: the trick state is untouched
    ensures !s.isRagdoll && grounded == s.wasGrounded ==>
              && r.landing == NoEdge && r.next.buffer == s.buffer
              && r.next.lastBufferedDirection == s.lastBufferedDirection
              && r.next.landingBoostPending == s.landingBoostPending
              && r.next.allowOverspeedUntil == s.allowOverspeedUntil
    ensures !s.isRagdoll ==> r.next.trickLocked == s.trickLocked && r.next.pendingUnlock == s.pendingUnlock
    // the held jump charges before the edge logic
    ensures !s.isRagdoll ==> r.next.currentJumpImpulse == ChargeAfterFrame(cfg, s, dt)
    // frames: each edge changes only the fields it names
    ensures !s.isRagdoll && grounded == s.wasGrounded ==>
              r.next == s.(currentJumpImpulse := ChargeAfterFrame(cfg, s, dt))
    ensures !s.isRagdoll && !grounded && s.wasGrounded ==>
              r.next == s.(currentJumpImpulse := ChargeAfterFrame(cfg, s, dt), buffer := [],
                           lastBufferedDirection := None, wasGrounded := false)
    ensures !s.isRagdoll && grounded && !s.wasGrounded && s.trickLocked ==>
              r.next == s.(currentJumpImpulse := ChargeAfterFrame(cfg, s, dt), isRagdoll := true,
                           ragdollVelocity := Some(s.lastAirVelocity), wasGrounded := true)
    ensures !s.isRagdoll && grounded && !s.wasGrounded && !s.trickLocked ==>
              r.next == s.(currentJumpImpulse := ChargeAfterFrame(cfg, s, dt), buffer := [],
                           lastBufferedDirection := None, wasGrounded := true, landingBoostPending := false,
                           allowOverspeedUntil :=
                             if s.landingBoostPending && cfg.landingTrickBoostImpulse > 0.0
                                && cfg.landingTrickBoostOverspeedDuration > 0.0
                                && cfg.landingTrickBoostMaxSpeedMultiplier > 1.0
                             then now + cfg.landingTrickBoostOverspeedDuration else s.allowOverspeedUntil)
  {
    if s.isRagdoll then Step(s, NoEdge)
    else
      var s0 := s.(currentJumpImpulse := ChargeAfterFrame(cfg, s, dt));
      if grounded && !s0.wasGrounded then
        if s0.trickLocked then
          Step(EnterRagdoll(s0).(wasGrounded := grounded), Fell)
        else
          var boosted := s0.landingBoostPending && cfg.landingTrickBoostImpulse > 0.0;
          var s1 := if s0.landingBoostPending then ApplyLandingTrickBoost(cfg, s0, now).(landingBoostPending := false) else s0;
          Step(s1.(buffer := [], lastBufferedDirection := None, wasGrounded := grounded), Landed(boosted))
      else if !grounded && s0.wasGrounded then
        Step(s0.(buffer := [], lastBufferedDirection := None, wasGrounded := grounded), TookOff)
      else
        Step(s0.(wasGrounded := grounded), NoEdge)
  }

  /** One physics step: the airborne velocity is remembered for the ragdoll.
      The forces of the locomotion step are not modelled. */
  function FixedUpdate(s: Controller, grounded: bool, velocity: Vec3): (r: Controller)
    ensures s.isRagdoll ==> r == s
    ensures !s.isRagdoll && !grounded ==> r == s.(lastAirVelocity := velocity)
    ensures grounded ==> r == s
  {
    if s.isRagdoll then s
    else if !grounded then s.(lastAirVelocity := velocity)
    else s
  }

  /** The `OnJump` input callback: `value == 1` presses (starts charging),
      any other value releases (records the jump time). Ignored during the
      cooldown and while airborne. */
  function OnJump(cfg: Config, s: Controller, value: real, grounded: bool, now: real): (r: Controller)
    ensures now < s.lastJumpTime + cfg.jumpCooldown || !grounded ==> r == s
    ensures now >= s.lastJumpTime + cfg.jumpCooldown && grounded && value == 1.0 ==>
              r == s.(isJumpHold := true, currentJumpImpulse := 0.0)
    ensures now >= s.lastJumpTime + cfg.jumpCooldown && grounded && value != 1.0 ==>
              r == s.(isJumpHold := false, lastJumpTime := now)
  {
    if now < s.lastJumpTime + cfg.jumpCooldown then s
    else if !grounded then s
    else if value == 1.0 then s.(isJumpHold := true, currentJumpImpulse := 0.0)
    else s.(isJumpHold := false, lastJumpTime := now)
  }

  /** Everything that can happen to the controller between two observations. */
  datatype Event =
    | Move(x: real, y: real, grounded: bool, now: real)
    | TrickInput(value: real, grounded: bool)
    | Jump(value: real, grounded: bool, now: real)
    | Frame(grounded: bool, dt: real, now: real)
    | PhysicsStep(grounded: bool, velocity: Vec3)
    | Unlock

  function Apply(cfg: Config, s: Controller, e: Event): Controller
  {
    match e
    case Move(x, y, g, now) => OnMove(cfg, s, x, y, g, now)
    case TrickInput(v, g) => OnTrick(cfg, s, v, g)
    case Jump(v, g, now) => OnJump(cfg, s, v, g, now)
    case Frame(g, dt, now) => Update(cfg, s, g, dt, now).next
    case PhysicsStep(g, v) => FixedUpdate(s, g, v)
    case Unlock => UnlockFired(s)
  }

  function Run(cfg: Config, s: Controller, es: seq<Event>): Controller
    decreases |es|
  {
    if |es| == 0 then s else Run(cfg, Apply(cfg, s, es[0]), es[1..])
  }

  lemma InitialSatisfiesInv(cfg: Config)
    ensures Inv(cfg, Initial)
  {
  }

  lemma OnMovePreservesInv(cfg: Config, s: Controller, x: real, y: real, grounded: bool, now: real)
    requires Inv(cfg, s)
    ensures Inv(cfg, OnMove(cfg, s, x, y, grounded, now))
  {
    var s0 := s.(playerInputX := x, playerInputY := y);
    match MapInputToDirection(x, y, cfg.trickDirectionDeadzone)
    case None =>
    case Some(d) =>
      if s0.lastBufferedDirection != Some(d) {
        OnNewDirectionPreservesInv(cfg, s0, d, grounded, now);
      }
  }

  lemma OnNewDirectionPreservesInv(cfg: Config, s: Controller, d: Direction, grounded: bool, now: real)
    requires Inv(cfg, s)
    ensures Inv(cfg, OnNewDirection(cfg, s, d, grounded, now))
  {
    var s1 := BufferIfAirborne(cfg, s, d, grounded, now);
    BufferIfAirbornePreservesInv(cfg, s, d, grounded, now);
    var s2 := if s.isTricking > 0.5 then TryExecuteSingleDirectionTrick(cfg, s1, d, grounded) else s1;
    if s.isTricking > 0.5 {
      TryExecuteSinglePreservesInv(cfg, s1, d, grounded);
    }
    assert Inv(cfg, s2);
    assert OnNewDirection(cfg, s, d, grounded, now) == s2.(lastBufferedDirection := Some(d));
  }

  lemma BufferIfAirbornePreservesInv(cfg: Config, s: Controller, d: Direction, grounded: bool, now: real)
    requires Inv(cfg, s)
    ensures Inv(cfg, BufferIfAirborne(cfg, s, d, grounded, now))
  {
  }

  lemma TryExecuteSinglePreservesInv(cfg: Config, s: Controller, d: Direction, grounded: bool)
    requires Inv(cfg, s)
    ensures Inv(cfg, TryExecuteSingleDirectionTrick(cfg, s, d, grounded))
  {
    if !s.trickLocked && !grounded {
      match SingleDirectionTrick(cfg.catalog, d)
      case None =>
      case Some(i) => ExecuteTrickPreservesInv(cfg, s, i, grounded);
    }
  }

  lemma ExecuteTrickPreservesInv(cfg: Config, s: Controller, i: nat, grounded: bool)
    requires i < |cfg.catalog| && Inv(cfg, s)
    ensures Inv(cfg, ExecuteTrick(cfg, s, i, grounded))
  {
  }

  lemma OnTrickPreservesInv(cfg: Config, s: Controller, value: real, grounded: bool)
    requires Inv(cfg, s)
    ensures Inv(cfg, OnTrick(cfg, s, value, grounded))
  {
  }

  lemma UpdatePreservesInv(cfg: Config, s: Controller, grounded: bool, dt: real, now: real)
    requires Inv(cfg, s)
    ensures Inv(cfg, Update(cfg, s, grounded, dt, now).next)
  {
  }

  /** Every event keeps the controller invariant: the buffer within its
      capacity, the lock held exactly while an unlock is scheduled, the jump
      charge within [0, holdMax], and the ragdoll bodies fed exactly once. */
  lemma ApplyPreservesInv(cfg: Config, s: Controller, e: Event)
    requires Inv(cfg, s)
    ensures Inv(cfg, Apply(cfg, s, e))
  {
    match e
    case Move(x, y, g, now) => OnMovePreservesInv(cfg, s, x, y, g, now);
    case TrickInput(v, g) => OnTrickPreservesInv(cfg, s, v, g);
    case Jump(v, g, now) =>
    case Frame(g, dt, now) => UpdatePreservesInv(cfg, s, g, dt, now);
    case PhysicsStep(g, v) =>
    case Unlock =>
  }

  /** Every sequence of events from the initial state keeps the invariant;
      in particular the buffer never outgrows `maxBufferedDirections`. */
  lemma {:induction false} RunPreservesInv(cfg: Config, s: Controller, es: seq<Event>)
    requires Inv(cfg, s)
    ensures Inv(cfg, Run(cfg, s, es))
    decreases |es|
  {
    if |es| > 0 {
      ApplyPreservesInv(cfg, s, es[0]);
      RunPreservesInv(cfg, Apply(cfg, s, es[0]), es[1..]);
    }
  }

  /** Once ragdolled the controller stays ragdolled: no event restores it. */
  lemma {:induction false} RagdollIsAbsorbing(cfg: Config, s: Controller, es: seq<Event>)
    requires s.isRagdoll
    ensures Run(cfg, s, es).isRagdoll
    decreases |es|
  {
    if |es| > 0 {
      var s1 := Apply(cfg, s, es[0]);
      assert s1.isRagdoll;
      RagdollIsAbsorbing(cfg, s1, es[1..]);
    }
  }

  /** A boosted landing is used up: the next frame on the ground does not
      boost again. */
  lemma BoostAtMostOnce(cfg: Config, s: Controller, dt1: real, now1: real, dt2: real, now2: real)
    requires !s.isRagdoll && !s.wasGrounded && !s.trickLocked
    ensures var first := Update(cfg, s, true, dt1, now1);
            Update(cfg, first.next, true, dt2, now2).landing == NoEdge
            && !Update(cfg, first.next, true, dt2, now2).next.landingBoostPending
  {
  }

  /** One new stick direction while airborne with the trigger released: it
      is buffered and becomes the marker; the trick state is untouched. */
  lemma AirborneTap(cfg: Config, s: Controller, x: real, y: real, d: Direction, now: real)
    requires MapInputToDirection(x, y, cfg.trickDirectionDeadzone) == Some(d)
    requires s.lastBufferedDirection != Some(d) && s.isTricking <= 0.5
    ensures var r := OnMove(cfg, s, x, y, false, now);
            && r.buffer == BufferDirection(s.buffer, d, cfg.maxBufferedDirections)
            && r.lastBufferedDirection == Some(d)
            && r.trickLocked == s.trickLocked && r.isTricking == s.isTricking && r.wasTricking == s.wasTricking
  {
  }

  /** The search over the one-trick catalog finds "180" on the buffer [Left, Right]. */
  lemma Best180(catalog: seq<Trick>)
    requires catalog == [Trick("180", "180", [Left, Right], 0.6)]
    ensures FindBestTrickFromBuffer(catalog, [Left, Right]) == Some(0)
  {
    assert Matches(catalog[0], [Left, Right]);
  }

  /** The combo scenario: airborne and not locked, with an empty buffer and
      the trigger released, the taps Left then Right and then the trigger,
      with a catalog holding [Left, Right] as "180". The trick executes and
      locks until its unlock fires. */
  lemma Scenario180(cfg: Config, s: Controller, now: real)
    requires cfg == DefaultConfig([Trick("180", "180", [Left, Right], 0.6)])
    requires s.buffer == [] && s.lastBufferedDirection == None && !s.trickLocked
    requires s.isTricking == 0.0 && s.wasTricking == 0.0
    ensures var s1 := OnMove(cfg, s, -1.0, 0.0, false, now);
            var s2 := OnMove(cfg, s1, 1.0, 0.0, false, now);
            var s3 := OnTrick(cfg, s2, 1.0, false);
            && s3.buffer == [Left, Right]
            && s3.trickLocked && s3.landingBoostPending && s3.pendingUnlock == Some(0.6)
            && !UnlockFired(s3).trickLocked
  {
    assert MapInputToDirection(-1.0, 0.0, 0.5) == Some(Left);
    assert MapInputToDirection(1.0, 0.0, 0.5) == Some(Right);
    AirborneTap(cfg, s, -1.0, 0.0, Left, now);
    var s1 := OnMove(cfg, s, -1.0, 0.0, false, now);
    assert s1.buffer == [Left] && s1.lastBufferedDirection == Some(Left);
    assert !s1.trickLocked && s1.isTricking == 0.0 && s1.wasTricking == 0.0;
    AirborneTap(cfg, s1, 1.0, 0.0, Right, now);
    var s2 := OnMove(cfg, s1, 1.0, 0.0, false, now);
    assert s2.buffer == [Left, Right];
    assert !s2.trickLocked && s2.wasTricking == 0.0;
    Best180(cfg.catalog);
    var pressed := s2.(isTricking := 1.0, wasTricking := 1.0);
    var s3 := OnTrick(cfg, s2, 1.0, false);
    assert s3 == ExecuteTrick(cfg, pressed, 0, false);
    assert s3.pendingUnlock == Some(Max(MinTrickDuration, 0.6));
  }
}
