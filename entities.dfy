/** The shared physics of entities: one tick applies gravity, folds in a
    pending impulse, integrates the velocity into a candidate position and
    clamps that position against the tile grid. */
module Entities {
  import opened Wrappers
  import opened WorldRecords
  import opened Vectors
  import opened Keys

  /** C# `float.Epsilon`, the smallest positive float: 2^-149. */
  const FloatEpsilon: real := 0.00000000000000000000000000000000000000000000140129846432481707092372958328991613128026194187651577175706828388979108268586060148663818836212158203125

  /** Keys that move an entity and the direction each stands for (y grows
      downwards). */
  function MovementMap(): map<Key, Vec2>
  {
    map[A := Vec2(-1.0, 0.0), D := Vec2(1.0, 0.0), W := Vec2(0.0, -1.0), S := Vec2(0.0, 1.0)]
  }

  // The three facts about the movement map are proved one per lemma:
  // proved together in one obligation they exceed the solver's budget.
  // MovementKeysAreUnitSteps below combines them.

  lemma MovementKeys()
    ensures MovementMap().Keys == {A, D, W, S}
  {
  }

  lemma MovementStepsAreUnit()
    ensures forall k | k in MovementMap() :: MovementMap()[k].LengthSquared() == 1.0
  {
  }

  lemma MovementAxesOpposite()
    ensures MovementMap()[A] == MovementMap()[D].Scale(-1.0)
    ensures MovementMap()[W] == MovementMap()[S].Scale(-1.0)
  {
  }

  /** Exactly W, A, S and D move an entity, each by a unit step, and the
      keys of each axis point in opposite directions. */
  lemma MovementKeysAreUnitSteps()
    ensures MovementMap().Keys == {A, D, W, S}
    ensures forall k | k in MovementMap() :: MovementMap()[k].LengthSquared() == 1.0
    ensures MovementMap()[A] == MovementMap()[D].Scale(-1.0)
    ensures MovementMap()[W] == MovementMap()[S].Scale(-1.0)
  {
    MovementKeys();
    MovementStepsAreUnit();
    MovementAxesOpposite();
  }

  /** The dynamic state of an entity that one tick changes. */
  datatype Motion = Motion(position: Vec2, velocity: Vec2, totalImpulse: Vec2, currentImpulse: Vec2,
                           isGrounded: bool)

  /** Newton's second law: the force divided by the mass is added to the
      velocity. */
  function Accelerated(m: Motion, force: Vec2, mass: real): Motion
    requires mass != 0.0
  {
    m.(velocity := m.velocity.Add(force.Div(mass)))
  }

  /** `ApplyGravityForce`: a force of the given magnitude along +Y, applied
      only to an entity that applies gravity, in a selected world, and not
      grounded. */
  function GravityStep(m: Motion, applyGravity: bool, worldSelected: bool, mass: real, gravityForce: real): (r: Motion)
    requires mass != 0.0
    ensures r.position == m.position && r.isGrounded == m.isGrounded
    ensures r.totalImpulse == m.totalImpulse && r.currentImpulse == m.currentImpulse
    ensures r.velocity.x == m.velocity.x
    ensures m.isGrounded ==> r == m
  {
    if !applyGravity || !worldSelected || m.isGrounded then m
    else Accelerated(m, Vec2(0.0, gravityForce), mass)
  }

  /** Gravity only ever changes the Y velocity, by force / mass, and only
      when all three guards let it through. */
  lemma GravityAlongY(m: Motion, applyGravity: bool, worldSelected: bool, mass: real, gravityForce: real)
    requires mass != 0.0
    ensures var r := GravityStep(m, applyGravity, worldSelected, mass, gravityForce);
      && r.position == m.position && r.isGrounded == m.isGrounded
      && r.totalImpulse == m.totalImpulse && r.currentImpulse == m.currentImpulse
      && r.velocity.x == m.velocity.x
      && r.velocity.y == m.velocity.y +
           (if applyGravity && worldSelected && !m.isGrounded then gravityForce / mass else 0.0)
  {
  }

  /** `AddImpulse`: force times duration joins the pending impulse. */
  function ImpulseAdded(m: Motion, force: Vec2, seconds: real): Motion
  {
    m.(totalImpulse := m.totalImpulse.Add(force.Scale(seconds)))
  }

  /** The part of the pending impulse not yet folded into the velocity. */
  function Remaining(m: Motion): Vec2
  {
    m.totalImpulse.Sub(m.currentImpulse)
  }

  /** `UpdateImpulse`: nothing while no impulse is pending; otherwise the
      frame share is the total impulse over the frame time, and the whole
      remainder is applied at once when it is almost zero or smaller than
      that share. */
  function ImpulseStep(m: Motion, deltaTime: real): (r: Motion)
    requires deltaTime > 0.0
    ensures r.position == m.position && r.isGrounded == m.isGrounded
    ensures r.totalImpulse == m.totalImpulse || (r.totalImpulse == Zero && r.currentImpulse == Zero)
  {
    if m.totalImpulse == Zero then m
    else
      var remaining := Remaining(m);
      var perFrame := m.totalImpulse.Div(deltaTime);
      if remaining.LengthSquared() < FloatEpsilon || perFrame.LengthSquared() > remaining.LengthSquared() then
        m.(velocity := m.velocity.Add(remaining), totalImpulse := Zero, currentImpulse := Zero)
      else
        m.(velocity := m.velocity.Add(perFrame), currentImpulse := m.currentImpulse.Add(perFrame))
  }

  /** Impulse integration moves impulse from "pending" into the velocity
      and never creates or loses any: velocity plus the remaining impulse is
      the same after the step. */
  lemma ImpulseConserved(m: Motion, deltaTime: real)
    requires deltaTime > 0.0
    ensures var r := ImpulseStep(m, deltaTime);
      && r.velocity.Add(Remaining(r)) == m.velocity.Add(Remaining(m))
      && r.position == m.position && r.isGrounded == m.isGrounded
      && (m.totalImpulse == Zero ==> r == m)
  {
  }

  lemma ScaleStrict(x: real, y: real, l: real)
    requires l > 0.0 && x > y
    ensures x * l > y * l
  {
  }

  lemma MulPos(x: real, y: real)
    requires x > 0.0 && y > 0.0
    ensures x * y > 0.0
  {
  }

  lemma SquareStrict(b: real, a: real)
    requires 0.0 <= b < a
    ensures b * b < a * a
  {
    MulPos(a, a);
    if b == 0.0 {
      calc {
        b * b;
        0.0 * 0.0;
        0.0;
      <
        a * a;
      }
    } else {
      ScaleStrict(a, b, a);
      ScaleStrict(a, b, b);
      assert b * a == a * b;
    }
  }

  lemma ScaledLength(t: Vec2, k: real)
    ensures t.Scale(k).LengthSquared() == k * k * t.LengthSquared()
  {
    calc {
      t.Scale(k).LengthSquared();
      (t.x * k) * (t.x * k) + (t.y * k) * (t.y * k);
      k * k * (t.x * t.x) + k * k * (t.y * t.y);
    }
  }

  lemma SquareNonNegative(v: real)
    ensures v * v >= 0.0
    ensures v != 0.0 ==> v * v > 0.0
  {
    if v > 0.0 {
      MulPos(v, v);
    } else if v < 0.0 {
      MulPos(-v, -v);
      assert (-v) * (-v) == v * v;
    }
  }

  lemma NonZeroLength(t: Vec2)
    requires t != Zero
    ensures t.LengthSquared() > 0.0
  {
    SquareNonNegative(t.x);
    SquareNonNegative(t.y);
    if t.x != 0.0 {
      calc {
        t.LengthSquared();
        t.x * t.x + t.y * t.y;
      >=
        t.x * t.x;
      >
        0.0;
      }
    } else {
      assert t.y != 0.0;
      calc {
        t.LengthSquared();
        t.x * t.x + t.y * t.y;
        0.0 * 0.0 + t.y * t.y;
        t.y * t.y;
      >
        0.0;
      }
    }
  }

  /** The arithmetic core of ImpulseNeverOvershoots: a frame share that is
      no longer than the remainder is at most the remaining fraction. */
  lemma ShareWithinRemainder(len: real, c: real, k: real, share: real, rest: real)
    requires len > 0.0 && c <= 1.0 && k > 0.0
    requires share == k * k * len && rest == (1.0 - c) * (1.0 - c) * len && share <= rest
    ensures c + k <= 1.0
  {
    var a := k * k;
    var b := (1.0 - c) * (1.0 - c);
    if a > b {
      ScaleStrict(a, b, len);
      assert false;
    }
    if k > 1.0 - c {
      SquareStrict(1.0 - c, k);
      assert false;
    }
  }

  /** The applied impulse stays a fraction between 0 and 1 of the pending
      one: a step started from fraction c ends at fraction c' (and a
      finished impulse clears both accumulators). */
  lemma DivIsScale(t: Vec2, d: real)
    requires d != 0.0
    ensures t.Div(d) == t.Scale(1.0 / d)
  {
    assert t.x / d == t.x * (1.0 / d);
    assert t.y / d == t.y * (1.0 / d);
  }

  lemma ScaleSum(t: Vec2, a: real, b: real)
    ensures t.Scale(a).Add(t.Scale(b)) == t.Scale(a + b)
    ensures t.Sub(t.Scale(a)) == t.Scale(1.0 - a)
  {
    assert t.x * a + t.x * b == t.x * (a + b);
    assert t.y * a + t.y * b == t.y * (a + b);
    assert t.x - t.x * a == t.x * (1.0 - a);
    assert t.y - t.y * a == t.y * (1.0 - a);
  }

  lemma FrameShareBound(t: Vec2, c: real, k: real)
    requires t != Zero && c <= 1.0 && k > 0.0
    requires t.Scale(k).LengthSquared() <= t.Scale(1.0 - c).LengthSquared()
    ensures c + k <= 1.0
  {
    NonZeroLength(t);
    ScaledLength(t, 1.0 - c);
    ScaledLength(t, k);
    ShareWithinRemainder(t.LengthSquared(), c, k, t.Scale(k).LengthSquared(), t.Scale(1.0 - c).LengthSquared());
  }

  lemma ImpulseNeverOvershoots(m: Motion, deltaTime: real, c: real) returns (c': real)
    requires deltaTime > 0.0 && 0.0 <= c <= 1.0
    requires m.currentImpulse == m.totalImpulse.Scale(c)
    ensures var r := ImpulseStep(m, deltaTime);
      && 0.0 <= c' <= 1.0 && r.currentImpulse == r.totalImpulse.Scale(c')
  {
    var t := m.totalImpulse;
    if t == Zero {
      c' := c;
      return;
    }
    var k := 1.0 / deltaTime;
    DivIsScale(t, deltaTime);
    ScaleSum(t, c, k);
    var remaining := t.Scale(1.0 - c);
    var perFrame := t.Scale(k);
    assert Remaining(m) == remaining;
    if remaining.LengthSquared() < FloatEpsilon || perFrame.LengthSquared() > remaining.LengthSquared() {
      c' := 0.0;
      assert ImpulseStep(m, deltaTime).totalImpulse == Zero;
    } else {
      c' := c + k;
      assert ImpulseStep(m, deltaTime).currentImpulse == t.Scale(c).Add(perFrame);
      FrameShareBound(t, c, k);
    }
  }

  /** A fresh impulse on a frame shorter than one second is applied whole
      in a single tick: the velocity gains exactly the impulse and both
      accumulators are cleared. */
  lemma ShortFrameAppliesWholeImpulse(m: Motion, deltaTime: real)
    requires 0.0 < deltaTime < 1.0
    requires m.totalImpulse != Zero && m.currentImpulse == Zero
    ensures var r := ImpulseStep(m, deltaTime);
      && r.velocity == m.velocity.Add(m.totalImpulse)
      && r.totalImpulse == Zero && r.currentImpulse == Zero
  {
    var t := m.totalImpulse;
    var len := t.LengthSquared();
    NonZeroLength(t);
    var k := 1.0 / deltaTime;
    assert k > 1.0;
    assert t.Div(deltaTime) == t.Scale(k);
    ScaledLength(t, k);
    ScaleStrict(k, 1.0, k);
    ScaleStrict(k * k, 1.0, len);
    assert Remaining(m) == t;
  }

  /** Position integration: velocity times the frame time. */
  function Integrate(m: Motion, deltaTime: real): Vec2
  {
    m.position.Add(m.velocity.Scale(deltaTime))
  }

  /** C# `(int)` of a float: truncation toward zero. */
  function Truncate(r: real): int
  {
    if r >= 0.0 then r.Floor else -((-r).Floor)
  }

  /** The strict bounds check `0 < v < limit` of `HandleCollision`. */
  predicate InsideOpen(v: real, limit: int)
  {
    0.0 < v < limit as real
  }

  /** The vertical part of `HandleCollision` for a candidate whose tile
      coordinates passed the bounds check. */
  function GroundCheck(m: Motion, candidate: Vec2, g: Grid, tileX: real, groundTileY: real,
                       height: real, blockSize: real): (r: Motion)
    requires g.Valid() && InsideOpen(tileX, g.width) && InsideOpen(groundTileY, g.height)
    ensures r.isGrounded <==> g.Get(Truncate(tileX), Truncate(groundTileY)) >= 1
    ensures r.position.x == candidate.x && r.velocity.x == m.velocity.x
    ensures r.velocity.y == if r.isGrounded then 0.0 else m.velocity.y
    ensures r.totalImpulse == m.totalImpulse && r.currentImpulse == m.currentImpulse
  {
    var grounded := g.Get(Truncate(tileX), Truncate(groundTileY)) >= 1;
    if grounded then
      m.(position := Vec2(candidate.x, (groundTileY - height) * blockSize),
         velocity := Vec2(m.velocity.x, 0.0), isGrounded := true)
    else m.(position := candidate, isGrounded := false)
  }

  /** The horizontal part: probes one entity width to the left and to the
      right; the left probe is tested first. */
  function SideCheck(m: Motion, g: Grid, tileX: real, groundTileY: real, width: real, blockSize: real,
                     hasTile: (int, int) -> bool): (r: Motion)
    ensures r.position.y == m.position.y && r.velocity.y == m.velocity.y && r.isGrounded == m.isGrounded
    ensures r.totalImpulse == m.totalImpulse && r.currentImpulse == m.currentImpulse
    ensures r.velocity.x == m.velocity.x || r.velocity.x == 0.0
    ensures r.position.x == m.position.x || r.velocity.x == 0.0
  {
    var leftTileX := tileX - width;
    var rightTileX := tileX + width;
    if !InsideOpen(leftTileX, g.width) || !InsideOpen(rightTileX, g.width) then m
    else if hasTile(Truncate(leftTileX), Truncate(groundTileY)) then
      m.(position := Vec2((leftTileX - width) * blockSize, m.position.y), velocity := Vec2(0.0, m.velocity.y))
    else if hasTile(Truncate(rightTileX), Truncate(groundTileY)) then
      m.(position := Vec2((rightTileX - width) * blockSize, m.position.y), velocity := Vec2(0.0, m.velocity.y))
    else m
  }

  /** `HandleCollision`: the clamped candidate becomes the position; with
      no selected world, or tile coordinates outside the open ranges, the
      candidate is taken as it is. */
  function Collide(m: Motion, candidate: Vec2, world: Option<Grid>, height: real, width: real,
                   blockSize: real, hasTile: (int, int) -> bool): (r: Motion)
    requires blockSize > 0.0
    requires world.Some? ==> world.value.Valid()
    ensures r.totalImpulse == m.totalImpulse && r.currentImpulse == m.currentImpulse
    ensures world.None? ==> r == m.(position := candidate)
    ensures r.isGrounded != m.isGrounded ==> world.Some?
  {
    if world.None? then m.(position := candidate)
    else
      var g := world.value;
      var tileX := candidate.x / blockSize;
      var groundTileY := candidate.y / blockSize + height;
      if !InsideOpen(tileX, g.width) || !InsideOpen(groundTileY, g.height) then m.(position := candidate)
      else
        var vertical := GroundCheck(m, candidate, g, tileX, groundTileY, height, blockSize);
        SideCheck(vertical, g, tileX, groundTileY, width, blockSize, hasTile)
  }

  /** With no selected world, or with tile coordinates outside the open
      ranges (0, W) and (0, H), the candidate is taken unclamped and the
      velocity and grounded flag are left as they were. */
  lemma UnguardedCandidateKept(m: Motion, candidate: Vec2, world: Option<Grid>, height: real, width: real,
                               blockSize: real, hasTile: (int, int) -> bool)
    requires blockSize > 0.0
    requires world.Some? ==> world.value.Valid()
    requires world.None? || !InsideOpen(candidate.x / blockSize, world.value.width)
             || !InsideOpen(candidate.y / blockSize + height, world.value.height)
    ensures Collide(m, candidate, world, height, width, blockSize, hasTile) == m.(position := candidate)
  {
  }

  /** The grounding rule: inside the bounds, the entity is grounded exactly
      when the tile under its truncated tile coordinates has an id of at
      least 1; grounding zeroes the Y velocity and puts Y at
      (groundTileY - Height) * Size, which is the candidate's own Y. An
      ungrounded entity keeps the candidate Y and its Y velocity. */
  lemma GroundingRule(m: Motion, candidate: Vec2, g: Grid, height: real, width: real,
                      blockSize: real, hasTile: (int, int) -> bool)
    requires blockSize > 0.0 && g.Valid()
    requires InsideOpen(candidate.x / blockSize, g.width) && InsideOpen(candidate.y / blockSize + height, g.height)
    ensures var tileX := candidate.x / blockSize;
      var groundTileY := candidate.y / blockSize + height;
      var r := Collide(m, candidate, Some(g), height, width, blockSize, hasTile);
      && 0 <= Truncate(tileX) < g.width && 0 <= Truncate(groundTileY) < g.height
      && (r.isGrounded <==> g.Get(Truncate(tileX), Truncate(groundTileY)) >= 1)
      && r.position.y == (if r.isGrounded then (groundTileY - height) * blockSize else candidate.y)
      && r.position.y == candidate.y
      && r.velocity.y == (if r.isGrounded then 0.0 else m.velocity.y)
  {
    var groundTileY := candidate.y / blockSize + height;
    assert (groundTileY - height) * blockSize == candidate.y;
  }

  /** The horizontal clamp. When either probe, one entity width left or
      right of tileX, leaves (0, W), X and the X velocity stay as the
      vertical step left them. Otherwise a solid left probe wins and moves X
      to (leftTileX - Width) * Size, which is 2 * Width * Size left of the
      candidate; failing that, a solid right probe sets X to
      (rightTileX - Width) * Size, which is the candidate X; either
      correction zeroes the X velocity. The vertical outcome is never
      touched. */
  lemma HorizontalClamp(m: Motion, candidate: Vec2, g: Grid, height: real, width: real,
                        blockSize: real, hasTile: (int, int) -> bool)
    requires blockSize > 0.0 && g.Valid()
    requires InsideOpen(candidate.x / blockSize, g.width) && InsideOpen(candidate.y / blockSize + height, g.height)
    ensures var tileX := candidate.x / blockSize;
      var groundTileY := candidate.y / blockSize + height;
      var leftTileX := tileX - width;
      var rightTileX := tileX + width;
      var probesInside := InsideOpen(leftTileX, g.width) && InsideOpen(rightTileX, g.width);
      var touchesLeft := probesInside && hasTile(Truncate(leftTileX), Truncate(groundTileY));
      var touchesRight := probesInside && !touchesLeft && hasTile(Truncate(rightTileX), Truncate(groundTileY));
      var vertical := GroundCheck(m, candidate, g, tileX, groundTileY, height, blockSize);
      var r := Collide(m, candidate, Some(g), height, width, blockSize, hasTile);
      && r.position.y == vertical.position.y && r.velocity.y == vertical.velocity.y
      && r.isGrounded == vertical.isGrounded
      && r.position.x == (if touchesLeft then candidate.x - 2.0 * width * blockSize else candidate.x)
      && r.velocity.x == (if touchesLeft || touchesRight then 0.0 else m.velocity.x)
  {
    var tileX := candidate.x / blockSize;
    assert (tileX - width - width) * blockSize == candidate.x - 2.0 * width * blockSize;
    assert (tileX + width - width) * blockSize == candidate.x;
  }

  /** A collision never invents velocity: each component is either kept or
      zeroed, and the impulse accumulators are untouched. */
  lemma CollisionOnlyStopsMotion(m: Motion, candidate: Vec2, world: Option<Grid>, height: real, width: real,
                                 blockSize: real, hasTile: (int, int) -> bool)
    requires blockSize > 0.0
    requires world.Some? ==> world.value.Valid()
    ensures var r := Collide(m, candidate, world, height, width, blockSize, hasTile);
      && (r.velocity.x == m.velocity.x || r.velocity.x == 0.0)
      && (r.velocity.y == m.velocity.y || r.velocity.y == 0.0)
      && r.totalImpulse == m.totalImpulse && r.currentImpulse == m.currentImpulse
  {
  }

  /** The parameters of an entity that a tick reads but never writes. */
  datatype Body = Body(applyGravity: bool, mass: real, height: real, width: real)

  /** `Update`: gravity, then the impulse, then integration and collision,
      always in that order. */
  function Tick(m: Motion, body: Body, deltaTime: real, world: Option<Grid>, blockSize: real,
                hasTile: (int, int) -> bool, gravityForce: real): (r: Motion)
    requires body.mass != 0.0 && deltaTime > 0.0 && blockSize > 0.0
    requires world.Some? ==> world.value.Valid()
    ensures r.totalImpulse == ImpulseStep(m, deltaTime).totalImpulse
    ensures r.currentImpulse == ImpulseStep(m, deltaTime).currentImpulse
  {
    var afterGravity := GravityStep(m, body.applyGravity, world.Some?, body.mass, gravityForce);
    var afterImpulse := ImpulseStep(afterGravity, deltaTime);
    Collide(afterImpulse, Integrate(afterImpulse, deltaTime), world, body.height, body.width, blockSize, hasTile)
  }

  /** Without a selected world a tick is free flight: no gravity, no
      clamping, and the position advances by the post-impulse velocity. */
  lemma FreeFlightWithoutWorld(m: Motion, body: Body, deltaTime: real, blockSize: real,
                               hasTile: (int, int) -> bool, gravityForce: real)
    requires body.mass != 0.0 && deltaTime > 0.0 && blockSize > 0.0
    ensures var i := ImpulseStep(m, deltaTime);
      Tick(m, body, deltaTime, None, blockSize, hasTile, gravityForce) == i.(position := Integrate(i, deltaTime))
  {
  }

  /** A grounded entity gets no gravity pull in a tick. */
  lemma GroundedFeelsNoGravity(m: Motion, body: Body, deltaTime: real, world: Option<Grid>, blockSize: real,
                               hasTile: (int, int) -> bool, gravityForce: real)
    requires body.mass != 0.0 && deltaTime > 0.0 && blockSize > 0.0
    requires world.Some? ==> world.value.Valid()
    requires m.isGrounded
    ensures var i := ImpulseStep(m, deltaTime);
      Tick(m, body, deltaTime, world, blockSize, hasTile, gravityForce)
        == Collide(i, Integrate(i, deltaTime), world, body.height, body.width, blockSize, hasTile)
  {
  }

  /** An entity: position, velocity (`MovementVector`), the impulse
      accumulators, the grounded flag and its hitbox in blocks. */
  class Entity {
    var position: Vec2
    var scale: real
    var movementVector: Vec2
    var movementSpeed: real
    var applyGravity: bool
    var mass: real
    var isGrounded: bool
    var totalImpulse: Vec2
    var currentImpulse: Vec2
    var height: real
    var width: real

    function State(): Motion
      reads this
    {
      Motion(position, movementVector, totalImpulse, currentImpulse, isGrounded)
    }

    function Parameters(): Body
      reads this
    {
      Body(applyGravity, mass, height, width)
    }

    /** Everything a tick does not change. */
    function Settings(): (real, real, Body)
      reads this
    {
      (scale, movementSpeed, Parameters())
    }

    constructor (position: Vec2, initialScaleFactor: real)
      ensures this.position == position && scale == initialScaleFactor
      ensures movementVector == Zero && totalImpulse == Zero && currentImpulse == Zero
      ensures mass == 1.0 && !isGrounded && !applyGravity
    {
      this.position := position;
      scale := initialScaleFactor;
      movementVector := Zero;
      movementSpeed := 0.0;
      applyGravity := false;
      mass := 1.0;
      isGrounded := false;
      totalImpulse := Zero;
      currentImpulse := Zero;
      height := 0.0;
      width := 0.0;
    }

    method ApplyForce(force: Vec2)
      requires mass != 0.0
      modifies this
      ensures Settings() == old(Settings())
      ensures State() == Accelerated(old(State()), force, mass)
    {
      movementVector := movementVector.Add(force.Div(mass));
    }

    method AddImpulse(force: Vec2, seconds: real)
      modifies this
      ensures Settings() == old(Settings())
      ensures State() == ImpulseAdded(old(State()), force, seconds)
    {
      totalImpulse := totalImpulse.Add(force.Scale(seconds));
    }

    method UpdateImpulse(deltaTime: real)
      requires deltaTime > 0.0
      modifies this
      ensures Settings() == old(Settings())
      ensures State() == ImpulseStep(old(State()), deltaTime)
    {
      if totalImpulse == Zero {
        return;
      }
      var remainingImpulse := totalImpulse.Sub(currentImpulse);
      var impulseThisFrame := totalImpulse.Div(deltaTime);
      if remainingImpulse.LengthSquared() < FloatEpsilon
         || impulseThisFrame.LengthSquared() > remainingImpulse.LengthSquared() {
        movementVector := movementVector.Add(remainingImpulse);
        totalImpulse := Zero;
        currentImpulse := Zero;
      } else {
        movementVector := movementVector.Add(impulseThisFrame);
        currentImpulse := currentImpulse.Add(impulseThisFrame);
      }
    }

    /** The guards of `ApplyGravityForce`; the force's magnitude is an
        input. */
    method ApplyGravityForce(worldSelected: bool, gravityForce: real)
      requires mass != 0.0
      modifies this
      ensures Settings() == old(Settings())
      ensures State() == GravityStep(old(State()), applyGravity, worldSelected, mass, gravityForce)
    {
      if !applyGravity {
        return;
      }
      if !worldSelected {
        return;
      }
      if !isGrounded {
        ApplyForce(Vec2(0.0, gravityForce));
      }
    }

    /** Clamps a candidate position against the selected world; updates the
        grounded flag and velocity, and returns the clamped position. */
    method HandleCollision(newPosition: Vec2, world: Option<Grid>, blockSize: real, hasTile: (int, int) -> bool)
      returns (clamped: Vec2)
      requires blockSize > 0.0
      requires world.Some? ==> world.value.Valid()
      modifies this
      ensures Settings() == old(Settings())
      ensures var r := Collide(old(State()), newPosition, world, height, width, blockSize, hasTile);
        clamped == r.position && State() == r.(position := old(position))
    {
      clamped := newPosition;
      if world.None? {
        return;
      }
      var currentWorld := world.value;
      var tileX := clamped.x / blockSize;
      var groundTileY := clamped.y / blockSize + height;
      if tileX <= 0.0 || tileX >= currentWorld.width as real
         || groundTileY <= 0.0 || groundTileY >= currentWorld.height as real {
        return;
      }
      clamped := ClampToGround(clamped, currentWorld, tileX, groundTileY, blockSize);
      clamped := ClampToSides(clamped, currentWorld, tileX, groundTileY, blockSize, hasTile);
    }

    /** The grounded test of `HandleCollision` and the Y clamp it implies. */
    method ClampToGround(candidate: Vec2, g: Grid, tileX: real, groundTileY: real, blockSize: real)
      returns (clamped: Vec2)
      requires g.Valid() && InsideOpen(tileX, g.width) && InsideOpen(groundTileY, g.height)
      modifies this
      ensures Settings() == old(Settings())
      ensures var v := GroundCheck(old(State()), candidate, g, tileX, groundTileY, height, blockSize);
        clamped == v.position && State() == v.(position := old(position))
    {
      clamped := candidate;
      isGrounded := g.Get(Truncate(tileX), Truncate(groundTileY)) >= 1;
      if isGrounded {
        clamped := Vec2(clamped.x, (groundTileY - height) * blockSize);
        movementVector := Vec2(movementVector.x, 0.0);
      }
    }

    /** The left and right probes of `HandleCollision` and the X clamp they
        imply. */
    method ClampToSides(candidate: Vec2, g: Grid, tileX: real, groundTileY: real, blockSize: real,
                        hasTile: (int, int) -> bool)
      returns (clamped: Vec2)
      modifies this
      ensures Settings() == old(Settings())
      ensures var h := SideCheck(old(State()).(position := candidate), g, tileX, groundTileY, width, blockSize, hasTile);
        clamped == h.position && State() == h.(position := old(position))
    {
      clamped := candidate;
      var leftTileX := tileX - width;
      var rightTileX := tileX + width;
      if leftTileX <= 0.0 || leftTileX >= g.width as real
         || rightTileX <= 0.0 || rightTileX >= g.width as real {
        return;
      }
      var touchesLeft := hasTile(Truncate(leftTileX), Truncate(groundTileY));
      var touchesRight := hasTile(Truncate(rightTileX), Truncate(groundTileY));
      if touchesLeft {
        clamped := Vec2((leftTileX - width) * blockSize, clamped.y);
        movementVector := Vec2(0.0, movementVector.y);
      } else if touchesRight {
        clamped := Vec2((rightTileX - width) * blockSize, clamped.y);
        movementVector := Vec2(0.0, movementVector.y);
      }
    }

    method UpdatePosition(deltaTime: real, world: Option<Grid>, blockSize: real, hasTile: (int, int) -> bool)
      requires blockSize > 0.0
      requires world.Some? ==> world.value.Valid()
      modifies this
      ensures Settings() == old(Settings())
      ensures State() == Collide(old(State()), Integrate(old(State()), deltaTime), world, height, width,
                                 blockSize, hasTile)
    {
      var newPosition := position.Add(movementVector.Scale(deltaTime));
      newPosition := HandleCollision(newPosition, world, blockSize, hasTile);
      position := newPosition;
    }

    /** One tick; `world` is the selected world's grid, if any. */
    method Update(deltaTime: real, world: Option<Grid>, blockSize: real, hasTile: (int, int) -> bool,
                  gravityForce: real)
      requires mass != 0.0 && deltaTime > 0.0 && blockSize > 0.0
      requires world.Some? ==> world.value.Valid()
      modifies this
      ensures Settings() == old(Settings())
      ensures State() == Tick(old(State()), Parameters(), deltaTime, world, blockSize, hasTile, gravityForce)
    {
      ApplyGravityForce(world.Some?, gravityForce);
      UpdateImpulse(deltaTime);
      UpdatePosition(deltaTime, world, blockSize, hasTile);
    }
  }
}
