/** The player: in preview mode only an animation runs; otherwise the
    pressed movement keys set the velocity and the position is integrated
    and clamped like any entity's. */
module Players {
  import opened Wrappers
  import opened WorldRecords
  import opened Vectors
  import opened Keys
  import opened Entities

  /** `MovementMap.TryGetValue`: a key outside the map contributes the zero
      vector. */
  function DirectionOf(key: Key): (d: Vec2)
    ensures d == if key in MovementMap() then MovementMap()[key] else Zero
  {
    if key == A then Vec2(-1.0, 0.0)
    else if key == D then Vec2(1.0, 0.0)
    else if key == W then Vec2(0.0, -1.0)
    else if key == S then Vec2(0.0, 1.0)
    else Zero
  }

  /** How often `key` occurs in `keys`. */
  function Count(keys: seq<Key>, key: Key): nat
  {
    if keys == [] then 0
    else Count(keys[..|keys| - 1], key) + (if keys[|keys| - 1] == key then 1 else 0)
  }

  /** The sum of the directions of the pressed keys, in order. */
  function DirectionSum(keys: seq<Key>): Vec2
  {
    if keys == [] then Zero
    else DirectionSum(keys[..|keys| - 1]).Add(DirectionOf(keys[|keys| - 1]))
  }

  /** The summed direction counts key presses: D minus A along X and S
      minus W along Y; every other key adds nothing. */
  lemma {:induction false} DirectionSumCounts(keys: seq<Key>)
    ensures DirectionSum(keys) == Vec2(Count(keys, D) as real - Count(keys, A) as real,
                                       Count(keys, S) as real - Count(keys, W) as real)
  {
    if keys != [] {
      var prefix, last := keys[..|keys| - 1], keys[|keys| - 1];
      DirectionSumCounts(prefix);
      var step := DirectionOf(last);
      assert step.x == (if last == D then 1.0 else 0.0) - (if last == A then 1.0 else 0.0);
      assert step.y == (if last == S then 1.0 else 0.0) - (if last == W then 1.0 else 0.0);
    }
  }

  predicate Distinct(keys: seq<Key>)
  {
    forall i, j :: 0 <= i < j < |keys| ==> keys[i] != keys[j]
  }

  lemma {:induction false} DistinctCount(keys: seq<Key>, key: Key)
    requires Distinct(keys)
    ensures Count(keys, key) == if key in keys then 1 else 0
  {
    if keys != [] {
      var prefix, last := keys[..|keys| - 1], keys[|keys| - 1];
      assert keys == prefix + [last];
      DistinctCount(prefix, key);
      if last == key {
        assert key !in prefix;
      }
    }
  }

  /** For the distinct keys a keyboard reports, each axis is +1, -1 or 0,
      and opposite keys cancel: A together with D gives X = 0, W together
      with S gives Y = 0. */
  lemma OppositeKeysCancel(keys: seq<Key>)
    requires Distinct(keys)
    ensures DirectionSum(keys).x == (if D in keys then 1.0 else 0.0) - (if A in keys then 1.0 else 0.0)
    ensures DirectionSum(keys).y == (if S in keys then 1.0 else 0.0) - (if W in keys then 1.0 else 0.0)
    ensures A in keys && D in keys ==> DirectionSum(keys).x == 0.0
    ensures W in keys && S in keys ==> DirectionSum(keys).y == 0.0
  {
    DirectionSumCounts(keys);
    DistinctCount(keys, A);
    DistinctCount(keys, D);
    DistinctCount(keys, W);
    DistinctCount(keys, S);
  }

  /** The velocity `HandleMovement` sets: the normalised direction times the
      movement speed, and zero (without normalising) when the direction is
      zero. */
  function MovementVelocity(direction: Vec2, normalize: Vec2 -> Vec2, speed: real): (v: Vec2)
    ensures direction == Zero ==> v == Zero
    ensures direction != Zero ==> v == normalize(direction).Scale(speed)
  {
    (if direction != Zero then normalize(direction) else direction).Scale(speed)
  }

  class Player {
    /** The entity part: position, velocity, hitbox and speed. */
    var body: Entity
    var isPreview: bool

    constructor (position: Vec2, initialScaleFactor: real)
      ensures fresh(body) && !isPreview
      ensures body.position == position && body.scale == initialScaleFactor && body.movementSpeed == 0.25
      ensures body.movementVector == Zero && body.totalImpulse == Zero && body.currentImpulse == Zero
    {
      body := new Entity(position, initialScaleFactor);
      isPreview := false;
      new;
      body.movementSpeed := 0.25;
    }

    /** The direction loop of `HandleMovement`. */
    static method SumDirections(keys: seq<Key>) returns (direction: Vec2)
      ensures direction == DirectionSum(keys)
    {
      direction := Zero;
      for i := 0 to |keys|
        invariant direction == DirectionSum(keys[..i])
      {
        assert keys[..i + 1][..i] == keys[..i];
        direction := direction.Add(DirectionOf(keys[i]));
      }
      assert keys[..|keys|] == keys;
    }

    /** Sets the velocity from the pressed keys, then integrates and clamps
        the position. */
    method HandleMovement(pressedKeys: seq<Key>, normalize: Vec2 -> Vec2, deltaTime: real, world: Option<Grid>,
                          blockSize: real, hasTile: (int, int) -> bool)
      requires blockSize > 0.0
      requires world.Some? ==> world.value.Valid()
      modifies body
      ensures body.Settings() == old(body.Settings())
      ensures var moving := old(body.State()).(velocity := MovementVelocity(DirectionSum(pressedKeys), normalize,
                                                                            body.movementSpeed));
        body.State() == Collide(moving, Integrate(moving, deltaTime), world, body.height, body.width,
                                blockSize, hasTile)
    {
      body.movementVector := Zero;
      var directionVector := SumDirections(pressedKeys);
      if directionVector != Zero {
        directionVector := normalize(directionVector);
      }
      body.movementVector := directionVector.Scale(body.movementSpeed);
      body.UpdatePosition(deltaTime, world, blockSize, hasTile);
    }

    /** A preview player only animates (the animation is not modelled); a
        regular one moves. */
    method Update(pressedKeys: seq<Key>, normalize: Vec2 -> Vec2, deltaTime: real, world: Option<Grid>,
                  blockSize: real, hasTile: (int, int) -> bool)
      requires blockSize > 0.0
      requires world.Some? ==> world.value.Valid()
      modifies body
      ensures isPreview ==> body.State() == old(body.State())
      ensures body.Settings() == old(body.Settings())
      ensures !isPreview ==>
        var moving := old(body.State()).(velocity := MovementVelocity(DirectionSum(pressedKeys), normalize,
                                                                     body.movementSpeed));
        body.State() == Collide(moving, Integrate(moving, deltaTime), world, body.height, body.width,
                                blockSize, hasTile)
    {
      if !isPreview {
        HandleMovement(pressedKeys, normalize, deltaTime, world, blockSize, hasTile);
      }
    }
  }
}
