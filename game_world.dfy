/** The world object of a running game: block count and mass (the inputs of
    gravity), and the ruler, whose two ends snap to the block grid and
    between which a highlight is placed every 8 units along X. */
module GameWorld {
  import opened WorldRecords
  import opened Vectors

  const Int32Modulus: int := 0x1_0000_0000

  /** C#'s unchecked 32-bit `int` arithmetic: the result wraps into
      [-2^31, 2^31). */
  function WrapInt32(v: int): (r: int)
    ensures -0x8000_0000 <= r < 0x8000_0000
    ensures (r - v) % Int32Modulus == 0
    ensures -0x8000_0000 <= v < 0x8000_0000 ==> r == v
  {
    var m := v % Int32Modulus;
    if m >= 0x8000_0000 then m - Int32Modulus else m
  }

  /** `GetBlocksAmount`: the 32-bit product of the dimensions, as a float. */
  function GetBlocksAmount(width: int, height: int): (amount: real)
    ensures -0x8000_0000 <= width * height < 0x8000_0000 ==> amount == (width * height) as real
  {
    WrapInt32(width * height) as real
  }

  /** A dimension product past 2^31 - 1 wraps around to a negative block
      count. */
  lemma BlocksAmountWraps()
    ensures GetBlocksAmount(65536, 32768) == -2147483648.0
  {
    assert 65536 * 32768 == 0x8000_0000;
  }

  /** `GetMass`: 36% of the blocks are stone at 1602 kg and 24% dirt at
      1300 kg. */
  function GetMass(width: int, height: int): (mass: real)
    ensures mass == GetBlocksAmount(width, height) * 888.72
  {
    var amount := GetBlocksAmount(width, height);
    amount * 0.36 * 1602.0 + amount * 0.24 * 1300.0
  }

  /** The world's mass is 888.72 kg per block; it is non-negative and
      grows with the block count while the product of the dimensions fits
      in 32 bits. */
  lemma MassPerBlock(width: int, height: int, width': int, height': int)
    ensures 0 <= width * height < 0x8000_0000 ==> GetMass(width, height) == (width * height) as real * 888.72
    ensures 0 <= width * height < 0x8000_0000 ==> GetMass(width, height) >= 0.0
    ensures 0 <= width * height <= width' * height' < 0x8000_0000 ==> GetMass(width, height) <= GetMass(width', height')
  {
  }

  /** Snaps a coordinate down to the block grid: floor(v / size) * size. */
  function RoundToBlocks(v: real, size: real): (r: real)
    requires size > 0.0
    ensures r <= v < r + size
    ensures (r / size).Floor as real * size == r
  {
    var q := v / size;
    var k := q.Floor as real;
    assert q * size == v;
    BelowValue(v, size, q, k);
    AboveValueLessSize(v, size, q, k);
    MultipleOfSize(k, size);
    k * size
  }

  /** The snapped coordinate is the largest multiple of the block size not
      above v. */
  lemma RoundToBlocksBounds(v: real, size: real) returns (k: int)
    requires size > 0.0
    ensures RoundToBlocks(v, size) == k as real * size
    ensures RoundToBlocks(v, size) <= v < RoundToBlocks(v, size) + size
  {
    k := (v / size).Floor;
  }

  /** A whole multiple of the size snaps to itself. */
  lemma MultipleOfSize(k: real, size: real)
    requires size > 0.0 && k.Floor as real == k
    ensures (k * size / size).Floor as real * size == k * size
  {
    assert k * size / size == k;
  }

  lemma BelowValue(v: real, size: real, q: real, k: real)
    requires size > 0.0 && q * size == v && k <= q
    ensures k * size <= v
  {
    MulMonotone(k, q, size);
  }

  lemma AboveValueLessSize(v: real, size: real, q: real, k: real)
    requires size > 0.0 && q * size == v && q < k + 1.0
    ensures v < k * size + size
  {
    MulStrictlyMonotone(q, k + 1.0, size);
    assert (k + 1.0) * size == k * size + size;
  }

  lemma MulMonotone(a: real, b: real, s: real)
    requires s > 0.0 && a <= b
    ensures a * s <= b * s
  {
  }

  lemma MulStrictlyMonotone(a: real, b: real, s: real)
    requires s > 0.0 && a < b
    ensures a * s < b * s
  {
  }

  /** Snaps both coordinates: the result is the corner of the block that
      holds p. */
  function RoundedToBlocks(p: Vec2, size: real): (r: Vec2)
    requires size > 0.0
    ensures r.x <= p.x < r.x + size && r.y <= p.y < r.y + size
    ensures (r.x / size).Floor as real * size == r.x && (r.y / size).Floor as real * size == r.y
  {
    Vec2(RoundToBlocks(p.x, size), RoundToBlocks(p.y, size))
  }

  function Abs(r: real): real
  {
    if r < 0.0 then -r else r
  }

  class World {
    var state: WorldState
    var rulerMode: bool
    var rulerStart: Vec2
    var rulerEnd: Vec2

    constructor (state: WorldState)
      ensures this.state == state && !rulerMode && rulerStart == Zero && rulerEnd == Zero
    {
      this.state := state;
      rulerMode := false;
      rulerStart := Zero;
      rulerEnd := Zero;
    }

    method SetRulerStart(start: Vec2)
      modifies this
      ensures rulerStart == start
      ensures rulerEnd == old(rulerEnd) && rulerMode == old(rulerMode) && state == old(state)
    {
      rulerStart := start;
    }

    method SetRulerEnd(end: Vec2)
      modifies this
      ensures rulerEnd == end
      ensures rulerStart == old(rulerStart) && rulerMode == old(rulerMode) && state == old(state)
    {
      rulerEnd := end;
    }

    function GetRulerStartRoundedToBlocks(blockSize: real): (r: Vec2)
      requires blockSize > 0.0
      reads this
      ensures r.x <= rulerStart.x < r.x + blockSize && r.y <= rulerStart.y < r.y + blockSize
      ensures (r.x / blockSize).Floor as real * blockSize == r.x
      ensures (r.y / blockSize).Floor as real * blockSize == r.y
    {
      RoundedToBlocks(rulerStart, blockSize)
    }

    function GetRulerEndRoundedToBlocks(blockSize: real): (r: Vec2)
      requires blockSize > 0.0
      reads this
      ensures r.x <= rulerEnd.x < r.x + blockSize && r.y <= rulerEnd.y < r.y + blockSize
      ensures (r.x / blockSize).Floor as real * blockSize == r.x
      ensures (r.y / blockSize).Floor as real * blockSize == r.y
    {
      RoundedToBlocks(rulerEnd, blockSize)
    }

    /** The positions of the highlights `DrawRulerLine` places: one per 8
        units of the snapped X distance, starting 8 units from the snapped
        start towards the snapped end, all on the start's row; none when the
        ruler menu or the player's camera is missing. */
    method DrawRulerLine(rulerMenuPresent: bool, cameraPresent: bool, blockSize: real)
      returns (highlights: seq<Vec2>)
      requires blockSize > 0.0
      ensures !rulerMenuPresent || !cameraPresent ==> highlights == []
      ensures rulerMenuPresent && cameraPresent ==>
        var start := GetRulerStartRoundedToBlocks(blockSize);
        var end := GetRulerEndRoundedToBlocks(blockSize);
        var xDiff := end.x - start.x;
        && |highlights| == (Abs(xDiff) / 8.0).Floor
        && (forall i :: 0 <= i < |highlights| ==>
              highlights[i] == Vec2(start.x + (if xDiff < 0.0 then -8 * (i + 1) else 8 * (i + 1)) as real, start.y))
        && (forall i :: 0 <= i < |highlights| ==>
              (start.x <= highlights[i].x <= end.x || end.x <= highlights[i].x <= start.x))
    {
      highlights := [];
      if !rulerMenuPresent || !cameraPresent {
        return;
      }
      var startX := GetRulerStartRoundedToBlocks(blockSize).x;
      var startY := GetRulerStartRoundedToBlocks(blockSize).y;
      var xDiff := GetRulerEndRoundedToBlocks(blockSize).x - GetRulerStartRoundedToBlocks(blockSize).x;
      var blocksX := Abs(xDiff) / 8.0;
      var xToAdd := 0;
      var block := 1;
      while block as real <= blocksX
        invariant 1 <= block && |highlights| == block - 1 && (block - 1) as real <= blocksX
        invariant forall i :: 0 <= i < |highlights| ==>
          highlights[i] == Vec2(startX + (if xDiff < 0.0 then -8 * (i + 1) else 8 * (i + 1)) as real, startY)
        decreases blocksX.Floor - block
      {
        if xDiff < 0.0 {
          xToAdd := block * -8;
        } else if xDiff > 0.0 {
          xToAdd := block * 8;
        }
        highlights := highlights + [Vec2(startX + xToAdd as real, startY)];
        block := block + 1;
      }
      forall i | 0 <= i < |highlights|
        ensures startX <= highlights[i].x <= startX + xDiff || startX + xDiff <= highlights[i].x <= startX
      {
        assert (i + 1) as real <= blocksX;
      }
    }

    /** `Update` moves the two end highlights to the raw ruler points, and
        only when the ruler menu and the player's camera exist. */
    method HighlightTargets(rulerMenuPresent: bool, cameraPresent: bool) returns (targets: seq<Vec2>)
      ensures targets == if rulerMenuPresent && cameraPresent then [rulerStart, rulerEnd] else []
    {
      if !cameraPresent || !rulerMenuPresent {
        return [];
      }
      targets := [rulerStart, rulerEnd];
    }
  }
}
