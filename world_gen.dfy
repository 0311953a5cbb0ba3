/** Terrain generation by noise passes: every cell sums one noise sample
    per pass into a running value and takes a pass's block whenever that
    running value exceeds the pass's threshold. */
module WorldGen {
  import opened WorldRecords

  /** `Noise.OctavePerlin(x, y, frequency, octaves, persistence)`; its
      numerics are not part of this model, so any function will do. */
  type Noise = (int, int, real, int, real) -> real

  datatype NoisePass = NoisePass(frequency: real, octaves: int, persistence: real,
                                 threshold: real, amplitude: real, block: UShort)

  /** The default dirt pass; `dirt` is the value of `BlockID.Dirt`. */
  function DirtNoisePass(dirt: UShort): (pass: NoisePass)
    ensures pass.frequency == 150.0 && pass.octaves == 4 && pass.persistence == 0.5
    ensures pass.threshold == 0.0 && pass.amplitude == 1.0 && pass.block == dirt
  {
    NoisePass(150.0, 4, 0.5, 0.0, 1.0, dirt)
  }

  /** The pass list `Generate` builds. */
  function DefaultPasses(dirt: UShort): seq<NoisePass>
  {
    [DirtNoisePass(dirt)]
  }

  function Sample(noise: Noise, x: int, y: int, pass: NoisePass): real
  {
    noise(x, y, pass.frequency, pass.octaves, pass.persistence)
  }

  /** The running noise value of cell (x, y) after the given passes: it
      starts at 0 for the cell and is never reset between passes. */
  function Accumulated(noise: Noise, x: int, y: int, passes: seq<NoisePass>): real
    decreases |passes|
  {
    if passes == [] then 0.0
    else Accumulated(noise, x, y, passes[..|passes| - 1]) + Sample(noise, x, y, passes[|passes| - 1])
  }

  /** The running value is never reset: running passes a and then passes b
      adds b's samples on top of a's running value. */
  lemma {:induction false} AccumulatedSplits(noise: Noise, x: int, y: int, a: seq<NoisePass>, b: seq<NoisePass>)
    ensures Accumulated(noise, x, y, a + b) == Accumulated(noise, x, y, a) + Accumulated(noise, x, y, b)
    decreases |b|
  {
    if b == [] {
      assert a + b == a;
    } else {
      var n := |b| - 1;
      assert (a + b)[..|a + b| - 1] == a + b[..n];
      assert (a + b)[|a + b| - 1] == b[n];
      AccumulatedSplits(noise, x, y, a, b[..n]);
    }
  }

  /** The first pass's sample comes first in the running value. */
  lemma AccumulatedFromFront(noise: Noise, x: int, y: int, passes: seq<NoisePass>)
    requires passes != []
    ensures Accumulated(noise, x, y, passes)
      == Sample(noise, x, y, passes[0]) + Accumulated(noise, x, y, passes[1..])
  {
    assert passes == [passes[0]] + passes[1..];
    AccumulatedSplits(noise, x, y, [passes[0]], passes[1..]);
    assert [passes[0]][..0] == [];
  }

  /** Pass k writes its block to (x, y): the running value after passes
      0..k is strictly above pass k's threshold. */
  predicate Qualifies(noise: Noise, x: int, y: int, passes: seq<NoisePass>, k: int)
    requires 0 <= k < |passes|
  {
    Accumulated(noise, x, y, passes[..k + 1]) > passes[k].threshold
  }

  /** The tile of (x, y) after running the passes in order over a cell
      that held `prior`. */
  function CellAfter(noise: Noise, x: int, y: int, passes: seq<NoisePass>, prior: UShort): (tile: UShort)
    ensures tile == prior || exists k | 0 <= k < |passes| :: passes[k].block == tile
    decreases |passes|
  {
    if passes == [] then prior
    else
      var k := |passes| - 1;
      if Accumulated(noise, x, y, passes) > passes[k].threshold then passes[k].block
      else
        var tile := CellAfter(noise, x, y, passes[..k], prior);
        assert forall j | 0 <= j < k :: passes[..k][j] == passes[j];
        tile
  }

  /** When no pass qualifies, the cell keeps its prior tile. */
  lemma {:induction false} NoQualifyingPassKeepsTile(noise: Noise, x: int, y: int, passes: seq<NoisePass>, prior: UShort)
    requires forall k | 0 <= k < |passes| :: !Qualifies(noise, x, y, passes, k)
    ensures CellAfter(noise, x, y, passes, prior) == prior
    decreases |passes|
  {
    if passes != [] {
      var n := |passes| - 1;
      assert passes[..n + 1] == passes;
      assert !Qualifies(noise, x, y, passes, n);
      forall k | 0 <= k < n ensures !Qualifies(noise, x, y, passes[..n], k) {
        assert passes[..n][..k + 1] == passes[..k + 1];
        assert !Qualifies(noise, x, y, passes, k);
      }
      NoQualifyingPassKeepsTile(noise, x, y, passes[..n], prior);
    }
  }

  /** When several passes qualify, the last one wins. */
  lemma {:induction false} LastQualifyingPassWins(noise: Noise, x: int, y: int, passes: seq<NoisePass>,
                                                  prior: UShort, k: int)
    requires 0 <= k < |passes| && Qualifies(noise, x, y, passes, k)
    requires forall j | k < j < |passes| :: !Qualifies(noise, x, y, passes, j)
    ensures CellAfter(noise, x, y, passes, prior) == passes[k].block
    decreases |passes|
  {
    var n := |passes| - 1;
    assert passes[..n + 1] == passes;
    if k < n {
      assert !Qualifies(noise, x, y, passes, n);
      assert passes[..n][..k + 1] == passes[..k + 1];
      forall j | k < j < n ensures !Qualifies(noise, x, y, passes[..n], j) {
        assert passes[..n][..j + 1] == passes[..j + 1];
        assert !Qualifies(noise, x, y, passes, j);
      }
      LastQualifyingPassWins(noise, x, y, passes[..n], prior, k);
    }
  }

  /** With the default dirt pass alone, a cell becomes dirt exactly when
      its noise sample is above 0, and keeps its tile otherwise. */
  lemma DefaultPassIsDirtOrPrior(noise: Noise, x: int, y: int, dirt: UShort, prior: UShort)
    ensures CellAfter(noise, x, y, DefaultPasses(dirt), prior)
      == if noise(x, y, 150.0, 4, 0.5) > 0.0 then dirt else prior
  {
    var passes := DefaultPasses(dirt);
    assert passes[..0] == [];
    assert Accumulated(noise, x, y, passes) == Sample(noise, x, y, DirtNoisePass(dirt));
  }

  /** A pass can qualify on the strength of earlier passes' samples: with
      every sample 1 and two passes of threshold 1.5, the second pass
      writes its block although its own sample is below its threshold. */
  lemma AccumulationCarriesAcrossPasses(first: UShort, second: UShort)
    ensures var noise: Noise := (x, y, f, o, p) => 1.0;
            var passes := [NoisePass(1.0, 1, 0.5, 1.5, 1.0, first), NoisePass(1.0, 1, 0.5, 1.5, 1.0, second)];
            && Sample(noise, 0, 0, passes[1]) <= passes[1].threshold
            && !Qualifies(noise, 0, 0, passes, 0)
            && CellAfter(noise, 0, 0, passes, 0) == second
  {
    var noise: Noise := (x, y, f, o, p) => 1.0;
    var passes := [NoisePass(1.0, 1, 0.5, 1.5, 1.0, first), NoisePass(1.0, 1, 0.5, 1.5, 1.0, second)];
    assert passes[..1] == [passes[0]];
    assert passes[..1][..0] == [];
    assert Accumulated(noise, 0, 0, passes[..1]) == 1.0;
    assert Accumulated(noise, 0, 0, passes) == 2.0;
  }

  /** Runs the passes over every cell of the world, column by column,
      writing the grid in place. */
  method RunPasses(world: WorldState, passes: seq<NoisePass>, noise: Noise)
    requires world.Valid()
    modifies world.tiles
    ensures world.Valid()
    ensures forall x, y | world.View().InGrid(x, y) ::
      world.View().Get(x, y) == CellAfter(noise, x, y, passes, old(world.View()).Get(x, y))
  {
    ghost var before := world.View();
    var width, height := world.worldWidth, world.worldHeight;
    var x := 0;
    while x < width
      invariant 0 <= x && (x <= width || x == 0)
      invariant world.View().Valid()
      invariant forall cx, cy | before.InGrid(cx, cy) ::
        world.View().Get(cx, cy) ==
          if cx < x then CellAfter(noise, cx, cy, passes, before.Get(cx, cy)) else before.Get(cx, cy)
    {
      var y := 0;
      while y < height
        invariant 0 <= y && (y <= height || y == 0)
        invariant world.View().Valid()
        invariant forall cx, cy | before.InGrid(cx, cy) ::
          world.View().Get(cx, cy) ==
            if cx < x || (cx == x && cy < y) then CellAfter(noise, cx, cy, passes, before.Get(cx, cy))
            else before.Get(cx, cy)
      {
        CellIndexInBounds(width, height, x, y);
        ghost var rowStart := world.View();
        var noiseValue := 0.0;
        var k := 0;
        while k < |passes|
          invariant 0 <= k <= |passes|
          invariant world.View().Valid()
          invariant noiseValue == Accumulated(noise, x, y, passes[..k])
          invariant world.View() == rowStart.Set(x, y, CellAfter(noise, x, y, passes[..k], before.Get(x, y)))
        {
          var pass := passes[k];
          assert passes[..k + 1][..k] == passes[..k];
          noiseValue := noiseValue + Sample(noise, x, y, pass);
          if noiseValue > pass.threshold {
            world.SetTile(x, y, pass.block);
          }
          k := k + 1;
        }
        assert passes[..|passes|] == passes;
        forall cx, cy | before.InGrid(cx, cy)
          ensures world.View().Get(cx, cy) ==
            if cx < x || (cx == x && cy <= y) then CellAfter(noise, cx, cy, passes, before.Get(cx, cy))
            else before.Get(cx, cy)
        {
          GetAfterSet(rowStart, x, y, CellAfter(noise, x, y, passes, before.Get(x, y)), cx, cy);
        }
        y := y + 1;
      }
      x := x + 1;
    }
  }

  /** `Generate`: the default passes over the whole world. The seed is not
      read. */
  method Generate(seed: int, world: WorldState, noise: Noise, dirt: UShort)
    requires world.Valid()
    modifies world.tiles
    ensures world.Valid()
    ensures forall x, y | world.View().InGrid(x, y) ::
      world.View().Get(x, y) == CellAfter(noise, x, y, DefaultPasses(dirt), old(world.View()).Get(x, y))
  {
    RunPasses(world, DefaultPasses(dirt), noise);
  }
}
