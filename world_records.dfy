/** The persisted world and player records shared by both PlayerManager
    variants: a row-major grid of 16-bit tile identifiers. */
module WorldRecords {

  /** C# `ushort`. */
  type UShort = x: int | 0 <= x < 65536

  /** `WorldDifficulty`: only `Easy` is named by the code in this model, so
      each other member of the enum is written `OtherDifficulty(k)`, where
      k is its ordinal in the enum. */
  datatype WorldDifficulty = Easy | OtherDifficulty(ordinal: nat)

  datatype PlayerState = PlayerState(name: string)

  /** Row-major index of cell (x, y) in a grid `width` cells wide. */
  function CellIndex(width: int, x: int, y: int): int
  {
    y * width + x
  }

  /** Every cell inside a width x height grid has an index inside an array
      of width * height tiles. */
  lemma CellIndexInBounds(width: int, height: int, x: int, y: int)
    requires 0 <= x < width && 0 <= y < height
    ensures 0 <= CellIndex(width, x, y) < width * height
  {
    assert 0 <= y * width;
    assert (height - y - 1) * width >= 0;
    assert height * width == y * width + width + (height - y - 1) * width;
  }

  /** Rows further down start at least one whole row later. */
  lemma {:induction false} RowGap(width: int, ya: int, yb: int)
    requires 0 <= width && ya < yb
    ensures yb * width - ya * width >= width
    decreases yb - ya
  {
    if ya + 1 < yb {
      RowGap(width, ya, yb - 1);
      assert yb * width == (yb - 1) * width + width;
    } else {
      assert yb * width == ya * width + width;
    }
  }

  /** More rows hold at least as many cells. */
  lemma RowsMonotone(width: int, ya: int, yb: int)
    requires 0 <= width && ya <= yb
    ensures ya * width <= yb * width
  {
    if ya < yb {
      RowGap(width, ya, yb);
    }
  }

  /** Two cells of the same row width share an index only if they are the
      same cell. */
  lemma CellIndexInjective(width: int, x1: int, y1: int, x2: int, y2: int)
    requires 0 <= x1 < width && 0 <= x2 < width
    requires CellIndex(width, x1, y1) == CellIndex(width, x2, y2)
    ensures x1 == x2 && y1 == y2
  {
    if y1 < y2 {
      RowGap(width, y1, y2);
      assert false;
    } else if y2 < y1 {
      RowGap(width, y2, y1);
      assert false;
    }
  }

  /** Every index of an array of width * height tiles, for a non-negative
      width, is the index of one cell. */
  lemma CellOfIndex(width: int, height: int, i: int) returns (x: int, y: int)
    requires 0 <= width && 0 <= i < width * height
    ensures 0 <= x < width && 0 <= y < height && CellIndex(width, x, y) == i
  {
    assert width != 0;
    x, y := i % width, i / width;
    assert i == y * width + x;
    if height <= y {
      RowsMonotone(width, height, y);
    }
  }

  /** A value view of a world's tile data. */
  datatype Grid = Grid(width: int, height: int, tiles: seq<UShort>)
  {
    ghost predicate Valid()
    {
      |tiles| == width * height
    }

    predicate InGrid(x: int, y: int)
    {
      0 <= x < width && 0 <= y < height
    }

    function Get(x: int, y: int): UShort
      requires Valid() && InGrid(x, y)
    {
      CellIndexInBounds(width, height, x, y);
      tiles[CellIndex(width, x, y)]
    }

    function Set(x: int, y: int, v: UShort): (g: Grid)
      requires Valid() && InGrid(x, y)
      ensures g.Valid() && g.width == width && g.height == height
    {
      CellIndexInBounds(width, height, x, y);
      this.(tiles := tiles[CellIndex(width, x, y) := v])
    }
  }

  /** Writing one cell changes that cell and no other. */
  lemma GetAfterSet(g: Grid, x: int, y: int, v: UShort, cx: int, cy: int)
    requires g.Valid() && g.InGrid(x, y) && g.InGrid(cx, cy)
    ensures g.Set(x, y, v).Get(cx, cy) == if cx == x && cy == y then v else g.Get(cx, cy)
  {
    CellIndexInBounds(g.width, g.height, cx, cy);
    if cx != x || cy != y {
      if CellIndex(g.width, cx, cy) == CellIndex(g.width, x, y) {
        CellIndexInjective(g.width, cx, cy, x, y);
      }
    }
  }

  /** If every cell of a valid grid holds v, every tile does. */
  lemma AllCellsAllTiles(g: Grid, v: UShort)
    requires g.Valid() && 0 <= g.width
    requires forall x, y | g.InGrid(x, y) :: g.Get(x, y) == v
    ensures forall i | 0 <= i < |g.tiles| :: g.tiles[i] == v
  {
    forall i | 0 <= i < |g.tiles| ensures g.tiles[i] == v {
      var x, y := CellOfIndex(g.width, g.height, i);
      assert g.Get(x, y) == v;
    }
  }

  /** The serialisable world record (`WorldState`); its tile array is
      updated in place. */
  class WorldState {
    var name: string
    var difficulty: WorldDifficulty
    var tiles: array<UShort>
    var worldWidth: int
    var worldHeight: int

    ghost predicate Valid()
      reads this
    {
      tiles.Length == worldWidth * worldHeight
    }

    function View(): (g: Grid)
      reads this, tiles
      ensures g.Valid() == Valid()
    {
      Grid(worldWidth, worldHeight, tiles[..])
    }

    /** The record built by `NewWorld`: the given name, difficulty and
        dimensions and a zeroed tile array of width * height entries. */
    constructor (name: string, difficulty: WorldDifficulty, worldWidth: int, worldHeight: int)
      requires 0 <= worldWidth * worldHeight < 0x8000_0000
      ensures Valid() && fresh(tiles)
      ensures this.name == name && this.difficulty == difficulty
      ensures this.worldWidth == worldWidth && this.worldHeight == worldHeight
      ensures tiles.Length == worldWidth * worldHeight
      ensures forall i | 0 <= i < tiles.Length :: tiles[i] == 0
    {
      this.name := name;
      this.difficulty := difficulty;
      this.worldWidth := worldWidth;
      this.worldHeight := worldHeight;
      tiles := new UShort[worldWidth * worldHeight](_ => 0);
    }

    /** The record as its property initialisers leave it, with only the
        name set. */
    constructor Named(name: string)
      ensures Valid() && fresh(tiles)
      ensures this.name == name && difficulty == Easy
      ensures worldWidth == 0 && worldHeight == 0 && tiles.Length == 0
    {
      this.name := name;
      difficulty := Easy;
      worldWidth, worldHeight := 0, 0;
      tiles := new UShort[0];
    }

    function GetTile(x: int, y: int): (t: UShort)
      reads this, tiles
      requires 0 <= CellIndex(worldWidth, x, y) < tiles.Length
      ensures Valid() && View().InGrid(x, y) ==> t == View().Get(x, y)
    {
      tiles[CellIndex(worldWidth, x, y)]
    }

    method SetTile(x: int, y: int, value: UShort)
      requires 0 <= CellIndex(worldWidth, x, y) < tiles.Length
      modifies tiles
      ensures tiles[..] == old(tiles[..])[CellIndex(worldWidth, x, y) := value]
      ensures Valid() && View().InGrid(x, y) ==> View() == old(View()).Set(x, y, value)
    {
      tiles[CellIndex(worldWidth, x, y)] := value;
    }
  }
}
