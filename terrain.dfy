/**
 * The destructible terrain: a fixed 144 x 256 grid of tiles (0 = empty,
 * 1 = earth), filled once with a flat plateau and then cleared in round
 * craters by explosions.
 *
 * The grid's contents are described as a value of type `Grid` (row-major,
 * `g[row][col]`); the class `Terrain` keeps them in a two-dimensional array
 * and its methods are proved against the value-level functions below.
 */
module Terrains {
  import opened Screen

  type Grid = seq<seq<int>>

  /** A grid of exactly MapHeight rows of MapWidth tiles. */
  predicate WellFormed(g: Grid) {
    |g| == MapHeight && forall i :: 0 <= i < |g| ==> |g[i]| == MapWidth
  }

  function EmptyGrid(): (g: Grid)
    ensures WellFormed(g)
  {
    seq(MapHeight, i => seq(MapWidth, j => 0))
  }

  /** Tiles that the flat map fills with earth: the bottom quarter of the rows,
      between one fifth and four fifths of the columns. */
  predicate InPlateau(row: int, col: int) {
    MapHeight * 3 / 4 <= row < MapHeight && MapWidth / 5 <= col < MapWidth * 4 / 5
  }

  /** `g` with every plateau tile set to earth. */
  function Plateau(g: Grid): (r: Grid)
    requires WellFormed(g)
    ensures WellFormed(r)
  {
    seq(MapHeight, i requires 0 <= i < MapHeight =>
      seq(MapWidth, j requires 0 <= j < MapWidth => if InPlateau(i, j) then 1 else g[i][j]))
  }

  /** The only map layout: a plateau on an otherwise empty grid. */
  function FlatGrid(): (g: Grid)
    ensures WellFormed(g)
  {
    Plateau(EmptyGrid())
  }

  /** The flat map in numbers: rows 108..143 and columns 51..203 are earth,
      everything else is empty. */
  lemma FlatMapLayout()
    ensures forall i, j | 0 <= i < MapHeight && 0 <= j < MapWidth ::
      FlatGrid()[i][j] == (if 108 <= i && 51 <= j < 204 then 1 else 0)
  {
  }

  /** Tile offset (dx, dy) lies in the disk of the given tile radius; the
      bounds on dx and dy are the ranges the carving loops run over. */
  predicate InDisk(dx: int, dy: int, tileRadius: int) {
    -tileRadius <= dx <= tileRadius && -tileRadius <= dy <= tileRadius &&
    dx * dx + dy * dy <= tileRadius * tileRadius
  }

  /** Tile (row, col) belongs to the crater of an explosion at pixel (x, y)
      with pixel radius `radius`: centre and radius are converted to tiles
      by floor division. */
  predicate InCrater(x: int, y: int, radius: int, row: int, col: int) {
    InDisk(col - x / TileSize, row - y / TileSize, radius / TileSize)
  }

  /** `g` with every in-bounds crater tile cleared. */
  function Carve(g: Grid, x: int, y: int, radius: int): (r: Grid)
    requires WellFormed(g)
    ensures WellFormed(r)
  {
    seq(MapHeight, i requires 0 <= i < MapHeight =>
      seq(MapWidth, j requires 0 <= j < MapWidth => if InCrater(x, y, radius, i, j) then 0 else g[i][j]))
  }

  /** Positions of the non-empty tiles. */
  function Solids(g: Grid): set<(int, int)>
    requires WellFormed(g)
  {
    set i, j | 0 <= i < MapHeight && 0 <= j < MapWidth && g[i][j] != 0 :: (i, j)
  }

  /** Positions of the in-bounds tiles of a crater. */
  function Crater(x: int, y: int, radius: int): set<(int, int)> {
    set i, j | 0 <= i < MapHeight && 0 <= j < MapWidth && InCrater(x, y, radius, i, j) :: (i, j)
  }

  /** Carving removes exactly the solid tiles inside the crater and never
      makes a tile solid. */
  lemma CarveRemovesSolidsInCrater(g: Grid, x: int, y: int, radius: int)
    requires WellFormed(g)
    ensures Solids(Carve(g, x, y, radius)) == Solids(g) - Crater(x, y, radius)
  {
    var c := Carve(g, x, y, radius);
    forall p | p in Solids(g) - Crater(x, y, radius)
      ensures p in Solids(c)
    {
      assert c[p.0][p.1] == g[p.0][p.1];
    }
  }

  /** Carving the same crater twice is the same as carving it once. */
  lemma CarveIdempotent(g: Grid, x: int, y: int, radius: int)
    requires WellFormed(g)
    ensures Carve(Carve(g, x, y, radius), x, y, radius) == Carve(g, x, y, radius)
  {
    var once := Carve(g, x, y, radius);
    var twice := Carve(once, x, y, radius);
    forall i | 0 <= i < MapHeight
      ensures twice[i] == once[i]
    {
    }
  }

  /** Two craters can be carved in either order. */
  lemma CarveCommutes(g: Grid, x1: int, y1: int, r1: int, x2: int, y2: int, r2: int)
    requires WellFormed(g)
    ensures Carve(Carve(g, x1, y1, r1), x2, y2, r2) == Carve(Carve(g, x2, y2, r2), x1, y1, r1)
  {
    var a := Carve(Carve(g, x1, y1, r1), x2, y2, r2);
    var b := Carve(Carve(g, x2, y2, r2), x1, y1, r1);
    forall i | 0 <= i < MapHeight
      ensures a[i] == b[i]
    {
    }
  }

  class Terrain {
    /** tiles[row, col]; the array itself is never replaced, so the grid's
        dimensions are fixed for the terrain's lifetime. */
    const tiles: array2<int>

    ghost predicate Valid()
      reads this
    {
      tiles.Length0 == MapHeight && tiles.Length1 == MapWidth
    }

    /** The first n rows of `tiles`. */
    function Rows(n: nat): (g: Grid)
      reads this, tiles
      requires Valid() && n <= tiles.Length0
      ensures |g| == n
      ensures forall i | 0 <= i < n :: |g[i]| == MapWidth
      ensures forall i, j | 0 <= i < n && 0 <= j < MapWidth :: g[i][j] == tiles[i, j]
    {
      if n == 0 then []
      else Rows(n - 1) + [seq(MapWidth, j requires 0 <= j < MapWidth reads tiles => tiles[n - 1, j])]
    }

    /** The grid held in `tiles`. */
    function Cells(): (g: Grid)
      reads this, tiles
      requires Valid()
      ensures WellFormed(g)
      ensures forall i, j | 0 <= i < MapHeight && 0 <= j < MapWidth :: g[i][j] == tiles[i, j]
    {
      Rows(tiles.Length0)
    }

    /** A new terrain holds the flat map. */
    constructor ()
      ensures Valid() && fresh(tiles)
      ensures Cells() == FlatGrid()
    {
      tiles := new int[MapHeight, MapWidth]((i, j) => 0);
      new;
      assert Cells() == EmptyGrid() by {
        forall i | 0 <= i < MapHeight ensures Cells()[i] == EmptyGrid()[i] { }
      }
      CreateFlatMap();
    }

    /** Sets every plateau tile to earth, row by row. */
    method CreateFlatMap()
      requires Valid()
      modifies tiles
      ensures Cells() == Plateau(old(Cells()))
    {
      var mapLevel := MapHeight * 3 / 4;
      var y := mapLevel;
      while y < MapHeight
        invariant mapLevel <= y <= MapHeight
        invariant forall i, j | 0 <= i < MapHeight && 0 <= j < MapWidth ::
          tiles[i, j] == if InPlateau(i, j) && i < y then 1 else old(tiles[i, j])
      {
        var x := MapWidth / 5;
        while x < MapWidth * 4 / 5
          invariant MapWidth / 5 <= x <= MapWidth * 4 / 5
          invariant forall i, j | 0 <= i < MapHeight && 0 <= j < MapWidth ::
            tiles[i, j] == if InPlateau(i, j) && (i < y || (i == y && j < x)) then 1 else old(tiles[i, j])
        {
          tiles[y, x] := 1;
          x := x + 1;
        }
        y := y + 1;
      }
      ghost var before := old(Cells());
      forall i | 0 <= i < MapHeight
        ensures Cells()[i] == Plateau(before)[i]
      {
      }
    }

    /** Clears the crater of an explosion at pixel (x, y) with pixel radius
        `radius`, scanning the square of tile offsets around the centre tile. */
    method DestroyTerrain(x: int, y: int, radius: int)
      requires Valid()
      modifies tiles
      ensures Cells() == Carve(old(Cells()), x, y, radius)
    {
      var tileX, tileY := x / TileSize, y / TileSize;
      var tileRadius := radius / TileSize;
      var ry := -tileRadius;
      while ry < tileRadius + 1
        invariant -tileRadius <= ry
        invariant forall i, j | 0 <= i < MapHeight && 0 <= j < MapWidth ::
          tiles[i, j] == if InCrater(x, y, radius, i, j) && i - tileY < ry then 0 else old(tiles[i, j])
      {
        var rx := -tileRadius;
        while rx < tileRadius + 1
          invariant -tileRadius <= rx && ry <= tileRadius
          invariant forall i, j | 0 <= i < MapHeight && 0 <= j < MapWidth ::
            tiles[i, j] ==
              if InCrater(x, y, radius, i, j) && (i - tileY < ry || (i - tileY == ry && j - tileX < rx))
              then 0 else old(tiles[i, j])
        {
          if rx * rx + ry * ry <= tileRadius * tileRadius {
            var checkX, checkY := tileX + rx, tileY + ry;
            if 0 <= checkX < MapWidth && 0 <= checkY < MapHeight {
              tiles[checkY, checkX] := 0;
            }
          }
          rx := rx + 1;
        }
        ry := ry + 1;
      }
      ghost var before := old(Cells());
      forall i | 0 <= i < MapHeight
        ensures Cells()[i] == Carve(before, x, y, radius)[i]
      {
      }
    }
  }
}
