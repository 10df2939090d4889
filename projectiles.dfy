/**
 * A projectile: a point mass under constant gravity whose rounded centre is
 * checked against the terrain every step. On its first contact with earth it
 * explodes, carving one or three craters chosen by the shooter's character
 * type and bonus flag, and becomes inert.
 *
 * Position and velocity are exact reals here; the launch velocity is an
 * input (it is computed with cosine and sine from the aim angle).
 */
module Projectiles {
  import opened Screen
  import opened Terrains
  import opened Trails

  /** Added to the vertical velocity every step (pixels per step squared). */
  const Gravity: real := 0.1
  /** Crater radius of an ordinary shot, in pixels. */
  const BaseRadius: int := 30
  /** Crater radius of character 2's bonus shot, in pixels. */
  const AreaRadius: int := 50
  /** Offset of character 1's two extra craters from the centre, in pixels. */
  const FocusOffset: int := 10
  /** Offset of character 3's two extra craters from the centre, in pixels. */
  const SpreadOffset: int := 40

  /** Nearest integer, ties to the even neighbour (Python's round). */
  function Round(r: real): (n: int)
    ensures -0.5 <= r - n as real <= 0.5
    ensures (r - n as real == 0.5 || r - n as real == -0.5) ==> n % 2 == 0
  {
    var f := r.Floor;
    var frac := r - f as real;
    if frac < 0.5 then f
    else if frac > 0.5 then f + 1
    else if f % 2 == 0 then f
    else f + 1
  }

  /** One terrain carve: a crater centred on pixel (x, y). */
  datatype Blast = Blast(x: int, y: int, radius: int)

  predicate InBlast(b: Blast, row: int, col: int) {
    InCrater(b.x, b.y, b.radius, row, col)
  }

  /** Some blast of the list covers tile (row, col). */
  predicate Covered(bs: seq<Blast>, row: int, col: int) {
    exists k :: 0 <= k < |bs| && InBlast(bs[k], row, col)
  }

  /** The grid after carving the blasts one after another. */
  function ApplyBlasts(g: Grid, bs: seq<Blast>): (r: Grid)
    requires WellFormed(g)
    ensures WellFormed(r)
    decreases |bs|
  {
    if bs == [] then g else ApplyBlasts(Carve(g, bs[0].x, bs[0].y, bs[0].radius), bs[1..])
  }

  /** Carving a single blast, spelled out. */
  lemma ApplyBlastsOne(g: Grid, bs: seq<Blast>)
    requires WellFormed(g) && |bs| == 1
    ensures ApplyBlasts(g, bs) == Carve(g, bs[0].x, bs[0].y, bs[0].radius)
  {
    assert bs[1..] == [];
  }

  /** Carving three blasts in a row, spelled out. */
  lemma ApplyBlastsThree(g: Grid, bs: seq<Blast>)
    requires WellFormed(g) && |bs| == 3
    ensures ApplyBlasts(g, bs)
         == Carve(Carve(Carve(g, bs[0].x, bs[0].y, bs[0].radius), bs[1].x, bs[1].y, bs[1].radius), bs[2].x, bs[2].y, bs[2].radius)
  {
    var g1 := Carve(g, bs[0].x, bs[0].y, bs[0].radius);
    var g2 := Carve(g1, bs[1].x, bs[1].y, bs[1].radius);
    assert bs[1..][1..] == [bs[2]];
    assert [bs[2]][1..] == [];
    assert ApplyBlasts(g2, [bs[2]]) == Carve(g2, bs[2].x, bs[2].y, bs[2].radius);
  }

  /** Carving two lists of blasts one after the other is carving their
      concatenation. */
  lemma {:induction false} ApplyBlastsAppend(g: Grid, a: seq<Blast>, b: seq<Blast>)
    requires WellFormed(g)
    ensures ApplyBlasts(g, a + b) == ApplyBlasts(ApplyBlasts(g, a), b)
    decreases |a|
  {
    if a == [] {
      assert a + b == b;
    } else {
      assert (a + b)[1..] == a[1..] + b;
      ApplyBlastsAppend(Carve(g, a[0].x, a[0].y, a[0].radius), a[1..], b);
    }
  }

  /** A sequence of blasts clears exactly the tiles some blast covers. */
  lemma {:induction false} ApplyBlastsClearsUnion(g: Grid, bs: seq<Blast>)
    requires WellFormed(g)
    decreases |bs|
    ensures forall i, j | 0 <= i < MapHeight && 0 <= j < MapWidth ::
      ApplyBlasts(g, bs)[i][j] == if Covered(bs, i, j) then 0 else g[i][j]
  {
    if bs != [] {
      var c := Carve(g, bs[0].x, bs[0].y, bs[0].radius);
      ApplyBlastsClearsUnion(c, bs[1..]);
      forall i, j | 0 <= i < MapHeight && 0 <= j < MapWidth
        ensures ApplyBlasts(g, bs)[i][j] == if Covered(bs, i, j) then 0 else g[i][j]
      {
        if Covered(bs[1..], i, j) {
          var k :| 0 <= k < |bs[1..]| && InBlast(bs[1..][k], i, j);
          assert InBlast(bs[k + 1], i, j);
        }
        if Covered(bs, i, j) && !InBlast(bs[0], i, j) {
          var k :| 0 <= k < |bs| && InBlast(bs[k], i, j);
          assert InBlast(bs[1..][k - 1], i, j);
        }
      }
    }
  }

  /** The craters an explosion at (cx, cy) carves: one crater of radius 30,
      or 50 for character 2's bonus shot; character 1's bonus shot adds two
      full-size craters 10 pixels to either side, character 3's bonus shot
      two half-size craters 40 pixels to either side. */
  function ExplosionBlasts(charType: int, bonusShot: bool, cx: int, cy: int): (bs: seq<Blast>)
    ensures |bs| == if bonusShot && (charType == 1 || charType == 3) then 3 else 1
    ensures bs[0] == Blast(cx, cy, if charType == 2 && bonusShot then AreaRadius else BaseRadius)
    ensures forall k :: 0 <= k < |bs| ==> bs[k].y == cy && 0 < bs[k].radius <= bs[0].radius
    ensures |bs| == 3 ==> bs[1].radius == bs[2].radius && bs[1].x - cx == cx - bs[2].x > 0
    ensures bonusShot && charType == 1 ==>
      bs[1] == Blast(cx + FocusOffset, cy, BaseRadius) && bs[2] == Blast(cx - FocusOffset, cy, BaseRadius)
    ensures bonusShot && charType == 3 ==>
      bs[1] == Blast(cx + SpreadOffset, cy, BaseRadius / 2) && bs[2] == Blast(cx - SpreadOffset, cy, BaseRadius / 2)
  {
    var radius := if charType == 2 && bonusShot then AreaRadius else BaseRadius;
    if charType == 1 && bonusShot then
      [Blast(cx, cy, radius), Blast(cx + FocusOffset, cy, radius), Blast(cx - FocusOffset, cy, radius)]
    else if charType == 3 && bonusShot then
      [Blast(cx, cy, radius), Blast(cx + SpreadOffset, cy, radius / 2), Blast(cx - SpreadOffset, cy, radius / 2)]
    else
      [Blast(cx, cy, radius)]
  }

  /** Squaring is monotone on the naturals. */
  lemma SquareMonotone(a: int, b: int)
    requires 0 <= a <= b
    ensures a * a <= b * b
  {
    assert a * a <= a * b;
    assert a * b <= b * b;
  }

  /** A crater of a smaller radius lies inside the crater of a larger radius
      at the same centre. */
  lemma CraterGrows(x: int, y: int, r1: int, r2: int, row: int, col: int)
    requires 0 <= r1 <= r2
    requires InCrater(x, y, r1, row, col)
    ensures InCrater(x, y, r2, row, col)
  {
    var t1, t2 := r1 / TileSize, r2 / TileSize;
    assert 0 <= t1 <= t2;
    SquareMonotone(t1, t2);
  }

  /** A bonus shot never leaves standing a tile that the same character's
      ordinary shot at the same spot would have cleared. */
  lemma BonusCarvesAtLeastNormal(g: Grid, charType: int, cx: int, cy: int)
    requires WellFormed(g)
    ensures Solids(ApplyBlasts(g, ExplosionBlasts(charType, true, cx, cy)))
         <= Solids(ApplyBlasts(g, ExplosionBlasts(charType, false, cx, cy)))
  {
    var bonus := ExplosionBlasts(charType, true, cx, cy);
    var normal := ExplosionBlasts(charType, false, cx, cy);
    ApplyBlastsClearsUnion(g, bonus);
    ApplyBlastsClearsUnion(g, normal);
    forall i, j | 0 <= i < MapHeight && 0 <= j < MapWidth && Covered(normal, i, j)
      ensures Covered(bonus, i, j)
    {
      assert InBlast(normal[0], i, j);
      CraterGrows(cx, cy, normal[0].radius, bonus[0].radius, i, j);
      assert InBlast(bonus[0], i, j);
    }
  }

  /** After an explosion no earth is left inside its central crater. */
  lemma ExplosionClearsCentre(g: Grid, charType: int, bonusShot: bool, cx: int, cy: int)
    requires WellFormed(g)
    ensures var bs := ExplosionBlasts(charType, bonusShot, cx, cy);
      Solids(ApplyBlasts(g, bs)) !! Crater(cx, cy, bs[0].radius)
  {
    var bs := ExplosionBlasts(charType, bonusShot, cx, cy);
    ApplyBlastsClearsUnion(g, bs);
    forall p | p in Crater(cx, cy, bs[0].radius)
      ensures p !in Solids(ApplyBlasts(g, bs))
    {
      assert InBlast(bs[0], p.0, p.1);
    }
  }

  /** The centre (cx, cy) lies in an earth tile. */
  predicate Hits(g: Grid, cx: int, cy: int)
    requires WellFormed(g)
    ensures Hits(g, cx, cy) ==> 0 <= cx < MapWidth * TileSize && 0 <= cy < MapHeight * TileSize
  {
    var col, row := cx / TileSize, cy / TileSize;
    0 <= col < MapWidth && 0 <= row < MapHeight && g[row][col] == 1
  }

  /** The region outside which a projectile is discarded: the screen's width
      and twice its height. */
  predicate InFlightArea(cx: int, cy: int) {
    0 <= cx <= ScreenWidth && 0 <= cy <= ScreenHeight * 2
  }

  /** The part of a projectile's state that a flight step changes. */
  datatype Shot = Shot(
    x: real, y: real, velY: real, centerX: int, centerY: int,
    particles: seq<Point>, hit: bool, alive: bool)

  /** The trail is within its cap and ends at the current centre. */
  predicate Tracked(s: Shot) {
    |s.particles| <= TrailCap &&
    (s.particles != [] ==> s.particles[|s.particles| - 1] == (s.centerX, s.centerY))
  }

  class Projectile {
    var x: real
    var y: real
    const velX: real
    var velY: real
    /** The rounded centre (rect.center). */
    var centerX: int
    var centerY: int
    /** Launch angle in degrees. */
    const angle: real
    const charType: int
    const bonusShot: bool
    /** Past centres, oldest first. */
    var particles: seq<Point>
    var hit: bool
    /** Still a member of the game's projectile group. */
    var alive: bool

    ghost function State(): Shot
      reads this
    {
      Shot(x, y, velY, centerX, centerY, particles, hit, alive)
    }

    /** Tracked, read off the fields: written out here rather than as
        `Tracked(State())` so that a method that changes some fields is
        framed on those fields alone; the ensures ties the two together. */
    ghost predicate Valid()
      reads this
      ensures Valid() <==> Tracked(State())
    {
      |particles| <= TrailCap && (particles != [] ==> particles[|particles| - 1] == (centerX, centerY))
    }

    /** A projectile launched from (cx, cy) at `angle` degrees with the given
        launch velocity. */
    constructor (cx: int, cy: int, angle: real, velocity: (real, real), charType: int, bonusShot: bool)
      ensures Valid()
      ensures centerX == cx && centerY == cy && x == cx as real && y == cy as real
      ensures velX == velocity.0 && velY == velocity.1 && this.angle == angle
      ensures this.charType == charType && this.bonusShot == bonusShot
      ensures particles == [] && !hit && alive
    {
      centerX, centerY := cx, cy;
      x, y := cx as real, cy as real;
      this.angle := angle;
      velX, velY := velocity.0, velocity.1;
      this.charType := charType;
      this.bonusShot := bonusShot;
      particles := [];
      hit := false;
      alive := true;
    }

    /** One flight step. A projectile that has hit changes nothing; otherwise
        it moves, records its new centre, explodes if that centre is in earth,
        and leaves the group when it hits or flies out of the flight area. */
    method Update(t: Terrain)
      requires t.Valid() && Valid()
      modifies this, t.tiles
      ensures Valid()
      ensures old(hit) ==> unchanged(this) && t.Cells() == old(t.Cells())
      ensures !old(hit) ==> velY == old(velY) + Gravity && x == old(x) + velX && y == old(y) + velY
      ensures !old(hit) ==> centerX == Round(x) && centerY == Round(y)
      ensures !old(hit) ==> particles == Trail(old(particles), (centerX, centerY))
      ensures !old(hit) ==> hit == Hits(old(t.Cells()), centerX, centerY)
      ensures !old(hit) && hit ==>
        t.Cells() == ApplyBlasts(old(t.Cells()), ExplosionBlasts(charType, bonusShot, centerX, centerY))
      ensures !hit ==> t.Cells() == old(t.Cells())
      ensures !old(hit) ==> alive == (old(alive) && !hit && InFlightArea(centerX, centerY))
    {
      if !hit {
        Fly(t);
      }
    }

    /** A flight step of a projectile that has not hit yet: the motion step,
        then the hit test against the terrain and the flight area. */
    method Fly(t: Terrain)
      requires t.Valid() && Valid() && !hit
      modifies this, t.tiles
      ensures Valid()
      ensures velY == old(velY) + Gravity && x == old(x) + velX && y == old(y) + velY
      ensures centerX == Round(x) && centerY == Round(y)
      ensures particles == Trail(old(particles), (centerX, centerY))
      ensures hit == Hits(old(t.Cells()), centerX, centerY)
      ensures hit ==> t.Cells() == ApplyBlasts(old(t.Cells()), ExplosionBlasts(charType, bonusShot, centerX, centerY))
      ensures !hit ==> t.Cells() == old(t.Cells())
      ensures alive == (old(alive) && !hit && InFlightArea(centerX, centerY))
    {
      Advance();
      Land(t);
    }

    /** The motion half of a flight step: gravity, position, the rounded
        centre and the trail, which drops its oldest point past the cap. */
    method Advance()
      requires Valid()
      modifies this`velY, this`x, this`y, this`centerX, this`centerY, this`particles
      ensures Valid()
      ensures velY == old(velY) + Gravity && x == old(x) + velX && y == old(y) + velY
      ensures centerX == Round(x) && centerY == Round(y)
      ensures particles == Trail(old(particles), (centerX, centerY))
    {
      velY := velY + Gravity;
      x := x + velX;
      y := y + velY;
      centerX, centerY := Round(x), Round(y);
      ghost var trail := Trail(particles, (centerX, centerY));
      particles := particles + [(centerX, centerY)];
      if |particles| > TrailCap {
        particles := particles[1..];
      }
      assert particles == trail;
      assert particles[|particles| - 1] == (centerX, centerY);
    }

    /** The collision half of a flight step: a centre on an earth tile is a
        hit and the projectile explodes; one that hit or is outside the
        flight area leaves the group. */
    method Land(t: Terrain)
      requires t.Valid() && !hit
      modifies this`hit, this`alive, t.tiles
      ensures hit == Hits(old(t.Cells()), centerX, centerY)
      ensures hit ==> t.Cells() == ApplyBlasts(old(t.Cells()), ExplosionBlasts(charType, bonusShot, centerX, centerY))
      ensures !hit ==> t.Cells() == old(t.Cells())
      ensures alive == (old(alive) && !hit && InFlightArea(centerX, centerY))
    {
      var tileX, tileY := centerX / TileSize, centerY / TileSize;
      if 0 <= tileX < MapWidth && 0 <= tileY < MapHeight {
        if t.tiles[tileY, tileX] == 1 {
          hit := true;
          Explode(t);
        }
      }
      if !(0 <= centerX <= ScreenWidth && 0 <= centerY <= ScreenHeight * 2) {
        alive := false;
      }
    }

    /** Carves the explosion's craters and leaves the group. */
    method Explode(t: Terrain)
      requires t.Valid()
      modifies this`alive, t.tiles
      ensures !alive
      ensures t.Cells() == ApplyBlasts(old(t.Cells()), ExplosionBlasts(charType, bonusShot, centerX, centerY))
    {
      ghost var g := t.Cells();
      ghost var bs := ExplosionBlasts(charType, bonusShot, centerX, centerY);
      var radius := BaseRadius;
      if charType == 2 && bonusShot {
        radius := AreaRadius;
      }
      if charType == 1 && bonusShot {
        t.DestroyTerrain(centerX, centerY, radius);
        t.DestroyTerrain(centerX + FocusOffset, centerY, radius);
        t.DestroyTerrain(centerX - FocusOffset, centerY, radius);
        ApplyBlastsThree(g, bs);
      } else if charType == 3 && bonusShot {
        t.DestroyTerrain(centerX, centerY, radius);
        t.DestroyTerrain(centerX + SpreadOffset, centerY, radius / 2);
        t.DestroyTerrain(centerX - SpreadOffset, centerY, radius / 2);
        ApplyBlastsThree(g, bs);
      } else {
        t.DestroyTerrain(centerX, centerY, radius);
        ApplyBlastsOne(g, bs);
      }
      alive := false;
    }
  }
}
