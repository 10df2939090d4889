/**
 * A player: a 20 x 20 pixel box that falls under integer gravity, rests on
 * the terrain by probing the tile just below its feet, and walks sideways
 * within the screen.
 */
module Players {
  import opened Screen
  import opened Terrains

  /** Side of the player's bounding box (four tiles). */
  const Size: int := TileSize * 4
  /** Pixels fallen per step while not on ground. */
  const FallStep: int := TileSize / 2
  /** Aim angle, in degrees, of a new player and at the start of each aim. */
  const InitialAngle: real := 45.0

  /** Keyboard keys the game binds. */
  datatype Key = KeyA | KeyD | Space | LeftArrow | RightArrow | Return | OtherKey(code: int)

  /** Which keys move the player left and right and which one fires. */
  datatype Controls = Controls(left: Key, right: Key, fire: Key)

  /** The foot probe of a box whose centre column is `centerX` and whose top
      row is `top`: the tile containing the pixel one below the box's bottom
      edge. Off the map there is no ground. */
  predicate Standing(g: Grid, centerX: int, top: int)
    requires WellFormed(g)
    ensures Standing(g, centerX, top) ==>
      0 <= centerX < MapWidth * TileSize && 0 <= top + Size + 1 < MapHeight * TileSize
  {
    var col := centerX / TileSize;
    var row := (top + Size + 1) / TileSize;
    0 <= col < MapWidth && 0 <= row < MapHeight && g[row][col] == 1
  }

  /** A top position at or above `top` from which the foot probe finds no
      ground: the box is nudged up one pixel at a time. */
  function RiseClear(g: Grid, centerX: int, top: int): (r: int)
    requires WellFormed(g)
    ensures r <= top && !Standing(g, centerX, r)
    decreases top + Size + 1
  {
    if Standing(g, centerX, top) then RiseClear(g, centerX, top - 1) else top
  }

  /** RiseClear stops at the first clear position: the probe finds ground
      at every position it passes on the way up. */
  lemma {:induction false} RiseClearIsFirst(g: Grid, centerX: int, top: int)
    requires WellFormed(g)
    ensures forall k :: RiseClear(g, centerX, top) < k <= top ==> Standing(g, centerX, k)
    decreases top + Size + 1
  {
    if Standing(g, centerX, top) {
      RiseClearIsFirst(g, centerX, top - 1);
    }
  }

  /** The top row after one physics step: fall FallStep pixels unless on
      ground, rise until clear of the ground, then step back down one pixel. */
  function UpdateTop(g: Grid, centerX: int, top: int): (r: int)
    requires WellFormed(g)
    ensures !Standing(g, centerX, r - 1)
    ensures r <= top + FallStep + 1
    ensures Standing(g, centerX, top) ==> r <= top + 1
  {
    var fallen := if Standing(g, centerX, top) then top else top + FallStep;
    RiseClear(g, centerX, fallen) + 1
  }

  /** A box whose foot probe finds ground but would not one pixel higher is
      at rest: its probe sits on the first pixel row of a tile. */
  lemma RestingAligned(g: Grid, centerX: int, top: int)
    requires WellFormed(g)
    requires Standing(g, centerX, top) && !Standing(g, centerX, top - 1)
    ensures (top + Size + 1) % TileSize == 0
  {
  }

  /** Resting is a fixed point: once an update leaves the player on ground,
      a second update with the same terrain leaves it where it is. */
  lemma RestingIsFixedPoint(g: Grid, centerX: int, top: int)
    requires WellFormed(g)
    requires Standing(g, centerX, UpdateTop(g, centerX, top))
    ensures UpdateTop(g, centerX, UpdateTop(g, centerX, top)) == UpdateTop(g, centerX, top)
  {
    var y := UpdateTop(g, centerX, top);
    assert RiseClear(g, centerX, y) == RiseClear(g, centerX, y - 1);
  }

  /** In free fall (no ground at the current position nor two pixels lower)
      the player drops three pixels per update. */
  lemma FreeFall(g: Grid, centerX: int, top: int)
    requires WellFormed(g)
    requires !Standing(g, centerX, top) && !Standing(g, centerX, top + FallStep)
    ensures UpdateTop(g, centerX, top) == top + 3
  {
  }

  /** On the flat map, above the plateau, the player falls three pixels per
      update until its top reaches row 519, where it rests for good. */
  lemma FlatMapLanding(centerX: int, top: int)
    requires 255 <= centerX < 1020 && top <= 519
    ensures UpdateTop(FlatGrid(), centerX, top) == if top + 3 <= 519 then top + 3 else 519
  {
    var g := FlatGrid();
    FlatMapLayout();
    var col := centerX / TileSize;
    assert 51 <= col < 204;
    assert forall k :: Standing(g, centerX, k) <==> 519 <= k <= 698;
    if top + FallStep < 519 {
      assert !Standing(g, centerX, top + FallStep);
    } else {
      assert RiseClear(g, centerX, 518) == 518;
      assert RiseClear(g, centerX, 519) == 518;
      assert RiseClear(g, centerX, 520) == 518;
    }
  }

  /** Whether a horizontal move by dx keeps the whole box on screen. */
  predicate MoveAccepted(x: int, dx: int) {
    0 <= x + dx && x + dx + Size <= ScreenWidth
  }

  /** Left edge and facing after Player.move: an accepted move shifts the box
      and faces the direction of dx (unchanged for dx = 0); a rejected move
      changes nothing. */
  function MoveTo(x: int, facingRight: bool, dx: int): (r: (int, bool))
    ensures MoveAccepted(x, dx) ==> r.0 == x + dx
    ensures MoveAccepted(x, dx) && dx > 0 ==> r.1
    ensures MoveAccepted(x, dx) && dx < 0 ==> !r.1
    ensures MoveAccepted(x, dx) && dx == 0 ==> r.1 == facingRight
    ensures !MoveAccepted(x, dx) ==> r == (x, facingRight)
  {
    if MoveAccepted(x, dx) then (x + dx, if dx > 0 then true else if dx < 0 then false else facingRight)
    else (x, facingRight)
  }

  /** A move never takes a box that is on screen off it. */
  lemma MoveStaysOnScreen(x: int, facingRight: bool, dx: int)
    requires 0 <= x && x + Size <= ScreenWidth
    ensures 0 <= MoveTo(x, facingRight, dx).0 && MoveTo(x, facingRight, dx).0 + Size <= ScreenWidth
  {
  }

  class Player {
    /** Left edge and top edge of the bounding box (rect.x, rect.y). */
    var x: int
    var y: int
    var angle: real
    var facingRight: bool
    const controls: Controls
    const charType: int

    /** The box is horizontally on screen. */
    ghost predicate Valid()
      reads this
    {
      0 <= x && x + Size <= ScreenWidth
    }

    function CenterX(): int
      reads this
    {
      x + Size / 2
    }

    function CenterY(): int
      reads this
    {
      y + Size / 2
    }

    /** A player whose box is centred on (cx, cy). */
    constructor (cx: int, cy: int, controls: Controls, charType: int)
      ensures Size / 2 <= cx <= ScreenWidth - Size / 2 ==> Valid()
      ensures CenterX() == cx && CenterY() == cy
      ensures this.controls == controls && this.charType == charType
      ensures angle == InitialAngle && facingRight
    {
      x := cx - Size / 2;
      y := cy - Size / 2;
      this.controls := controls;
      this.charType := charType;
      angle := InitialAngle;
      facingRight := true;
    }

    /** Whether the tile under the player's feet is earth. */
    function IsOnGround(t: Terrain): (b: bool)
      reads this, t, t.tiles
      requires t.Valid()
      ensures b == Standing(t.Cells(), CenterX(), y)
    {
      var col := CenterX() / TileSize;
      var row := (y + Size + 1) / TileSize;
      if 0 <= col < MapWidth && 0 <= row < MapHeight then t.tiles[row, col] == 1 else false
    }

    /** One physics step: gravity, then the ground-contact loop. */
    method Update(t: Terrain)
      requires t.Valid()
      modifies this`y
      ensures y == UpdateTop(t.Cells(), CenterX(), old(y))
    {
      ghost var g := t.Cells();
      ghost var cx := CenterX();
      if !IsOnGround(t) {
        y := y + FallStep;
      }
      ghost var fallen := y;
      while IsOnGround(t)
        invariant CenterX() == cx
        invariant RiseClear(g, cx, y) == RiseClear(g, cx, fallen)
        decreases y + Size + 1
      {
        y := y - 1;
      }
      assert RiseClear(g, cx, y) == y;
      y := y + 1;
    }

    /** Horizontal move by dx, refused when it would leave the screen. The
        terrain is not consulted. */
    method Move(dx: int, t: Terrain)
      modifies this`x, this`facingRight
      ensures (x, facingRight) == MoveTo(old(x), old(facingRight), dx)
      ensures old(Valid()) ==> Valid()
    {
      var newX := x + dx;
      if 0 <= newX && newX + Size <= ScreenWidth {
        x := newX;
        if dx > 0 {
          facingRight := true;
        } else if dx < 0 {
          facingRight := false;
        }
      }
    }
  }
}
