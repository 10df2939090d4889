/**
 * The game: a terrain, two players, the group of live projectiles and the
 * phase machine's state, advanced by the key events of a frame and then by
 * the frame's update. The methods are proved against the functions of
 * module Turns through the abstraction `Machine()`.
 */
module Games {
  import opened Screen
  import opened Terrains
  import opened Players
  import opened Projectiles
  import opened Trails
  import opened Turns

  /** Pixels a held direction key moves the current player per event. */
  const MoveStep: int := 5

  /** The events a frame's handler looks at. */
  datatype Event = Quit | KeyDown(key: Key) | OtherEvent

  /** Left edge and facing after one event in MOVE: the left key, if held,
      moves the box left, then the right key, if held, moves it right. */
  function HeldMove(x: int, facingRight: bool, controls: Controls, held: set<Key>): (int, bool) {
    var afterLeft := if controls.left in held then MoveTo(x, facingRight, -MoveStep) else (x, facingRight);
    if controls.right in held then MoveTo(afterLeft.0, afterLeft.1, MoveStep) else afterLeft
  }

  /** Left edge and facing after n events in MOVE with the same keys held. */
  function Walk(x: int, facingRight: bool, controls: Controls, held: set<Key>, n: nat): (int, bool) {
    if n == 0 then (x, facingRight)
    else
      var before := Walk(x, facingRight, controls, held, n - 1);
      HeldMove(before.0, before.1, controls, held)
  }

  /** Holding both direction keys with room on both sides leaves the box
      where it is, facing right. */
  lemma BothKeysCancel(x: int, facingRight: bool, controls: Controls, held: set<Key>)
    requires controls.left in held && controls.right in held
    requires MoveStep <= x && x + Size <= ScreenWidth
    ensures HeldMove(x, facingRight, controls, held) == (x, true)
  {
  }

  /** However many events arrive, walking keeps the box on screen. */
  lemma {:induction false} WalkStaysOnScreen(x: int, facingRight: bool, controls: Controls, held: set<Key>, n: nat)
    requires 0 <= x && x + Size <= ScreenWidth
    ensures var w := Walk(x, facingRight, controls, held, n); 0 <= w.0 && w.0 + Size <= ScreenWidth
  {
    if n > 0 {
      WalkStaysOnScreen(x, facingRight, controls, held, n - 1);
      var before := Walk(x, facingRight, controls, held, n - 1);
      MoveStaysOnScreen(before.0, before.1, -MoveStep);
      var afterLeft := if controls.left in held then MoveTo(before.0, before.1, -MoveStep) else before;
      MoveStaysOnScreen(afterLeft.0, afterLeft.1, MoveStep);
    }
  }

  /** The events the handler processes: those before the first Quit. */
  function BeforeQuit(events: seq<Event>): (r: seq<Event>)
    ensures Quit !in r
    ensures r <= events
    ensures |r| < |events| ==> events[|r|] == Quit
  {
    if events == [] || events[0] == Quit then [] else [events[0]] + BeforeQuit(events[1..])
  }

  /** The events up to the first Quit are the ones BeforeQuit keeps. */
  lemma {:induction false} BeforeQuitIsPrefix(events: seq<Event>, n: nat)
    requires n <= |events| && Quit !in events[..n]
    requires n < |events| ==> events[n] == Quit
    ensures BeforeQuit(events) == events[..n]
  {
    if n > 0 {
      assert events[0] == events[..n][0];
      assert events[1..][..n - 1] == events[..n][1..];
      BeforeQuitIsPrefix(events[1..], n - 1);
      assert events[..n] == [events[0]] + events[1..][..n - 1];
    }
  }

  /** The machine after the events, each key-down of `fireKey` being a fire
      press at time `now`. */
  function Presses(m: Machine, events: seq<Event>, fireKey: Key, now: int): (r: Machine)
    requires ValidTurn(m)
    ensures ValidTurn(r) && r.turn == m.turn
    decreases |events|
  {
    if events == [] then m
    else
      var before := Presses(m, events[..|events| - 1], fireKey, now);
      if events[|events| - 1] == KeyDown(fireKey) then PressFire(before, now) else before
  }

  /** The projectiles of `ps` whose state in `states` is still in the
      group, in order. */
  function Survivors(ps: seq<Projectile>, states: seq<Shot>): seq<Projectile>
    requires |states| <= |ps|
    decreases |states|
  {
    if states == [] then []
    else
      var n := |states| - 1;
      Survivors(ps, states[..n]) + (if states[n].alive then [ps[n]] else [])
  }

  /** Survivors come from the first |states| projectiles of `ps`; when
      those are distinct, one of them survives exactly when its state is
      alive, and the survivors are distinct. */
  lemma {:induction false} SurvivorsAlive(ps: seq<Projectile>, states: seq<Shot>)
    requires |states| <= |ps|
    ensures forall k :: 0 <= k < |Survivors(ps, states)| ==> Survivors(ps, states)[k] in ps[..|states|]
    ensures (forall a, b :: 0 <= a < b < |ps| ==> ps[a] != ps[b]) ==>
      (forall j :: 0 <= j < |states| ==> (ps[j] in Survivors(ps, states) <==> states[j].alive)) &&
      (forall a, b :: 0 <= a < b < |Survivors(ps, states)| ==> Survivors(ps, states)[a] != Survivors(ps, states)[b])
    decreases |states|
  {
    if states != [] {
      var n := |states| - 1;
      var initStates := states[..n];
      SurvivorsAlive(ps, initStates);
      var r, r0 := Survivors(ps, states), Survivors(ps, initStates);
      assert r == r0 + (if states[n].alive then [ps[n]] else []);
      forall k | 0 <= k < |r|
        ensures r[k] in ps[..|states|]
      {
        if k < |r0| {
          assert r0[k] in ps[..n];
        } else {
          assert ps[..|states|][n] == ps[n];
        }
      }
      if forall a, b :: 0 <= a < b < |ps| ==> ps[a] != ps[b] {
        assert ps[n] !in r0 by {
          forall k | 0 <= k < |r0|
            ensures r0[k] != ps[n]
          {
            assert r0[k] in ps[..n];
          }
        }
        forall j | 0 <= j < |states|
          ensures ps[j] in r <==> states[j].alive
        {
          if j < n {
            assert initStates[j] == states[j];
            assert ps[j] != ps[n];
          }
        }
      }
    }
  }

  /** The craters carved by the projectiles of `ps` whose state in `states`
      has hit, in order. */
  function Explosions(ps: seq<Projectile>, states: seq<Shot>): seq<Blast>
    requires |states| <= |ps|
    decreases |states|
  {
    if states == [] then []
    else
      var n := |states| - 1;
      var s := states[n];
      Explosions(ps, states[..n]) +
        (if s.hit then ExplosionBlasts(ps[n].charType, ps[n].bonusShot, s.centerX, s.centerY) else [])
  }

  /** One flight step took projectile p from state s0 to state s1. */
  predicate Flown(p: Projectile, s0: Shot, s1: Shot) {
    s1.velY == s0.velY + Gravity && s1.x == s0.x + p.velX && s1.y == s0.y + s1.velY &&
    s1.centerX == Round(s1.x) && s1.centerY == Round(s1.y) &&
    s1.particles == Trail(s0.particles, (s1.centerX, s1.centerY)) &&
    (s1.alive <==> !s1.hit && InFlightArea(s1.centerX, s1.centerY))
  }

  /** Each of the first |after| projectiles of `ps` took one flight step
      from its state in `before` to its state in `after`. */
  predicate Flights(ps: seq<Projectile>, before: seq<Shot>, after: seq<Shot>)
    requires |after| <= |ps| == |before|
    decreases |after|
  {
    var n := |after| - 1;
    after == [] || (Flights(ps, before, after[..n]) && Flown(ps[n], before[n], after[n]))
  }

  /** Each of the first |after| projectiles of `ps` hit exactly when its new
      centre is on earth in the terrain g as the projectiles before it left
      it: the hit test of a flight step, taken in group order. */
  predicate HitsInTurn(ps: seq<Projectile>, after: seq<Shot>, g: Grid)
    requires |after| <= |ps| && WellFormed(g)
    decreases |after|
  {
    var n := |after| - 1;
    after == [] ||
      (HitsInTurn(ps, after[..n], g) &&
       after[n].hit == Hits(ApplyBlasts(g, Explosions(ps, after[..n])), after[n].centerX, after[n].centerY))
  }

  /** Projectile k of the group hit exactly when its centre is on earth
      once the craters of projectiles 0..k-1 are carved into g. */
  predicate HitAsSeen(ps: seq<Projectile>, after: seq<Shot>, g: Grid, k: nat)
    requires k < |after| <= |ps| && WellFormed(g)
  {
    after[k].hit == Hits(ApplyBlasts(g, Explosions(ps, after[..k])), after[k].centerX, after[k].centerY)
  }

  /** HitsInTurn, projectile by projectile. */
  lemma {:induction false} HitsInTurnEach(ps: seq<Projectile>, after: seq<Shot>, g: Grid)
    requires |after| <= |ps| && WellFormed(g) && HitsInTurn(ps, after, g)
    ensures forall k :: 0 <= k < |after| ==> HitAsSeen(ps, after, g, k)
    decreases |after|
  {
    if after != [] {
      var n := |after| - 1;
      HitsInTurnEach(ps, after[..n], g);
      forall k | 0 <= k < n
        ensures HitAsSeen(ps, after, g, k)
      {
        assert HitAsSeen(ps, after[..n], g, k);
        assert after[..n][k] == after[k] && after[..n][..k] == after[..k];
      }
    }
  }

  /** When no projectile of the group hit, no crater is carved. */
  lemma {:induction false} NoHitNoCraters(ps: seq<Projectile>, after: seq<Shot>)
    requires |after| <= |ps|
    requires forall k :: 0 <= k < |after| ==> !after[k].hit
    ensures Explosions(ps, after) == []
    decreases |after|
  {
    if after != [] {
      var n := |after| - 1;
      NoHitNoCraters(ps, after[..n]);
    }
  }

  /** Flights, projectile by projectile; a flight step keeps the trail
      within its cap and ending at the centre. */
  lemma {:induction false} FlightsEach(ps: seq<Projectile>, before: seq<Shot>, after: seq<Shot>)
    requires |after| <= |ps| == |before| && Flights(ps, before, after)
    ensures forall k :: 0 <= k < |after| ==> Flown(ps[k], before[k], after[k])
    ensures forall k :: 0 <= k < |after| && Tracked(before[k]) ==> Tracked(after[k])
    decreases |after|
  {
    if after != [] {
      var n := |after| - 1;
      FlightsEach(ps, before, after[..n]);
      forall k | 0 <= k < n
        ensures Flown(ps[k], before[k], after[k])
      {
        assert after[..n][k] == after[k];
      }
    }
  }

  /** The survivors of a group of distinct projectiles that were in flight
      and have each taken a flight step are distinct, in flight and have not
      hit. */
  lemma SurvivorsInFlight(ps: seq<Projectile>, before: seq<Shot>, after: seq<Shot>)
    requires |after| == |ps| == |before| && Flights(ps, before, after)
    requires forall a, b :: 0 <= a < b < |ps| ==> ps[a] != ps[b]
    requires forall k :: 0 <= k < |ps| ==> ps[k].State() == after[k] && Tracked(before[k])
    ensures forall a, b :: 0 <= a < b < |Survivors(ps, after)| ==> Survivors(ps, after)[a] != Survivors(ps, after)[b]
    ensures forall p :: p in Survivors(ps, after) ==> p.Valid() && p.alive && !p.hit
  {
    FlightsEach(ps, before, after);
    SurvivorsAlive(ps, after);
    forall p | p in Survivors(ps, after)
      ensures p.Valid() && p.alive && !p.hit
    {
      var j :| 0 <= j < |Survivors(ps, after)| && Survivors(ps, after)[j] == p;
      var k :| 0 <= k < |ps| && ps[k] == p;
      assert after[k].alive;
    }
  }

  /** Flights extended by the next projectile's flight step. */
  lemma FlightsExtend(ps: seq<Projectile>, before: seq<Shot>, after: seq<Shot>, s: Shot)
    requires |after| < |ps| == |before|
    requires Flights(ps, before, after) && Flown(ps[|after|], before[|after|], s)
    ensures Flights(ps, before, after + [s])
  {
    assert (after + [s])[..|after|] == after;
  }

  /** The next projectile joins the survivors exactly when it is alive. */
  lemma SurvivorsExtend(ps: seq<Projectile>, after: seq<Shot>, s: Shot)
    requires |after| < |ps|
    ensures Survivors(ps, after + [s]) == Survivors(ps, after) + if s.alive then [ps[|after|]] else []
  {
    assert (after + [s])[..|after|] == after;
  }

  /** The next projectile adds its craters when it has hit. */
  lemma ExplosionsExtend(ps: seq<Projectile>, after: seq<Shot>, s: Shot)
    requires |after| < |ps|
    ensures Explosions(ps, after + [s]) == Explosions(ps, after) +
      if s.hit then ExplosionBlasts(ps[|after|].charType, ps[|after|].bonusShot, s.centerX, s.centerY) else []
  {
    assert (after + [s])[..|after|] == after;
  }

  /** The group's summaries extended by the next projectile's flight step. */
  lemma StepExtends(ps: seq<Projectile>, before: seq<Shot>, after: seq<Shot>, p: Projectile, s: Shot, g: Grid,
                    kept: seq<Projectile>, g1: Grid, carved: seq<Blast>, kept2: seq<Projectile>, g2: Grid)
    requires WellFormed(g) && |after| < |ps| && p == ps[|after|]
    requires FlownSoFar(ps, before, after, g, kept, g1) && Flown(p, before[|after|], s)
    requires s.hit == Hits(g1, s.centerX, s.centerY)
    requires carved == if s.hit then ExplosionBlasts(p.charType, p.bonusShot, s.centerX, s.centerY) else []
    requires kept2 == kept + (if s.alive then [p] else []) && g2 == ApplyBlasts(g1, carved)
    ensures FlownSoFar(ps, before, after + [s], g, kept2, g2)
  {
    assert (after + [s])[..|after|] == after;
    FlightsExtend(ps, before, after, s);
    SurvivorsExtend(ps, after, s);
    ExplosionsExtend(ps, after, s);
    ApplyBlastsAppend(g, Explosions(ps, after), carved);
  }

  /** The first |after| projectiles of the group `ps` went from the states
      `before` to the states `after`, each taking one motion step and hitting
      exactly when its centre is on earth in the terrain as the ones before it
      left it; `kept` is those of them still in the group and g2 is g with
      every hit's craters carved in order. */
  predicate FlownSoFar(ps: seq<Projectile>, before: seq<Shot>, after: seq<Shot>, g: Grid,
                       kept: seq<Projectile>, g2: Grid)
    requires WellFormed(g)
  {
    |after| <= |ps| == |before| && Flights(ps, before, after) && HitsInTurn(ps, after, g) &&
    kept == Survivors(ps, after) && g2 == ApplyBlasts(g, Explosions(ps, after))
  }

  /** The projectile group's update, summarised: FlownSoFar once every
      projectile of `ps` has taken its flight step (GroupFlownIsFlownSoFar).
      Written out in full rather than through FlownSoFar, so that the
      methods passing it on see one definition only. */
  predicate GroupFlown(ps: seq<Projectile>, before: seq<Shot>, after: seq<Shot>, g: Grid,
                       kept: seq<Projectile>, g2: Grid)
    requires WellFormed(g)
  {
    |before| == |after| == |ps| && Flights(ps, before, after) && HitsInTurn(ps, after, g) &&
    kept == Survivors(ps, after) && g2 == ApplyBlasts(g, Explosions(ps, after))
  }

  /** GroupFlown is FlownSoFar over the whole group. */
  lemma GroupFlownIsFlownSoFar(ps: seq<Projectile>, before: seq<Shot>, after: seq<Shot>, g: Grid,
                               kept: seq<Projectile>, g2: Grid)
    requires WellFormed(g)
    ensures GroupFlown(ps, before, after, g, kept, g2) <==>
      |after| == |ps| && FlownSoFar(ps, before, after, g, kept, g2)
  {
  }

  /** The flight step of projectile p, the next one of the group `ps`
      after those that have flown to the states `after` over the terrain g;
      s is its new state. */
  method FlyOne(p: Projectile, t: Terrain, ghost ps: seq<Projectile>, ghost before: seq<Shot>,
                ghost after: seq<Shot>, ghost g: Grid, ghost kept: seq<Projectile>)
    returns (ghost s: Shot)
    requires t.Valid() && p.Valid() && p.alive && !p.hit && WellFormed(g)
    requires FlownSoFar(ps, before, after, g, kept, t.Cells())
    requires |after| < |ps| && p == ps[|after|] && p.State() == before[|after|]
    modifies p, t.tiles
    ensures s == p.State() && Flown(p, old(p.State()), s)
    ensures s.hit == Hits(old(t.Cells()), s.centerX, s.centerY)
    ensures FlownSoFar(ps, before, after + [s], g, kept + if s.alive then [p] else [], t.Cells())
  {
    p.Update(t);
    s := p.State();
    StepExtends(ps, before, after, p, s, g, kept, old(t.Cells()),
                if s.hit then ExplosionBlasts(p.charType, p.bonusShot, s.centerX, s.centerY) else [],
                kept + if s.alive then [p] else [], t.Cells());
  }

  /** The flight step of projectile i of `ps`, the ones before it having
      flown to the states `after` over the terrain g: FlyOne on ps[i], with
      what it leaves unchanged in the rest of the group. The source has no
      such step; it is split out of FlyAll's loop only to keep each proof
      small. */
  method FlyNext(ps: seq<Projectile>, i: nat, t: Terrain, ghost before: seq<Shot>, ghost after: seq<Shot>,
                 ghost g: Grid, ghost kept: seq<Projectile>)
    returns (ghost s: Shot)
    requires t.Valid() && WellFormed(g) && i == |after| < |ps| == |before|
    requires forall k :: 0 <= k < i ==> ps[k].State() == after[k]
    requires forall k :: i <= k < |ps| ==> ps[k].State() == before[k]
    requires !before[i].hit && before[i].alive && Tracked(before[i])
    requires FlownSoFar(ps, before, after, g, kept, t.Cells())
    requires forall k :: 0 <= k < |ps| && k != i ==> ps[k] != ps[i]
    modifies ps[i], t.tiles
    ensures s.alive == ps[i].alive
    ensures forall k :: 0 <= k < i + 1 ==> ps[k].State() == (after + [s])[k]
    ensures forall k :: i + 1 <= k < |ps| ==> ps[k].State() == before[k]
    ensures FlownSoFar(ps, before, after + [s], g, kept + if s.alive then [ps[i]] else [], t.Cells())
  {
    s := FlyOne(ps[i], t, ps, before, after, g, kept);
  }

  /** Each projectile of `ps`, starting from the states `before`, in turn
      takes a flight step over terrain t; returns those still in the group
      and, as `after`, the new states. */
  method FlyAll(ps: seq<Projectile>, t: Terrain, ghost before: seq<Shot>)
    returns (kept: seq<Projectile>, ghost after: seq<Shot>)
    requires t.Valid() && |before| == |ps|
    requires forall a, b :: 0 <= a < b < |ps| ==> ps[a] != ps[b]
    requires forall k :: 0 <= k < |ps| ==> ps[k].State() == before[k]
    requires forall k :: 0 <= k < |ps| ==> !before[k].hit && before[k].alive && Tracked(before[k])
    modifies ps, t.tiles
    ensures GroupFlown(ps, before, after, old(t.Cells()), kept, t.Cells())
    ensures forall k :: 0 <= k < |ps| ==> ps[k].State() == after[k]
  {
    ghost var g := t.Cells();
    kept := [];
    after := [];
    var i := 0;
    while i < |ps|
      invariant 0 <= i <= |ps| && |after| == i
      invariant forall k :: 0 <= k < i ==> ps[k].State() == after[k]
      invariant forall k :: i <= k < |ps| ==> ps[k].State() == before[k]
      invariant FlownSoFar(ps, before, after, g, kept, t.Cells())
    {
      var p := ps[i];
      ghost var s := FlyNext(ps, i, t, before, after, g, kept);
      after := after + [s];
      if p.alive {
        kept := kept + [p];
      }
      i := i + 1;
    }
  }

  /** The current states of a group of projectiles in flight. */
  ghost method Snapshot(ps: seq<Projectile>) returns (states: seq<Shot>)
    requires forall p :: p in ps ==> p.Valid() && p.alive && !p.hit
    ensures |states| == |ps|
    ensures forall k :: 0 <= k < |ps| ==> ps[k].State() == states[k]
    ensures forall k :: 0 <= k < |ps| ==> !states[k].hit && states[k].alive && Tracked(states[k])
  {
    states := seq(|ps|, k requires 0 <= k < |ps| reads ps => ps[k].State());
    forall k | 0 <= k < |ps|
      ensures !states[k].hit && states[k].alive && Tracked(states[k])
    {
      assert ps[k] in ps;
    }
  }

  /** The flight step of a group of distinct projectiles in flight: their
      states before and after, and the survivors, which are again distinct
      and in flight. */
  method FlyGroup(ps: seq<Projectile>, t: Terrain) returns (kept: seq<Projectile>, ghost before: seq<Shot>, ghost after: seq<Shot>)
    requires t.Valid()
    requires forall a, b :: 0 <= a < b < |ps| ==> ps[a] != ps[b]
    requires forall p :: p in ps ==> p.Valid() && p.alive && !p.hit
    modifies ps, t.tiles
    ensures GroupFlown(ps, before, after, old(t.Cells()), kept, t.Cells())
    ensures forall k :: 0 <= k < |ps| ==> before[k] == old(ps[k].State()) && ps[k].State() == after[k]
    ensures forall a, b :: 0 <= a < b < |kept| ==> kept[a] != kept[b]
    ensures forall p :: p in kept ==> p.Valid() && p.alive && !p.hit
  {
    before := Snapshot(ps);
    kept, after := FlyAll(ps, t, before);
    SurvivorsInFlight(ps, before, after);
  }

  class Game {
    const terrain: Terrain
    /** player_list: player 0 and player 1. */
    const players: seq<Player>
    /** Launch velocity for an angle in degrees (8 pixels per frame along it). */
    const launch: real -> (real, real)
    /** The projectile group: the projectiles still in flight. */
    var projectiles: seq<Projectile>
    var phase: Phase
    var turn: int
    var timer: int
    var angleSpeed: real
    var gauge: real
    var gaugeDirection: int
    var targetY: real
    var bonusShot: bool
    var winner: Option<int>

    /** Two distinct players on screen, a current player, and a group of
        distinct projectiles in flight that have not hit. */
    ghost predicate Valid()
      reads this`turn, this`projectiles, terrain, players, projectiles
    {
      terrain.Valid() &&
      |players| == PlayerCount && players[0] != players[1] &&
      players[0].Valid() && players[1].Valid() &&
      0 <= turn < PlayerCount &&
      (forall i, j :: 0 <= i < j < |projectiles| ==> projectiles[i] != projectiles[j]) &&
      (forall p :: p in projectiles ==> p.Valid() && p.alive && !p.hit)
    }

    /** The phase machine's view of the game. */
    ghost function Machine(): (m: Machine)
      reads this, players
      requires |players| == PlayerCount && 0 <= turn < PlayerCount
      ensures ValidTurn(m)
    {
      Turns.Machine(phase, turn, timer, [players[0].angle, players[1].angle], angleSpeed,
        gauge, gaugeDirection, targetY, bonusShot, winner)
    }

    /** Projectile p was just fired by `shooter` with the given bonus flag. */
    ghost predicate Launched(p: Projectile, shooter: Player, bonus: bool)
      reads p, shooter
    {
      var angle := FireAngle(shooter.angle, shooter.facingRight);
      p.centerX == shooter.CenterX() && p.centerY == shooter.CenterY() && p.angle == angle &&
      (p.velX, p.velY) == launch(angle) && p.charType == shooter.charType && p.bonusShot == bonus &&
      p.Valid() && p.particles == [] && !p.hit && p.alive
    }

    /** A new game on the flat map: player 0 (character 1, keys A, D and
        Space) centred at (320, 360), player 1 (character 2, arrow keys and
        Return) at (960, 360); player 0 walks first. */
    constructor (launch: real -> (real, real))
      ensures Valid() && Consistent(Machine()) && Machine() == Initial()
      ensures fresh(terrain) && fresh(terrain.tiles) && terrain.Cells() == FlatGrid()
      ensures projectiles == [] && this.launch == launch
      ensures players[0].CenterX() == ScreenWidth / 4 && players[0].CenterY() == ScreenHeight / 2
      ensures players[1].CenterX() == ScreenWidth * 3 / 4 && players[1].CenterY() == ScreenHeight / 2
      ensures players[0].controls == Controls(KeyA, KeyD, Space) && players[0].charType == 1
      ensures players[1].controls == Controls(LeftArrow, RightArrow, Return) && players[1].charType == 2
      ensures players[0].facingRight && players[1].facingRight
      ensures fresh(players[0]) && fresh(players[1]) && players[0] != players[1]
    {
      terrain := new Terrain();
      var first := new Player(ScreenWidth / 4, ScreenHeight / 2, Controls(KeyA, KeyD, Space), 1);
      var second := new Player(ScreenWidth * 3 / 4, ScreenHeight / 2, Controls(LeftArrow, RightArrow, Return), 2);
      players := [first, second];
      this.launch := launch;
      projectiles := [];
      turn := 0;
      phase := Move;
      timer := 0;
      angleSpeed := AngleSpeed;
      gauge := 0.0;
      gaugeDirection := 1;
      targetY := 0.0;
      bonusShot := false;
      winner := None;
      new;
      InitialConsistent();
    }

    /** fire_projectile: the current player shoots along its (mirrored when
        facing left) aim angle and the game enters FIRE. */
    method FireProjectile()
      requires Valid()
      modifies this`phase, this`projectiles
      ensures Valid() && unchanged(players)
      ensures Machine() == Fired(old(Machine()))
      ensures |projectiles| == |old(projectiles)| + 1 && projectiles[..|old(projectiles)|] == old(projectiles)
      ensures fresh(projectiles[|projectiles| - 1])
      ensures Launched(projectiles[|projectiles| - 1], players[turn], bonusShot)
    {
      phase := Fire;
      var shooter := players[turn];
      var angle := shooter.angle;
      if !shooter.facingRight {
        angle := 180.0 - angle;
      }
      var proj := new Projectile(shooter.CenterX(), shooter.CenterY(), angle, launch(angle), shooter.charType, bonusShot);
      projectiles := projectiles + [proj];
    }

    /** next_turn. */
    method NextTurn(now: int)
      requires Valid()
      modifies this`turn, this`phase, this`timer
      ensures Valid()
      ensures Machine() == Turns.NextTurn(old(Machine()), now)
    {
      turn := (turn + 1) % |players|;
      phase := Move;
      timer := now;
    }

    /** The handler's work for one event other than Quit: in MOVE the
        current player walks by the held keys whatever the event, in AIM_1
        and AIM_2 a key-down of its fire key presses fire. */
    method HandleEvent(e: Event, held: set<Key>, now: int)
      requires Valid() && e != Quit
      modifies this, players[turn]
      ensures Valid() && turn == old(turn) && players[turn].y == old(players[turn].y)
      ensures Machine() ==
        if e == KeyDown(players[turn].controls.fire) then PressFire(old(Machine()), now) else old(Machine())
      ensures (players[turn].x, players[turn].facingRight) ==
        if old(phase) == Move then HeldMove(old(players[turn].x), old(players[turn].facingRight), players[turn].controls, held)
        else old((players[turn].x, players[turn].facingRight))
      ensures !(old(phase) == Aim2 && e == KeyDown(players[turn].controls.fire)) ==> projectiles == old(projectiles)
      ensures old(phase) == Aim2 && e == KeyDown(players[turn].controls.fire) ==>
        |projectiles| == |old(projectiles)| + 1 && projectiles[..|old(projectiles)|] == old(projectiles) &&
        fresh(projectiles[|projectiles| - 1]) &&
        Launched(projectiles[|projectiles| - 1], players[turn], BonusHit(old(gauge), old(targetY)))
      ensures old(phase) == Fire ==> unchanged(this, players[turn])
    {
      var current := players[turn];
      if phase == Move {
        WalkHeld(held);
      } else if phase == Aim1 {
        if e == KeyDown(current.controls.fire) {
          StartGauge(now);
        }
      } else if phase == Aim2 {
        if e == KeyDown(current.controls.fire) {
          bonusShot := BonusHit(gauge, targetY);
          FireProjectile();
        }
      }
    }

    /** MOVE in handle_events: the current player walks left if its left key
        is held, then right if its right key is held. */
    method WalkHeld(held: set<Key>)
      requires Valid() && phase == Move
      modifies players[turn]
      ensures Valid()
      ensures (players[turn].x, players[turn].facingRight) ==
        HeldMove(old(players[turn].x), old(players[turn].facingRight), players[turn].controls, held)
      ensures players[turn].y == old(players[turn].y) && players[turn].angle == old(players[turn].angle)
    {
      var current := players[turn];
      if current.controls.left in held {
        current.Move(-MoveStep, terrain);
      }
      if current.controls.right in held {
        current.Move(MoveStep, terrain);
      }
    }

    /** The fire key in AIM_1: the bonus gauge starts from 0, moving up, with
        a target drawn from the clock. */
    method StartGauge(now: int)
      requires Valid() && phase == Aim1
      modifies this`phase, this`timer, this`gauge, this`gaugeDirection, this`targetY
      ensures Valid() && Machine() == PressFire(old(Machine()), now)
    {
      phase := Aim2;
      timer := now;
      gauge := 0.0;
      gaugeDirection := 1;
      targetY := TargetY(now);
    }

    /** Event i of `events`, the ones before it having been handled from
        the machine m0 and, for the current player, the box edge x0 facing
        fr0, with the projectile group ps0: the body of HandleEvents' loop,
        split out only to keep each proof small. */
    method HandleNext(events: seq<Event>, i: nat, held: set<Key>, now: int, current: Player,
                      ghost m0: Machine, ghost x0: int, ghost fr0: bool, ghost ps0: seq<Projectile>)
      requires Valid() && Consistent(Machine()) && ValidTurn(m0) && current == players[turn]
      requires i < |events| && events[i] != Quit
      requires (phase == Move) == (m0.phase == Move) && (m0.phase == Fire ==> phase == Fire)
      requires Machine() == Presses(m0, events[..i], current.controls.fire, now)
      requires (current.x, current.facingRight) ==
        if m0.phase == Move then Walk(x0, fr0, current.controls, held, i) else (x0, fr0)
      requires m0.phase != Fire && phase == Fire ==>
        |projectiles| == |ps0| + 1 && projectiles[..|ps0|] == ps0 &&
        Launched(projectiles[|projectiles| - 1], current, bonusShot)
      requires !(m0.phase != Fire && phase == Fire) ==> projectiles == ps0
      modifies this, current
      ensures Valid() && Consistent(Machine()) && turn == old(turn) && current == players[turn] && current.y == old(current.y)
      ensures (phase == Move) == (m0.phase == Move) && (m0.phase == Fire ==> phase == Fire)
      ensures Machine() == Presses(m0, events[..i + 1], current.controls.fire, now)
      ensures (current.x, current.facingRight) ==
        if m0.phase == Move then Walk(x0, fr0, current.controls, held, i + 1) else (x0, fr0)
      ensures m0.phase != Fire && phase == Fire ==>
        |projectiles| == |ps0| + 1 && projectiles[..|ps0|] == ps0 &&
        Launched(projectiles[|projectiles| - 1], current, bonusShot)
      ensures !(m0.phase != Fire && phase == Fire) ==> projectiles == ps0
      ensures old(phase) == Fire ==> projectiles == old(projectiles)
      ensures old(phase) != Fire && phase == Fire ==>
        |projectiles| == |old(projectiles)| + 1 && fresh(projectiles[|projectiles| - 1])
    {
      ghost var m := Machine();
      HandleEvent(events[i], held, now);
      assert events[..i + 1][..i] == events[..i];
      if events[i] == KeyDown(current.controls.fire) {
        StepKeepsConsistent(m, FireKey(now));
      }
    }

    /** handle_events: the frame's events in order, until a Quit, with the
        keys held during the frame. Returns whether a Quit arrived. */
    method HandleEvents(events: seq<Event>, held: set<Key>, now: int) returns (quit: bool)
      requires Valid() && Consistent(Machine())
      modifies this, players[turn]
      ensures Valid() && Consistent(Machine())
      ensures turn == old(turn) && players[turn].y == old(players[turn].y)
      ensures quit <==> Quit in events
      ensures Machine() == Presses(old(Machine()), BeforeQuit(events), players[turn].controls.fire, now)
      ensures (players[turn].x, players[turn].facingRight) ==
        if old(phase) == Move
        then Walk(old(players[turn].x), old(players[turn].facingRight), players[turn].controls, held, |BeforeQuit(events)|)
        else old((players[turn].x, players[turn].facingRight))
      ensures old(phase) != Fire && phase == Fire ==>
        |projectiles| == |old(projectiles)| + 1 && projectiles[..|old(projectiles)|] == old(projectiles) &&
        fresh(projectiles[|projectiles| - 1]) && Launched(projectiles[|projectiles| - 1], players[turn], bonusShot)
      ensures !(old(phase) != Fire && phase == Fire) ==> projectiles == old(projectiles)
    {
      var current := players[turn];
      ghost var m0, x0, fr0, ps0 := Machine(), current.x, current.facingRight, projectiles;
      var i := 0;
      while i < |events| && events[i] != Quit
        invariant 0 <= i <= |events| && Quit !in events[..i]
        invariant Valid() && Consistent(Machine()) && turn == old(turn) && current.y == old(current.y)
        invariant (phase == Move) == (m0.phase == Move) && (m0.phase == Fire ==> phase == Fire)
        invariant Machine() == Presses(m0, events[..i], current.controls.fire, now)
        invariant (current.x, current.facingRight) ==
          if m0.phase == Move then Walk(x0, fr0, current.controls, held, i) else (x0, fr0)
        invariant m0.phase != Fire && phase == Fire ==>
          |projectiles| == |ps0| + 1 && projectiles[..|ps0|] == ps0 &&
          fresh(projectiles[|projectiles| - 1]) && Launched(projectiles[|projectiles| - 1], current, bonusShot)
        invariant !(m0.phase != Fire && phase == Fire) ==> projectiles == ps0
      {
        HandleNext(events, i, held, now, current, m0, x0, fr0, ps0);
        i := i + 1;
      }
      BeforeQuitIsPrefix(events, i);
      quit := i < |events|;
    }

    /** The per-phase part of update at time `now`. */
    method UpdatePhase(now: int)
      requires Valid()
      modifies this`phase, this`turn, this`timer, this`angleSpeed, this`gauge, this`gaugeDirection
      modifies this`bonusShot, this`projectiles, players[turn]
      ensures Valid()
      ensures Machine() == Tick(old(Machine()), now, old(projectiles) == [])
      ensures forall i :: 0 <= i < |players| ==>
        players[i].x == old(players[i].x) && players[i].y == old(players[i].y) &&
        players[i].facingRight == old(players[i].facingRight)
      ensures terrain.Cells() == old(terrain.Cells())
      ensures |old(projectiles)| <= |projectiles|
      ensures forall k :: 0 <= k < |old(projectiles)| ==> projectiles[k] == old(projectiles[k]) && projectiles[k].State() == old(projectiles[k].State())
      ensures !FiresOnTick(old(Machine()), now) ==> projectiles == old(projectiles)
      ensures FiresOnTick(old(Machine()), now) ==>
        |projectiles| == |old(projectiles)| + 1 && projectiles[..|old(projectiles)|] == old(projectiles) &&
        fresh(projectiles[|projectiles| - 1]) && Launched(projectiles[|projectiles| - 1], players[turn], false)
    {
      if phase == Move || phase == Aim1 {
        UpdateSetup(now);
      } else if phase == Aim2 {
        UpdateAim2(now);
      } else if phase == Fire {
        if |projectiles| == 0 {
          NextTurn(now);
        }
      }
    }

    /** MOVE and AIM1 in update: neither fires nor touches the projectiles.
        The source has no such step; it is split out of UpdatePhase only to
        keep each proof small. */
    method UpdateSetup(now: int)
      requires Valid() && (phase == Move || phase == Aim1)
      modifies this`phase, this`angleSpeed, players[turn]
      ensures Valid()
      ensures Machine() == Tick(old(Machine()), now, projectiles == [])
      ensures forall i :: 0 <= i < |players| ==>
        players[i].x == old(players[i].x) && players[i].y == old(players[i].y) &&
        players[i].facingRight == old(players[i].facingRight)
    {
      if phase == Move {
        EndMove(now);
      } else {
        SwingAngle();
      }
    }

    /** AIM2 in update: past the time limit the shot goes off without the
        bonus, otherwise the gauge swings. */
    method UpdateAim2(now: int)
      requires Valid() && phase == Aim2
      modifies this`phase, this`bonusShot, this`gauge, this`gaugeDirection, this`projectiles
      ensures Valid()
      ensures Machine() == Tick(old(Machine()), now, old(projectiles) == [])
      ensures !FiresOnTick(old(Machine()), now) ==> projectiles == old(projectiles)
      ensures FiresOnTick(old(Machine()), now) ==>
        |projectiles| == |old(projectiles)| + 1 && projectiles[..|old(projectiles)|] == old(projectiles) &&
        fresh(projectiles[|projectiles| - 1]) && Launched(projectiles[|projectiles| - 1], players[turn], false)
    {
      if now - timer > Aim2TimeLimit {
        bonusShot := false;
        FireProjectile();
      } else {
        SwingGauge();
      }
    }

    /** MOVE in update: once the move time is up, aiming starts from 45
        degrees. */
    method EndMove(now: int)
      requires Valid() && phase == Move
      modifies this`phase, players[turn]
      ensures Valid()
      ensures Machine() == Tick(old(Machine()), now, projectiles == [])
      ensures players[turn].x == old(players[turn].x) && players[turn].y == old(players[turn].y)
      ensures players[turn].facingRight == old(players[turn].facingRight)
    {
      ghost var m := Machine();
      if now - timer > MoveTimeLimit {
        phase := Aim1;
        players[turn].angle := InitialAngle;
        assert Machine().angles == m.angles[m.turn := InitialAngle];
      }
    }

    /** AIM_1 in update: the aim angle turns by the angle speed, which
        reverses once the angle is past either end of [0, 180]. */
    method SwingAngle()
      requires Valid() && phase == Aim1
      modifies this`angleSpeed, players[turn]
      ensures Valid()
      ensures forall now, b :: Machine() == Tick(old(Machine()), now, b)
      ensures players[turn].x == old(players[turn].x) && players[turn].y == old(players[turn].y)
      ensures players[turn].facingRight == old(players[turn].facingRight)
    {
      ghost var m := Machine();
      var current := players[turn];
      current.angle := current.angle + angleSpeed;
      if current.angle > 180.0 || current.angle < 0.0 {
        angleSpeed := -angleSpeed;
      }
      assert Machine().angles == m.angles[m.turn := current.angle];
    }

    /** AIM_2 in update before the time limit: the bonus gauge moves, and
        reverses once at or past either end. */
    method SwingGauge()
      requires Valid() && phase == Aim2
      modifies this`gauge, this`gaugeDirection
      ensures Valid()
      ensures forall now, b :: now - timer <= Aim2TimeLimit ==> Machine() == Tick(old(Machine()), now, b)
    {
      gauge := gauge + GaugeSpeed * gaugeDirection as real;
      if gauge <= 0.0 || gauge >= GaugeHeight as real {
        gaugeDirection := -gaugeDirection;
      }
    }

    /** The projectile group's update: every projectile in flight takes a
        step, in order, and those that hit or left the flight area leave the
        group. */
    method UpdateProjectiles() returns (ghost before: seq<Shot>, ghost after: seq<Shot>)
      requires Valid()
      modifies this`projectiles, projectiles, terrain.tiles
      ensures Valid() && Machine() == old(Machine())
      ensures GroupFlown(old(projectiles), before, after, old(terrain.Cells()), projectiles, terrain.Cells())
      ensures forall k :: 0 <= k < |before| ==> before[k] == old(projectiles[k].State())
      ensures forall k :: 0 <= k < |after| ==> old(projectiles)[k].State() == after[k]
    {
      var kept;
      kept, before, after := FlyGroup(projectiles, terrain);
      projectiles := kept;
    }

    /** The player group's update: each player's physics step. */
    method UpdatePlayers()
      requires Valid()
      modifies players[0], players[1]
      ensures Valid() && Machine() == old(Machine())
      ensures terrain.Cells() == old(terrain.Cells())
      ensures forall k :: 0 <= k < |projectiles| ==> projectiles[k].State() == old(projectiles[k].State())
      ensures forall i :: 0 <= i < |players| ==>
        players[i].x == old(players[i].x) && players[i].facingRight == old(players[i].facingRight) &&
        players[i].angle == old(players[i].angle) &&
        players[i].y == UpdateTop(terrain.Cells(), players[i].CenterX(), old(players[i].y))
    {
      players[0].Update(terrain);
      players[1].Update(terrain);
    }

    /** The projectile group's update followed by the fall check. The
        source has no such step; it is split out of Update only to keep each
        proof small. */
    method UpdateShots() returns (ghost before: seq<Shot>, ghost after: seq<Shot>)
      requires Valid()
      modifies this`projectiles, projectiles, terrain.tiles, this`phase, this`winner
      ensures Valid() && Machine() == CheckFalls(old(Machine()), players[0].y, players[1].y)
      ensures GroupFlown(old(projectiles), before, after, old(terrain.Cells()), projectiles, terrain.Cells())
      ensures forall k :: 0 <= k < |before| ==> before[k] == old(projectiles[k].State())
      ensures forall k :: 0 <= k < |after| ==> old(projectiles)[k].State() == after[k]
    {
      before, after := UpdateProjectiles();
      CheckPlayerFalls();
    }

    /** The part of update after the phase logic: each player's physics,
        the projectile group, then the fall check. The source has no such
        step; it is split out of Update only to keep each proof small. */
    method UpdateBodies() returns (ghost before: seq<Shot>, ghost after: seq<Shot>)
      requires Valid()
      modifies players[0], players[1], this`projectiles, projectiles, terrain.tiles, this`phase, this`winner
      ensures Valid() && Machine() == CheckFalls(old(Machine()), players[0].y, players[1].y)
      ensures forall i :: 0 <= i < |players| ==>
        players[i].x == old(players[i].x) && players[i].facingRight == old(players[i].facingRight) &&
        players[i].y == UpdateTop(old(terrain.Cells()), players[i].CenterX(), old(players[i].y))
      ensures GroupFlown(old(projectiles), before, after, old(terrain.Cells()), projectiles, terrain.Cells())
      ensures forall k :: 0 <= k < |before| ==> before[k] == old(projectiles[k].State())
      ensures forall k :: 0 <= k < |after| ==> old(projectiles)[k].State() == after[k]
    {
      UpdatePlayers();
      before, after := UpdateShots();
    }

    /** The fall check: a player whose top is below the screen ends the
        game, the other player winning; player 1 is checked last. */
    method CheckPlayerFalls()
      requires Valid()
      modifies this`phase, this`winner
      ensures Valid() && Machine() == CheckFalls(old(Machine()), players[0].y, players[1].y)
      ensures terrain.Cells() == old(terrain.Cells())
      ensures forall k :: 0 <= k < |projectiles| ==> projectiles[k].State() == old(projectiles[k].State())
    {
      var i := 0;
      while i < |players|
        invariant 0 <= i <= |players|
        invariant Machine() == CheckFalls(old(Machine()),
          if i > 0 then players[0].y else ScreenHeight, if i > 1 then players[1].y else ScreenHeight)
      {
        if players[i].y > ScreenHeight {
          phase := GameOver;
          winner := Some(1 - i);
        }
        i := i + 1;
      }
    }

    /** update at time `now`: the phase logic, then each player's physics,
        then the projectile group, then the fall check. `flown` is the group
        that took a flight step (the old group, plus the shot fired this
        frame when the bonus gauge timed out) and `after` their new states. */
    method Update(now: int) returns (ghost flown: seq<Projectile>, ghost before: seq<Shot>, ghost after: seq<Shot>)
      requires Valid()
      modifies this, players[0], players[1], projectiles, terrain.tiles
      ensures Valid()
      ensures Machine() == Step(old(Machine()), Frame(now, old(projectiles) == [], players[0].y, players[1].y))
      ensures forall i :: 0 <= i < |players| ==>
        players[i].x == old(players[i].x) && players[i].facingRight == old(players[i].facingRight) &&
        players[i].y == UpdateTop(old(terrain.Cells()), players[i].CenterX(), old(players[i].y))
      ensures !FiresOnTick(old(Machine()), now) ==> flown == old(projectiles)
      ensures FiresOnTick(old(Machine()), now) ==>
        |flown| == |old(projectiles)| + 1 && flown[..|old(projectiles)|] == old(projectiles) && fresh(flown[|flown| - 1])
      ensures GroupFlown(flown, before, after, old(terrain.Cells()), projectiles, terrain.Cells())
      ensures forall k :: 0 <= k < |old(projectiles)| ==> before[k] == old(projectiles[k].State())
      ensures forall k :: 0 <= k < |flown| ==> flown[k].State() == after[k]
    {
      UpdatePhase(now);
      flown := projectiles;
      before, after := UpdateBodies();
    }
  }
}
