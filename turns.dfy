/**
 * The turn and aim phase machine of a game, as a value. A turn runs
 * MOVE (5 seconds of walking), AIM_1 (an angle gauge swinging between 0 and
 * 180 degrees until the fire key), AIM_2 (a bar gauge sweeping 200 pixels for
 * at most 3 seconds; the fire key inside the target earns a bonus shot) and
 * FIRE (until no projectile is left), and then passes to the other player.
 * A player whose box drops below the screen loses and the game is over.
 *
 * The clock, the fire key and the emptiness of the projectile group are
 * inputs; the class `Game` runs the same transitions on its fields.
 */
module Turns {
  import opened Screen
  import opened Players

  datatype Option<T> = None | Some(value: T)

  datatype Phase = Move | Aim1 | Aim2 | Fire | GameOver

  const PlayerCount: int := 2
  /** Milliseconds a player may walk before aiming starts. */
  const MoveTimeLimit: int := 5000
  /** Milliseconds the bonus gauge runs before the shot goes off anyway. */
  const Aim2TimeLimit: int := 3000
  /** Degrees the angle gauge turns per frame. */
  const AngleSpeed: real := 2.2
  /** Pixels the bonus gauge's indicator moves per frame: (720 // 100) * 1.15. */
  const GaugeSpeed: real := (ScreenHeight / 100) as real * 1.15
  /** The bonus gauge bar: 20 x 200 pixels at (1230, 260). */
  const GaugeX: int := ScreenWidth - 50
  const GaugeY: int := ScreenHeight / 2 - 100
  const GaugeWidth: int := 20
  const GaugeHeight: int := 200
  const IndicatorHeight: int := 5
  const TargetHeight: int := 20

  /** Everything the phase logic reads and writes. `angles[i]` is player i's
      aim angle; `gauge` and `gaugeDirection` are the bonus gauge's value and
      sense; `targetY` is the top of the bonus target. */
  datatype Machine = Machine(
    phase: Phase,
    turn: int,
    timer: int,
    angles: seq<real>,
    angleSpeed: real,
    gauge: real,
    gaugeDirection: int,
    targetY: real,
    bonusShot: bool,
    winner: Option<int>)

  /** The current player exists. */
  predicate ValidTurn(m: Machine) {
    |m.angles| == PlayerCount && 0 <= m.turn < PlayerCount
  }

  /** A new game: player 0 walks, the clock started at 0, no winner yet. */
  function Initial(): (m: Machine)
    ensures ValidTurn(m) && m.phase == Move && m.turn == 0 && m.winner == None
  {
    Machine(Move, 0, 0, [InitialAngle, InitialAngle], AngleSpeed, 0.0, 1, 0.0, false, None)
  }

  /** An axis-aligned pygame rectangle with integer coordinates. */
  datatype Rect = Rect(x: int, y: int, w: int, h: int)

  /** pygame's colliderect for rectangles of non-negative size: an empty
      rectangle meets nothing, otherwise the open extents overlap on both
      axes. */
  predicate Colliderect(a: Rect, b: Rect) {
    a.w != 0 && a.h != 0 && b.w != 0 && b.h != 0 &&
    a.x < b.x + b.w && b.x < a.x + a.w && a.y < b.y + b.h && b.y < a.y + a.h
  }

  /** Pixel (px, py) lies in the rectangle. */
  predicate InRect(r: Rect, px: int, py: int) {
    r.x <= px < r.x + r.w && r.y <= py < r.y + r.h
  }

  /** For rectangles of non-negative size, colliderect holds exactly when
      some pixel lies in both. */
  lemma ColliderectIffSharedPixel(a: Rect, b: Rect)
    requires a.w >= 0 && a.h >= 0 && b.w >= 0 && b.h >= 0
    ensures Colliderect(a, b) <==> exists px, py :: InRect(a, px, py) && InRect(b, px, py)
  {
    if Colliderect(a, b) {
      var px := if a.x < b.x then b.x else a.x;
      var py := if a.y < b.y then b.y else a.y;
      assert InRect(a, px, py) && InRect(b, px, py);
    }
  }

  /** A float coordinate stored in a Rect: C's (int) cast, toward zero. */
  function Trunc(r: real): (n: int)
    ensures r >= 0.0 ==> n as real <= r < n as real + 1.0
    ensures r < 0.0 ==> n as real - 1.0 < r <= n as real
  {
    if r >= 0.0 then r.Floor else -((-r).Floor)
  }

  /** The bonus target, a 20-pixel-high strip across the gauge. */
  function TargetRect(targetY: real): Rect {
    Rect(GaugeX, Trunc(targetY), GaugeWidth, TargetHeight)
  }

  /** The 5-pixel-high indicator, `gauge` pixels below the gauge's top. */
  function IndicatorRect(gauge: real): Rect {
    Rect(GaugeX, Trunc(GaugeY as real + gauge), GaugeWidth, IndicatorHeight)
  }

  /** The fire key in AIM_2 earns a bonus shot when the indicator touches
      the target: the rectangles share their columns, so this is exactly the
      indicator's top row lying strictly between 5 rows above the target's
      top and the target's bottom. */
  predicate BonusHit(gauge: real, targetY: real)
    ensures BonusHit(gauge, targetY) <==>
      Trunc(targetY) - IndicatorHeight < Trunc(GaugeY as real + gauge) < Trunc(targetY) + TargetHeight
  {
    Colliderect(TargetRect(targetY), IndicatorRect(gauge))
  }

  /** The rectangle covers pixel row k. */
  predicate OnRow(r: Rect, k: int) {
    r.y <= k < r.y + r.h
  }

  /** A bonus is earned exactly when the indicator and the target share a
      row of pixels: their columns always coincide. */
  lemma BonusIffRowsOverlap(gauge: real, targetY: real)
    ensures BonusHit(gauge, targetY) <==>
      exists k :: OnRow(TargetRect(targetY), k) && OnRow(IndicatorRect(gauge), k)
  {
    var t, i := TargetRect(targetY), IndicatorRect(gauge);
    if BonusHit(gauge, targetY) {
      var k := if t.y < i.y then i.y else t.y;
      assert OnRow(t, k) && OnRow(i, k);
    }
  }

  /** Top of the bonus target chosen when AIM_2 starts at time `now`: the
      centre of a 20-pixel rectangle plus 260 plus 180 times the fraction of
      the current second. */
  function TargetY(now: int): (y: real)
    ensures (TargetHeight / 2 + GaugeY) as real <= y < (TargetHeight / 2 + GaugeY + 180) as real
  {
    (TargetHeight / 2 + GaugeY) as real + 180.0 * ((now % 1000) as real / 1000.0)
  }

  /** One frame of the AIM_1 gauge: turn by the speed, and reverse once past
      either end of [0, 180]. */
  function StepAngle(a: real, speed: real): (r: (real, real))
    ensures r.0 == a + speed
    ensures 0.0 <= r.0 <= 180.0 ==> r.1 == speed
    ensures (r.0 > 180.0 || r.0 < 0.0) ==> r.1 == -speed
  {
    var turned := a + speed;
    (turned, if turned > 180.0 || turned < 0.0 then -speed else speed)
  }

  /** One frame of the AIM_2 gauge: move by the speed in the current sense,
      and reverse once at or past either end of [0, 200]. */
  function StepGauge(v: real, direction: int): (r: (real, int))
    ensures r.0 == v + GaugeSpeed * direction as real
    ensures 0.0 < r.0 < GaugeHeight as real ==> r.1 == direction
    ensures (r.0 <= 0.0 || r.0 >= GaugeHeight as real) ==> r.1 == -direction
  {
    var moved := v + GaugeSpeed * direction as real;
    (moved, if moved <= 0.0 || moved >= GaugeHeight as real then -direction else direction)
  }

  /** fire_projectile's effect on the phase. */
  function Fired(m: Machine): Machine {
    m.(phase := Fire)
  }

  /** next_turn: the other player walks, with a fresh move timer. */
  function NextTurn(m: Machine, now: int): (r: Machine)
    requires ValidTurn(m)
    ensures ValidTurn(r) && r.turn != m.turn && r.phase == Move && r.timer == now
  {
    m.(turn := (m.turn + 1) % PlayerCount, phase := Move, timer := now)
  }

  /** The per-phase part of one frame's update at time `now`. */
  function Tick(m: Machine, now: int, noProjectiles: bool): (r: Machine)
    requires ValidTurn(m)
    ensures ValidTurn(r) && r.winner == m.winner
    ensures r.turn != m.turn <==> m.phase == Fire && noProjectiles
  {
    match m.phase
    case Move =>
      if now - m.timer > MoveTimeLimit then m.(phase := Aim1, angles := m.angles[m.turn := InitialAngle])
      else m
    case Aim1 =>
      var (a, s) := StepAngle(m.angles[m.turn], m.angleSpeed);
      m.(angles := m.angles[m.turn := a], angleSpeed := s)
    case Aim2 =>
      if now - m.timer > Aim2TimeLimit then Fired(m.(bonusShot := false))
      else
        var (v, d) := StepGauge(m.gauge, m.gaugeDirection);
        m.(gauge := v, gaugeDirection := d)
    case Fire =>
      if noProjectiles then NextTurn(m, now) else m
    case GameOver => m
  }

  /** Whether a frame's update at time `now` fires a shot (AIM_2 timed out). */
  predicate FiresOnTick(m: Machine, now: int) {
    m.phase == Aim2 && now - m.timer > Aim2TimeLimit
  }

  /** The current player's fire key went down at time `now`. */
  function PressFire(m: Machine, now: int): (r: Machine)
    requires ValidTurn(m)
    ensures ValidTurn(r) && r.turn == m.turn && r.winner == m.winner && r.angles == m.angles
    ensures r != m <==> m.phase == Aim1 || m.phase == Aim2
  {
    match m.phase
    case Aim1 => m.(phase := Aim2, timer := now, gauge := 0.0, gaugeDirection := 1, targetY := TargetY(now))
    case Aim2 => Fired(m.(bonusShot := BonusHit(m.gauge, m.targetY)))
    case _ => m
  }

  /** The end-of-frame fall check, player 0 first: a player whose box top is
      below the screen ends the game and the other player wins. */
  function CheckFalls(m: Machine, top0: int, top1: int): (r: Machine)
    requires ValidTurn(m)
    ensures ValidTurn(r) && r.turn == m.turn
    ensures r.phase == GameOver <==> m.phase == GameOver || top0 > ScreenHeight || top1 > ScreenHeight
    ensures top0 <= ScreenHeight && top1 <= ScreenHeight ==> r == m
  {
    var afterFirst := if top0 > ScreenHeight then m.(phase := GameOver, winner := Some(1)) else m;
    if top1 > ScreenHeight then afterFirst.(phase := GameOver, winner := Some(0)) else afterFirst
  }

  /** The launch angle of a shot: mirrored for a player facing left. */
  function FireAngle(angle: real, facingRight: bool): (r: real)
    ensures facingRight ==> r == angle
    ensures !facingRight ==> r + angle == 180.0
  {
    if facingRight then angle else 180.0 - angle
  }

  /** The angle gauge stays within one step of [0, 180], and points back
      inwards whenever it is outside. */
  predicate AngleInRange(a: real, speed: real) {
    -AngleSpeed <= a <= 180.0 + AngleSpeed &&
    (a > 180.0 ==> speed < 0.0) && (a < 0.0 ==> speed > 0.0)
  }

  /** The bonus gauge stays within one step of [0, 200], and is never past
      the end it is heading for. */
  predicate GaugeInRange(v: real, direction: int) {
    -GaugeSpeed <= v <= GaugeHeight as real + GaugeSpeed &&
    (direction == 1 ==> v <= GaugeHeight as real) && (direction == -1 ==> v >= 0.0)
  }

  /** The invariant of the machine: the gauges move at their speeds and stay
      near their ranges while in use, and exactly a finished game has a
      winner. */
  predicate Consistent(m: Machine) {
    ValidTurn(m) &&
    (m.angleSpeed == AngleSpeed || m.angleSpeed == -AngleSpeed) &&
    (m.gaugeDirection == 1 || m.gaugeDirection == -1) &&
    (m.phase == Aim1 ==> AngleInRange(m.angles[m.turn], m.angleSpeed)) &&
    ((m.phase == Aim2 || m.phase == Fire) ==> -AngleSpeed <= m.angles[m.turn] <= 180.0 + AngleSpeed) &&
    (m.phase == Aim2 ==> GaugeInRange(m.gauge, m.gaugeDirection)) &&
    (m.winner.Some? <==> m.phase == GameOver) &&
    (m.winner.Some? ==> 0 <= m.winner.value < PlayerCount)
  }

  lemma InitialConsistent()
    ensures Consistent(Initial())
  {
  }

  /** One frame of the angle gauge keeps it in range. */
  lemma StepAngleInRange(a: real, speed: real)
    requires speed == AngleSpeed || speed == -AngleSpeed
    requires AngleInRange(a, speed)
    ensures AngleInRange(StepAngle(a, speed).0, StepAngle(a, speed).1)
    ensures StepAngle(a, speed).1 == AngleSpeed || StepAngle(a, speed).1 == -AngleSpeed
  {
  }

  /** One frame of the bonus gauge keeps it in range. */
  lemma StepGaugeInRange(v: real, direction: int)
    requires direction == 1 || direction == -1
    requires GaugeInRange(v, direction)
    ensures GaugeInRange(StepGauge(v, direction).0, StepGauge(v, direction).1)
    ensures StepGauge(v, direction).1 == 1 || StepGauge(v, direction).1 == -1
  {
  }

  /** MOVE ends exactly when the move time is up; aiming then starts from
      45 degrees. */
  lemma MoveEndsOnTimeout(m: Machine, now: int, noProjectiles: bool)
    requires ValidTurn(m) && m.phase == Move
    ensures var r := Tick(m, now, noProjectiles);
      (r.phase == Aim1 <==> now - m.timer > MoveTimeLimit) &&
      (r.phase == Aim1 ==> r.angles[m.turn] == InitialAngle && r.turn == m.turn) &&
      (r.phase != Aim1 ==> r == m)
  {
  }

  /** The fire key in AIM_1 starts the bonus gauge at its top, heading down,
      with a fresh timer and a target within the gauge's first 200 rows. */
  lemma AimFireStartsBonusGauge(m: Machine, now: int)
    requires ValidTurn(m) && m.phase == Aim1
    ensures var r := PressFire(m, now);
      r.phase == Aim2 && r.timer == now && r.gauge == 0.0 && r.gaugeDirection == 1 &&
      270.0 <= r.targetY < 450.0 && r.angles == m.angles && r.turn == m.turn
  {
  }

  /** AIM_2 ends in FIRE either by the fire key, with the bonus decided by
      the gauge, or by the time limit, without bonus; the angle is kept. */
  lemma BonusPhaseFires(m: Machine, now: int, noProjectiles: bool)
    requires ValidTurn(m) && m.phase == Aim2
    ensures PressFire(m, now).phase == Fire
    ensures PressFire(m, now).bonusShot == BonusHit(m.gauge, m.targetY)
    ensures Tick(m, now, noProjectiles).phase == Fire <==> now - m.timer > Aim2TimeLimit
    ensures Tick(m, now, noProjectiles).phase == Fire ==> !Tick(m, now, noProjectiles).bonusShot
    ensures Tick(m, now, noProjectiles).angles == m.angles
  {
  }

  /** FIRE ends exactly when no projectile is left, and the other player's
      turn starts. */
  lemma FireEndsWhenProjectilesGone(m: Machine, now: int, noProjectiles: bool)
    requires ValidTurn(m) && m.phase == Fire
    ensures Tick(m, now, noProjectiles).phase == Move <==> noProjectiles
    ensures noProjectiles ==> Tick(m, now, noProjectiles).turn == 1 - m.turn
    ensures !noProjectiles ==> Tick(m, now, noProjectiles) == m
    ensures PressFire(m, now) == m
  {
  }

  /** A fall ends the game; the other player wins, and when both are below
      the screen in the same frame player 0 is named (the later check wins). */
  lemma FallLoses(m: Machine, top0: int, top1: int)
    requires ValidTurn(m)
    ensures var r := CheckFalls(m, top0, top1);
      (r.phase == GameOver <==> m.phase == GameOver || top0 > ScreenHeight || top1 > ScreenHeight) &&
      (top1 > ScreenHeight ==> r.winner == Some(0)) &&
      (top0 > ScreenHeight && top1 <= ScreenHeight ==> r.winner == Some(1)) &&
      (top0 <= ScreenHeight && top1 <= ScreenHeight ==> r == m)
  {
  }

  /** What can happen to a machine in one frame or on one key press. */
  datatype Signal =
    | Frame(now: int, noProjectiles: bool, top0: int, top1: int)
    | FireKey(now: int)

  function Step(m: Machine, s: Signal): (r: Machine)
    requires ValidTurn(m)
    ensures ValidTurn(r)
  {
    match s
    case Frame(now, noProjectiles, top0, top1) => CheckFalls(Tick(m, now, noProjectiles), top0, top1)
    case FireKey(now) => PressFire(m, now)
  }

  /** The phase that follows p in a turn. */
  function Successor(p: Phase): Phase {
    match p
    case Move => Aim1
    case Aim1 => Aim2
    case Aim2 => Fire
    case Fire => Move
    case GameOver => GameOver
  }

  /** Phases advance one at a time in the order MOVE, AIM_1, AIM_2, FIRE,
      MOVE, or jump to GAMEOVER; GAMEOVER is never left; the turn changes
      exactly when FIRE gives way to MOVE. */
  lemma StepFollowsCycle(m: Machine, s: Signal)
    requires ValidTurn(m)
    ensures var r := Step(m, s);
      (r.phase == m.phase || r.phase == Successor(m.phase) || r.phase == GameOver) &&
      (m.phase == GameOver ==> r.phase == GameOver) &&
      (r.turn != m.turn <==> s.Frame? && m.phase == Fire && Tick(m, s.now, s.noProjectiles).phase == Move)
  {
    var r := Step(m, s);
    if s.Frame? {
      var t := Tick(m, s.now, s.noProjectiles);
      assert r.turn == t.turn;
      assert t.turn != m.turn <==> m.phase == Fire && t.phase == Move;
    }
  }

  /** The per-phase update keeps the machine's invariant. */
  lemma TickKeepsConsistent(m: Machine, now: int, noProjectiles: bool)
    requires Consistent(m)
    ensures Consistent(Tick(m, now, noProjectiles))
  {
    if m.phase == Aim1 {
      StepAngleInRange(m.angles[m.turn], m.angleSpeed);
    } else if m.phase == Aim2 && now - m.timer <= Aim2TimeLimit {
      StepGaugeInRange(m.gauge, m.gaugeDirection);
    }
  }

  /** The fall check keeps the machine's invariant. */
  lemma CheckFallsKeepsConsistent(m: Machine, top0: int, top1: int)
    requires Consistent(m)
    ensures Consistent(CheckFalls(m, top0, top1))
  {
  }

  /** A fire press keeps the machine's invariant. */
  lemma PressFireKeepsConsistent(m: Machine, now: int)
    requires Consistent(m)
    ensures Consistent(PressFire(m, now))
  {
  }

  /** Every step keeps the machine's invariant. */
  lemma StepKeepsConsistent(m: Machine, s: Signal)
    requires Consistent(m)
    ensures Consistent(Step(m, s))
  {
    match s
    case Frame(now, noProjectiles, top0, top1) =>
      TickKeepsConsistent(m, now, noProjectiles);
      CheckFallsKeepsConsistent(Tick(m, now, noProjectiles), top0, top1);
    case FireKey(now) =>
      PressFireKeepsConsistent(m, now);
  }

  /** The machine after a sequence of signals. */
  function Run(m: Machine, ss: seq<Signal>): (r: Machine)
    requires ValidTurn(m)
    ensures ValidTurn(r)
    decreases |ss|
  {
    if ss == [] then m else Run(Step(m, ss[0]), ss[1..])
  }

  /** How many turns end along a sequence of signals: frames that find
      the game in FIRE with no projectile left. */
  function TurnEnds(m: Machine, ss: seq<Signal>): nat
    requires ValidTurn(m)
    decreases |ss|
  {
    if ss == [] then 0
    else
      var ends := ss[0].Frame? && m.phase == Fire && ss[0].noProjectiles;
      (if ends then 1 else 0) + TurnEnds(Step(m, ss[0]), ss[1..])
  }

  /** Turns alternate: after any run the player on turn is the starting one
      moved on by the number of finished turns, modulo two. */
  lemma {:induction false} RunTurnParity(m: Machine, ss: seq<Signal>)
    requires ValidTurn(m)
    ensures Run(m, ss).turn == (m.turn + TurnEnds(m, ss)) % PlayerCount
    decreases |ss|
  {
    if ss != [] {
      var next := Step(m, ss[0]);
      RunTurnParity(next, ss[1..]);
      StepFollowsCycle(m, ss[0]);
      if ss[0].Frame? && m.phase == Fire && ss[0].noProjectiles {
        assert next.turn == (m.turn + 1) % PlayerCount;
      } else {
        assert next.turn == m.turn;
      }
    }
  }

  /** The invariant holds along every run. */
  lemma {:induction false} RunStaysConsistent(m: Machine, ss: seq<Signal>)
    requires Consistent(m)
    ensures Consistent(Run(m, ss))
    decreases |ss|
  {
    if ss != [] {
      StepKeepsConsistent(m, ss[0]);
      RunStaysConsistent(Step(m, ss[0]), ss[1..]);
    }
  }

  /** Once over, the game stays over with its player on turn, whatever
      happens. */
  lemma {:induction false} GameOverIsFinal(m: Machine, ss: seq<Signal>)
    requires ValidTurn(m) && m.phase == GameOver
    ensures Run(m, ss).phase == GameOver && Run(m, ss).turn == m.turn
    decreases |ss|
  {
    if ss != [] {
      StepFollowsCycle(m, ss[0]);
      GameOverIsFinal(Step(m, ss[0]), ss[1..]);
    }
  }
}
