/**
 * The per-tick physics of the ball game environment, as values.
 *
 * `State` is the environment's state record (ball position and velocity,
 * player position and velocity, step counter). Each stage of one tick of
 * `BallGameEnv.step` is a function on `State`, in the order the environment
 * applies them; `Tick` composes the stages and computes reward, termination
 * and truncation. The class in env.dfy performs the same tick field by field
 * and is proved equal to `Tick`.
 *
 * Arithmetic is exact (`real`); the square root used for the contact
 * distance is a parameter `sqrt`, and the lemmas that depend on its value
 * require `IsSqrt(sqrt)`.
 */
module BallPhysics {

  // The constants set in BallGameEnv.__init__.
  const Width: real := 400.0
  const Height: real := 400.0
  const Gravity: real := 0.5
  const BallRadius: real := 8.0
  const PlayerRadius: real := 15.0
  const PlayerAcc: real := 0.8
  const PlayerMaxSpeed: real := 9.0
  const MaxSteps: int := 5000

  // The literals of reset and step.
  const PlayerSpawnY: real := Height - 20.0   // the fixed height of the player
  const Friction: real := 0.9                 // velocity kept per coasting tick
  const SnapBelow: real := 0.1                // smaller speeds snap to 0
  const PushOut: real := 1.1                  // over-correction of the overlap
  const Restitution: real := 0.9              // of the ball on the player
  const Transfer: real := 0.3                 // share of player velocity passed on
  const MinBounce: real := 8.0                // least upward speed after a hit
  const WallRestitution: real := 0.9
  const CeilingRestitution: real := 0.8
  const HitReward: real := 10.0
  const SpeedBonus: real := 0.5               // reward per unit of vertical speed
  const FloorPenalty: real := 100.0

  /** The sum of the radii: the ball touches the player below this distance. */
  const ContactRange: real := BallRadius + PlayerRadius

  /** The environment's current_state together with its step counter. */
  datatype State = State(
    ballX: real, ballY: real,
    ballVx: real, ballVy: real,
    playerX: real, playerY: real,
    playerVel: real,
    steps: int)

  /** What step returns besides the observation (which is Observe(next)). */
  datatype StepResult = StepResult(next: State, reward: real, terminated: bool, truncated: bool)

  // ---------------------------------------------------------------------
  // Arithmetic helpers

  function Abs(x: real): (r: real)
    ensures r >= 0.0 && (r == x || r == -x)
  {
    if x < 0.0 then -x else x
  }

  function Min(a: real, b: real): (r: real)
    ensures r <= a && r <= b && (r == a || r == b)
  {
    if a <= b then a else b
  }

  function Max(a: real, b: real): (r: real)
    ensures r >= a && r >= b && (r == a || r == b)
  {
    if a >= b then a else b
  }

  /** numpy's clip of a scalar: min(max(x, lo), hi). */
  function Clip(x: real, lo: real, hi: real): (r: real)
    requires lo <= hi
    ensures lo <= r <= hi
    ensures lo <= x <= hi ==> r == x
    ensures x < lo ==> r == lo
    ensures x > hi ==> r == hi
  {
    Min(Max(x, lo), hi)
  }

  function Sq(x: real): real { x * x }

  lemma ProductNonNegative(x: real, y: real)
    requires x >= 0.0 && y >= 0.0
    ensures x * y >= 0.0
  {
  }

  lemma ProductPositive(x: real, y: real)
    requires x > 0.0 && y > 0.0
    ensures x * y > 0.0
  {
  }

  lemma Cancel(x: real, y: real, z: real)
    requires x * z == y * z && z != 0.0
    ensures x == y
  {
    assert (x - y) * z == 0.0;
  }

  /** `sqrt` is a square root on the non-negative reals. */
  ghost predicate IsSqrt(sqrt: real -> real) {
    forall q :: 0.0 <= q ==> 0.0 <= sqrt(q) && sqrt(q) * sqrt(q) == q
  }

  /** The bounds step establishes on every state it produces. */
  predicate InBounds(s: State) {
    && BallRadius <= s.ballX <= Width - BallRadius
    && BallRadius <= s.ballY
    && PlayerRadius <= s.playerX <= Width - PlayerRadius
    && -PlayerMaxSpeed <= s.playerVel <= PlayerMaxSpeed
    && (s.playerVel == 0.0 || Abs(s.playerVel) >= SnapBelow)
  }

  /** The state invariant: reset establishes it and step preserves it. */
  predicate Inv(s: State) {
    InBounds(s) && s.playerY == PlayerSpawnY && s.steps >= 0
  }

  // ---------------------------------------------------------------------
  // The stages of one tick

  /**
   * Player control: accelerate left (0), right (1) or coast (2); any other
   * action leaves the velocity as it is. Then clamp to the speed limit and
   * snap small speeds to zero.
   */
  function ControlVelocity(vel: real, action: int): (r: real)
    ensures -PlayerMaxSpeed <= r <= PlayerMaxSpeed
    ensures r == 0.0 || Abs(r) >= SnapBelow
    // coasting never speeds the player up: it keeps at most 90% of the speed
    ensures action == 2 ==> Abs(r) <= Friction * Abs(vel)
    // within the speed limit, "left" never moves the velocity right, and vice versa
    ensures -PlayerMaxSpeed <= vel <= PlayerMaxSpeed ==>
              (action == 0 ==> r <= vel) && (action == 1 ==> r >= vel)
    // an unrecognised action keeps a velocity that is already clamped and snapped
    ensures action != 0 && action != 1 && action != 2 ==>
              (-PlayerMaxSpeed <= vel <= PlayerMaxSpeed && (vel == 0.0 || Abs(vel) >= SnapBelow)
               ==> r == vel)
  {
    var pushed :=
      if action == 0 then vel - PlayerAcc
      else if action == 1 then vel + PlayerAcc
      else if action == 2 then vel * Friction
      else vel;
    var clipped := Clip(pushed, -PlayerMaxSpeed, PlayerMaxSpeed);
    if Abs(clipped) < SnapBelow then 0.0 else clipped
  }

  /** Player integration, then a dead stop at either wall. */
  function MovePlayer(s: State): (r: State)
    ensures PlayerRadius <= r.playerX <= Width - PlayerRadius
    ensures PlayerRadius <= s.playerX + s.playerVel <= Width - PlayerRadius ==>
              r == s.(playerX := s.playerX + s.playerVel)
    ensures s.playerX + s.playerVel < PlayerRadius ==>
              r == s.(playerX := PlayerRadius, playerVel := 0.0)
    ensures s.playerX + s.playerVel > Width - PlayerRadius ==>
              r == s.(playerX := Width - PlayerRadius, playerVel := 0.0)
  {
    var x := s.playerX + s.playerVel;
    if x < PlayerRadius then s.(playerX := PlayerRadius, playerVel := 0.0)
    else if x > Width - PlayerRadius then s.(playerX := Width - PlayerRadius, playerVel := 0.0)
    else s.(playerX := x)
  }

  /** Gravity, then the ball moves by its updated velocity (semi-implicit Euler). */
  function MoveBall(s: State): (r: State)
    ensures r.ballVy - s.ballVy == Gravity && r.ballVx == s.ballVx
    ensures r.ballX - s.ballX == r.ballVx && r.ballY - s.ballY == r.ballVy
    ensures r.(ballX := s.ballX, ballY := s.ballY, ballVy := s.ballVy) == s
  {
    var vy := s.ballVy + Gravity;
    s.(ballVy := vy, ballX := s.ballX + s.ballVx, ballY := s.ballY + vy)
  }

  /** The player's part of a tick: control, integration and wall stop. Nothing else changes. */
  function PlayerTick(s: State, action: int): (r: State)
    ensures PlayerRadius <= r.playerX <= Width - PlayerRadius
    ensures r.playerVel == 0.0 || r.playerVel == ControlVelocity(s.playerVel, action)
    ensures r.(playerX := s.playerX, playerVel := s.playerVel) == s
  {
    MovePlayer(s.(playerVel := ControlVelocity(s.playerVel, action)))
  }

  /** Everything step does before it looks for a collision. */
  function PreContact(s: State, action: int): (r: State)
    ensures r.playerY == s.playerY && r.steps == s.steps
    ensures r.playerX == PlayerTick(s, action).playerX
    ensures r.playerVel == PlayerTick(s, action).playerVel
  {
    MoveBall(PlayerTick(s, action))
  }

  /** The squared distance between the centres of ball and player. */
  function SqDistance(s: State): (q: real)
    ensures q >= 0.0
  {
    Sq(s.ballX - s.playerX) + Sq(s.ballY - s.playerY)
  }

  /** The centre distance, through the given square root. */
  function ContactDistance(s: State, sqrt: real -> real): (d: real)
    ensures IsSqrt(sqrt) ==> d >= 0.0 && d * d == SqDistance(s)
  {
    sqrt(SqDistance(s))
  }

  /** The hit test: the centres are closer than the sum of the radii. */
  predicate IsHit(distance: real) {
    distance < ContactRange
  }

  /**
   * The response to a contact at positive distance: push the ball out along
   * the unit normal from the player by 1.1 times the overlap, reflect its
   * velocity in the normal using the velocity relative to the player, damp
   * by 0.9 and pass on 30% of the player's velocity horizontally.
   */
  function Respond(s: State, distance: real): (r: State)
    requires distance > 0.0
    ensures r.playerX == s.playerX && r.playerY == s.playerY
    ensures r.playerVel == s.playerVel && r.steps == s.steps
  {
    var nx := (s.ballX - s.playerX) / distance;
    var ny := (s.ballY - s.playerY) / distance;
    var overlap := ContactRange - distance;
    var relVx := s.ballVx - s.playerVel;
    var relVy := s.ballVy;
    var dot := relVx * nx + relVy * ny;
    s.(ballX := s.ballX + nx * overlap * PushOut,
       ballY := s.ballY + ny * overlap * PushOut,
       ballVx := (s.ballVx - 2.0 * dot * nx) * Restitution + s.playerVel * Transfer,
       ballVy := (s.ballVy - 2.0 * dot * ny) * Restitution)
  }

  /**
   * Collision handling at the given centre distance. On a hit the ball leaves
   * upward at 8 or faster, also when the distance is 0 and the response that
   * needs a normal is skipped.
   */
  function Collide(s: State, distance: real): (r: State)
    ensures !IsHit(distance) ==> r == s
    ensures IsHit(distance) ==> r.ballVy <= -MinBounce
    ensures IsHit(distance) && distance <= 0.0 ==>
              r == s.(ballVy := Min(s.ballVy, -MinBounce))
    ensures IsHit(distance) && distance > 0.0 ==>
              r == Respond(s, distance).(ballVy := Min(Respond(s, distance).ballVy, -MinBounce))
    ensures r.playerX == s.playerX && r.playerY == s.playerY
    ensures r.playerVel == s.playerVel && r.steps == s.steps
  {
    if IsHit(distance) then
      var responded := if distance > 0.0 then Respond(s, distance) else s;
      responded.(ballVy := Min(responded.ballVy, -MinBounce))
    else s
  }

  /** At most one side wall bounces the ball: it is set onto that wall and its horizontal velocity reversed and damped. */
  function BounceWalls(s: State): (r: State)
    ensures BallRadius <= r.ballX <= Width - BallRadius
    ensures s.ballX <= BallRadius ==>
              r == s.(ballX := BallRadius, ballVx := -s.ballVx * WallRestitution)
    ensures s.ballX >= Width - BallRadius ==>
              r == s.(ballX := Width - BallRadius, ballVx := -s.ballVx * WallRestitution)
    ensures BallRadius < s.ballX < Width - BallRadius ==> r == s
    ensures r.ballVx == s.ballVx || r.ballVx == -s.ballVx * WallRestitution
  {
    if s.ballX <= BallRadius then
      s.(ballX := BallRadius, ballVx := -s.ballVx * WallRestitution)
    else if s.ballX >= Width - BallRadius then
      s.(ballX := Width - BallRadius, ballVx := -s.ballVx * WallRestitution)
    else s
  }

  /** A ball at or above the ceiling is set onto it and its vertical velocity reversed and damped. */
  function BounceCeiling(s: State): (r: State)
    ensures r.ballY >= BallRadius
    ensures s.ballY <= BallRadius ==>
              r == s.(ballY := BallRadius, ballVy := -s.ballVy * CeilingRestitution)
    ensures s.ballY > BallRadius ==> r == s
  {
    if s.ballY <= BallRadius then
      s.(ballY := BallRadius, ballVy := -s.ballVy * CeilingRestitution)
    else s
  }

  /** The final, defensive clamp of the ball's position. */
  function ClampBall(s: State): (r: State)
    ensures BallRadius <= r.ballX <= Width - BallRadius && BallRadius <= r.ballY
    ensures r.(ballX := s.ballX, ballY := s.ballY) == s
    ensures BallRadius <= s.ballX <= Width - BallRadius && BallRadius <= s.ballY ==> r == s
  {
    s.(ballX := Clip(s.ballX, BallRadius, Width - BallRadius),
       ballY := Max(BallRadius, s.ballY))
  }

  /** The reward of one tick, from whether it hit, the final vertical velocity and termination. */
  function Reward(hit: bool, vy: real, terminated: bool): (r: real)
    ensures !hit && !terminated ==> r == 0.0
    ensures !hit && terminated ==> r == -FloorPenalty
    ensures hit ==> r >= HitReward + (if terminated then -FloorPenalty else 0.0)
    ensures hit && Abs(vy) >= 6.4 && !terminated ==> r >= 13.2
  {
    var base := 0.0;
    var withHit := if hit then base + HitReward + Abs(vy) * SpeedBonus else base;
    if terminated then withHit - FloorPenalty else withHit
  }

  /** Whether the tick from `s` under `action` detects a hit. */
  predicate TickHit(s: State, action: int, sqrt: real -> real) {
    IsHit(ContactDistance(PreContact(s, action), sqrt))
  }

  /** One call of step: the new state, reward, termination and truncation. */
  function Tick(s: State, action: int, sqrt: real -> real): (r: StepResult)
    ensures r.next.steps == s.steps + 1
    ensures r.next.playerY == s.playerY
    ensures InBounds(r.next)
    ensures r.terminated <==> r.next.ballY >= Height - BallRadius
    ensures r.truncated <==> r.next.steps >= MaxSteps
    ensures r.next.playerX == PlayerTick(s, action).playerX
    ensures r.next.playerVel == PlayerTick(s, action).playerVel
  {
    var moved := PreContact(s, action);
    var distance := ContactDistance(moved, sqrt);
    var settled := ClampBall(BounceCeiling(BounceWalls(Collide(moved, distance))));
    var next := settled.(steps := s.steps + 1);
    var terminated := next.ballY >= Height - BallRadius;
    var truncated := next.steps >= MaxSteps;
    StepResult(next, Reward(IsHit(distance), next.ballVy, terminated), terminated, truncated)
  }

  /** The observation vector of _get_obs. */
  function Observe(s: State): (o: seq<real>)
    ensures |o| == 6
  {
    [s.ballX, s.ballY, s.ballVx, s.ballVy, s.playerX, s.playerVel]
  }

  /** Reads a state back from an observation and the two fields it does not carry. */
  function FromObservation(o: seq<real>, playerY: real, steps: int): (s: State)
    requires |o| == 6
    ensures Observe(s) == o
  {
    State(o[0], o[1], o[2], o[3], o[4], playerY, o[5], steps)
  }

  // ---------------------------------------------------------------------
  // reset

  /** random.uniform(a, b) as CPython computes it, from a draw u of random.random(). */
  function Uniform(a: real, b: real, u: real): (r: real)
    requires a <= b && 0.0 <= u < 1.0
    ensures a <= r <= b
    ensures a < b ==> r < b
  {
    assert (b - a) * u - (b - a) == -(b - a) * (1.0 - u);
    ProductNonNegative(b - a, u);
    ProductNonNegative(b - a, 1.0 - u);
    a + (b - a) * u
  }

  /** The state reset builds from five draws of random.random(), in the order reset draws them. */
  function InitialState(uBallX: real, uBallY: real, uBallVx: real, uBallVy: real, uPlayerX: real): (s: State)
    requires 0.0 <= uBallX < 1.0 && 0.0 <= uBallY < 1.0 && 0.0 <= uBallVx < 1.0
    requires 0.0 <= uBallVy < 1.0 && 0.0 <= uPlayerX < 1.0
    ensures s.steps == 0 && s.playerVel == 0.0 && s.playerY == 380.0
    ensures 15.0 <= s.playerX <= 385.0
    ensures 8.0 <= s.ballX <= 392.0 && 8.0 <= s.ballY <= 200.0
    ensures -5.0 <= s.ballVx <= 5.0 && -2.0 <= s.ballVy <= 0.0
    ensures Inv(s)
  {
    State(
      Uniform(BallRadius, Width - BallRadius, uBallX),
      Uniform(BallRadius, Height / 2.0, uBallY),
      Uniform(-5.0, 5.0, uBallVx),
      Uniform(-2.0, 0.0, uBallVy),
      Uniform(PlayerRadius, Width - PlayerRadius, uPlayerX),
      PlayerSpawnY,
      0.0,
      0)
  }
}

/**
 * Properties of one tick and of runs of ticks.
 */
module BallPhysicsFacts {
  import opened BallPhysics

  // ---------------------------------------------------------------------
  // Contact geometry

  /** With a true square root, the hit test is a test on the squared distance. */
  lemma HitIffWithinRange(distance: real, q: real)
    requires distance >= 0.0 && distance * distance == q
    ensures IsHit(distance) <==> q < Sq(ContactRange)
  {
    if distance < ContactRange {
      ProductNonNegative(distance, ContactRange - distance);
      ProductNonNegative(ContactRange, ContactRange - distance);
    } else {
      ProductNonNegative(distance, distance - ContactRange);
      ProductNonNegative(ContactRange, distance - ContactRange);
    }
  }

  /** Dividing the offset by its length gives a unit vector. */
  lemma UnitNormal(dx: real, dy: real, distance: real)
    requires distance > 0.0 && distance * distance == dx * dx + dy * dy
    ensures Sq(dx / distance) + Sq(dy / distance) == 1.0
  {
    var nx, ny := dx / distance, dy / distance;
    ScaledSquares(nx, ny, dx, dy, distance);
    var length := Sq(nx) + Sq(ny);
    Cancel(length * distance, distance, distance);
    Cancel(length, 1.0, distance);
  }

  lemma ScaledSquares(nx: real, ny: real, dx: real, dy: real, d: real)
    requires nx * d == dx && ny * d == dy
    ensures ((Sq(nx) + Sq(ny)) * d) * d == Sq(dx) + Sq(dy)
  {
    assert Sq(nx) * d * d == Sq(dx);
    assert Sq(ny) * d * d == Sq(dy);
  }

  /** Scaling a unit vector by f gives a vector of length |f|. */
  lemma ScaledUnit(nx: real, ny: real, f: real)
    requires Sq(nx) + Sq(ny) == 1.0
    ensures Sq(nx * f) + Sq(ny * f) == Sq(f)
  {
    assert Sq(nx * f) == Sq(nx) * Sq(f);
    assert Sq(ny * f) == Sq(ny) * Sq(f);
    assert (Sq(nx) + Sq(ny)) * Sq(f) == Sq(nx) * Sq(f) + Sq(ny) * Sq(f);
  }

  /** Squaring is strictly increasing on the non-negative reals. */
  lemma SquareIncreasing(a: real, b: real)
    requires 0.0 <= a < b
    ensures Sq(a) < Sq(b)
  {
    ProductPositive(b - a, b);
    ProductNonNegative(a, b - a);
  }

  /** Moving by push along a unit normal: the displacement has length |push|, all of it along the normal. */
  lemma PushAlongUnit(nx: real, ny: real, push: real, mx: real, my: real)
    requires Sq(nx) + Sq(ny) == 1.0
    requires mx == nx * push && my == ny * push
    ensures mx * nx + my * ny == push
    ensures Sq(mx) + Sq(my) == Sq(push)
  {
    assert mx * nx + my * ny == (Sq(nx) + Sq(ny)) * push;
    ScaledUnit(nx, ny, push);
  }

  /** An offset of length d, moved by push along its own direction, is that direction scaled by d + push. */
  lemma MovedOffset(offset: real, d: real, n: real, push: real, moved: real)
    requires d > 0.0 && n == offset / d
    requires moved == offset + n * push
    ensures moved == n * (d + push)
  {
    assert n * d == offset;
  }

  /** The response's move of the ball: the unit normal scaled by 1.1 times the overlap. */
  lemma RespondMovesBall(s: State, distance: real)
    requires distance > 0.0
    ensures var r := Respond(s, distance);
            var push := PushOut * (ContactRange - distance);
            && r.ballX - s.ballX == ((s.ballX - s.playerX) / distance) * push
            && r.ballY - s.ballY == ((s.ballY - s.playerY) / distance) * push
  {
    var nx, ny := (s.ballX - s.playerX) / distance, (s.ballY - s.playerY) / distance;
    var overlap := ContactRange - distance;
    assert Respond(s, distance).ballX == s.ballX + nx * overlap * PushOut;
    assert Respond(s, distance).ballY == s.ballY + ny * overlap * PushOut;
  }

  /** In a unit normal, the response's move of the ball has length 1.1 times the overlap, all of it along the normal. */
  lemma RespondPushesAlongNormal(s: State, distance: real)
    requires distance > 0.0
    requires Sq((s.ballX - s.playerX) / distance) + Sq((s.ballY - s.playerY) / distance) == 1.0
    ensures var r := Respond(s, distance);
            var nx, ny := (s.ballX - s.playerX) / distance, (s.ballY - s.playerY) / distance;
            var mx, my := r.ballX - s.ballX, r.ballY - s.ballY;
            var push := PushOut * (ContactRange - distance);
            && mx * nx + my * ny == push
            && Sq(mx) + Sq(my) == Sq(push)
  {
    var r := Respond(s, distance);
    var nx, ny := (s.ballX - s.playerX) / distance, (s.ballY - s.playerY) / distance;
    RespondMovesBall(s, distance);
    PushAlongUnit(nx, ny, PushOut * (ContactRange - distance), r.ballX - s.ballX, r.ballY - s.ballY);
  }

  /** In a unit normal of the offset, the response moves the ball to distance + 1.1 times the overlap. */
  lemma RespondNewDistance(s: State, distance: real)
    requires distance > 0.0
    requires Sq((s.ballX - s.playerX) / distance) + Sq((s.ballY - s.playerY) / distance) == 1.0
    ensures SqDistance(Respond(s, distance)) == Sq(distance + PushOut * (ContactRange - distance))
  {
    var r := Respond(s, distance);
    var nx, ny := (s.ballX - s.playerX) / distance, (s.ballY - s.playerY) / distance;
    var push := PushOut * (ContactRange - distance);
    RespondMovesBall(s, distance);
    MovedOffset(s.ballX - s.playerX, distance, nx, push, r.ballX - r.playerX);
    MovedOffset(s.ballY - s.playerY, distance, ny, push, r.ballY - r.playerY);
    ScaledUnit(nx, ny, distance + push);
  }

  /**
   * The response moves the ball along the unit normal from the player by 1.1
   * times the overlap (its displacement has that length and that component
   * along the normal), and so leaves it out of contact: its new distance is
   * distance + 1.1 * overlap, more than the contact range.
   */
  lemma PushOutSeparates(s: State, distance: real)
    requires 0.0 < distance < ContactRange
    requires distance * distance == SqDistance(s)
    ensures var r := Respond(s, distance);
            var nx, ny := (s.ballX - s.playerX) / distance, (s.ballY - s.playerY) / distance;
            var mx, my := r.ballX - s.ballX, r.ballY - s.ballY;
            var push := PushOut * (ContactRange - distance);
            && mx * nx + my * ny == push
            && Sq(mx) + Sq(my) == Sq(push)
            && SqDistance(r) == Sq(distance + push)
            && SqDistance(r) > Sq(ContactRange)
  {
    UnitNormal(s.ballX - s.playerX, s.ballY - s.playerY, distance);
    RespondPushesAlongNormal(s, distance);
    RespondNewDistance(s, distance);
    SquareIncreasing(ContactRange, distance + PushOut * (ContactRange - distance));
  }

  /** Reflecting u in a unit normal n (w = u - 2(u.n)n) negates the normal component. */
  lemma ReflectNormal(ux: real, uy: real, nx: real, ny: real, dot: real, wx: real, wy: real)
    requires Sq(nx) + Sq(ny) == 1.0
    requires dot == ux * nx + uy * ny
    requires wx == ux - 2.0 * dot * nx && wy == uy - 2.0 * dot * ny
    ensures wx * nx + wy * ny == -(ux * nx + uy * ny)
  {
    assert wx * nx + wy * ny == dot - 2.0 * dot * (Sq(nx) + Sq(ny));
  }

  /** Changing u by a multiple of n keeps its component across n. */
  lemma ReflectTangent(ux: real, uy: real, nx: real, ny: real, dot: real, wx: real, wy: real)
    requires wx == ux - 2.0 * dot * nx && wy == uy - 2.0 * dot * ny
    ensures wx * ny - wy * nx == ux * ny - uy * nx
  {
    assert wx * ny - wy * nx == ux * ny - uy * nx - 2.0 * dot * (nx * ny - ny * nx);
  }

  /** Reflecting u in a unit normal keeps its length. */
  lemma ReflectLength(ux: real, uy: real, nx: real, ny: real, dot: real, wx: real, wy: real)
    requires Sq(nx) + Sq(ny) == 1.0
    requires dot == ux * nx + uy * ny
    requires wx == ux - 2.0 * dot * nx && wy == uy - 2.0 * dot * ny
    ensures Sq(wx) + Sq(wy) == Sq(ux) + Sq(uy)
  {
    assert Sq(wx) + Sq(wy) ==
      Sq(ux) + Sq(uy) - 4.0 * dot * (ux * nx + uy * ny) + 4.0 * dot * dot * (Sq(nx) + Sq(ny));
  }

  /**
   * Undoing the response's damping and passed-on player velocity leaves the
   * relative velocity u reflected: u - 2 (u . n) n.
   */
  lemma RespondReflectsVelocity(s: State, distance: real)
    requires distance > 0.0
    ensures var r := Respond(s, distance);
            var nx, ny := (s.ballX - s.playerX) / distance, (s.ballY - s.playerY) / distance;
            var ux, uy := s.ballVx - s.playerVel, s.ballVy;
            var dot := ux * nx + uy * ny;
            && (r.ballVx - s.playerVel * Transfer) / Restitution - s.playerVel == ux - 2.0 * dot * nx
            && r.ballVy / Restitution == uy - 2.0 * dot * ny
  {
    var r := Respond(s, distance);
    var nx, ny := (s.ballX - s.playerX) / distance, (s.ballY - s.playerY) / distance;
    var dot := (s.ballVx - s.playerVel) * nx + s.ballVy * ny;
    assert r.ballVx == (s.ballVx - 2.0 * dot * nx) * Restitution + s.playerVel * Transfer;
    assert r.ballVy == (s.ballVy - 2.0 * dot * ny) * Restitution;
  }

  /** In a unit normal, the response negates the normal component of the relative velocity. */
  lemma RespondNegatesNormalPart(s: State, distance: real)
    requires distance > 0.0
    requires Sq((s.ballX - s.playerX) / distance) + Sq((s.ballY - s.playerY) / distance) == 1.0
    ensures var r := Respond(s, distance);
            var nx, ny := (s.ballX - s.playerX) / distance, (s.ballY - s.playerY) / distance;
            var ux, uy := s.ballVx - s.playerVel, s.ballVy;
            var wx := (r.ballVx - s.playerVel * Transfer) / Restitution - s.playerVel;
            var wy := r.ballVy / Restitution;
            wx * nx + wy * ny == -(ux * nx + uy * ny)
  {
    var r := Respond(s, distance);
    var nx, ny := (s.ballX - s.playerX) / distance, (s.ballY - s.playerY) / distance;
    var ux, uy := s.ballVx - s.playerVel, s.ballVy;
    var dot := ux * nx + uy * ny;
    var wx := (r.ballVx - s.playerVel * Transfer) / Restitution - s.playerVel;
    var wy := r.ballVy / Restitution;
    RespondReflectsVelocity(s, distance);
    ReflectNormal(ux, uy, nx, ny, dot, wx, wy);
  }

  /** In any normal, the response keeps the tangential component of the relative velocity. */
  lemma RespondKeepsTangentialPart(s: State, distance: real)
    requires distance > 0.0
    ensures var r := Respond(s, distance);
            var nx, ny := (s.ballX - s.playerX) / distance, (s.ballY - s.playerY) / distance;
            var ux, uy := s.ballVx - s.playerVel, s.ballVy;
            var wx := (r.ballVx - s.playerVel * Transfer) / Restitution - s.playerVel;
            var wy := r.ballVy / Restitution;
            wx * ny - wy * nx == ux * ny - uy * nx
  {
    var r := Respond(s, distance);
    var nx, ny := (s.ballX - s.playerX) / distance, (s.ballY - s.playerY) / distance;
    var ux, uy := s.ballVx - s.playerVel, s.ballVy;
    var dot := ux * nx + uy * ny;
    var wx := (r.ballVx - s.playerVel * Transfer) / Restitution - s.playerVel;
    var wy := r.ballVy / Restitution;
    RespondReflectsVelocity(s, distance);
    ReflectTangent(ux, uy, nx, ny, dot, wx, wy);
  }

  /** In a unit normal, the response keeps the length of the relative velocity. */
  lemma RespondKeepsRelativeSpeed(s: State, distance: real)
    requires distance > 0.0
    requires Sq((s.ballX - s.playerX) / distance) + Sq((s.ballY - s.playerY) / distance) == 1.0
    ensures var r := Respond(s, distance);
            var nx, ny := (s.ballX - s.playerX) / distance, (s.ballY - s.playerY) / distance;
            var ux, uy := s.ballVx - s.playerVel, s.ballVy;
            var wx := (r.ballVx - s.playerVel * Transfer) / Restitution - s.playerVel;
            var wy := r.ballVy / Restitution;
            Sq(wx) + Sq(wy) == Sq(ux) + Sq(uy)
  {
    var r := Respond(s, distance);
    var nx, ny := (s.ballX - s.playerX) / distance, (s.ballY - s.playerY) / distance;
    var ux, uy := s.ballVx - s.playerVel, s.ballVy;
    var dot := ux * nx + uy * ny;
    var wx := (r.ballVx - s.playerVel * Transfer) / Restitution - s.playerVel;
    var wy := r.ballVy / Restitution;
    RespondReflectsVelocity(s, distance);
    ReflectLength(ux, uy, nx, ny, dot, wx, wy);
  }

  /**
   * The response mirrors the ball's velocity relative to the player in the
   * contact normal: undoing the damping and the passed-on player velocity,
   * the relative velocity's normal component is negated, its tangential
   * component kept, and so its length kept.
   */
  lemma ResponseReflectsRelativeVelocity(s: State, distance: real)
    requires distance > 0.0
    requires distance * distance == SqDistance(s)
    ensures var r := Respond(s, distance);
            var nx, ny := (s.ballX - s.playerX) / distance, (s.ballY - s.playerY) / distance;
            var ux, uy := s.ballVx - s.playerVel, s.ballVy;
            var wx := (r.ballVx - s.playerVel * Transfer) / Restitution - s.playerVel;
            var wy := r.ballVy / Restitution;
            && wx * nx + wy * ny == -(ux * nx + uy * ny)
            && wx * ny - wy * nx == ux * ny - uy * nx
            && Sq(wx) + Sq(wy) == Sq(ux) + Sq(uy)
  {
    UnitNormal(s.ballX - s.playerX, s.ballY - s.playerY, distance);
    RespondNegatesNormalPart(s, distance);
    RespondKeepsTangentialPart(s, distance);
    RespondKeepsRelativeSpeed(s, distance);
  }

  // ---------------------------------------------------------------------
  // One tick

  /** With a true square root, a tick hits exactly when the centres are closer than 23 after the moves. */
  lemma TickHitIffClose(s: State, action: int, sqrt: real -> real)
    requires IsSqrt(sqrt)
    ensures TickHit(s, action, sqrt) <==> SqDistance(PreContact(s, action)) < Sq(ContactRange)
  {
    var q := SqDistance(PreContact(s, action));
    HitIffWithinRange(sqrt(q), q);
  }

  /** The closing clamp never changes anything: the bounces already put the ball in bounds. */
  lemma FinalClampIsNoOp(s: State)
    ensures ClampBall(BounceCeiling(BounceWalls(s))) == BounceCeiling(BounceWalls(s))
  {
  }

  /**
   * After a hit the ball ends the tick with vertical speed at least 6.4; it
   * is moving up at 8 or more unless it bounced off the ceiling in the same
   * tick. If the tick does not also terminate, the reward is at least 13.2.
   */
  lemma HitSendsBallUp(s: State, action: int, sqrt: real -> real)
    requires TickHit(s, action, sqrt)
    ensures var r := Tick(s, action, sqrt);
            && Abs(r.next.ballVy) >= MinBounce * CeilingRestitution
            && (r.next.ballVy <= -MinBounce || r.next.ballY == BallRadius)
            && (!r.terminated ==> r.reward >= HitReward + SpeedBonus * MinBounce * CeilingRestitution)
  {
  }

  /** The reward decomposes into the hit bonus and the floor penalty. */
  lemma TickReward(s: State, action: int, sqrt: real -> real)
    ensures var r := Tick(s, action, sqrt);
            r.reward == (if TickHit(s, action, sqrt) then HitReward + SpeedBonus * Abs(r.next.ballVy) else 0.0)
                        + (if r.terminated then -FloorPenalty else 0.0)
  {
  }

  lemma TickPreservesInv(s: State, action: int, sqrt: real -> real)
    requires Inv(s)
    ensures Inv(Tick(s, action, sqrt).next)
  {
  }

  /** Reaching the floor on the last allowed tick reports both end signals. */
  lemma FloorOnLastTick(sqrt: real -> real)
    requires IsSqrt(sqrt)
    ensures var r := Tick(State(100.0, 391.0, 0.0, 5.0, 300.0, PlayerSpawnY, 0.0, MaxSteps - 1), 2, sqrt);
            r.terminated && r.truncated && r.reward == -FloorPenalty
  {
    var s := State(100.0, 391.0, 0.0, 5.0, 300.0, PlayerSpawnY, 0.0, MaxSteps - 1);
    var moved := PreContact(s, 2);
    assert moved == State(100.0, 396.5, 0.0, 5.5, 300.0, PlayerSpawnY, 0.0, MaxSteps - 1);
    TickHitIffClose(s, 2, sqrt);
  }

  // ---------------------------------------------------------------------
  // The observation

  /** The observation loses only the player's height and the step counter. */
  lemma ObservationRoundTrip(s: State)
    ensures FromObservation(Observe(s), s.playerY, s.steps) == s
  {
  }

  // ---------------------------------------------------------------------
  // Runs of ticks

  /** The state after calling step once per action, in order. */
  function Run(s: State, actions: seq<int>, sqrt: real -> real): State
    decreases |actions|
  {
    if actions == [] then s else Run(Tick(s, actions[0], sqrt).next, actions[1..], sqrt)
  }

  lemma {:induction false} RunAppend(s: State, a: seq<int>, b: seq<int>, sqrt: real -> real)
    ensures Run(s, a + b, sqrt) == Run(Run(s, a, sqrt), b, sqrt)
    decreases |a|
  {
    if a != [] {
      var t := Tick(s, a[0], sqrt).next;
      assert (a + b)[0] == a[0];
      assert (a + b)[1..] == a[1..] + b;
      assert Run(s, a + b, sqrt) == Run(t, a[1..] + b, sqrt);
      assert Run(s, a, sqrt) == Run(t, a[1..], sqrt);
      RunAppend(t, a[1..], b, sqrt);
    } else {
      assert a + b == b;
    }
  }

  /** Each step counts one tick and leaves the player's height alone. */
  lemma {:induction false} RunCountsTicks(s: State, actions: seq<int>, sqrt: real -> real)
    ensures Run(s, actions, sqrt).steps == s.steps + |actions|
    ensures Run(s, actions, sqrt).playerY == s.playerY
    decreases |actions|
  {
    if actions != [] {
      RunCountsTicks(Tick(s, actions[0], sqrt).next, actions[1..], sqrt);
    }
  }

  /** Every state reached by at least one step is in bounds. */
  lemma {:induction false} RunInBounds(s: State, actions: seq<int>, sqrt: real -> real)
    requires actions != []
    ensures InBounds(Run(s, actions, sqrt))
    decreases |actions|
  {
    if |actions| > 1 {
      RunInBounds(Tick(s, actions[0], sqrt).next, actions[1..], sqrt);
    }
  }

  /** Running one more action is one more tick. */
  lemma {:induction false} RunSnoc(s: State, a: seq<int>, x: int, sqrt: real -> real)
    ensures Run(s, a + [x], sqrt) == Tick(Run(s, a, sqrt), x, sqrt).next
  {
    RunAppend(s, a, [x], sqrt);
    var t := Run(s, a, sqrt);
    assert [x][1..] == [];
    assert Run(t, [x], sqrt) == Run(Tick(t, x, sqrt).next, [], sqrt);
  }

  /** Counting from reset, the k-th step reaches the state after k steps and truncates exactly when k >= 5000. */
  lemma {:induction false} TruncatesAtMaxSteps(s: State, actions: seq<int>, sqrt: real -> real)
    requires s.steps == 0 && actions != []
    ensures var k := |actions|;
            var last := Tick(Run(s, actions[..k - 1], sqrt), actions[k - 1], sqrt);
            && last.next == Run(s, actions, sqrt)
            && (last.truncated <==> k >= MaxSteps)
  {
    var k := |actions|;
    var before := actions[..k - 1];
    RunCountsTicks(s, before, sqrt);
    RunSnoc(s, before, actions[k - 1], sqrt);
    assert before + [actions[k - 1]] == actions;
  }

  /**
   * 9 * 0.9^n: the largest speed left after n coasting ticks from the speed
   * limit (written with the literals of PlayerMaxSpeed and Friction so that
   * the verifier can evaluate it on small arguments).
   */
  function CoastBound(n: nat): (b: real)
    ensures b >= 0.0
  {
    if n == 0 then 9.0 else 0.9 * CoastBound(n - 1)
  }

  lemma {:induction false} CoastBoundShrinks(m: nat, n: nat)
    requires m <= n
    ensures CoastBound(n) <= CoastBound(m)
    decreases n
  {
    if n > m {
      CoastBoundShrinks(m, n - 1);
    }
  }

  /** The player's fields after one player tick per action: the ball never affects the player. */
  function PlayerRun(s: State, actions: seq<int>): State
    decreases |actions|
  {
    if actions == [] then s else PlayerRun(PlayerTick(s, actions[0]), actions[1..])
  }

  lemma {:induction false} RunMovesPlayerAlone(s: State, actions: seq<int>, sqrt: real -> real)
    ensures Run(s, actions, sqrt).playerX == PlayerRun(s, actions).playerX
    ensures Run(s, actions, sqrt).playerVel == PlayerRun(s, actions).playerVel
    decreases |actions|
  {
    if actions != [] {
      var t := Tick(s, actions[0], sqrt).next;
      var p := PlayerTick(s, actions[0]);
      RunMovesPlayerAlone(t, actions[1..], sqrt);
      PlayerRunDependsOnPlayer(t, p, actions[1..]);
    }
  }

  /** A player run reads only the player's position and velocity. */
  lemma {:induction false} PlayerRunDependsOnPlayer(s: State, t: State, actions: seq<int>)
    requires s.playerX == t.playerX && s.playerVel == t.playerVel
    ensures PlayerRun(s, actions).playerX == PlayerRun(t, actions).playerX
    ensures PlayerRun(s, actions).playerVel == PlayerRun(t, actions).playerVel
    decreases |actions|
  {
    if actions != [] {
      PlayerRunDependsOnPlayer(PlayerTick(s, actions[0]), PlayerTick(t, actions[0]), actions[1..]);
    }
  }

  /** 9 * 0.9^43 is about 0.097, below the snap threshold; 9 * 0.9^42 is about 0.108, above it. */
  lemma CoastBoundAt43()
    ensures CoastBound(43) < SnapBelow <= CoastBound(42)
  {
    var c := 0.3486784401;
    CoastBoundStride(3);
    CoastBoundStride(13);
    CoastBoundStride(23);
    CoastBoundStride(33);
    assert CoastBound(43) == c * (c * (c * (c * 6.561)));
    CoastBoundStride(2);
    CoastBoundStride(12);
    CoastBoundStride(22);
    CoastBoundStride(32);
    assert CoastBound(42) == c * (c * (c * (c * 7.29)));
  }

  /** Ten coasting ticks keep 0.9^10 of the bound. */
  lemma {:induction false} CoastBoundStride(n: nat)
    ensures CoastBound(n + 10) == 0.3486784401 * CoastBound(n)
  {
    if n > 0 {
      CoastBoundStride(n - 1);
    } else {
      assert CoastBound(10) == 0.3486784401 * 9.0;
    }
  }

  /** Coasting for n more ticks from a speed within CoastBound(k) leaves a speed within CoastBound(k + n). */
  lemma {:induction false} CoastDecay(s: State, actions: seq<int>, k: nat)
    requires forall i :: 0 <= i < |actions| ==> actions[i] == 2
    requires Abs(s.playerVel) <= CoastBound(k)
    ensures Abs(PlayerRun(s, actions).playerVel) <= CoastBound(k + |actions|)
    decreases |actions|
  {
    if actions != [] {
      CoastDecay(PlayerTick(s, 2), actions[1..], k + 1);
    }
  }

  /** A run of at least one player tick ends clamped and snapped. */
  lemma {:induction false} PlayerRunSnapped(s: State, actions: seq<int>)
    requires actions != []
    ensures PlayerRun(s, actions).playerVel == 0.0 || Abs(PlayerRun(s, actions).playerVel) >= SnapBelow
    decreases |actions|
  {
    if |actions| > 1 {
      PlayerRunSnapped(PlayerTick(s, actions[0]), actions[1..]);
    }
  }

  /**
   * Coasting from any velocity within the speed limit brings the player to
   * rest, exactly, within 43 ticks: 9 * 0.9^43 is below the snap threshold.
   */
  lemma {:induction false} CoastToRest(s: State, actions: seq<int>, sqrt: real -> real)
    requires -PlayerMaxSpeed <= s.playerVel <= PlayerMaxSpeed
    requires |actions| >= 43
    requires forall i :: 0 <= i < |actions| ==> actions[i] == 2
    ensures Run(s, actions, sqrt).playerVel == 0.0
  {
    RunMovesPlayerAlone(s, actions, sqrt);
    CoastDecay(s, actions, 0);
    PlayerRunSnapped(s, actions);
    CoastBoundShrinks(43, |actions|);
    CoastBoundAt43();
  }
}
