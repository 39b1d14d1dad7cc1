/**
 * The environment object itself: BallGameEnv keeps the simulation state in
 * fields that reset overwrites and step updates in place, one assignment at
 * a time, in the order the environment performs them. Each method is proved
 * to leave the object in the state the functions of BallPhysics compute.
 */
module BallGameEnvironment {
  import opened BallPhysics
  import BallPhysicsFacts

  class BallGameEnv {
    var ballX: real
    var ballY: real
    var ballVx: real
    var ballVy: real
    var playerX: real
    var playerY: real
    var playerVel: real
    var steps: int
    /** False until the first reset: before it there is no state to step. */
    var hasState: bool

    /** The fields as a State value. */
    function Current(): State
      reads this
    {
      State(ballX, ballY, ballVx, ballVy, playerX, playerY, playerVel, steps)
    }

    /** The object holds a state that reset could have produced or step reached. */
    ghost predicate Valid()
      reads this
    {
      hasState && Inv(Current())
    }

    /** A new environment has a step counter of 0 and no state yet. */
    constructor ()
      ensures !hasState && steps == 0
    {
      ballX, ballY, ballVx, ballVy := 0.0, 0.0, 0.0, 0.0;
      playerX, playerY, playerVel := 0.0, 0.0, 0.0;
      steps := 0;
      hasState := false;
    }

    /**
     * reset: zero the step counter and draw a fresh state. The five draws of
     * random.random() that random.uniform consumes are the parameters.
     */
    method Reset(uBallX: real, uBallY: real, uBallVx: real, uBallVy: real, uPlayerX: real)
      returns (obs: seq<real>)
      requires 0.0 <= uBallX < 1.0 && 0.0 <= uBallY < 1.0 && 0.0 <= uBallVx < 1.0
      requires 0.0 <= uBallVy < 1.0 && 0.0 <= uPlayerX < 1.0
      modifies this
      ensures hasState
      ensures Current() == InitialState(uBallX, uBallY, uBallVx, uBallVy, uPlayerX)
      ensures Valid()
      ensures obs == Observe(Current())
    {
      steps := 0;
      ballX := Uniform(BallRadius, Width - BallRadius, uBallX);
      ballY := Uniform(BallRadius, Height / 2.0, uBallY);
      ballVx := Uniform(-5.0, 5.0, uBallVx);
      ballVy := Uniform(-2.0, 0.0, uBallVy);
      playerX := Uniform(PlayerRadius, Width - PlayerRadius, uPlayerX);
      playerY := PlayerSpawnY;
      playerVel := 0.0;
      hasState := true;
      obs := Observe(Current());
    }

    /**
     * step: move the player, apply gravity, resolve a contact with the
     * player, bounce off the walls and the ceiling, count the step and score
     * it. The square root the collision test uses is the parameter `sqrt`.
     */
    method Step(action: int, sqrt: real -> real)
      returns (obs: seq<real>, reward: real, terminated: bool, truncated: bool)
      requires hasState
      modifies this
      ensures hasState
      ensures Current() == Tick(old(Current()), action, sqrt).next
      ensures reward == Tick(old(Current()), action, sqrt).reward
      ensures terminated == Tick(old(Current()), action, sqrt).terminated
      ensures truncated == Tick(old(Current()), action, sqrt).truncated
      ensures obs == Observe(Current())
      ensures old(Valid()) ==> Valid()
    {
      ghost var start := Current();
      MovePlayerStep(action);
      MoveBallStep();
      var hit := CollideStep(sqrt);
      BounceStep();
      steps := steps + 1;

      // Reward and episode end
      reward := 0.0;
      if hit {
        reward := reward + HitReward;
        reward := reward + Abs(ballVy) * SpeedBonus;
      }
      terminated := ballY >= Height - BallRadius;
      truncated := steps >= MaxSteps;
      if terminated {
        reward := reward - FloorPenalty;
      }
      obs := Observe(Current());
      if Inv(start) {
        BallPhysicsFacts.TickPreservesInv(start, action, sqrt);
      }
    }

    /** The player part of step: control, clip, snap, move, stop at a wall. */
    method MovePlayerStep(action: int)
      modifies this
      ensures Current() == PlayerTick(old(Current()), action)
      ensures hasState == old(hasState)
    {
      ControlStep(action);
      WallStopStep();
    }

    /** Accelerate or coast, then clip to the speed limit and snap small speeds to zero. */
    method ControlStep(action: int)
      modifies this
      ensures Current() == old(Current()).(playerVel := ControlVelocity(old(playerVel), action))
      ensures hasState == old(hasState)
    {
      if action == 0 {
        playerVel := playerVel - PlayerAcc;
      } else if action == 1 {
        playerVel := playerVel + PlayerAcc;
      } else if action == 2 {
        playerVel := playerVel * Friction;
      }
      playerVel := Clip(playerVel, -PlayerMaxSpeed, PlayerMaxSpeed);
      if Abs(playerVel) < SnapBelow {
        playerVel := 0.0;
      }
    }

    /** Move the player by its velocity and stop it dead at a wall. */
    method WallStopStep()
      modifies this
      ensures Current() == MovePlayer(old(Current()))
      ensures hasState == old(hasState)
    {
      playerX := playerX + playerVel;
      if playerX < PlayerRadius {
        playerX := PlayerRadius;
        playerVel := 0.0;
      } else if playerX > Width - PlayerRadius {
        playerX := Width - PlayerRadius;
        playerVel := 0.0;
      }
    }

    /** Gravity, then the ball moves by its new velocity. */
    method MoveBallStep()
      modifies this
      ensures Current() == MoveBall(old(Current()))
      ensures hasState == old(hasState)
    {
      ballVy := ballVy + Gravity;
      ballX := ballX + ballVx;
      ballY := ballY + ballVy;
    }

    /** The collision test and response; the result says whether it was a hit. */
    method CollideStep(sqrt: real -> real) returns (hit: bool)
      modifies this
      ensures hit == IsHit(ContactDistance(old(Current()), sqrt))
      ensures Current() == Collide(old(Current()), ContactDistance(old(Current()), sqrt))
      ensures hasState == old(hasState)
    {
      hit := false;
      var dx := ballX - playerX;
      var dy := ballY - playerY;
      var distance := sqrt(Sq(dx) + Sq(dy));
      assert distance == ContactDistance(Current(), sqrt);
      if distance < ContactRange {
        hit := true;
        if distance > 0.0 {
          RespondStep(distance);
        }
        ballVy := Min(ballVy, -MinBounce);
      }
    }

    /** The contact response at a positive centre distance. */
    method RespondStep(distance: real)
      requires distance > 0.0
      modifies this
      ensures Current() == Respond(old(Current()), distance)
      ensures hasState == old(hasState)
    {
      var nx := (ballX - playerX) / distance;
      var ny := (ballY - playerY) / distance;
      var overlap := ContactRange - distance;
      ballX := ballX + nx * overlap * PushOut;
      ballY := ballY + ny * overlap * PushOut;
      var relVx := ballVx - playerVel;
      var relVy := ballVy;
      var dot := relVx * nx + relVy * ny;
      ballVx := ballVx - 2.0 * dot * nx;
      ballVy := ballVy - 2.0 * dot * ny;
      ballVx := ballVx * Restitution;
      ballVy := ballVy * Restitution;
      ballVx := ballVx + playerVel * Transfer;
    }

    /** Wall bounces, the ceiling bounce and the final clamp of the ball. */
    method BounceStep()
      modifies this
      ensures Current() == ClampBall(BounceCeiling(BounceWalls(old(Current()))))
      ensures hasState == old(hasState)
    {
      if ballX <= BallRadius {
        ballX := BallRadius;
        ballVx := -ballVx * WallRestitution;
      } else if ballX >= Width - BallRadius {
        ballX := Width - BallRadius;
        ballVx := -ballVx * WallRestitution;
      }
      if ballY <= BallRadius {
        ballY := BallRadius;
        ballVy := -ballVy * CeilingRestitution;
      }
      ballX := Clip(ballX, BallRadius, Width - BallRadius);
      ballY := Max(BallRadius, ballY);
    }
  }
}
