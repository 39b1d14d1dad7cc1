# Ball game environment: a verified model of one tick

This project models `BallGameEnv` of the ppo-ball repository. That is the
reinforcement-learning environment in which a player at the bottom of a
400 × 400 arena keeps a falling ball in the air. The project covers:

- the constants set in `__init__`;
- `reset`, which draws a fresh state;
- `step`, one tick of the simulation: player control and movement, gravity, circle collision between ball and player with a reflecting response, wall and ceiling bounces, a final clamp, the step counter, the reward and the two end signals;
- `_get_obs`, the six-element observation.

Two files:

- `physics.dfy`
  - Module `BallPhysics` holds the state as a value (`State`) and one function per stage of a tick, in the order `step` applies them. `Tick` composes the stages. `InitialState` is the state `reset` builds.
  - Module `BallPhysicsFacts` proves properties about these: contact geometry, one tick, the observation, and runs of many ticks.
- `env.dfy`: module `BallGameEnvironment` holds the class `BallGameEnv`. Its `real` fields are the environment's state. `Reset` and `Step` update them in place, field by field, as the Python code does. Each method is proved to leave the object in the state `InitialState` or `Tick` computes, and to keep the invariant `Valid`.

Arithmetic is exact (`real`). `math.sqrt` becomes a parameter `sqrt: real -> real`. The lemmas that depend on its value require `IsSqrt(sqrt)`: `sqrt` returns the non-negative root of every non-negative number. `random.uniform(a, b)` is `a + (b - a) * u`, with the draw `u ∈ [0, 1)` of `random.random()` passed in.

Some consequences of the code that a reader might not expect:

- The ball's x stays in [8, 392]; its y is bounded below only, at 8 (`BallPhysics.InBounds`).
- `terminated` and `truncated` are computed independently (lines 129-130). `BallPhysicsFacts.FloorOnLastTick` exhibits a tick that reports both.
- The final clamp of lines 120-121 never changes anything, because the bounces before it already put the ball in bounds (`BallPhysicsFacts.FinalClampIsNoOp`).
- The wall stop zeroes the player's velocity only when its x goes strictly past a wall (lines 73 and 76). A player that lands exactly on x = 15 keeps its velocity (`BallPhysics.MovePlayer`).

## Model

| member | source | states |
|---|---|---|
| BallPhysics.ControlVelocity | ball_game_env.py:61-69 | the new player velocity lies in [-9, 9] and is exactly 0 or at least 0.1 in size; coasting (action 2) keeps at most 90% of the speed; within the limit, left never increases and right never decreases the velocity; an action other than 0, 1, 2 keeps an already clamped and snapped velocity |
| BallPhysics.MovePlayer | ball_game_env.py:70-78 | player x ends in [15, 385]; inside the walls the player moves by its velocity; strictly past a wall it is set onto the wall with velocity 0 |
| BallPhysics.PlayerTick | ball_game_env.py:61-78 | the player's part of a tick keeps x in [15, 385], leaves a velocity that is 0 or the controlled velocity, and changes no field besides player x and velocity |
| BallPhysics.MoveBall | ball_game_env.py:81-82 | gravity adds 0.5 to the vertical velocity first, then the position moves by the updated velocity; nothing else changes |
| BallPhysics.PreContact | ball_game_env.py:61-82 | the moves before the collision test leave player y and the counter alone and take the player fields from the player tick |
| BallPhysics.Clip | ball_game_env.py:67 | numpy's clip: the result lies in [lo, hi], is x inside that range, lo below it and hi above it (also used at line 120) |
| BallPhysics.ContactDistance | ball_game_env.py:87 | with a true root, the distance is non-negative and its square is the squared centre distance |
| BallPhysics.IsHit | ball_game_env.py:88 | a hit is a centre distance below 23, the sum of the radii 8 and 15 |
| BallPhysics.SqDistance | ball_game_env.py:85-87 | the squared centre distance is non-negative |
| BallPhysics.Respond | ball_game_env.py:89-103 | the contact response changes only the ball: player fields and counter are kept |
| BallPhysics.Collide | ball_game_env.py:84-104 | no hit leaves the state unchanged; any hit, including the zero-distance case that skips the response, leaves vertical velocity at most -8; a hit at distance 0 only applies that bound; a hit at positive distance is the response followed by the bound; the player is untouched |
| BallPhysics.BounceWalls | ball_game_env.py:107-112 | ball x ends in [8, 392]; at or past the left wall, or at or past the right wall (never both), x is set onto that wall and vx becomes -0.9 vx; otherwise nothing changes |
| BallPhysics.BounceCeiling | ball_game_env.py:115-117 | ball y ends at 8 or more; at or above the ceiling y is set to 8 and vy becomes -0.8 vy; otherwise nothing changes |
| BallPhysics.ClampBall | ball_game_env.py:120-121 | the ball ends in bounds, only its position can change, and a ball already in bounds is untouched |
| BallPhysics.Reward | ball_game_env.py:125-132 | no hit: 0, or -100 on termination; a hit gives at least 10 more than that; a hit with vertical speed 6.4 or more and no termination gives at least 13.2 |
| BallPhysics.Tick | ball_game_env.py:56-136 | one tick adds 1 to the counter, keeps player y, ends in bounds; terminated iff final ball y ≥ 392, truncated iff the new count ≥ 5000; the player fields are those of the player tick |
| BallPhysics.Observe | ball_game_env.py:138-140 | the observation has six components |
| BallPhysics.FromObservation | ball_game_env.py:138-140 | reading a state back from six components and re-observing it gives those components |
| BallPhysics.Uniform | ball_game_env.py:36-44 | random.uniform(a, b) from a draw in [0, 1) lies in [a, b], and below b when a < b |
| BallPhysics.InitialState | ball_game_env.py:33-51 | reset's state has counter 0, player velocity 0, player y 380, player x in [15, 385], ball x in [8, 392], ball y in [8, 200], vx in [-5, 5], vy in [-2, 0], and satisfies the invariant |
| BallPhysicsFacts.HitIffWithinRange | ball_game_env.py:85-88 | with a true root, the hit test holds iff the squared distance is below 23² |
| BallPhysicsFacts.UnitNormal | ball_game_env.py:90-91 | the offset divided by its length is a unit vector |
| BallPhysicsFacts.RespondMovesBall | ball_game_env.py:91-95 | the response moves the ball by the normal (offset / distance) scaled by 1.1 × overlap, in each coordinate |
| BallPhysicsFacts.RespondPushesAlongNormal | ball_game_env.py:91-95 | for a unit normal, the ball's move has length 1.1 × overlap, all of it along the normal |
| BallPhysicsFacts.RespondNewDistance | ball_game_env.py:91-95 | for a unit normal, the ball ends at squared centre distance (distance + 1.1 × overlap)² |
| BallPhysicsFacts.PushOutSeparates | ball_game_env.py:90-95 | the response moves the ball along the unit normal by 1.1 × overlap (that length, all of it along the normal); the new centre distance is distance + 1.1 × overlap, beyond the contact range |
| BallPhysicsFacts.RespondReflectsVelocity | ball_game_env.py:96-103 | undoing the 0.9 damping and the 0.3 share of player velocity leaves the relative velocity u reflected: u - 2 (u · n) n |
| BallPhysicsFacts.RespondNegatesNormalPart | ball_game_env.py:96-103 | for a unit normal, the response negates the normal component of the relative velocity |
| BallPhysicsFacts.RespondKeepsTangentialPart | ball_game_env.py:96-103 | the response keeps the tangential component of the relative velocity |
| BallPhysicsFacts.RespondKeepsRelativeSpeed | ball_game_env.py:96-103 | for a unit normal, the response keeps the length of the relative velocity |
| BallPhysicsFacts.ResponseReflectsRelativeVelocity | ball_game_env.py:96-103 | undoing the 0.9 damping and the 0.3 share of player velocity, the relative velocity's normal component is negated, its tangential component is kept, and its length is kept: a mirror reflection in the normal |
| BallPhysicsFacts.TickHitIffClose | ball_game_env.py:84-88 | with a true root, a tick hits iff after the moves the squared centre distance is below 23² |
| BallPhysicsFacts.FinalClampIsNoOp | ball_game_env.py:106-121 | after the wall and ceiling bounces the final clamp changes nothing |
| BallPhysicsFacts.HitSendsBallUp | ball_game_env.py:88-132 | after a hit the tick ends with vertical speed at least 6.4, moving up at 8 or more unless the ceiling bounced it; without termination the reward is at least 13.2 |
| BallPhysicsFacts.TickReward | ball_game_env.py:125-132 | the reward is exactly (hit ? 10 + 0.5·abs(final vy) : 0) + (terminated ? -100 : 0) |
| BallPhysicsFacts.TickPreservesInv | ball_game_env.py:56-136 | a tick from a state satisfying the invariant yields one satisfying it |
| BallPhysicsFacts.FloorOnLastTick | ball_game_env.py:122-132 | a ball reaching the floor on tick 5000 reports terminated and truncated together, with reward -100 |
| BallPhysicsFacts.ObservationRoundTrip | ball_game_env.py:138-140 | the observation determines the state up to player y and the counter: exactly [ball x, ball y, ball vx, ball vy, player x, player velocity] |
| BallPhysicsFacts.RunAppend | ball_game_env.py:56-136 | stepping through a + b is stepping through a, then b (used to split off the last step in TruncatesAtMaxSteps) |
| BallPhysicsFacts.RunSnoc | ball_game_env.py:56-136 | stepping through a + [x] is one more tick after stepping through a |
| BallPhysicsFacts.RunCountsTicks | ball_game_env.py:122 | n steps add n to the counter and keep player y |
| BallPhysicsFacts.RunInBounds | ball_game_env.py:120-121 | every state reached by at least one step is in bounds, from any start |
| BallPhysicsFacts.TruncatesAtMaxSteps | ball_game_env.py:122-130 | counting from reset, the k-th step leads to the state after k steps, and it reports truncation iff k ≥ 5000 |
| BallPhysicsFacts.RunMovesPlayerAlone | ball_game_env.py:61-78 | over any run the player's position and velocity evolve independently of the ball |
| BallPhysicsFacts.PlayerRunDependsOnPlayer | ball_game_env.py:61-78 | the player's evolution reads only the player's position and velocity |
| BallPhysicsFacts.CoastDecay | ball_game_env.py:65-68 | each coasting tick keeps at most 90% of the speed bound |
| BallPhysicsFacts.PlayerRunSnapped | ball_game_env.py:68-69 | after at least one tick the velocity is 0 or at least 0.1 in size |
| BallPhysicsFacts.CoastBoundShrinks | ball_game_env.py:65-66 | the coasting speed bound 9·0.9ⁿ never grows with n |
| BallPhysicsFacts.CoastBoundAt43 | ball_game_env.py:65-69 | 9·0.9⁴³ is below the snap threshold 0.1 and 9·0.9⁴² is not |
| BallPhysicsFacts.CoastToRest | ball_game_env.py:65-69 | from any velocity within the limit, 43 or more coasting steps leave the player exactly at rest |
| BallGameEnvironment.BallGameEnv.constructor | ball_game_env.py:9-27 | a new environment has counter 0 and no state until reset |
| BallGameEnvironment.BallGameEnv.Reset | ball_game_env.py:33-54 | the fields become InitialState of the draws, the object is valid, and the observation is that of the new state |
| BallGameEnvironment.BallGameEnv.Step | ball_game_env.py:56-136 | the fields, reward, terminated and truncated become those of Tick on the old fields; the observation is that of the new state; a valid object stays valid |
| BallGameEnvironment.BallGameEnv.MovePlayerStep | ball_game_env.py:61-78 | the in-place player update leaves the fields equal to PlayerTick of the old ones |
| BallGameEnvironment.BallGameEnv.ControlStep | ball_game_env.py:61-69 | the in-place control update leaves only the player velocity changed, to ControlVelocity of the old one |
| BallGameEnvironment.BallGameEnv.WallStopStep | ball_game_env.py:70-78 | the in-place move and wall stop leave the fields equal to MovePlayer of the old ones |
| BallGameEnvironment.BallGameEnv.MoveBallStep | ball_game_env.py:81-82 | the in-place gravity and integration leave the fields equal to MoveBall of the old ones |
| BallGameEnvironment.BallGameEnv.CollideStep | ball_game_env.py:84-104 | the in-place collision reports whether it was a hit and leaves the fields equal to Collide of the old ones |
| BallGameEnvironment.BallGameEnv.RespondStep | ball_game_env.py:89-103 | the in-place response leaves the fields equal to Respond of the old ones |
| BallGameEnvironment.BallGameEnv.BounceStep | ball_game_env.py:106-121 | the in-place bounces and clamp leave the fields equal to ClampBall(BounceCeiling(BounceWalls(old))) |

## Left out

- `render` and `close` (pygame drawing and window I/O) are not modelled.
- `seed` and the random source are not modelled. `reset` takes the five `random.random()` draws as parameters instead. Its `seed` argument only seeds the gymnasium generator, which the draws never use.
- Floating point is not modelled. There is no float32 rounding of the numpy arrays, and numpy `clip`, `concatenate` and the `np.float32` and `int` types are exact reals. So the model makes no claim about exact floating-point results.
- `math.sqrt` is not modelled exactly. It is the parameter `sqrt`, and the lemmas that need a true root require `IsSqrt(sqrt)`.
- The gymnasium spaces (`Discrete(3)` and the `Box` bounds) are not modelled. They are advertised and never enforced, so `action` is any integer and the observation is not clamped.
- The `info` dictionary, which is always empty, is not modelled.
- `render_mode` is not modelled; it only decides whether `render` is called.
- BallGameEnvironment.BallGameEnv.Step: requires a previous `Reset` (`hasState`). In the source, `step` before `reset` fails on the missing state dictionary; the model does not reproduce that failure.
- BallPhysics.Respond: its own contract only says that the player and the counter are kept. The geometry of the response is stated by `PushOutSeparates`, `ResponseReflectsRelativeVelocity` and the lemmas they are built from.
- The training, testing and learner scripts are not part of this model. They drive the environment through stable-baselines3 and pygame and contain no logic of their own.
