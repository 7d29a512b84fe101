# Kotlin turtle graphics: the animation engine, in Dafny

This project models the core of a small Kotlin turtle-graphics library. User code drives a
`Turtle` handle. Each command (move, turn, pen, colours, speed, fill) is applied at once to
the handle's logical state, and an instruction is appended to a FIFO queue shared with the
turtle's `TurtleScreen` (for the fill flag, only when it changes). On every animation pulse the screen measures the time since the
previous pulse, visits the turtles in registration order, and drains each queue under two
budgets: a time quota equal to the frame length and an instruction quota of 10000. Moves
and rotations interpolate at the turtle's speed. A motion that does not fit in the time left
is carried out partially and stays at the head of the queue. Every other instruction takes
effect at once. A move with the pen down draws a line on the main canvas. `TurtleCanvas`
hands out consecutive integer ids to turtles.

Files and modules:

- `vec2.dfy`, module `Vectors`: the immutable `Vec2` and its operators.
- `instructions.dfy`, module `Instructions`: colours, speeds, the instruction type, the turtle
  state record, degree/radian conversion, and the shared queue as a class.
- `animation.dfy`, module `Animation`: one iteration of the frame loop (`Step`) and the whole
  loop for one turtle (`Drain`), with the imperative `DrainQueue` proved equal to it. Also the
  completed effect of an instruction (`Apply`) and of a queue (`Replay`), which the
  interpolation converges to.
- `screen.dfy`, module `Screen`: `TurtleScreen` as a class. It holds the registry, the
  rendered states and queues in insertion order, the strokes drawn, and the frame loop
  (`Draw`, `Tick`), proved equal to the pure `DrawFrame`.
- `turtle.dfy`, module `Handle`: the `Turtle` class. Its invariant `Valid` says the handle
  is registered on its screen and that its logical state is where the rendered state is
  heading: replaying the queued instructions on the rendered state gives the logical state,
  apart from the fill flag, which only the handle keeps.
  Every setter keeps this, and so does every screen frame.
- `canvas.dfy`, module `Canvas`: `TurtleCanvas`'s id registry.

`Double`s are modelled as `real`. `kotlin.math.sqrt`, `cos` and `sin` are foreign calls:
they are parameters of the members that use them. The length facts are proved for any
`sqrt` that is a true square root (`IsSqrt`). Infinite speed is the constructor `Infinite`.

## Behaviour worth knowing

- `lastFrame` starts at 0, so the first pulse animates a frame of `t - 0` nanoseconds (`Tick`).
- A segment is drawn whenever the pen is down, even at size 0 (`StepStroke`).
- The frame loop's `when` has no branch for `BEGIN_FILL` or `END_FILL`. Both markers are
  popped and change nothing (`Apply`, `ApplyIgnoresFill`), and `fillPoints` is never touched.
- The per-frame instruction limit is 10000 (`InstructionLimit`).
- The frame loop reads `state.x` and `state.y`, but `TurtleState` only has `pos`. These
  are modelled as `pos.x` and `pos.y`.
- `Turtle`'s initialiser assigns the `Pair` returned by `addTurtle` to a `Queue`. The model
  keeps the pair's queue, the evidently intended value. The id is discarded, as in the code.
- The default speed `TURTLE_SPEED_SCALE` is not declared anywhere. The model uses the
  declared `SPEED_SCALE` (1000).
- `Vec2` is declared twice, identically, in `Vec2.kt` and `TurtleScreen.kt`. It is modelled once.
- A rotation moves along the raw difference `target - heading`, not the shorter way round.
  The handle queues the unfolded target: `left(20)` from heading 350 turns forward to 370,
  and only the completed rotation folds the heading back to 10.

## Model

| member | source | states |
|---|---|---|
| Vectors.Vec2.Plus | src/main/kotlin/josfg333/projects/turtle/Vec2.kt:8 | `plus` adds componentwise |
| Vectors.Vec2.Minus | src/main/kotlin/josfg333/projects/turtle/Vec2.kt:9 | `minus` subtracts componentwise |
| Vectors.Vec2.Times | src/main/kotlin/josfg333/projects/turtle/Vec2.kt:11 | `times` multiplies both components by the scalar |
| Vectors.Vec2.Length | src/main/kotlin/josfg333/projects/turtle/Vec2.kt:6 | `length()` is `sqrt(x*x + y*y)`; `sqrt` is passed in, and `LengthIsNorm` states what it gives for a true square root |
| Vectors.ScaleLeft | src/main/kotlin/josfg333/projects/turtle/Vec2.kt:13 | `Double.times(Vec2)` delegates to the vector's `times` |
| Vectors.PlusMinusCancel | src/main/kotlin/josfg333/projects/turtle/Vec2.kt:8-9 | adding a vector and then subtracting it gives back the original |
| Vectors.MinusSelf | src/main/kotlin/josfg333/projects/turtle/Vec2.kt:9 | a vector minus itself is the default `Vec2()` |
| Vectors.TimesIdentityAndZero | src/main/kotlin/josfg333/projects/turtle/Vec2.kt:11 | scaling by 1 is the identity; scaling by 0 gives the zero vector |
| Vectors.ScaleCommutes | src/main/kotlin/josfg333/projects/turtle/Vec2.kt:13 | `Double.times(Vec2)` is the vector's own `times`, component by component |
| Vectors.LengthIsNorm | src/main/kotlin/josfg333/projects/turtle/Vec2.kt:6 | `length()` is non-negative, squares to `x*x + y*y`, and is zero exactly for the zero vector |
| Vectors.LengthScaled | src/main/kotlin/josfg333/projects/turtle/Vec2.kt:6-11 | scaling by `k >= 0` multiplies `length()` by `k` |
| Instructions.Radians | src/main/kotlin/josfg333/projects/turtle/Turtle.kt:8 | `radians(d)` is `PI * d / 180` |
| Instructions.Degrees | src/main/kotlin/josfg333/projects/turtle/Turtle.kt:9 | `degrees(r)` is `180 * r / PI` |
| Instructions.DegreesRadiansRoundTrip | src/main/kotlin/josfg333/projects/turtle/Turtle.kt:8-9 | `degrees` and `radians` are inverse to each other |
| Instructions.InstructionQueue.constructor | src/main/kotlin/josfg333/projects/turtle/TurtleScreen.kt:81 | a new queue is empty |
| Instructions.InstructionQueue.Add | src/main/kotlin/josfg333/projects/turtle/Turtle.kt:152 | `add` appends at the tail, keeping the earlier instructions in order |
| Instructions.InstructionQueue.IsEmpty | src/main/kotlin/josfg333/projects/turtle/TurtleScreen.kt:100 | true exactly when nothing is queued |
| Instructions.InstructionQueue.Peek | src/main/kotlin/josfg333/projects/turtle/TurtleScreen.kt:101 | returns the oldest instruction without removing it |
| Instructions.InstructionQueue.Remove | src/main/kotlin/josfg333/projects/turtle/TurtleScreen.kt:160 | removes and returns the oldest instruction, leaving the rest in order |
| Animation.Rem360 | src/main/kotlin/josfg333/projects/turtle/TurtleScreen.kt:151 | Kotlin's truncating `% 360`: the result lies strictly inside (-360, 360) and has the sign of the dividend |
| Animation.Rem360WholeTurns | src/main/kotlin/josfg333/projects/turtle/TurtleScreen.kt:151 | `% 360` takes off only whole turns |
| Animation.NormalizeDegrees | src/main/kotlin/josfg333/projects/turtle/TurtleScreen.kt:151 | a folded heading lies in [0, 360) |
| Animation.NormalizeIsRemainderFormula | src/main/kotlin/josfg333/projects/turtle/TurtleScreen.kt:151 | `((h % 360) + 360) % 360` is the unique value in [0, 360) that differs from `h` by whole turns |
| Animation.NormalizeWholeTurns | src/main/kotlin/josfg333/projects/turtle/TurtleScreen.kt:151 | folding changes a heading only by whole turns |
| Animation.NormalizeUnique | src/main/kotlin/josfg333/projects/turtle/TurtleScreen.kt:151 | any value in [0, 360) that differs from `h` by whole turns is the folded `h` |
| Animation.NormalizeKeepsRange | src/main/kotlin/josfg333/projects/turtle/TurtleScreen.kt:151 | a heading already in [0, 360) is left unchanged |
| Animation.NormalizeIdempotent | src/main/kotlin/josfg333/projects/turtle/TurtleScreen.kt:151 | folding twice is folding once |
| Animation.Apply | src/main/kotlin/josfg333/projects/turtle/TurtleScreen.kt:104-158 | the completed effect of one instruction: a move sets the position, a rotation sets the folded target heading, the `when` branches at 153-158 set their field, and fill markers change nothing |
| Animation.Replay | src/main/kotlin/josfg333/projects/turtle/TurtleScreen.kt:100-161 | the state reached once every queued instruction has completed, applied in FIFO order |
| Animation.MoveTime | src/main/kotlin/josfg333/projects/turtle/TurtleScreen.kt:115 | the time a move of `distance` charges: `distance / speed`, zero at infinite speed |
| Animation.TurnTime | src/main/kotlin/josfg333/projects/turtle/TurtleScreen.kt:146 | the time a turn of `distance` degrees charges: `distance / (speed * ROTATION_SPEED_SCALE)`, zero at infinite speed |
| Animation.MoveToward | src/main/kotlin/josfg333/projects/turtle/TurtleScreen.kt:113 | the partial end point `currentPos + movement*(maxDistance/targetDistance)`; `MoveTowardBetween` places it on the segment |
| Animation.TurnToward | src/main/kotlin/josfg333/projects/turtle/TurtleScreen.kt:144 | the partial heading `heading + movement*(maxDistance/targetDistance)`; `TurnTowardBetween` places it between start and target |
| Animation.Cost | src/main/kotlin/josfg333/projects/turtle/TurtleScreen.kt:115 | the time an instruction charges: `distance / speed` for a move, `angle / (speed * ROTATION_SPEED_SCALE)` for a rotation (146), zero at infinite speed and for every other instruction |
| Animation.TimeNeeded | src/main/kotlin/josfg333/projects/turtle/TurtleScreen.kt:100-161 | the total time a queue charges when its instructions complete one after another |
| Animation.MoveStep | src/main/kotlin/josfg333/projects/turtle/TurtleScreen.kt:104-133 | the `MOVE_TO` branch: end on the target when `targetDistance <= maxDistance`, else at `currentPos + movement*(maxDistance/targetDistance)`; charge `targetDistance/speed`; a line from the old to the new position when the pen is down; done when the end is the target |
| Animation.RotateStep | src/main/kotlin/josfg333/projects/turtle/TurtleScreen.kt:136-152 | the `ROTATE_TO` branch: end on the target when the angle fits, else part way along the raw difference; charge the angle over the rotation speed; fold the heading into [0, 360) only when done |
| Animation.Step | src/main/kotlin/josfg333/projects/turtle/TurtleScreen.kt:103-160 | one loop iteration: dispatch on the instruction type; every other instruction is applied at once, costs nothing and is done |
| Animation.Drain | src/main/kotlin/josfg333/projects/turtle/TurtleScreen.kt:100 | the loop guard: stop, leaving state and queue as they are, when the queue is empty, the instruction quota is spent or the time quota is not positive |
| Animation.Iterate | src/main/kotlin/josfg333/projects/turtle/TurtleScreen.kt:101-161 | the loop body: step on the head, pop it only when done (an unfinished motion `continue`s without `remove`), and keep the lines in order |
| Animation.ReplayAppend | src/main/kotlin/josfg333/projects/turtle/TurtleScreen.kt:103-160 | completing `q + [i]` is completing `q` and then `i` |
| Animation.ReachIffInTime | src/main/kotlin/josfg333/projects/turtle/TurtleScreen.kt:109-115 | the target is within `timeQuota * speed` exactly when `distance / speed` fits in the quota |
| Animation.Overdraws | src/main/kotlin/josfg333/projects/turtle/TurtleScreen.kt:109-115 | a motion out of reach leaves the time quota negative |
| Animation.StepCharges | src/main/kotlin/josfg333/projects/turtle/TurtleScreen.kt:104-147 | each iteration charges the instruction's full time, even when it is only partly carried out |
| Animation.StepInstant | src/main/kotlin/josfg333/projects/turtle/TurtleScreen.kt:153-160 | instructions other than motions, and any instruction at infinite speed, complete at once, cost no time and leave their completed effect |
| Animation.StepOutcome | src/main/kotlin/josfg333/projects/turtle/TurtleScreen.kt:103-160 | a completed iteration leaves the completed effect; an incomplete one is a motion at finite speed that overdraws the quota and still leads to the same completed state |
| Animation.MoveOutcome | src/main/kotlin/josfg333/projects/turtle/TurtleScreen.kt:104-133 | a move changes only the position; a completed move ends on the target; an incomplete one overdraws the quota |
| Animation.RotateOutcome | src/main/kotlin/josfg333/projects/turtle/TurtleScreen.kt:136-152 | a rotation changes only the heading; a completed rotation leaves the folded target; an incomplete one overdraws the quota |
| Animation.StepStroke | src/main/kotlin/josfg333/projects/turtle/TurtleScreen.kt:117-128 | a line is drawn exactly for a move with the pen down: from the old position to the new one, in the pen's size and colour |
| Animation.RotateCompletes | src/main/kotlin/josfg333/projects/turtle/TurtleScreen.kt:150-151 | a completed rotation leaves the target folded into [0, 360) |
| Animation.RotatePartial | src/main/kotlin/josfg333/projects/turtle/TurtleScreen.kt:138-150 | a rotation out of reach turns by exactly the reachable angle along the raw difference, stops strictly between start and target, and stays queued |
| Animation.TurnTowardBetween | src/main/kotlin/josfg333/projects/turtle/TurtleScreen.kt:141-143 | the interpolated heading is exactly `reach` away from the start and strictly between start and target |
| Animation.MoveCompletes | src/main/kotlin/josfg333/projects/turtle/TurtleScreen.kt:104-133 | a move within reach ends on the target and leaves `timeQuota - distance / speed >= 0` |
| Animation.MovePartial | src/main/kotlin/josfg333/projects/turtle/TurtleScreen.kt:110-133 | a move out of reach travels exactly `timeQuota * speed` along the segment, strictly inside it, and stays queued |
| Animation.MoveTowardBetween | src/main/kotlin/josfg333/projects/turtle/TurtleScreen.kt:112-113 | `currentPos + movement*(maxDistance/targetDistance)` is `maxDistance` from the start and strictly inside the segment |
| Animation.StepDoneIffAffordable | src/main/kotlin/josfg333/projects/turtle/TurtleScreen.kt:104-160 | an iteration pops its instruction exactly when the instruction's full cost fits in the time quota |
| Animation.MoveDoneIffReachable | src/main/kotlin/josfg333/projects/turtle/TurtleScreen.kt:111-133 | a move completes exactly when its speed is infinite or its length is within `timeQuota * speed` |
| Animation.RotateDoneIffReachable | src/main/kotlin/josfg333/projects/turtle/TurtleScreen.kt:140-150 | a rotation completes exactly when its speed is infinite or its angle is within `timeQuota * speed * ROTATION_SPEED_SCALE` |
| Animation.DrainIdle | src/main/kotlin/josfg333/projects/turtle/TurtleScreen.kt:100 | with an empty queue, no instruction quota or no time, the loop changes nothing and draws nothing |
| Animation.DrainTakesFromHead | src/main/kotlin/josfg333/projects/turtle/TurtleScreen.kt:100-161 | a frame removes only a prefix of the queue, at most one instruction per unit of instruction quota |
| Animation.DrainStrokesBounded | src/main/kotlin/josfg333/projects/turtle/TurtleScreen.kt:97-128 | a frame draws at most one line per unit of instruction quota |
| Animation.PartialMotionEndsFrame | src/main/kotlin/josfg333/projects/turtle/TurtleScreen.kt:104-152 | a motion that does not complete stays at the head of the queue and ends the turtle's frame |
| Animation.DrainKeepsReplay | src/main/kotlin/josfg333/projects/turtle/TurtleScreen.kt:100-161 | draining never changes where the rendered state and its queue lead |
| Animation.InstantInstructionsPopMin | src/main/kotlin/josfg333/projects/turtle/TurtleScreen.kt:97-160 | with time left and only zero-time instructions, exactly `min(n, quota)` are applied and popped, and nothing is drawn |
| Animation.TimeNeededNonNegative | src/main/kotlin/josfg333/projects/turtle/TurtleScreen.kt:104-147 | no instruction needs negative time |
| Animation.DrainWithAmpleTime | src/main/kotlin/josfg333/projects/turtle/TurtleScreen.kt:97-161 | with more time than the queue needs, exactly the first `min(n, quota)` instructions complete and are popped |
| Animation.StepWithinBudget | src/main/kotlin/josfg333/projects/turtle/TurtleScreen.kt:104-160 | an instruction whose cost fits completes and leaves the rest of the quota |
| Animation.AmpleFrameCatchesUp | src/main/kotlin/josfg333/projects/turtle/TurtleScreen.kt:97-161 | a backlog of at most 10000 instructions, given the time it needs, is emptied, and the rendered state reaches where the queue leads |
| Animation.DrainQueue | src/main/kotlin/josfg333/projects/turtle/TurtleScreen.kt:96-161 | the peek/step/remove loop on the shared queue leaves exactly the state, queue and lines of `Drain` |
| Screen.DrawFirst | src/main/kotlin/josfg333/projects/turtle/TurtleScreen.kt:95-164 | the frame loop after its first `n` turtles in insertion order: each drains its own queue with `dt` and 10000 instructions; the lines are appended turtle after turtle |
| Screen.DrawFrame | src/main/kotlin/josfg333/projects/turtle/TurtleScreen.kt:91-165 | one whole frame: `DrawFirst` over every registered turtle |
| Screen.DrawFirstLeaves | src/main/kotlin/josfg333/projects/turtle/TurtleScreen.kt:95-164 | turtles the frame loop has not reached yet are untouched |
| Screen.DrawFirstAt | src/main/kotlin/josfg333/projects/turtle/TurtleScreen.kt:95-164 | each visited turtle holds what draining its own start-of-frame state and queue gives, whatever the other turtles did |
| Screen.DrawFirstStrokes | src/main/kotlin/josfg333/projects/turtle/TurtleScreen.kt:95-164 | the frame's lines follow the earlier ones, turtle after turtle, in registration order |
| Screen.DrawNextStrokes | src/main/kotlin/josfg333/projects/turtle/TurtleScreen.kt:95-161 | visiting the next turtle adds exactly the lines its own queue draws |
| Screen.FrameOutcome | src/main/kotlin/josfg333/projects/turtle/TurtleScreen.kt:91-165 | after a frame every turtle holds its own drained state and queue, and the lines are the turtles' lines in order |
| Screen.DrawFirstIdle | src/main/kotlin/josfg333/projects/turtle/TurtleScreen.kt:98-100 | a frame of zero or negative length changes nothing |
| Screen.FrameStrokesBounded | src/main/kotlin/josfg333/projects/turtle/TurtleScreen.kt:97-128 | a frame draws at most 10000 lines per turtle |
| Screen.FrameKeepsReplay | src/main/kotlin/josfg333/projects/turtle/TurtleScreen.kt:91-165 | a frame does not change where any turtle's queue leads |
| Screen.IndexOf | src/main/kotlin/josfg333/projects/turtle/TurtleScreen.kt:80-82 | the position of a key in insertion order, or -1 exactly when the key is absent |
| Screen.IdsConsistentAdd | src/main/kotlin/josfg333/projects/turtle/TurtleScreen.kt:77-78 | the next id is unused, and registering under it keeps both id maps consistent |
| Screen.RegistryAppend | src/main/kotlin/josfg333/projects/turtle/TurtleScreen.kt:76-89 | a new turtle appended with a fresh queue keeps the registry well formed |
| Screen.RegistryReplace | src/main/kotlin/josfg333/projects/turtle/TurtleScreen.kt:76-89 | re-registering a turtle in place with a fresh queue keeps the registry well formed |
| Screen.TurtleScreen.constructor | src/main/kotlin/josfg333/projects/turtle/TurtleScreen.kt:39-75 | a new screen has no turtles, next id 0, `lastFrame` 0 and nothing drawn |
| Screen.TurtleScreen.AddTurtle | src/main/kotlin/josfg333/projects/turtle/TurtleScreen.kt:76-89 | returns the next id (0, 1, 2, …) and a new empty queue, records both id maps, and stores the state and queue under the turtle at its old place in the draw order or appended |
| Screen.TurtleScreen.AnimateTurtle | src/main/kotlin/josfg333/projects/turtle/TurtleScreen.kt:95-161 | one entry of the frame loop: the turtle's rendered state, queue and the lines become those of `Drain`, and nothing else changes |
| Screen.TurtleScreen.DrawNext | src/main/kotlin/josfg333/projects/turtle/TurtleScreen.kt:95-164 | advances the frame loop by one turtle |
| Screen.TurtleScreen.Draw | src/main/kotlin/josfg333/projects/turtle/TurtleScreen.kt:91-165 | a frame turns the screen's scene into `DrawFrame` of it and keeps the registry |
| Screen.TurtleScreen.Tick | src/main/kotlin/josfg333/projects/turtle/TurtleScreen.kt:39-47 | a pulse at `t` animates a frame of `t - lastFrame` nanoseconds and records `t` |
| Screen.Seconds | src/main/kotlin/josfg333/projects/turtle/TurtleScreen.kt:45 | a frame length in seconds is non-positive exactly when the nanosecond delta is |
| Handle.ApplyIgnoresFill | src/main/kotlin/josfg333/projects/turtle/TurtleScreen.kt:153-159 | no instruction changes the rendered fill flag |
| Handle.EnqueueKeepsConvergence | src/main/kotlin/josfg333/projects/turtle/Turtle.kt:78-122 | queueing an instruction and applying it to the logical state keeps the handle converging on the rendered state |
| Handle.FillKeepsConvergence | src/main/kotlin/josfg333/projects/turtle/Turtle.kt:123-134 | queueing a fill marker while flipping the logical fill flag keeps the handle converging |
| Handle.FrameKeepsConvergence | src/main/kotlin/josfg333/projects/turtle/TurtleScreen.kt:100-161 | a frame keeps the handle converging on the rendered state |
| Handle.SceneFrameKeepsConvergence | src/main/kotlin/josfg333/projects/turtle/TurtleScreen.kt:91-165 | a whole screen frame keeps every converging turtle converging |
| Handle.FrameCatchesUp | src/main/kotlin/josfg333/projects/turtle/TurtleScreen.kt:97-161 | given the time it needs, a backlog of at most 10000 instructions is emptied in one frame, and the rendered state then equals the logical one except for the fill flag |
| Handle.Ahead | src/main/kotlin/josfg333/projects/turtle/Turtle.kt:157-160 | the target of `forward(distance)`: `(x + distance*cos(rad), y + distance*sin(rad))` with `rad = radians(heading)` |
| Handle.AheadThenBack | src/main/kotlin/josfg333/projects/turtle/Turtle.kt:157-161 | `back(d)` after `forward(d)` on the same heading returns to the start |
| Handle.AheadDistance | src/main/kotlin/josfg333/projects/turtle/Turtle.kt:157-160 | when cos and sin satisfy cos² + sin² = 1, `forward(d)` moves exactly `abs(d)` |
| Handle.TurnRoundTrip | src/main/kotlin/josfg333/projects/turtle/Turtle.kt:163-164 | `left(d)` then `right(d)` restores the folded heading |
| Handle.Turtle.constructor | src/main/kotlin/josfg333/projects/turtle/Turtle.kt:56-65 | a new turtle has the default state and is registered last on its screen with a copy of it and an empty shared queue |
| Handle.Turtle.OnNewScreen | src/main/kotlin/josfg333/projects/turtle/Turtle.kt:57 | `Turtle()` is the only turtle on a fresh screen, with id 0 |
| Handle.Turtle.Issue | src/main/kotlin/josfg333/projects/turtle/Turtle.kt:85-122 | the shared shape of the setters: queue `i`, apply it to the logical state, keep the invariant |
| Handle.Turtle.MoveTo | src/main/kotlin/josfg333/projects/turtle/Turtle.kt:151-154 | queues `MOVE_TO(x, y)` and sets the logical position |
| Handle.Turtle.MoveToPos | src/main/kotlin/josfg333/projects/turtle/Turtle.kt:155 | `moveTo(pos)`, also the `pos` setter, is `moveTo(pos.x, pos.y)` |
| Handle.Turtle.SetX | src/main/kotlin/josfg333/projects/turtle/Turtle.kt:71-72 | the `x` setter moves to `(value, y)` |
| Handle.Turtle.SetY | src/main/kotlin/josfg333/projects/turtle/Turtle.kt:73-74 | the `y` setter moves to `(x, value)` |
| Handle.Turtle.SetHeading | src/main/kotlin/josfg333/projects/turtle/Turtle.kt:78-83 | queues the raw target and stores `((v % 360) + 360) % 360`, which lies in [0, 360) |
| Handle.Turtle.SetSize | src/main/kotlin/josfg333/projects/turtle/Turtle.kt:85-91 | clamps a negative size to 0 before queueing and storing it |
| Handle.Turtle.SetPenColor | src/main/kotlin/josfg333/projects/turtle/Turtle.kt:92-97 | queues and stores the pen colour |
| Handle.Turtle.SetFillColor | src/main/kotlin/josfg333/projects/turtle/Turtle.kt:98-103 | queues and stores the fill colour |
| Handle.Turtle.SetIsDown | src/main/kotlin/josfg333/projects/turtle/Turtle.kt:104-109 | queues and stores the pen flag |
| Handle.Turtle.SetIsVisible | src/main/kotlin/josfg333/projects/turtle/Turtle.kt:110-115 | queues and stores the visibility flag |
| Handle.Turtle.SetSpeed | src/main/kotlin/josfg333/projects/turtle/Turtle.kt:116-122 | a speed `<= 0` becomes infinite; the result is queued and stored |
| Handle.Turtle.SetIsFilling | src/main/kotlin/josfg333/projects/turtle/Turtle.kt:123-134 | queues `BEGIN_FILL` or `END_FILL` only when the flag changes; setting the current value does nothing |
| Handle.Turtle.Down | src/main/kotlin/josfg333/projects/turtle/Turtle.kt:142 | `down()` is the pen setter with `true` |
| Handle.Turtle.Up | src/main/kotlin/josfg333/projects/turtle/Turtle.kt:143 | `up()` is the pen setter with `false` |
| Handle.Turtle.Show | src/main/kotlin/josfg333/projects/turtle/Turtle.kt:145 | `show()` is the visibility setter with `true` |
| Handle.Turtle.Hide | src/main/kotlin/josfg333/projects/turtle/Turtle.kt:146 | `hide()` is the visibility setter with `false` |
| Handle.Turtle.BeginFill | src/main/kotlin/josfg333/projects/turtle/Turtle.kt:148 | `beginFill()` queues `BEGIN_FILL` unless already filling |
| Handle.Turtle.EndFill | src/main/kotlin/josfg333/projects/turtle/Turtle.kt:149 | `endFill()` queues `END_FILL` only when filling |
| Handle.Turtle.Forward | src/main/kotlin/josfg333/projects/turtle/Turtle.kt:157-160 | moves to the point `distance` ahead along the logical heading |
| Handle.Turtle.Back | src/main/kotlin/josfg333/projects/turtle/Turtle.kt:161 | `back(d)` is `forward(-d)` |
| Handle.Turtle.Left | src/main/kotlin/josfg333/projects/turtle/Turtle.kt:163 | queues the raw target `heading + degrees` and stores it folded |
| Handle.Turtle.Right | src/main/kotlin/josfg333/projects/turtle/Turtle.kt:164 | queues the raw target `heading - degrees` and stores it folded |
| Canvas.IssueNext | src/main/kotlin/josfg333/projects/turtle/TurtleCanvas.kt:18-23 | the id issued next is unused, and issuing it keeps every id below the new next id |
| Canvas.AddThenRemove | src/main/kotlin/josfg333/projects/turtle/TurtleCanvas.kt:20-29 | removing a turtle just added restores the registry |
| Canvas.IdsNeverReused | src/main/kotlin/josfg333/projects/turtle/TurtleCanvas.kt:18-23 | when the ids issued so far are exactly 0 … next - 1, the next id is not among them, and issuing it adds exactly that id |
| Canvas.TurtleCanvas.constructor | src/main/kotlin/josfg333/projects/turtle/TurtleCanvas.kt:14-18 | a new canvas has no turtles, next id 0 and no id issued |
| Canvas.TurtleCanvas.AddTurtle | src/main/kotlin/josfg333/projects/turtle/TurtleCanvas.kt:20-23 | stores the turtle under the next id, returns that id and increments the counter; the id differs from every id issued before, including those of removed turtles |
| Canvas.TurtleCanvas.RemoveTurtle | src/main/kotlin/josfg333/projects/turtle/TurtleCanvas.kt:25-29 | forgets the id; an id with no turtle is ignored; the counter and the set of issued ids are unchanged, so a removed id is never handed out again |

## Left out

- IEEE `Double` arithmetic is modelled with exact reals: rounding, NaN, and infinities other than an infinite speed. The exact comparisons `endPos != targetPos` and `end != target` are therefore exact too.
- `kotlin.time.Duration` is modelled in real seconds. The rounding of `(distance / speed).seconds` to whole nanoseconds and Duration's saturation are not modelled.
- The 64-bit timestamps and 32-bit ids are unbounded integers, so their overflow is not modelled.
- `TurtleState.speed` holds only positive or infinite speeds. The handle never stores anything else, but the public data class admits any `Double`.
- `sqrt`, `cos` and `sin` are parameters, because they are foreign calls.
- JavaFX rendering is not modelled: canvases, affine transforms, `clearRect`, line caps, `gc.save`/`gc.restore`, the `Pane` and its size. The lines drawn on the main canvas are recorded as a list of `Stroke` values instead.
- `drawTurtle` and `TurtleShape` only paint the turtle glyph on the overlay canvas and change no state, so they are not modelled.
- `AnimationTimer` scheduling is not modelled. `Tick` is the timer's `handle`, called with the pulse time.
- The unused `turtleCanvases` map and the commented-out `removeTurtle` of `TurtleScreen` are not modelled.
- The property getters are not modelled separately: they read the state record directly. Only `X` and `Y` exist, because the `x`/`y` setters use them.
- The same-argument aliases `heading(d)`, `size(v)`, `penColor(c)`, `fillColor(c)` and `speed(v)` are not modelled. Each is the setter of the same name, called with its argument unchanged.
- `TurtleInstruction`'s shared fields with defaults (`flag`, `d0`, `d1`, `color`) are replaced by one constructor per instruction type carrying only the payload it uses.
- Screen.TurtleScreen.Valid does not state that the id maps and the draw order hold the same turtles. In the code they do. A turtle registered twice gets a second id, and its first id stays in `turtlesById`, so `turtlesById` can hold more ids than the draw order has turtles.
