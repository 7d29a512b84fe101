/** The per-turtle, per-frame instruction drain of the screen's `draw`: one loop iteration
    (`Step`), the whole budgeted loop (`Drain`, and `DrainQueue`, which runs it on the
    shared queue object), and the completed effect of each instruction (`Apply`, `Replay`)
    that the interpolation converges to. */
module Animation {
  import opened Vectors
  import opened Instructions

  /** The instruction quota each turtle gets per frame. */
  const InstructionLimit: nat := 10000

  /** The declared `ROTATION_SPEED_SCALE`: degrees per unit of speed. */
  const RotationSpeedScale: real := 1.0

  datatype Option<T> = None | Some(value: T)

  /** A line drawn on the main canvas: from, to, line width and stroke colour. */
  datatype Stroke = Stroke(from: Vec2, to: Vec2, width: real, color: Color)

  function Abs(r: real): real {
    if r < 0.0 then -r else r
  }

  /** `d` is a whole number of turns. */
  predicate WholeTurns(d: real) {
    (d / 360.0).Floor as real == d / 360.0
  }

  /** Kotlin's `a % 360` on `Double`: the remainder of division truncated toward zero,
      which keeps the sign of the dividend. On exact reals it is what remains after
      taking whole turns off `a` towards zero. */
  function Rem360(a: real): (r: real)
    ensures -360.0 < r < 360.0
    ensures 0.0 <= a ==> 0.0 <= r
    ensures a < 0.0 ==> r <= 0.0
    decreases if a < 0.0 then (-a).Floor else a.Floor
  {
    if 360.0 <= a then Rem360(a - 360.0)
    else if a <= -360.0 then Rem360(a + 360.0)
    else a
  }

  /** The remainder differs from the dividend by whole turns. */
  lemma {:induction false} Rem360WholeTurns(a: real)
    ensures WholeTurns(a - Rem360(a))
    decreases if a < 0.0 then (-a).Floor else a.Floor
  {
    if 360.0 <= a {
      Rem360WholeTurns(a - 360.0);
      WholeTurnsShift(a - 360.0 - Rem360(a - 360.0), 1);
    } else if a <= -360.0 {
      Rem360WholeTurns(a + 360.0);
      WholeTurnsShift(a + 360.0 - Rem360(a + 360.0), -1);
    } else {
      assert a - Rem360(a) == 0.0;
    }
  }

  lemma WholeTurnsShift(d: real, n: int)
    requires WholeTurns(d)
    ensures WholeTurns(d + n as real * 360.0)
  {
    var m := (d / 360.0).Floor;
    var e := (d + n as real * 360.0) / 360.0;
    assert e == d / 360.0 + n as real;
    assert e == (m + n) as real;
    assert e.Floor == m + n;
  }

  /** The heading folded into `[0, 360)`: what is left after taking off whole turns,
      counted down from the heading. `NormalizeIsRemainderFormula` proves it equal to the
      source's `((h % 360) + 360) % 360`. */
  function NormalizeDegrees(h: real): (r: real)
    ensures 0.0 <= r < 360.0
  {
    h - 360.0 * ((h / 360.0).Floor as real)
  }

  /** Folding only takes off whole turns. */
  lemma NormalizeWholeTurns(h: real)
    ensures WholeTurns(h - NormalizeDegrees(h))
  {
    var n := (h / 360.0).Floor;
    WholeTurnsShift(0.0, n);
    assert h - NormalizeDegrees(h) == 0.0 + n as real * 360.0;
  }

  /** A value in `[0, 360)` that differs from `h` by whole turns is the folded `h`. */
  lemma NormalizeUnique(h: real, x: real)
    requires 0.0 <= x < 360.0
    requires WholeTurns(h - x)
    ensures x == NormalizeDegrees(h)
  {
    var n := ((h - x) / 360.0).Floor;
    assert h / 360.0 == n as real + x / 360.0;
    assert (h / 360.0).Floor == n;
  }

  /** The fold is the source's double remainder, `((h % 360) + 360) % 360`. */
  lemma NormalizeIsRemainderFormula(h: real)
    ensures NormalizeDegrees(h) == Rem360(Rem360(h) + 360.0)
  {
    var once := Rem360(h);
    var twice := Rem360(once + 360.0);
    Rem360WholeTurns(h);
    Rem360WholeTurns(once + 360.0);
    var n := ((h - once) / 360.0).Floor;
    var m := ((once + 360.0 - twice) / 360.0).Floor;
    assert h - once == n as real * 360.0;
    assert once + 360.0 - twice == m as real * 360.0;
    WholeTurnsShift(0.0, n + m - 1);
    assert h - twice == 0.0 + (n + m - 1) as real * 360.0;
    NormalizeUnique(h, twice);
  }

  /** A heading already in `[0, 360)` is left as it is. */
  lemma NormalizeKeepsRange(h: real)
    requires 0.0 <= h < 360.0
    ensures NormalizeDegrees(h) == h
  {
    assert (h / 360.0).Floor == 0;
  }

  lemma NormalizeIdempotent(h: real)
    ensures NormalizeDegrees(NormalizeDegrees(h)) == NormalizeDegrees(h)
  {
    NormalizeKeepsRange(NormalizeDegrees(h));
  }

  /** Seconds a move of `distance` takes: `distance / speed`, zero at infinite speed. */
  function MoveTime(distance: real, speed: PositiveSpeed): real {
    match speed
    case Infinite => 0.0
    case Finite(v) => distance / v
  }

  /** Seconds a turn of `distance` degrees takes. */
  function TurnTime(distance: real, speed: PositiveSpeed): real {
    match speed
    case Infinite => 0.0
    case Finite(v) => distance / (v * RotationSpeedScale)
  }

  /** The time an instruction needs to complete from state `s`: the amount `draw`
      subtracts from the time quota when it executes it. */
  function Cost(s: TurtleState, i: Instruction, sqrt: real -> real): real {
    match i
    case MoveTo(x, y) => MoveTime(Vec2(x, y).Minus(s.pos).Length(sqrt), s.speed)
    case RotateTo(target) => TurnTime(Abs(target - s.heading), s.speed)
    case _ => 0.0
  }

  /** The state an instruction leaves once it has fully completed. */
  function Apply(s: TurtleState, i: Instruction): TurtleState {
    match i
    case MoveTo(x, y) => s.(pos := Vec2(x, y))
    case RotateTo(target) => s.(heading := NormalizeDegrees(target))
    case SetSize(v) => s.(size := v)
    case SetVisible(flag) => s.(isVisible := flag)
    case SetDown(flag) => s.(isDown := flag)
    case SetPenColor(c) => s.(penColor := c)
    case SetFillColor(c) => s.(fillColor := c)
    case SetSpeed(v) => s.(speed := v)
    case BeginFill => s
    case EndFill => s
  }

  /** The state reached once every instruction of `q` has completed, in order. */
  function Replay(s: TurtleState, q: seq<Instruction>): TurtleState
    decreases |q|
  {
    if q == [] then s else Replay(Apply(s, q[0]), q[1..])
  }

  lemma {:induction false} ReplayAppend(s: TurtleState, q: seq<Instruction>, i: Instruction)
    ensures Replay(s, q + [i]) == Apply(Replay(s, q), i)
    decreases |q|
  {
    if q == [] {
      assert q + [i] == [i];
    } else {
      assert (q + [i])[1..] == q[1..] + [i];
      ReplayAppend(Apply(s, q[0]), q[1..], i);
    }
  }

  /** The total time the instructions of `q` need, each measured from the state the
      previous ones leave. */
  function TimeNeeded(s: TurtleState, q: seq<Instruction>, sqrt: real -> real): real
    decreases |q|
  {
    if q == [] then 0.0 else Cost(s, q[0], sqrt) + TimeNeeded(Apply(s, q[0]), q[1..], sqrt)
  }

  /** What one iteration of the loop leaves: the rendered state, the time quota, whether
      the head instruction completed (and is removed), and the stroke it drew. */
  datatype StepResult = StepResult(state: TurtleState, timeQuota: real, done: bool, stroke: Option<Stroke>)

  lemma ProductPositive(a: real, b: real)
    requires 0.0 < a && 0.0 < b
    ensures 0.0 < a * b
  {
  }

  lemma RatioBelowOne(a: real, b: real)
    requires 0.0 < a < b
    ensures 0.0 < a / b < 1.0
  {
    var t := a / b;
    assert a == t * b;
    if 1.0 <= t {
      calc {
        b;
      ==
        1.0 * b;
      <=
        t * b;
      ==
        a;
      }
    }
  }

  /** With a positive rate `v`, a distance is within `timeQuota * v` exactly when
      covering it takes no longer than `timeQuota`. */
  lemma ReachIffInTime(distance: real, v: real, timeQuota: real)
    requires 0.0 < v
    ensures distance <= timeQuota * v <==> distance / v <= timeQuota
    ensures distance < timeQuota * v <==> distance / v < timeQuota
  {
    var t := distance / v;
    assert distance == t * v;
    if t <= timeQuota {
      calc {
        distance;
      ==
        t * v;
      <=
        timeQuota * v;
      }
    }
    if timeQuota < t {
      calc {
        timeQuota * v;
      <
        t * v;
      ==
        distance;
      }
    }
  }

  /** The point `reach` along the straight line from `from` towards `to`, which lies
      `distance` away. */
  function MoveToward(from: Vec2, to: Vec2, distance: real, reach: real): Vec2
    requires distance != 0.0
  {
    from.Plus(to.Minus(from).Times(reach / distance))
  }

  /** The heading `reach` degrees from `h` along the raw signed difference to `target`,
      without folding into `[0, 360)`. */
  function TurnToward(h: real, target: real, reach: real): real
    requires h != target
  {
    h + (target - h) * (reach / Abs(target - h))
  }

  /** A `MOVE_TO` iteration: the whole move when the target is within the distance the
      time quota allows at the turtle's speed, otherwise the reachable part of it. The
      quota is charged the full move's time either way, and a line is drawn when the pen
      is down. `distance` is the length of the move. */
  function MoveStep(s: TurtleState, target: Vec2, distance: real, timeQuota: real): StepResult
    requires 0.0 < timeQuota
  {
    var endPos := (
      if s.speed.Infinite? || distance <= timeQuota * s.speed.perSecond then target
      else
        ProductPositive(timeQuota, s.speed.perSecond);
        MoveToward(s.pos, target, distance, timeQuota * s.speed.perSecond));
    var stroke := if s.isDown then Some(Stroke(s.pos, endPos, s.size, s.penColor)) else None;
    StepResult(s.(pos := endPos), timeQuota - MoveTime(distance, s.speed), endPos == target, stroke)
  }

  /** A `ROTATE_TO` iteration: the same interpolation over degrees; only a completed
      rotation folds the heading into `[0, 360)`. */
  function RotateStep(s: TurtleState, target: real, timeQuota: real): StepResult
    requires 0.0 < timeQuota
  {
    var distance := Abs(target - s.heading);
    var endHeading := (
      if s.speed.Infinite? || distance <= timeQuota * s.speed.perSecond * RotationSpeedScale then target
      else
        ProductPositive(timeQuota, s.speed.perSecond);
        TurnToward(s.heading, target, timeQuota * s.speed.perSecond * RotationSpeedScale));
    var remaining := timeQuota - TurnTime(distance, s.speed);
    var done := endHeading == target;
    StepResult(s.(heading := if done then NormalizeDegrees(target) else endHeading), remaining, done, None)
  }

  /** Out of reach means more time is needed than the quota holds. */
  lemma Overdraws(distance: real, v: real, timeQuota: real)
    requires 0.0 < v
    requires timeQuota * v < distance
    ensures timeQuota - distance / v < 0.0
  {
    ReachIffInTime(distance, v, timeQuota);
  }

  /** One pass of the loop body on the head instruction `i`, given a positive time quota.
      Every instruction other than a motion overwrites its one attribute (or, for the fill
      markers, nothing) and completes at once. */
  function Step(s: TurtleState, i: Instruction, timeQuota: real, sqrt: real -> real): StepResult
    requires 0.0 < timeQuota
  {
    match i
    case MoveTo(x, y) => MoveStep(s, Vec2(x, y), Vec2(x, y).Minus(s.pos).Length(sqrt), timeQuota)
    case RotateTo(target) => RotateStep(s, target, timeQuota)
    case _ => StepResult(Apply(s, i), timeQuota, true, None)
  }

  /** Each iteration charges the instruction's full cost against the time quota, even
      when the instruction is only partly executed. */
  lemma StepCharges(s: TurtleState, i: Instruction, timeQuota: real, sqrt: real -> real)
    requires 0.0 < timeQuota
    ensures Step(s, i, timeQuota, sqrt).timeQuota == timeQuota - Cost(s, i, sqrt)
  {
  }

  /** Instructions other than motions, and any instruction at infinite speed, complete at
      once, take no time and leave the state their completed effect describes. */
  lemma StepInstant(s: TurtleState, i: Instruction, timeQuota: real, sqrt: real -> real)
    requires 0.0 < timeQuota
    requires !IsMotion(i) || s.speed.Infinite?
    ensures var r := Step(s, i, timeQuota, sqrt);
      r.done && r.timeQuota == timeQuota && r.state == Apply(s, i)
  {
  }

  /** A completed iteration leaves the completed effect; an uncompleted one is a motion at a
      finite speed that overdraws the time quota and stays on course for the same target. */
  lemma StepOutcome(s: TurtleState, i: Instruction, timeQuota: real, sqrt: real -> real)
    requires 0.0 < timeQuota
    ensures var r := Step(s, i, timeQuota, sqrt);
      && (r.done ==> r.state == Apply(s, i))
      && (!r.done ==> IsMotion(i) && s.speed.Finite? && r.timeQuota < 0.0 && Apply(r.state, i) == Apply(s, i))
  {
    match i
    case MoveTo(x, y) => MoveOutcome(s, Vec2(x, y), Vec2(x, y).Minus(s.pos).Length(sqrt), timeQuota);
    case RotateTo(target) => RotateOutcome(s, target, timeQuota);
    case _ =>
  }

  lemma MoveOutcome(s: TurtleState, target: Vec2, distance: real, timeQuota: real)
    requires 0.0 < timeQuota
    ensures var r := MoveStep(s, target, distance, timeQuota);
      && r.state == s.(pos := r.state.pos)
      && (r.done ==> r.state.pos == target)
      && (!r.done ==> s.speed.Finite? && r.timeQuota < 0.0)
  {
    if s.speed.Finite? {
      if timeQuota * s.speed.perSecond < distance {
        Overdraws(distance, s.speed.perSecond, timeQuota);
      }
    }
  }

  lemma RotateOutcome(s: TurtleState, target: real, timeQuota: real)
    requires 0.0 < timeQuota
    ensures var r := RotateStep(s, target, timeQuota);
      && r.state == s.(heading := r.state.heading)
      && (r.done ==> r.state.heading == NormalizeDegrees(target))
      && (!r.done ==> s.speed.Finite? && r.timeQuota < 0.0)
  {
    if s.speed.Finite? {
      var distance := Abs(target - s.heading);
      if timeQuota * s.speed.perSecond * RotationSpeedScale < distance {
        Overdraws(distance, s.speed.perSecond * RotationSpeedScale, timeQuota);
      }
    }
  }

  /** A line is drawn exactly for a move with the pen down, from where the turtle was to
      where it got, in the pen's size and colour; a motion changes nothing but the attribute
      it moves. */
  lemma StepStroke(s: TurtleState, i: Instruction, timeQuota: real, sqrt: real -> real)
    requires 0.0 < timeQuota
    ensures var r := Step(s, i, timeQuota, sqrt);
      && (r.stroke.Some? <==> i.MoveTo? && s.isDown)
      && (r.stroke.Some? ==> r.stroke.value == Stroke(s.pos, r.state.pos, s.size, s.penColor))
      && (i.MoveTo? ==> r.state == s.(pos := r.state.pos))
      && (i.RotateTo? ==> r.state == s.(heading := r.state.heading))
  {
  }

  /** A rotation that completes leaves the heading at the target folded into `[0, 360)`. */
  lemma RotateCompletes(s: TurtleState, target: real, timeQuota: real, sqrt: real -> real)
    requires 0.0 < timeQuota
    requires Step(s, RotateTo(target), timeQuota, sqrt).done
    ensures var h := Step(s, RotateTo(target), timeQuota, sqrt).state.heading;
      h == NormalizeDegrees(target) && 0.0 <= h < 360.0 && WholeTurns(target - h)
  {
    NormalizeWholeTurns(target);
  }

  /** A rotation that cannot complete in time turns by exactly the reachable angle along the
      raw signed difference, stopping strictly between the start and the target, with the
      heading left unfolded. */
  lemma RotatePartial(s: TurtleState, target: real, timeQuota: real, sqrt: real -> real)
    requires 0.0 < timeQuota
    requires s.speed.Finite?
    requires timeQuota * s.speed.perSecond * RotationSpeedScale < Abs(target - s.heading)
    ensures var r := Step(s, RotateTo(target), timeQuota, sqrt);
      && !r.done
      && Abs(r.state.heading - s.heading) == timeQuota * s.speed.perSecond * RotationSpeedScale
      && (s.heading < target ==> s.heading < r.state.heading < target)
      && (target < s.heading ==> target < r.state.heading < s.heading)
  {
    var reach := timeQuota * s.speed.perSecond * RotationSpeedScale;
    ProductPositive(timeQuota, s.speed.perSecond);
    TurnTowardBetween(s.heading, target, reach);
    RotateStepStops(s, target, timeQuota);
    RotateStepHeading(s, target, timeQuota);
  }

  lemma RotateStepStops(s: TurtleState, target: real, timeQuota: real)
    requires 0.0 < timeQuota
    requires s.speed.Finite?
    requires timeQuota * s.speed.perSecond * RotationSpeedScale < Abs(target - s.heading)
    requires TurnToward(s.heading, target, timeQuota * s.speed.perSecond * RotationSpeedScale) != target
    ensures !RotateStep(s, target, timeQuota).done
  {
  }

  lemma RotateStepHeading(s: TurtleState, target: real, timeQuota: real)
    requires 0.0 < timeQuota
    requires s.speed.Finite?
    requires timeQuota * s.speed.perSecond * RotationSpeedScale < Abs(target - s.heading)
    requires !RotateStep(s, target, timeQuota).done
    ensures RotateStep(s, target, timeQuota).state.heading == TurnToward(s.heading, target, timeQuota * s.speed.perSecond * RotationSpeedScale)
  {
  }

  /** Turning part of the way covers exactly `reach` degrees and stops strictly between the
      start and the target. */
  lemma TurnTowardBetween(h: real, target: real, reach: real)
    requires 0.0 < reach < Abs(target - h)
    ensures var e := TurnToward(h, target, reach);
      && e != target
      && Abs(e - h) == reach
      && (h < target ==> h < e < target)
      && (target < h ==> target < e < h)
  {
    var movement := target - h;
    var distance := Abs(movement);
    var k := reach / distance;
    RatioBelowOne(reach, distance);
    assert distance * k == reach;
    if movement < 0.0 {
      assert movement * k == -(distance * k);
      assert movement < movement * k;
    } else {
      assert movement * k == distance * k;
      assert movement * k < movement;
    }
  }

  /** A move whose target is within reach ends exactly on the target, and what it costs
      leaves the time quota non-negative. */
  lemma MoveCompletes(s: TurtleState, x: real, y: real, timeQuota: real, sqrt: real -> real)
    requires 0.0 < timeQuota
    requires s.speed.Finite?
    requires Vec2(x, y).Minus(s.pos).Length(sqrt) <= timeQuota * s.speed.perSecond
    ensures var r := Step(s, MoveTo(x, y), timeQuota, sqrt);
      && r.done
      && r.state.pos == Vec2(x, y)
      && r.timeQuota == timeQuota - Vec2(x, y).Minus(s.pos).Length(sqrt) / s.speed.perSecond
      && 0.0 <= r.timeQuota
  {
    ReachIffInTime(Vec2(x, y).Minus(s.pos).Length(sqrt), s.speed.perSecond, timeQuota);
  }

  /** A move whose target is out of reach travels exactly the reachable distance along the
      segment towards the target, and does not arrive. */
  lemma MovePartial(s: TurtleState, x: real, y: real, timeQuota: real, sqrt: real -> real)
    requires IsSqrt(sqrt)
    requires 0.0 < timeQuota
    requires s.speed.Finite?
    requires timeQuota * s.speed.perSecond < Vec2(x, y).Minus(s.pos).Length(sqrt)
    ensures var r := Step(s, MoveTo(x, y), timeQuota, sqrt);
      && !r.done
      && r.timeQuota < 0.0
      && r.state.pos.Minus(s.pos).Length(sqrt) == timeQuota * s.speed.perSecond
      && exists t :: 0.0 < t < 1.0 && r.state.pos == s.pos.Plus(Vec2(x, y).Minus(s.pos).Times(t))
  {
    var distance := Vec2(x, y).Minus(s.pos).Length(sqrt);
    Overdraws(distance, s.speed.perSecond, timeQuota);
    MoveStepOutOfReach(s, Vec2(x, y), distance, timeQuota);
    ProductPositive(timeQuota, s.speed.perSecond);
    MoveTowardBetween(s.pos, Vec2(x, y), timeQuota * s.speed.perSecond, sqrt);
  }

  lemma MoveStepOutOfReach(s: TurtleState, target: Vec2, distance: real, timeQuota: real)
    requires 0.0 < timeQuota
    requires s.speed.Finite?
    requires timeQuota * s.speed.perSecond < distance
    ensures MoveStep(s, target, distance, timeQuota).state.pos == MoveToward(s.pos, target, distance, timeQuota * s.speed.perSecond)
  {
  }

  /** Moving part of the way covers exactly `reach` and stops strictly inside the segment. */
  lemma MoveTowardBetween(from: Vec2, to: Vec2, reach: real, sqrt: real -> real)
    requires IsSqrt(sqrt)
    requires 0.0 < reach < to.Minus(from).Length(sqrt)
    ensures var e := MoveToward(from, to, to.Minus(from).Length(sqrt), reach);
      && e != to
      && e.Minus(from).Length(sqrt) == reach
      && exists t :: 0.0 < t < 1.0 && e == from.Plus(to.Minus(from).Times(t))
  {
    var movement := to.Minus(from);
    var distance := movement.Length(sqrt);
    var t := reach / distance;
    RatioBelowOne(reach, distance);
    var e := from.Plus(movement.Times(t));
    assert e == MoveToward(from, to, distance, reach);
    assert e.Minus(from) == movement.Times(t);
    LengthScaled(movement, t, sqrt);
    assert movement.Times(t).Length(sqrt) == t * distance == reach;
    LengthIsNorm(movement, sqrt);
  }

  /** An iteration pops its instruction exactly when the instruction's full cost fits in
      the time quota. */
  lemma StepDoneIffAffordable(s: TurtleState, i: Instruction, timeQuota: real, sqrt: real -> real)
    requires IsSqrt(sqrt)
    requires 0.0 < timeQuota
    ensures Step(s, i, timeQuota, sqrt).done <==> Cost(s, i, sqrt) <= timeQuota
  {
    match i
    case MoveTo(x, y) =>
      MoveDoneIffReachable(s, Vec2(x, y), timeQuota, sqrt);
      if s.speed.Finite? {
        ReachIffInTime(Vec2(x, y).Minus(s.pos).Length(sqrt), s.speed.perSecond, timeQuota);
      }
    case RotateTo(target) =>
      RotateDoneIffReachable(s, target, timeQuota);
      if s.speed.Finite? {
        ReachIffInTime(Abs(target - s.heading), s.speed.perSecond * RotationSpeedScale, timeQuota);
      }
    case _ =>
  }

  lemma MoveDoneIffReachable(s: TurtleState, target: Vec2, timeQuota: real, sqrt: real -> real)
    requires IsSqrt(sqrt)
    requires 0.0 < timeQuota
    ensures MoveStep(s, target, target.Minus(s.pos).Length(sqrt), timeQuota).done
      <==> s.speed.Infinite? || target.Minus(s.pos).Length(sqrt) <= timeQuota * s.speed.perSecond
  {
    var distance := target.Minus(s.pos).Length(sqrt);
    if s.speed.Finite? && timeQuota * s.speed.perSecond < distance {
      ProductPositive(timeQuota, s.speed.perSecond);
      MoveTowardBetween(s.pos, target, timeQuota * s.speed.perSecond, sqrt);
      MoveStepOutOfReach(s, target, distance, timeQuota);
    }
  }

  lemma RotateDoneIffReachable(s: TurtleState, target: real, timeQuota: real)
    requires 0.0 < timeQuota
    ensures RotateStep(s, target, timeQuota).done
      <==> s.speed.Infinite? || Abs(target - s.heading) <= timeQuota * s.speed.perSecond * RotationSpeedScale
  {
    if s.speed.Finite? && timeQuota * s.speed.perSecond * RotationSpeedScale < Abs(target - s.heading) {
      ProductPositive(timeQuota, s.speed.perSecond);
      TurnTowardBetween(s.heading, target, timeQuota * s.speed.perSecond * RotationSpeedScale);
      RotateStepStops(s, target, timeQuota);
    }
  }

  /** The outcome of one frame for one turtle: its rendered state, the instructions left
      in its queue, and the strokes drawn, in order. */
  datatype Drained = Drained(state: TurtleState, rest: seq<Instruction>, strokes: seq<Stroke>)

  function StrokeList(stroke: Option<Stroke>): seq<Stroke> {
    if stroke.Some? then [stroke.value] else []
  }

  /** The loop of `draw` for one turtle, from a time quota and an instruction quota: it
      stops when the queue is empty or either quota is used up. */
  function Drain(s: TurtleState, q: seq<Instruction>, timeQuota: real, instructionQuota: nat, sqrt: real -> real): Drained
    decreases instructionQuota, 1
  {
    if q == [] || instructionQuota == 0 || timeQuota <= 0.0 then Drained(s, q, [])
    else Iterate(s, q, timeQuota, instructionQuota, sqrt)
  }

  /** One pass of the loop body on the head of `q`, followed by the rest of the loop. */
  function Iterate(s: TurtleState, q: seq<Instruction>, timeQuota: real, instructionQuota: nat, sqrt: real -> real): Drained
    requires q != [] && 0 < instructionQuota && 0.0 < timeQuota
    decreases instructionQuota, 0
  {
    var step := Step(s, q[0], timeQuota, sqrt);
    var d := Drain(step.state, if step.done then q[1..] else q, step.timeQuota, instructionQuota - 1, sqrt);
    Drained(d.state, d.rest, StrokeList(step.stroke) + d.strokes)
  }

  /** With no time, no instruction quota or nothing queued, a frame does nothing at all. */
  lemma DrainIdle(s: TurtleState, q: seq<Instruction>, timeQuota: real, instructionQuota: nat, sqrt: real -> real)
    requires q == [] || instructionQuota == 0 || timeQuota <= 0.0
    ensures Drain(s, q, timeQuota, instructionQuota, sqrt) == Drained(s, q, [])
  {
  }

  /** A frame only ever removes instructions from the head of the queue, at most one per
      unit of instruction quota. */
  lemma {:induction false} DrainTakesFromHead(s: TurtleState, q: seq<Instruction>, timeQuota: real, instructionQuota: nat, sqrt: real -> real)
    ensures var r := Drain(s, q, timeQuota, instructionQuota, sqrt);
      && |r.rest| <= |q| && r.rest == q[|q| - |r.rest|..]
      && |q| - |r.rest| <= instructionQuota
    decreases instructionQuota
  {
    if q != [] && instructionQuota != 0 && 0.0 < timeQuota {
      var step := Step(s, q[0], timeQuota, sqrt);
      var next := if step.done then q[1..] else q;
      DrainTakesFromHead(step.state, next, step.timeQuota, instructionQuota - 1, sqrt);
      DrainUnfold(s, q, timeQuota, instructionQuota, sqrt);
      var d := Drain(step.state, next, step.timeQuota, instructionQuota - 1, sqrt);
      if step.done {
        TailSuffix(q, |d.rest|);
      }
    }
  }

  /** A frame draws at most one line per unit of instruction quota. */
  lemma {:induction false} DrainStrokesBounded(s: TurtleState, q: seq<Instruction>, timeQuota: real, instructionQuota: nat, sqrt: real -> real)
    ensures |Drain(s, q, timeQuota, instructionQuota, sqrt).strokes| <= instructionQuota
    decreases instructionQuota
  {
    if q != [] && instructionQuota != 0 && 0.0 < timeQuota {
      var step := Step(s, q[0], timeQuota, sqrt);
      var next := if step.done then q[1..] else q;
      DrainStrokesBounded(step.state, next, step.timeQuota, instructionQuota - 1, sqrt);
      DrainUnfold(s, q, timeQuota, instructionQuota, sqrt);
    }
  }

  lemma TailSuffix<T>(q: seq<T>, n: nat)
    requires n < |q|
    ensures q[1..][|q| - 1 - n..] == q[|q| - n..]
  {
  }

  /** A motion that cannot complete stays at the head of the queue and ends the frame. */
  lemma PartialMotionEndsFrame(s: TurtleState, q: seq<Instruction>, timeQuota: real, instructionQuota: nat, sqrt: real -> real)
    requires q != [] && 0 < instructionQuota && 0.0 < timeQuota
    requires !Step(s, q[0], timeQuota, sqrt).done
    ensures var step := Step(s, q[0], timeQuota, sqrt);
      Drain(s, q, timeQuota, instructionQuota, sqrt) == Drained(step.state, q, StrokeList(step.stroke))
  {
    var step := Step(s, q[0], timeQuota, sqrt);
    StepOutcome(s, q[0], timeQuota, sqrt);
    assert Drain(step.state, q, step.timeQuota, instructionQuota - 1, sqrt) == Drained(step.state, q, []);
    assert StrokeList(step.stroke) + [] == StrokeList(step.stroke);
  }

  /** Draining never changes where the queue leads: the rendered state plus what is still
      queued replays to the same state as before the frame. */
  lemma {:induction false} DrainKeepsReplay(s: TurtleState, q: seq<Instruction>, timeQuota: real, instructionQuota: nat, sqrt: real -> real)
    ensures var d := Drain(s, q, timeQuota, instructionQuota, sqrt);
      Replay(d.state, d.rest) == Replay(s, q)
    decreases instructionQuota
  {
    if q != [] && instructionQuota != 0 && 0.0 < timeQuota {
      var step := Step(s, q[0], timeQuota, sqrt);
      var next := if step.done then q[1..] else q;
      StepOutcome(s, q[0], timeQuota, sqrt);
      DrainKeepsReplay(step.state, next, step.timeQuota, instructionQuota - 1, sqrt);
      assert Replay(step.state, next) == Replay(s, q) by {
        assert Replay(s, q) == Replay(Apply(s, q[0]), q[1..]);
        if !step.done {
          assert Replay(step.state, q) == Replay(Apply(step.state, q[0]), q[1..]);
        }
      }
    }
  }

  function Min(a: nat, b: nat): nat {
    if a < b then a else b
  }

  /** Zero-time instructions with a positive time quota: exactly `min(n, quota)` of them are
      applied and popped, and nothing is drawn. */
  lemma {:induction false} InstantInstructionsPopMin(s: TurtleState, q: seq<Instruction>, timeQuota: real, instructionQuota: nat, sqrt: real -> real)
    requires forall j :: 0 <= j < |q| ==> !IsMotion(q[j])
    requires 0.0 < timeQuota
    ensures var k := Min(|q|, instructionQuota);
      var d := Drain(s, q, timeQuota, instructionQuota, sqrt);
      d.rest == q[k..] && d.state == Replay(s, q[..k]) && d.strokes == []
    decreases instructionQuota
  {
    if q != [] && instructionQuota != 0 {
      var step := Step(s, q[0], timeQuota, sqrt);
      StepInstant(s, q[0], timeQuota, sqrt);
      StepStroke(s, q[0], timeQuota, sqrt);
      assert forall j :: 0 <= j < |q[1..]| ==> !IsMotion(q[1..][j]) by {
        forall j | 0 <= j < |q[1..]| ensures !IsMotion(q[1..][j]) {
          assert q[1..][j] == q[j + 1];
        }
      }
      InstantInstructionsPopMin(step.state, q[1..], timeQuota, instructionQuota - 1, sqrt);
      assert StrokeList(step.stroke) == [];
      DrainUnfold(s, q, timeQuota, instructionQuota, sqrt);
      DrawnBeforeNothing(Drain(step.state, q[1..], timeQuota, instructionQuota - 1, sqrt));
      PrefixStep(s, q, Min(|q|, instructionQuota));
    }
  }

  /** Replaying a non-empty prefix is replaying its tail from the first effect; the rest
      after it is the rest after the tail's prefix. */
  lemma PrefixStep(s: TurtleState, q: seq<Instruction>, k: nat)
    requires 0 < k <= |q|
    ensures Replay(s, q[..k]) == Replay(Apply(s, q[0]), q[1..][..k - 1])
    ensures q[1..][k - 1..] == q[k..]
  {
    assert q[..k][0] == q[0];
    assert q[..k][1..] == q[1..][..k - 1];
  }

  lemma {:induction false} TimeNeededNonNegative(s: TurtleState, q: seq<Instruction>, sqrt: real -> real)
    requires IsSqrt(sqrt)
    ensures 0.0 <= TimeNeeded(s, q, sqrt)
    decreases |q|
  {
    if q != [] {
      TimeNeededNonNegative(Apply(s, q[0]), q[1..], sqrt);
      match q[0]
      case MoveTo(x, y) =>
        LengthIsNorm(Vec2(x, y).Minus(s.pos), sqrt);
      case _ =>
    }
  }

  /** With more time than the queue needs, a frame applies the first `min(n, quota)`
      instructions completely and pops exactly those. */
  lemma {:induction false} DrainWithAmpleTime(s: TurtleState, q: seq<Instruction>, timeQuota: real, instructionQuota: nat, sqrt: real -> real)
    requires IsSqrt(sqrt)
    requires TimeNeeded(s, q, sqrt) < timeQuota
    ensures var k := Min(|q|, instructionQuota);
      var d := Drain(s, q, timeQuota, instructionQuota, sqrt);
      d.rest == q[k..] && d.state == Replay(s, q[..k])
    decreases instructionQuota
  {
    TimeNeededNonNegative(s, q, sqrt);
    if q != [] && instructionQuota != 0 {
      var step := Step(s, q[0], timeQuota, sqrt);
      TimeNeededNonNegative(Apply(s, q[0]), q[1..], sqrt);
      StepWithinBudget(s, q[0], timeQuota, sqrt);
      DrainWithAmpleTime(step.state, q[1..], step.timeQuota, instructionQuota - 1, sqrt);
      DrainUnfold(s, q, timeQuota, instructionQuota, sqrt);
      PrefixStep(s, q, Min(|q|, instructionQuota));
    }
  }

  /** An instruction whose full cost fits in the time quota completes in this iteration
      and leaves the rest of the quota. */
  lemma StepWithinBudget(s: TurtleState, i: Instruction, timeQuota: real, sqrt: real -> real)
    requires IsSqrt(sqrt)
    requires 0.0 < timeQuota
    requires Cost(s, i, sqrt) <= timeQuota
    ensures var step := Step(s, i, timeQuota, sqrt);
      step.done && step.state == Apply(s, i) && step.timeQuota == timeQuota - Cost(s, i, sqrt)
  {
    StepCharges(s, i, timeQuota, sqrt);
    StepDoneIffAffordable(s, i, timeQuota, sqrt);
    StepOutcome(s, i, timeQuota, sqrt);
  }

  /** Given the time its queue needs, a frame for a backlog within the instruction quota
      empties the queue and leaves the rendered state where the queue leads. */
  lemma AmpleFrameCatchesUp(s: TurtleState, q: seq<Instruction>, dt: real, sqrt: real -> real)
    requires IsSqrt(sqrt)
    requires |q| <= InstructionLimit
    requires TimeNeeded(s, q, sqrt) < dt
    ensures var d := Drain(s, q, dt, InstructionLimit, sqrt);
      d.rest == [] && d.state == Replay(s, q)
  {
    DrainWithAmpleTime(s, q, dt, InstructionLimit, sqrt);
    assert q[..|q|] == q;
  }

  /** One iteration of the frame loop, as `Drain` itself reads when it may continue. */
  lemma DrainUnfold(s: TurtleState, q: seq<Instruction>, timeQuota: real, instructionQuota: nat, sqrt: real -> real)
    requires q != [] && 0 < instructionQuota && 0.0 < timeQuota
    ensures var step := Step(s, q[0], timeQuota, sqrt);
      var d := Drain(step.state, if step.done then q[1..] else q, step.timeQuota, instructionQuota - 1, sqrt);
      Drain(s, q, timeQuota, instructionQuota, sqrt) == DrawnBefore(StrokeList(step.stroke), d)
  {
  }

  /** The outcome `d` with `strokes` drawn before it. */
  function DrawnBefore(strokes: seq<Stroke>, d: Drained): Drained {
    Drained(d.state, d.rest, strokes + d.strokes)
  }

  lemma DrawnBeforeNothing(d: Drained)
    ensures DrawnBefore([], d) == d
  {
    assert [] + d.strokes == d.strokes;
  }

  lemma DrawnBeforeTwice(a: seq<Stroke>, b: seq<Stroke>, d: Drained)
    ensures DrawnBefore(a, DrawnBefore(b, d)) == DrawnBefore(a + b, d)
  {
    assert a + (b + d.strokes) == (a + b) + d.strokes;
  }

  /** Runs the loop of `draw` for one turtle on its shared queue: peeks at the head, executes
      one step under the two quotas, and removes the head only once it has completed. */
  method DrainQueue(state: TurtleState, instructions: InstructionQueue, dt: real, sqrt: real -> real)
    returns (rendered: TurtleState, strokes: seq<Stroke>)
    modifies instructions
    ensures var d := Drain(state, old(instructions.items), dt, InstructionLimit, sqrt);
      rendered == d.state && instructions.items == d.rest && strokes == d.strokes
  {
    ghost var goal := Drain(state, instructions.items, dt, InstructionLimit, sqrt);
    rendered, strokes := state, [];
    var instructionQuota := InstructionLimit;
    var timeQuota := dt;
    var empty := instructions.IsEmpty();
    DrawnBeforeNothing(goal);
    while !empty && instructionQuota > 0 && timeQuota > 0.0
      invariant empty <==> instructions.items == []
      invariant goal == DrawnBefore(strokes, Drain(rendered, instructions.items, timeQuota, instructionQuota, sqrt))
      decreases instructionQuota
    {
      ghost var items := instructions.items;
      DrainUnfold(rendered, items, timeQuota, instructionQuota, sqrt);
      instructionQuota := instructionQuota - 1;
      var instruction := instructions.Peek();
      var step := Step(rendered, instruction, timeQuota, sqrt);
      ghost var next := if step.done then items[1..] else items;
      if step.done {
        var _ := instructions.Remove();
      }
      assert instructions.items == next;
      rendered, timeQuota := step.state, step.timeQuota;
      DrawnBeforeTwice(strokes, StrokeList(step.stroke), Drain(rendered, next, timeQuota, instructionQuota, sqrt));
      strokes := strokes + StrokeList(step.stroke);
      empty := instructions.IsEmpty();
    }
    assert Drain(rendered, instructions.items, timeQuota, instructionQuota, sqrt) == Drained(rendered, instructions.items, []);
    assert strokes + [] == strokes;
  }
}
