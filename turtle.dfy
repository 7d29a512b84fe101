/** The turtle handle that user code drives. Every setter records the change twice: as an
    instruction appended to the queue it shares with its screen, which animates it later,
    and at once in the handle's own logical state. The handle's state is therefore always
    where the rendered state is heading: replaying the pending instructions on the
    rendered state gives the handle's state. */
module Handle {
  import opened Vectors
  import opened Instructions
  import opened Animation
  import opened Screen

  /** `logical` is what `rendered` becomes once every instruction of `pending` has
      completed. The fill flag is the handle's alone: no instruction sets it on the
      rendered state, so it is taken from `logical`. */
  ghost predicate Converges(rendered: TurtleState, pending: seq<Instruction>, logical: TurtleState) {
    Replay(rendered, pending).(isFilling := logical.isFilling) == logical
  }

  /** Completing an instruction never touches the fill flag, whatever the flag is. */
  lemma ApplyIgnoresFill(s: TurtleState, i: Instruction, filling: bool)
    ensures Apply(s, i).isFilling == s.isFilling
    ensures Apply(s.(isFilling := filling), i) == Apply(s, i).(isFilling := filling)
  {
  }

  /** Queuing `i` and applying it to the logical state at once keeps the two in step. */
  lemma EnqueueKeepsConvergence(rendered: TurtleState, pending: seq<Instruction>, logical: TurtleState, i: Instruction)
    requires Converges(rendered, pending, logical)
    ensures Converges(rendered, pending + [i], Apply(logical, i))
  {
    var target := Replay(rendered, pending);
    ReplayAppend(rendered, pending, i);
    ApplyIgnoresFill(target, i, logical.isFilling);
    ApplyIgnoresFill(logical, i, logical.isFilling);
  }

  /** Queuing a fill marker while flipping the logical fill flag keeps the two in step. */
  lemma FillKeepsConvergence(rendered: TurtleState, pending: seq<Instruction>, logical: TurtleState, marker: Instruction, filling: bool)
    requires marker == BeginFill || marker == EndFill
    requires Converges(rendered, pending, logical)
    ensures Converges(rendered, pending + [marker], logical.(isFilling := filling))
  {
    ReplayAppend(rendered, pending, marker);
  }

  /** A frame of the screen moves the rendered state along the queue but never changes
      where the two lead. */
  lemma FrameKeepsConvergence(rendered: TurtleState, pending: seq<Instruction>, logical: TurtleState, dt: real, sqrt: real -> real)
    requires Converges(rendered, pending, logical)
    ensures var d := Drain(rendered, pending, dt, InstructionLimit, sqrt);
      Converges(d.state, d.rest, logical)
  {
    DrainKeepsReplay(rendered, pending, dt, InstructionLimit, sqrt);
  }

  /** Every turtle of a scene that converges before a whole frame of the screen still
      converges after it, on the same logical state. */
  lemma SceneFrameKeepsConvergence(scene: Scene, j: nat, logical: TurtleState, dt: real, sqrt: real -> real)
    requires scene.WellFormed() && j < |scene.states|
    requires Converges(scene.states[j], scene.queues[j], logical)
    ensures var r := DrawFrame(scene, dt, sqrt);
      Converges(r.states[j], r.queues[j], logical)
  {
    FrameOutcome(scene, dt, sqrt);
    FrameKeepsConvergence(scene.states[j], scene.queues[j], logical, dt, sqrt);
  }

  /** A frame long enough for everything pending catches the rendered turtle up with the
      handle: the queue empties and the two states agree on everything but the fill flag. */
  lemma FrameCatchesUp(rendered: TurtleState, pending: seq<Instruction>, logical: TurtleState, dt: real, sqrt: real -> real)
    requires IsSqrt(sqrt)
    requires Converges(rendered, pending, logical)
    requires |pending| <= InstructionLimit && TimeNeeded(rendered, pending, sqrt) < dt
    ensures var d := Drain(rendered, pending, dt, InstructionLimit, sqrt);
      d.rest == [] && d.state.(isFilling := logical.isFilling) == logical
  {
    AmpleFrameCatchesUp(rendered, pending, dt, sqrt);
  }

  /** The point `distance` ahead of `pos` facing `heading` degrees, where `cos` and `sin`
      stand for `kotlin.math.cos` and `kotlin.math.sin`. */
  function Ahead(pos: Vec2, heading: real, distance: real, cos: real -> real, sin: real -> real): Vec2 {
    var rad := Radians(heading);
    Vec2(pos.x + distance * cos(rad), pos.y + distance * sin(rad))
  }

  /** Going back the same distance on the same heading returns to the start. */
  lemma AheadThenBack(pos: Vec2, heading: real, distance: real, cos: real -> real, sin: real -> real)
    ensures Ahead(Ahead(pos, heading, distance, cos, sin), heading, -distance, cos, sin) == pos
  {
  }

  /** Where `cos` and `sin` agree on the Pythagorean identity at the heading, the move
      covers exactly `|distance|`. */
  lemma AheadDistance(pos: Vec2, heading: real, distance: real, cos: real -> real, sin: real -> real, sqrt: real -> real)
    requires IsSqrt(sqrt)
    requires var rad := Radians(heading); cos(rad) * cos(rad) + sin(rad) * sin(rad) == 1.0
    ensures Ahead(pos, heading, distance, cos, sin).Minus(pos).Length(sqrt) == Abs(distance)
  {
    var rad := Radians(heading);
    var move := Ahead(pos, heading, distance, cos, sin).Minus(pos);
    var c, s := cos(rad), sin(rad);
    assert move == Vec2(distance * c, distance * s);
    assert move.x * move.x + move.y * move.y == (distance * distance) * (c * c + s * s);
    assert Abs(distance) * Abs(distance) == distance * distance;
    LengthIsNorm(move, sqrt);
    SquareRootUnique(move.Length(sqrt), Abs(distance));
  }

  /** Turning left by `degrees` and then right by the same amount faces the turtle the way
      it faced before, once the heading is folded into `[0, 360)`. */
  lemma TurnRoundTrip(heading: real, degrees: real)
    ensures NormalizeDegrees(NormalizeDegrees(heading + degrees) - degrees) == NormalizeDegrees(heading)
  {
    var turned := NormalizeDegrees(heading + degrees);
    NormalizeWholeTurns(heading + degrees);
    NormalizeWholeTurns(turned - degrees);
    var n := ((heading + degrees - turned) / 360.0).Floor;
    var m := ((turned - degrees - NormalizeDegrees(turned - degrees)) / 360.0).Floor;
    assert heading + degrees - turned == n as real * 360.0;
    assert turned - degrees - NormalizeDegrees(turned - degrees) == m as real * 360.0;
    WholeTurnsShift(0.0, n + m);
    assert heading - NormalizeDegrees(turned - degrees) == 0.0 + (n + m) as real * 360.0;
    NormalizeUnique(heading, NormalizeDegrees(turned - degrees));
  }

  /** A turtle: its screen, its logical state and the queue it shares with the screen. */
  class Turtle {
    const screen: TurtleScreen
    var state: TurtleState
    var instructionQueue: InstructionQueue
    /** Where the screen keeps this turtle in its draw order. */
    ghost var slot: nat

    /** Registered on its screen with this queue, and converging on the rendered state. */
    ghost predicate Valid()
      reads this, screen, instructionQueue
    {
      && screen.Valid()
      && slot < |screen.turtles| && screen.turtles[slot] == this
      && screen.turtleQueues[slot] == instructionQueue
      && Converges(screen.turtleStates[slot], instructionQueue.items, state)
    }

    /** A turtle with the default state, registered on `screen` with a copy of that state
        and drawn after every turtle registered before it. */
    constructor(screen: TurtleScreen)
      requires screen.Valid()
      modifies screen
      ensures Valid() && this.screen == screen
      ensures state == DefaultState
      ensures fresh(instructionQueue) && instructionQueue.items == []
      ensures screen.turtles == old(screen.turtles) + [this]
      ensures screen.turtleStates == old(screen.turtleStates) + [DefaultState]
      ensures screen.turtleQueues == old(screen.turtleQueues) + [instructionQueue]
      ensures screen.nextTurtleId == old(screen.nextTurtleId) + 1
      ensures screen.turtlesById == old(screen.turtlesById)[old(screen.nextTurtleId) := this]
      ensures screen.idsByTurtle == old(screen.idsByTurtle)[this := old(screen.nextTurtleId)]
      ensures screen.lastFrame == old(screen.lastFrame) && screen.strokes == old(screen.strokes)
    {
      this.screen := screen;
      state := DefaultState;
      instructionQueue := new InstructionQueue();
      new;
      var _, queue := screen.AddTurtle(this, state);
      instructionQueue := queue;
      slot := |screen.turtles| - 1;
    }

    /** `Turtle()`: a turtle on a screen of its own. */
    constructor OnNewScreen()
      ensures Valid() && fresh(screen)
      ensures state == DefaultState && fresh(instructionQueue) && instructionQueue.items == []
      ensures screen.turtles == [this] && screen.turtleStates == [DefaultState]
      ensures screen.turtleQueues == [instructionQueue]
      ensures screen.turtlesById == map[0 := this] && screen.idsByTurtle == map[this := 0]
      ensures screen.nextTurtleId == 1 && screen.lastFrame == 0 && screen.strokes == []
    {
      var s := new TurtleScreen();
      screen := s;
      state := DefaultState;
      instructionQueue := new InstructionQueue();
      new;
      var _, queue := s.AddTurtle(this, state);
      instructionQueue := queue;
      slot := 0;
    }

    function X(): real
      reads this
    {
      state.pos.x
    }

    function Y(): real
      reads this
    {
      state.pos.y
    }

    /** Queues `i` and applies it to the logical state: the common core of every setter
        except the fill flag's. */
    method Issue(i: Instruction)
      requires Valid()
      modifies this, instructionQueue
      ensures Valid()
      ensures instructionQueue == old(instructionQueue) && slot == old(slot)
      ensures instructionQueue.items == old(instructionQueue.items) + [i]
      ensures state == Apply(old(state), i)
    {
      EnqueueKeepsConvergence(screen.turtleStates[slot], instructionQueue.items, state, i);
      instructionQueue.Add(i);
      state := Apply(state, i);
    }

    method MoveTo(x: real, y: real)
      requires Valid()
      modifies this, instructionQueue
      ensures Valid()
      ensures instructionQueue == old(instructionQueue) && slot == old(slot)
      ensures instructionQueue.items == old(instructionQueue.items) + [Instruction.MoveTo(x, y)]
      ensures state == old(state).(pos := Vec2(x, y))
    {
      Issue(Instruction.MoveTo(x, y));
    }

    /** `moveTo(pos)`, which is also the `pos` setter. */
    method MoveToPos(pos: Vec2)
      requires Valid()
      modifies this, instructionQueue
      ensures Valid()
      ensures instructionQueue == old(instructionQueue) && slot == old(slot)
      ensures instructionQueue.items == old(instructionQueue.items) + [Instruction.MoveTo(pos.x, pos.y)]
      ensures state == old(state).(pos := pos)
    {
      MoveTo(pos.x, pos.y);
    }

    /** The `x` setter: a move to `(value, y)`. */
    method SetX(value: real)
      requires Valid()
      modifies this, instructionQueue
      ensures Valid()
      ensures instructionQueue == old(instructionQueue) && slot == old(slot)
      ensures instructionQueue.items == old(instructionQueue.items) + [Instruction.MoveTo(value, old(state.pos.y))]
      ensures state == old(state).(pos := Vec2(value, old(state.pos.y)))
    {
      MoveTo(value, Y());
    }

    /** The `y` setter: a move to `(x, value)`. */
    method SetY(value: real)
      requires Valid()
      modifies this, instructionQueue
      ensures Valid()
      ensures instructionQueue == old(instructionQueue) && slot == old(slot)
      ensures instructionQueue.items == old(instructionQueue.items) + [Instruction.MoveTo(old(state.pos.x), value)]
      ensures state == old(state).(pos := Vec2(old(state.pos.x), value))
    {
      MoveTo(X(), value);
    }

    /** The `heading` setter: the raw target is queued, so the screen turns through the
        whole difference, while the logical heading is folded into `[0, 360)` with the
        double remainder `((value % 360) + 360) % 360`. */
    method SetHeading(value: real)
      requires Valid()
      modifies this, instructionQueue
      ensures Valid()
      ensures instructionQueue == old(instructionQueue) && slot == old(slot)
      ensures instructionQueue.items == old(instructionQueue.items) + [RotateTo(value)]
      ensures state == old(state).(heading := NormalizeDegrees(value))
      ensures 0.0 <= state.heading < 360.0
    {
      EnqueueKeepsConvergence(screen.turtleStates[slot], instructionQueue.items, state, RotateTo(value));
      instructionQueue.Add(RotateTo(value));
      NormalizeIsRemainderFormula(value);
      state := state.(heading := Rem360(Rem360(value) + 360.0));
    }

    /** The `size` setter: a negative size is raised to zero before it is queued and stored. */
    method SetSize(value: real)
      requires Valid()
      modifies this, instructionQueue
      ensures Valid()
      ensures instructionQueue == old(instructionQueue) && slot == old(slot)
      ensures var v := if value < 0.0 then 0.0 else value;
        instructionQueue.items == old(instructionQueue.items) + [Instruction.SetSize(v)]
        && state == old(state).(size := v)
      ensures 0.0 <= state.size
    {
      var v := if 0.0 < value then value else 0.0;
      Issue(Instruction.SetSize(v));
    }

    method SetPenColor(value: Color)
      requires Valid()
      modifies this, instructionQueue
      ensures Valid()
      ensures instructionQueue == old(instructionQueue) && slot == old(slot)
      ensures instructionQueue.items == old(instructionQueue.items) + [Instruction.SetPenColor(value)]
      ensures state == old(state).(penColor := value)
    {
      Issue(Instruction.SetPenColor(value));
    }

    method SetFillColor(value: Color)
      requires Valid()
      modifies this, instructionQueue
      ensures Valid()
      ensures instructionQueue == old(instructionQueue) && slot == old(slot)
      ensures instructionQueue.items == old(instructionQueue.items) + [Instruction.SetFillColor(value)]
      ensures state == old(state).(fillColor := value)
    {
      Issue(Instruction.SetFillColor(value));
    }

    method SetIsDown(value: bool)
      requires Valid()
      modifies this, instructionQueue
      ensures Valid()
      ensures instructionQueue == old(instructionQueue) && slot == old(slot)
      ensures instructionQueue.items == old(instructionQueue.items) + [SetDown(value)]
      ensures state == old(state).(isDown := value)
    {
      Issue(SetDown(value));
    }

    method SetIsVisible(value: bool)
      requires Valid()
      modifies this, instructionQueue
      ensures Valid()
      ensures instructionQueue == old(instructionQueue) && slot == old(slot)
      ensures instructionQueue.items == old(instructionQueue.items) + [SetVisible(value)]
      ensures state == old(state).(isVisible := value)
    {
      Issue(SetVisible(value));
    }

    /** The `speed` setter: zero or a negative speed means infinitely fast. */
    method SetSpeed(value: real)
      requires Valid()
      modifies this, instructionQueue
      ensures Valid()
      ensures instructionQueue == old(instructionQueue) && slot == old(slot)
      ensures var v := if value <= 0.0 then Infinite else Finite(value);
        instructionQueue.items == old(instructionQueue.items) + [Instruction.SetSpeed(v)]
        && state == old(state).(speed := v)
    {
      var v: PositiveSpeed := if value <= 0.0 then Infinite else Finite(value);
      Issue(Instruction.SetSpeed(v));
    }

    /** The `isFilling` setter: a fill marker is queued only when the flag changes, so
        setting the flag it already has does nothing at all. */
    method SetIsFilling(value: bool)
      requires Valid()
      modifies this, instructionQueue
      ensures Valid()
      ensures instructionQueue == old(instructionQueue) && slot == old(slot)
      ensures state == old(state).(isFilling := value)
      ensures old(state.isFilling) == value ==> instructionQueue.items == old(instructionQueue.items)
      ensures old(state.isFilling) != value ==>
        instructionQueue.items == old(instructionQueue.items) + [if value then Instruction.BeginFill else Instruction.EndFill]
    {
      if !state.isFilling && value {
        FillKeepsConvergence(screen.turtleStates[slot], instructionQueue.items, state, Instruction.BeginFill, true);
        instructionQueue.Add(Instruction.BeginFill);
        state := state.(isFilling := true);
      } else if state.isFilling && !value {
        FillKeepsConvergence(screen.turtleStates[slot], instructionQueue.items, state, Instruction.EndFill, false);
        instructionQueue.Add(Instruction.EndFill);
        state := state.(isFilling := false);
      }
    }

    method Down()
      requires Valid()
      modifies this, instructionQueue
      ensures Valid()
      ensures instructionQueue == old(instructionQueue) && slot == old(slot)
      ensures instructionQueue.items == old(instructionQueue.items) + [SetDown(true)]
      ensures state == old(state).(isDown := true)
    {
      SetIsDown(true);
    }

    method Up()
      requires Valid()
      modifies this, instructionQueue
      ensures Valid()
      ensures instructionQueue == old(instructionQueue) && slot == old(slot)
      ensures instructionQueue.items == old(instructionQueue.items) + [SetDown(false)]
      ensures state == old(state).(isDown := false)
    {
      SetIsDown(false);
    }

    method Show()
      requires Valid()
      modifies this, instructionQueue
      ensures Valid()
      ensures instructionQueue == old(instructionQueue) && slot == old(slot)
      ensures instructionQueue.items == old(instructionQueue.items) + [SetVisible(true)]
      ensures state == old(state).(isVisible := true)
    {
      SetIsVisible(true);
    }

    method Hide()
      requires Valid()
      modifies this, instructionQueue
      ensures Valid()
      ensures instructionQueue == old(instructionQueue) && slot == old(slot)
      ensures instructionQueue.items == old(instructionQueue.items) + [SetVisible(false)]
      ensures state == old(state).(isVisible := false)
    {
      SetIsVisible(false);
    }

    method BeginFill()
      requires Valid()
      modifies this, instructionQueue
      ensures Valid()
      ensures instructionQueue == old(instructionQueue) && slot == old(slot)
      ensures state == old(state).(isFilling := true)
      ensures instructionQueue.items == old(instructionQueue.items) + (if old(state.isFilling) then [] else [Instruction.BeginFill])
    {
      SetIsFilling(true);
    }

    method EndFill()
      requires Valid()
      modifies this, instructionQueue
      ensures Valid()
      ensures instructionQueue == old(instructionQueue) && slot == old(slot)
      ensures state == old(state).(isFilling := false)
      ensures instructionQueue.items == old(instructionQueue.items) + (if old(state.isFilling) then [Instruction.EndFill] else [])
    {
      SetIsFilling(false);
    }

    /** Moves `distance` along the logical heading. */
    method Forward(distance: real, cos: real -> real, sin: real -> real)
      requires Valid()
      modifies this, instructionQueue
      ensures Valid()
      ensures instructionQueue == old(instructionQueue) && slot == old(slot)
      ensures var p := Ahead(old(state.pos), old(state.heading), distance, cos, sin);
        instructionQueue.items == old(instructionQueue.items) + [Instruction.MoveTo(p.x, p.y)]
        && state == old(state).(pos := p)
    {
      var rad := Radians(state.heading);
      ghost var p := Ahead(state.pos, state.heading, distance, cos, sin);
      assert p == Vec2(X() + distance * cos(rad), Y() + distance * sin(rad));
      MoveTo(X() + distance * cos(rad), Y() + distance * sin(rad));
    }

    method Back(distance: real, cos: real -> real, sin: real -> real)
      requires Valid()
      modifies this, instructionQueue
      ensures Valid()
      ensures instructionQueue == old(instructionQueue) && slot == old(slot)
      ensures var p := Ahead(old(state.pos), old(state.heading), -distance, cos, sin);
        instructionQueue.items == old(instructionQueue.items) + [Instruction.MoveTo(p.x, p.y)]
        && state == old(state).(pos := p)
    {
      Forward(-distance, cos, sin);
    }

    /** Turns counter-clockwise: the heading setter with the heading plus `degrees`. */
    method Left(degrees: real)
      requires Valid()
      modifies this, instructionQueue
      ensures Valid()
      ensures instructionQueue == old(instructionQueue) && slot == old(slot)
      ensures instructionQueue.items == old(instructionQueue.items) + [RotateTo(old(state.heading) + degrees)]
      ensures state == old(state).(heading := NormalizeDegrees(old(state.heading) + degrees))
    {
      SetHeading(state.heading + degrees);
    }

    /** Turns clockwise: the heading setter with the heading minus `degrees`. */
    method Right(degrees: real)
      requires Valid()
      modifies this, instructionQueue
      ensures Valid()
      ensures instructionQueue == old(instructionQueue) && slot == old(slot)
      ensures instructionQueue.items == old(instructionQueue.items) + [RotateTo(old(state.heading) - degrees)]
      ensures state == old(state).(heading := NormalizeDegrees(old(state.heading) - degrees))
    {
      SetHeading(state.heading - degrees);
    }
  }
}
