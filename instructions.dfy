/** The command and state model shared by a turtle handle and the screen that animates it:
    colours, speeds, the closed set of instructions, the turtle's state record, and the
    FIFO instruction queue that the handle fills and the screen drains. */
module Instructions {
  import opened Vectors

  /** The value of `kotlin.math.PI`, the double nearest to pi. */
  const Pi: real := 3.141592653589793

  function Radians(degrees: real): real {
    Pi * degrees / 180.0
  }

  function Degrees(radians: real): real {
    180.0 * radians / Pi
  }

  lemma DegreesRadiansRoundTrip(d: real)
    ensures Degrees(Radians(d)) == d
    ensures Radians(Degrees(d)) == d
  {
  }

  /** A paint colour. The engine only stores and compares colours, so its components are
      never inspected. */
  datatype Color = Color(red: real, green: real, blue: real, opacity: real)

  const Black := Color(0.0, 0.0, 0.0, 1.0)
  const White := Color(1.0, 1.0, 1.0, 1.0)

  /** Units per second, or `Double.POSITIVE_INFINITY`: an instantaneous turtle. */
  datatype Speed = Finite(perSecond: real) | Infinite {
    predicate Positive() {
      Infinite? || 0.0 < perSecond
    }
  }

  /** The speeds a turtle can hold: a positive rate or infinity. */
  type PositiveSpeed = s: Speed | s.Positive() witness Infinite

  /** The declared `SPEED_SCALE`, which serves as the default speed. */
  const SpeedScale: real := 1000.0

  /** One queued request, a constructor per `TurtleInstructionType`, carrying only the
      payload field that the type uses. */
  datatype Instruction =
    | MoveTo(x: real, y: real)
    | RotateTo(heading: real)
    | SetSize(size: real)
    | SetVisible(flag: bool)
    | SetDown(flag: bool)
    | SetPenColor(color: Color)
    | SetFillColor(color: Color)
    | SetSpeed(speed: PositiveSpeed)
    | BeginFill
    | EndFill

  /** Instructions that interpolate over time; every other one takes effect at once. */
  predicate IsMotion(i: Instruction) {
    i.MoveTo? || i.RotateTo?
  }

  /** A turtle's attributes. The handle keeps a logical copy and the screen a rendered one. */
  datatype TurtleState = TurtleState(
    pos: Vec2,
    heading: real,
    size: real,
    penColor: Color,
    fillColor: Color,
    isDown: bool,
    isVisible: bool,
    speed: PositiveSpeed,
    isFilling: bool,
    fillPoints: seq<Vec2>)

  /** `TurtleState()` with every argument defaulted. */
  const DefaultState := TurtleState(Zero, 0.0, 1.0, Black, White, true, true, Finite(SpeedScale), false, [])

  /** The `LinkedList` used as a `Queue`, one object shared by a handle (which adds to its
      tail) and the screen (which peeks at and removes its head). */
  class InstructionQueue {
    var items: seq<Instruction>

    constructor()
      ensures items == []
    {
      items := [];
    }

    method Add(i: Instruction)
      modifies this
      ensures items == old(items) + [i]
    {
      items := items + [i];
    }

    method IsEmpty() returns (empty: bool)
      ensures empty <==> items == []
    {
      empty := items == [];
    }

    method Peek() returns (head: Instruction)
      requires items != []
      ensures head == items[0]
    {
      head := items[0];
    }

    method Remove() returns (head: Instruction)
      requires items != []
      modifies this
      ensures head == old(items)[0]
      ensures items == old(items)[1..]
    {
      head := items[0];
      items := items[1..];
    }
  }
}
