/** The screen that owns every turtle's rendered state and instruction queue, registers
    turtles, and animates them one frame at a time. The insertion-ordered maps keyed by
    turtle are kept as parallel sequences in insertion order, which is the order a frame
    visits the turtles in. Turtles are keys compared by identity, so the screen holds them
    as `object`; the handle class that registers itself lives in module `Handle`. */
module Screen {
  import opened Instructions
  import opened Animation

  /** The instructions each queue holds, in the order of `queues`. */
  ghost function Items(queues: seq<InstructionQueue>): (r: seq<seq<Instruction>>)
    reads set q | q in queues
    ensures |r| == |queues|
    ensures forall i :: 0 <= i < |queues| ==> r[i] == queues[i].items
  {
    if queues == [] then [] else Items(queues[..|queues| - 1]) + [queues[|queues| - 1].items]
  }

  /** What the screen animates: each turtle's rendered state and queued instructions, in
      draw order, and the lines on the main canvas. */
  datatype Scene = Scene(states: seq<TurtleState>, queues: seq<seq<Instruction>>, strokes: seq<Stroke>) {
    ghost predicate WellFormed() {
      |queues| == |states|
    }
  }


  /** The scene once the frame loop of a `dt`-second frame has visited the first `n`
      turtles: each has drained the queue it was found with from the state it was found in. */
  function DrawFirst(n: nat, scene: Scene, dt: real, sqrt: real -> real): (r: Scene)
    requires scene.WellFormed() && n <= |scene.states|
    ensures r.WellFormed() && |r.states| == |scene.states|
    decreases n
  {
    if n == 0 then scene
    else
      var s := DrawFirst(n - 1, scene, dt, sqrt);
      var d := Drain(s.states[n - 1], s.queues[n - 1], dt, InstructionLimit, sqrt);
      Scene(s.states[n - 1 := d.state], s.queues[n - 1 := d.rest], s.strokes + d.strokes)
  }

  /** One whole frame of `dt` seconds. */
  function DrawFrame(scene: Scene, dt: real, sqrt: real -> real): (r: Scene)
    requires scene.WellFormed()
    ensures r.WellFormed() && |r.states| == |scene.states|
  {
    DrawFirst(|scene.states|, scene, dt, sqrt)
  }

  /** The lines a `dt`-second frame draws for the first `n` turtles from `states` and
      `queues`, in order. */
  function FrameStrokes(n: nat, states: seq<TurtleState>, queues: seq<seq<Instruction>>, dt: real, sqrt: real -> real): seq<Stroke>
    requires n <= |states| && n <= |queues|
  {
    if n == 0 then [] else FrameStrokes(n - 1, states, queues, dt, sqrt) + Drain(states[n - 1], queues[n - 1], dt, InstructionLimit, sqrt).strokes
  }

  /** The loop has not yet reached turtle `j`: it is as the frame found it. */
  lemma {:induction false} DrawFirstLeaves(n: nat, scene: Scene, dt: real, sqrt: real -> real, j: nat)
    requires scene.WellFormed() && n <= j < |scene.states|
    ensures var r := DrawFirst(n, scene, dt, sqrt);
      r.states[j] == scene.states[j] && r.queues[j] == scene.queues[j]
    decreases n
  {
    if n > 0 {
      DrawFirstLeaves(n - 1, scene, dt, sqrt, j);
      var s := DrawFirst(n - 1, scene, dt, sqrt);
      assert DrawFirst(n, scene, dt, sqrt).states[j] == s.states[j];
      assert DrawFirst(n, scene, dt, sqrt).queues[j] == s.queues[j];
    }
  }

  /** The loop has visited turtle `j`: it holds what draining makes of its state and queue
      at the frame's start, whatever the turtles before it did. */
  lemma {:induction false} DrawFirstAt(n: nat, scene: Scene, dt: real, sqrt: real -> real, j: nat)
    requires scene.WellFormed() && j < n <= |scene.states|
    ensures var r := DrawFirst(n, scene, dt, sqrt);
      var d := Drain(scene.states[j], scene.queues[j], dt, InstructionLimit, sqrt);
      r.states[j] == d.state && r.queues[j] == d.rest
    decreases n
  {
    var s := DrawFirst(n - 1, scene, dt, sqrt);
    var r := DrawFirst(n, scene, dt, sqrt);
    if j == n - 1 {
      DrawFirstLeaves(n - 1, scene, dt, sqrt, j);
      assert s.states[j] == scene.states[j] && s.queues[j] == scene.queues[j];
    } else {
      DrawFirstAt(n - 1, scene, dt, sqrt, j);
      assert r.states[j] == s.states[j] && r.queues[j] == s.queues[j];
    }
  }

  /** The loop's lines are those each visited turtle draws from the frame's
      start, in draw order, after the lines already on the canvas. */
  lemma {:induction false} DrawFirstStrokes(n: nat, scene: Scene, dt: real, sqrt: real -> real)
    requires scene.WellFormed() && n <= |scene.states|
    ensures DrawFirst(n, scene, dt, sqrt).strokes == scene.strokes + FrameStrokes(n, scene.states, scene.queues, dt, sqrt)
    decreases n
  {
    if n == 0 {
      assert scene.strokes + [] == scene.strokes;
    } else {
      DrawFirstStrokes(n - 1, scene, dt, sqrt);
      var earlier := FrameStrokes(n - 1, scene.states, scene.queues, dt, sqrt);
      var last := Drain(scene.states[n - 1], scene.queues[n - 1], dt, InstructionLimit, sqrt).strokes;
      DrawNextStrokes(n, scene, dt, sqrt);
      AppendAssoc(scene.strokes, earlier, last);
    }
  }

  /** The loop's visit to turtle `n - 1` adds the lines its queue draws from the frame's start. */
  lemma DrawNextStrokes(n: nat, scene: Scene, dt: real, sqrt: real -> real)
    requires scene.WellFormed() && 0 < n <= |scene.states|
    ensures DrawFirst(n, scene, dt, sqrt).strokes
      == DrawFirst(n - 1, scene, dt, sqrt).strokes + Drain(scene.states[n - 1], scene.queues[n - 1], dt, InstructionLimit, sqrt).strokes
  {
    DrawFirstLeaves(n - 1, scene, dt, sqrt, n - 1);
  }

  /** After a whole frame every turtle holds what its own drain renders and leaves queued,
      and the frame's lines follow the earlier ones, turtle after turtle. */
  lemma FrameOutcome(scene: Scene, dt: real, sqrt: real -> real)
    requires scene.WellFormed()
    ensures var r := DrawFrame(scene, dt, sqrt);
      && (forall j :: 0 <= j < |scene.states| ==>
            var d := Drain(scene.states[j], scene.queues[j], dt, InstructionLimit, sqrt);
            r.states[j] == d.state && r.queues[j] == d.rest)
      && r.strokes == scene.strokes + FrameStrokes(|scene.states|, scene.states, scene.queues, dt, sqrt)
  {
    forall j | 0 <= j < |scene.states|
      ensures var r := DrawFrame(scene, dt, sqrt);
        var d := Drain(scene.states[j], scene.queues[j], dt, InstructionLimit, sqrt);
        r.states[j] == d.state && r.queues[j] == d.rest
    {
      DrawFirstAt(|scene.states|, scene, dt, sqrt, j);
    }
    DrawFirstStrokes(|scene.states|, scene, dt, sqrt);
  }

  /** A frame without time changes no turtle, leaves every queue as it is and draws nothing. */
  lemma {:induction false} DrawFirstIdle(n: nat, scene: Scene, dt: real, sqrt: real -> real)
    requires scene.WellFormed() && n <= |scene.states|
    requires dt <= 0.0
    ensures DrawFirst(n, scene, dt, sqrt) == scene
    decreases n
  {
    if n > 0 {
      DrawFirstIdle(n - 1, scene, dt, sqrt);
      DrainIdle(scene.states[n - 1], scene.queues[n - 1], dt, InstructionLimit, sqrt);
    }
  }

  /** A frame draws at most `InstructionLimit` lines per turtle. */
  lemma {:induction false} FrameStrokesBounded(n: nat, states: seq<TurtleState>, queues: seq<seq<Instruction>>, dt: real, sqrt: real -> real)
    requires n <= |states| && n <= |queues|
    ensures |FrameStrokes(n, states, queues, dt, sqrt)| <= n * InstructionLimit
    decreases n
  {
    if n > 0 {
      FrameStrokesBounded(n - 1, states, queues, dt, sqrt);
      var last := Drain(states[n - 1], queues[n - 1], dt, InstructionLimit, sqrt).strokes;
      DrainStrokesBounded(states[n - 1], queues[n - 1], dt, InstructionLimit, sqrt);
      assert |FrameStrokes(n, states, queues, dt, sqrt)| == |FrameStrokes(n - 1, states, queues, dt, sqrt)| + |last|;
      assert n * InstructionLimit == (n - 1) * InstructionLimit + InstructionLimit;
    }
  }

  /** A frame moves every turtle along its queue without changing where the queue leads. */
  lemma FrameKeepsReplay(scene: Scene, dt: real, sqrt: real -> real)
    requires scene.WellFormed()
    ensures var r := DrawFrame(scene, dt, sqrt);
      forall j :: 0 <= j < |scene.states| ==> Replay(r.states[j], r.queues[j]) == Replay(scene.states[j], scene.queues[j])
  {
    forall j | 0 <= j < |scene.states|
      ensures var r := DrawFrame(scene, dt, sqrt); Replay(r.states[j], r.queues[j]) == Replay(scene.states[j], scene.queues[j])
    {
      DrawFirstAt(|scene.states|, scene, dt, sqrt, j);
      DrainKeepsReplay(scene.states[j], scene.queues[j], dt, InstructionLimit, sqrt);
    }
  }

  lemma AppendAssoc<T>(a: seq<T>, b: seq<T>, c: seq<T>)
    ensures a + (b + c) == (a + b) + c
  {
  }

  /** The position of `t` in `turtles`, or -1 when it is not there. */
  function IndexOf(turtles: seq<object>, t: object): (k: int)
    ensures -1 <= k < |turtles|
    ensures k < 0 <==> t !in turtles
    ensures 0 <= k ==> turtles[k] == t && t !in turtles[..k]
  {
    if turtles == [] then -1
    else if turtles[0] == t then 0
    else
      var k := IndexOf(turtles[1..], t);
      assert k >= 0 ==> turtles[..k + 1] == [turtles[0]] + turtles[1..][..k];
      if k < 0 then -1 else k + 1
  }

  /** Every issued id lies below `next` and names a registered turtle; every registered
      turtle's id maps back to it. */
  ghost predicate IdsConsistent(byId: map<nat, object>, ids: map<object, nat>, next: nat) {
    && (forall id :: id in byId ==> id < next && byId[id] in ids)
    && (forall t :: t in ids ==> ids[t] in byId && byId[ids[t]] == t)
  }

  /** The next id is unused, and issuing it to `t` keeps the ids consistent. */
  lemma IdsConsistentAdd(byId: map<nat, object>, ids: map<object, nat>, next: nat, t: object)
    requires IdsConsistent(byId, ids, next)
    ensures next !in byId
    ensures IdsConsistent(byId[next := t], ids[t := next], next + 1)
  {
  }

  /** The screen's bookkeeping over its field values: one rendered state and one queue per
      turtle, no turtle listed twice, no queue shared, and consistent ids. */
  ghost predicate Registry(turtles: seq<object>, stateCount: nat, queues: seq<InstructionQueue>,
                           byId: map<nat, object>, ids: map<object, nat>, next: nat) {
    && stateCount == |turtles| && |queues| == |turtles|
    && (forall i, j :: 0 <= i < j < |turtles| ==> turtles[i] != turtles[j] && queues[i] != queues[j])
    && IdsConsistent(byId, ids, next)
  }

  /** Registering a new turtle appends it with its state and a queue no other turtle has. */
  lemma RegistryAppend(turtles: seq<object>, queues: seq<InstructionQueue>, byId: map<nat, object>, ids: map<object, nat>,
                       next: nat, t: object, q: InstructionQueue)
    requires Registry(turtles, |turtles|, queues, byId, ids, next)
    requires t !in turtles && q !in queues
    ensures Registry(turtles + [t], |turtles| + 1, queues + [q], byId[next := t], ids[t := next], next + 1)
  {
    IdsConsistentAdd(byId, ids, next, t);
  }

  /** Registering a turtle again gives it a queue no other turtle has, in its old place. */
  lemma RegistryReplace(turtles: seq<object>, queues: seq<InstructionQueue>, byId: map<nat, object>, ids: map<object, nat>,
                        next: nat, k: nat, q: InstructionQueue)
    requires Registry(turtles, |turtles|, queues, byId, ids, next)
    requires k < |turtles| && q !in queues
    ensures Registry(turtles, |turtles|, queues[k := q], byId[next := turtles[k]], ids[turtles[k] := next], next + 1)
  {
    IdsConsistentAdd(byId, ids, next, turtles[k]);
  }

  class TurtleScreen {
    var turtlesById: map<nat, object>
    var idsByTurtle: map<object, nat>
    /** The keys of the insertion-ordered state and queue maps, in insertion order. */
    var turtles: seq<object>
    /** The rendered state of `turtles[i]`. */
    var turtleStates: seq<TurtleState>
    /** The queue shared with `turtles[i]`. */
    var turtleQueues: seq<InstructionQueue>
    var nextTurtleId: nat
    /** Timestamp of the previous animation pulse, in nanoseconds. */
    var lastFrame: int
    /** The lines drawn on the main canvas so far, oldest first. */
    var strokes: seq<Stroke>

    /** Each registered turtle appears once, with a state, a queue of its own and an id;
        issued ids lie below the next one. */
    ghost predicate Valid()
      reads this
    {
      Registry(turtles, |turtleStates|, turtleQueues, turtlesById, idsByTurtle, nextTurtleId)
    }

    constructor()
      ensures Valid()
      ensures turtlesById == map[] && idsByTurtle == map[] && turtles == [] && turtleStates == [] && turtleQueues == []
      ensures nextTurtleId == 0 && lastFrame == 0 && strokes == []
    {
      turtlesById, idsByTurtle := map[], map[];
      turtles, turtleStates, turtleQueues := [], [], [];
      nextTurtleId, lastFrame, strokes := 0, 0, [];
    }

    /** Registers `turtle` under the next id with its initial state and a new, empty queue,
        which is returned with the id so that the caller shares it with the screen. A turtle
        registered again keeps its place in the draw order and gets a new state and queue. */
    method AddTurtle(turtle: object, initialState: TurtleState) returns (id: nat, queue: InstructionQueue)
      requires Valid()
      modifies this
      ensures Valid()
      ensures id == old(nextTurtleId) && nextTurtleId == id + 1
      ensures id !in old(turtlesById)
      ensures fresh(queue) && queue.items == []
      ensures turtlesById == old(turtlesById)[id := turtle]
      ensures idsByTurtle == old(idsByTurtle)[turtle := id]
      ensures var k := IndexOf(old(turtles), turtle);
        if k < 0 then
          turtles == old(turtles) + [turtle] && turtleStates == old(turtleStates) + [initialState]
          && turtleQueues == old(turtleQueues) + [queue]
        else
          turtles == old(turtles) && turtleStates == old(turtleStates)[k := initialState]
          && turtleQueues == old(turtleQueues)[k := queue]
      ensures lastFrame == old(lastFrame) && strokes == old(strokes)
    {
      queue := new InstructionQueue();
      var k := IndexOf(turtles, turtle);
      if k < 0 {
        RegistryAppend(turtles, turtleQueues, turtlesById, idsByTurtle, nextTurtleId, turtle, queue);
        turtles, turtleStates, turtleQueues := turtles + [turtle], turtleStates + [initialState], turtleQueues + [queue];
      } else {
        RegistryReplace(turtles, turtleQueues, turtlesById, idsByTurtle, nextTurtleId, k, queue);
        turtleStates, turtleQueues := turtleStates[k := initialState], turtleQueues[k := queue];
      }
      IdsConsistentAdd(turtlesById, idsByTurtle, nextTurtleId, turtle);
      turtlesById, idsByTurtle := turtlesById[nextTurtleId := turtle], idsByTurtle[turtle := nextTurtleId];
      id, nextTurtleId := nextTurtleId, nextTurtleId + 1;
    }

    /** One entry of the frame loop: turtle `i` drains its queue and draws its lines. */
    method AnimateTurtle(i: nat, dt: real, sqrt: real -> real)
      requires Valid() && i < |turtles|
      modifies this, turtleQueues[i]
      ensures turtles == old(turtles) && turtleQueues == old(turtleQueues)
      ensures turtlesById == old(turtlesById) && idsByTurtle == old(idsByTurtle)
      ensures nextTurtleId == old(nextTurtleId) && lastFrame == old(lastFrame)
      ensures var d := Drain(old(turtleStates[i]), old(turtleQueues[i].items), dt, InstructionLimit, sqrt);
        && turtleStates == old(turtleStates)[i := d.state]
        && Items(turtleQueues) == old(Items(turtleQueues))[i := d.rest]
        && strokes == old(strokes) + d.strokes
    {
      var rendered, drawn := DrainQueue(turtleStates[i], turtleQueues[i], dt, sqrt);
      turtleStates := turtleStates[i := rendered];
      strokes := strokes + drawn;
    }

    /** The scene the screen holds now. */
    ghost function Current(): (r: Scene)
      reads this, set q | q in turtleQueues
      ensures r.states == turtleStates && r.queues == Items(turtleQueues) && r.strokes == strokes
    {
      Scene(turtleStates, Items(turtleQueues), strokes)
    }

    /** The body of the frame loop, for the turtle at `i`. */
    method DrawNext(i: nat, ghost scene0: Scene, dt: real, sqrt: real -> real)
      requires Valid() && i < |turtles|
      requires scene0.WellFormed() && |scene0.states| == |turtles|
      requires Current() == DrawFirst(i, scene0, dt, sqrt)
      modifies this, turtleQueues[i]
      ensures Valid()
      ensures turtles == old(turtles) && turtleQueues == old(turtleQueues)
      ensures turtlesById == old(turtlesById) && idsByTurtle == old(idsByTurtle)
      ensures nextTurtleId == old(nextTurtleId) && lastFrame == old(lastFrame)
      ensures Current() == DrawFirst(i + 1, scene0, dt, sqrt)
    {
      AnimateTurtle(i, dt, sqrt);
    }

    /** One frame: every turtle, in registration order, drains its queue under a time quota
        of `dt` seconds and the instruction quota, drawing its lines on the main canvas. */
    method Draw(dt: real, sqrt: real -> real)
      requires Valid()
      modifies this, set q | q in turtleQueues
      ensures Valid()
      ensures turtles == old(turtles) && turtleQueues == old(turtleQueues)
      ensures turtlesById == old(turtlesById) && idsByTurtle == old(idsByTurtle)
      ensures nextTurtleId == old(nextTurtleId) && lastFrame == old(lastFrame)
      ensures Current() == DrawFrame(old(Current()), dt, sqrt)
    {
      ghost var scene0 := Current();
      var i := 0;
      while i < |turtles|
        invariant i <= |turtles|
        invariant Valid()
        invariant turtles == old(turtles) && turtleQueues == old(turtleQueues)
        invariant turtlesById == old(turtlesById) && idsByTurtle == old(idsByTurtle)
        invariant nextTurtleId == old(nextTurtleId) && lastFrame == old(lastFrame)
        invariant Current() == DrawFirst(i, scene0, dt, sqrt)
      {
        DrawNext(i, scene0, dt, sqrt);
        i := i + 1;
      }
    }

    /** The animation timer's pulse at `now` nanoseconds: the frame lasts from the previous
        pulse (time zero before the first) to `now`. */
    method Tick(now: int, sqrt: real -> real)
      requires Valid()
      modifies this, set q | q in turtleQueues
      ensures Valid()
      ensures lastFrame == now
      ensures turtles == old(turtles) && turtleQueues == old(turtleQueues)
      ensures turtlesById == old(turtlesById) && idsByTurtle == old(idsByTurtle) && nextTurtleId == old(nextTurtleId)
      ensures Current() == DrawFrame(old(Current()), Seconds(now - old(lastFrame)), sqrt)
    {
      var dt := now - lastFrame;
      lastFrame := now;
      Draw(Seconds(dt), sqrt);
    }
  }

  /** A duration of `nanos` nanoseconds, in seconds. */
  function Seconds(nanos: int): (r: real)
    ensures r <= 0.0 <==> nanos <= 0
  {
    nanos as real / 1000000000.0
  }
}
