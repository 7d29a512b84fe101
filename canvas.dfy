/** The canvas-side turtle registry: it hands out consecutive integer ids to the turtles
    added to it and forgets a turtle by its id. */
module Canvas {
  import opened Handle

  /** Every id held in `byId` was issued before `next`, and ids start at zero. */
  ghost predicate IssuedBelow(byId: map<int, Turtle>, next: int) {
    0 <= next && forall id :: id in byId ==> 0 <= id < next
  }

  /** The id issued next is not in use, and issuing it keeps every id below the new next. */
  lemma IssueNext(byId: map<int, Turtle>, next: int, turtle: Turtle)
    requires IssuedBelow(byId, next)
    ensures next !in byId
    ensures IssuedBelow(byId[next := turtle], next + 1)
  {
  }

  /** Removing a turtle just added under a fresh id restores the registry. */
  lemma AddThenRemove(byId: map<int, Turtle>, next: int, turtle: Turtle)
    requires IssuedBelow(byId, next)
    ensures byId[next := turtle] - {next} == byId
  {
    IssueNext(byId, next, turtle);
    assert forall id :: id in byId[next := turtle] - {next} <==> id in byId;
  }

  /** `issued` holds exactly the ids a counter that has reached `next` handed out:
      0, 1, …, next - 1. */
  ghost predicate IssuedExactly(issued: set<int>, next: int) {
    0 <= next && forall id :: id in issued <==> 0 <= id < next
  }

  /** The id issued next was never issued before, and issuing it adds exactly that id. */
  lemma IdsNeverReused(issued: set<int>, next: int)
    requires IssuedExactly(issued, next)
    ensures next !in issued
    ensures IssuedExactly(issued + {next}, next + 1)
  {
  }

  class TurtleCanvas {
    var turtlesById: map<int, Turtle>
    var nextTurtleId: int
    /** Every id handed out so far, including those of turtles since removed. */
    ghost var issued: set<int>

    ghost predicate Valid()
      reads this
    {
      && IssuedBelow(turtlesById, nextTurtleId)
      && IssuedExactly(issued, nextTurtleId)
      && turtlesById.Keys <= issued
    }

    constructor()
      ensures Valid()
      ensures turtlesById == map[] && nextTurtleId == 0 && issued == {}
    {
      turtlesById, nextTurtleId := map[], 0;
      issued := {};
    }

    /** Stores `turtle` under the next id and returns that id; ids go 0, 1, 2, … */
    method AddTurtle(turtle: Turtle) returns (id: int)
      requires Valid()
      modifies this
      ensures Valid()
      ensures id == old(nextTurtleId) && nextTurtleId == id + 1
      ensures id !in old(turtlesById)
      ensures turtlesById == old(turtlesById)[id := turtle]
      ensures id !in old(issued) && issued == old(issued) + {id}
    {
      IssueNext(turtlesById, nextTurtleId, turtle);
      IdsNeverReused(issued, nextTurtleId);
      issued := issued + {nextTurtleId};
      turtlesById := turtlesById[nextTurtleId := turtle];
      id := nextTurtleId;
      nextTurtleId := nextTurtleId + 1;
    }

    /** Forgets the turtle stored under `id`; an id with no turtle is ignored. */
    method RemoveTurtle(id: int)
      requires Valid()
      modifies this
      ensures Valid()
      ensures turtlesById == old(turtlesById) - {id}
      ensures nextTurtleId == old(nextTurtleId) && issued == old(issued)
    {
      if id !in turtlesById {
        return;
      }
      turtlesById := turtlesById - {id};
    }
  }
}
