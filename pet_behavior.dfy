/**
 * The behaviour states of a pet (the sealed class `PetBehavior`). `FLY` is included: the physics
 * and animation code dispatch on it although the sealed class as shipped does not declare it.
 */
module PetBehaviors {
  import Random

  datatype PetBehavior =
    | NONE
    | IDLE
    | WALK_LEFT
    | WALK_RIGHT
    | JUMP
    | FALL
    | CLIMB_EDGE
    | SLEEP
    | INTERACT
    | COLLIDE
    | FLY

  /** The `name` each behaviour object carries. */
  function Name(b: PetBehavior): string
  {
    match b
    case NONE => "NONE"
    case IDLE => "IDLE"
    case WALK_LEFT => "WALK_LEFT"
    case WALK_RIGHT => "WALK_RIGHT"
    case JUMP => "JUMP"
    case FALL => "FALL"
    case CLIMB_EDGE => "CLIMB_EDGE"
    case SLEEP => "SLEEP"
    case INTERACT => "INTERACT"
    case COLLIDE => "COLLIDE"
    case FLY => "FLY"
  }

  /** No two behaviours share a name. */
  lemma NamesDistinct(a: PetBehavior, b: PetBehavior)
    ensures Name(a) == Name(b) ==> a == b
  {
  }

  /** The three behaviours `getRandomMovement` can produce. */
  predicate IsRandomMovement(b: PetBehavior)
  {
    b == IDLE || b == WALK_LEFT || b == WALK_RIGHT
  }

  /** `getRandomMovement()`, given the value `draw` that `(0..2).random()` produced. */
  function RandomMovement(draw: int): (b: PetBehavior)
    ensures IsRandomMovement(b)
  {
    if draw == 0 then IDLE
    else if draw == 1 then WALK_LEFT
    else WALK_RIGHT
  }

  /** `getRandomMovement()` itself: one draw of `(0..2).random()`. */
  method GetRandomMovement() returns (b: PetBehavior)
    ensures IsRandomMovement(b)
  {
    var draw := Random.Between(0, 2);
    b := RandomMovement(draw);
  }

  /** The one draw in 0..2 that makes `getRandomMovement` pick `m`. */
  function MovementDraw(m: PetBehavior): (draw: int)
    requires IsRandomMovement(m)
    ensures 0 <= draw <= 2 && RandomMovement(draw) == m
  {
    match m
    case IDLE => 0
    case WALK_LEFT => 1
    case WALK_RIGHT => 2
  }

  /** Different draws in 0..2 give different movements, so each of the three is picked by
      exactly one draw. */
  lemma RandomMovementInjective(d1: int, d2: int)
    requires 0 <= d1 <= 2 && 0 <= d2 <= 2
    requires RandomMovement(d1) == RandomMovement(d2)
    ensures d1 == d2
  {
  }
}
