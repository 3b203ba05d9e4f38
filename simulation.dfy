/**
 * One frame of the animation engine: physics for every active pet, then animation for every
 * active pet, with the same speed multiplier (`MainService`). The multiplier reaches the model as
 * the physics step sizes `st` and the animation timer step `step`.
 */
module Simulation {
  import opened PetStates
  import opened PetPhysics
  import opened PetAnimation
  import opened Pets

  /** The ids of the active pets, in order. */
  function Ids(pets: seq<PetState>): (ids: seq<string>)
    ensures |ids| == |pets| && forall k :: 0 <= k < |pets| ==> ids[k] == pets[k].id
  {
    seq(|pets|, k requires 0 <= k < |pets| => pets[k].id)
  }

  /** Records `rs` are what a frame makes of `rs0`: some physics outcome `mid`, then every pet's
      animation step. */
  ghost predicate Framed(rs0: seq<PetRecord>, b: Bounds, st: Steps, ids: seq<string>, step: int,
                         sheets: map<Drawable, Sheet>, rs: seq<PetRecord>)
  {
    exists mid :: TickOutcome(rs0, b, st, mid) && |rs| == |mid| == |ids| &&
      forall k :: 0 <= k < |rs| ==> rs[k] == PetAnimated(mid[k], ids[k], step, sheets)
  }

  /** The engine's frame callback: `updatePhysics` and then `updateAnimations`. */
  method Tick(pets: seq<PetState>, b: Bounds, st: Steps, step: int, sheets: map<Drawable, Sheet>)
    requires Distinct(pets)
    requires forall k :: 0 <= k < |pets| && !Excluded(pets[k].Record()) ==>
      Fits(pets[k].width, pets[k].height, b)
    modifies set p | p in pets
    ensures Framed(old(Records(pets)), b, st, Ids(pets), step, sheets, Records(pets))
  {
    UpdatePhysics(pets, b, st);
    ghost var mid := Records(pets);
    UpdateAnimations(pets, step, sheets);
    assert forall k :: 0 <= k < |pets| ==> Records(pets)[k] == PetAnimated(mid[k], Ids(pets)[k], step, sheets);
  }

  /** Over a whole frame, a pet the user is dragging or has the menu open on keeps its position,
      velocity and behaviour; every other pet ends inside the bounds with its window on it. */
  lemma FrameKeepsHeldPets(rs0: seq<PetRecord>, b: Bounds, st: Steps, ids: seq<string>, step: int,
                           sheets: map<Drawable, Sheet>, rs: seq<PetRecord>, k: int)
    requires Framed(rs0, b, st, ids, step, sheets, rs) && 0 <= k < |rs0|
    ensures Excluded(rs0[k]) ==>
      rs[k].x == rs0[k].x && rs[k].y == rs0[k].y && rs[k].dx == rs0[k].dx && rs[k].dy == rs0[k].dy &&
      rs[k].behavior == rs0[k].behavior
    ensures !Excluded(rs0[k]) ==> InBounds(rs[k], b) && rs[k].paramsX == rs[k].x && rs[k].paramsY == rs[k].y
  {
    var mid :| TickOutcome(rs0, b, st, mid) && |rs| == |mid| == |ids| &&
      forall k :: 0 <= k < |rs| ==> rs[k] == PetAnimated(mid[k], ids[k], step, sheets);
    assert PetTicked(rs0, k, b, st, mid[k]);
    TickedFreePet(rs0[k], Launched(rs0, k, b), Dropped(rs0, k, b), b, st, mid[k]);
    AnimatedKeepsPhysics(mid[k], ids[k], step, sheets);
  }
}
