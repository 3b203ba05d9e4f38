/**
 * One physics tick over the live pets (`PetPhysicsController`): reset the per-tick latch,
 * resolve pairwise collisions, run each free pet's behaviour updater, clamp it into the
 * usable bounds.
 *
 * The float speed multiplier enters the source only as `(k * speed).toInt()`; those integers
 * are the fields of `Steps`. Because `toInt` truncates toward zero, `(-k * speed).toInt()` is
 * the negation of `(k * speed).toInt()`. Every random draw is a nondeterministic choice, and
 * the contracts describe every outcome.
 */
module PetPhysics {
  import opened PetBehaviors
  import opened Emotes
  import opened PetStates
  import KotlinInt
  import Random

  /** The simulated duration of one tick, in milliseconds. */
  const TickMs: int := 16

  /** The usable screen rectangle (`getUsableBounds()`): minX, minY, maxX, maxY. */
  datatype Bounds = Bounds(left: int, top: int, right: int, bottom: int)

  /** `(k * speed).toInt()` for k = 1, 3, 4, 10 and 15; the speed multiplier is positive, so none
      of them is negative. */
  datatype Steps = Steps(gravity: nat, climb: nat, walk: nat, fall: nat, leap: nat)

  // ───────────── contact predicates ─────────────

  predicate HitsLeftWall(x: int, b: Bounds) { x <= b.left }
  predicate HitsRightWall(x: int, width: int, b: Bounds) { x + width >= b.right }
  predicate HitsCeiling(y: int, b: Bounds) { y <= b.top }
  predicate HitsFloor(y: int, height: int, b: Bounds) { y + height >= b.bottom }

  /** A pet the user owns (dragged, or with its menu open): physics must not touch it. */
  predicate Excluded(r: PetRecord) { r.isDragging || r.isMenuOpen }

  /** The range `coerceIn` clamps a pet into is non-empty (otherwise `coerceIn` throws). */
  predicate Fits(width: int, height: int, b: Bounds)
  {
    b.left <= b.right - width && b.top <= b.bottom - height
  }

  predicate InBounds(r: PetRecord, b: Bounds)
  {
    b.left <= r.x <= b.right - r.width && b.top <= r.y <= b.bottom - r.height
  }

  // ───────────── rectangles (android.graphics.Rect) ─────────────

  datatype Rect = Rect(left: int, top: int, right: int, bottom: int)

  function Box(r: PetRecord): Rect
  {
    Rect(r.x, r.y, r.x + r.width, r.y + r.height)
  }

  /** `Rect.intersects(a, c)`: the two half-open rectangles overlap with positive area. */
  predicate Intersects(a: Rect, c: Rect)
  {
    a.left < c.right && c.left < a.right && a.top < c.bottom && c.top < a.bottom
  }

  predicate Covers(a: Rect, px: int, py: int)
  {
    a.left <= px < a.right && a.top <= py < a.bottom
  }

  /** For boxes of positive size, `intersects` holds exactly when some pixel lies in both. */
  lemma IntersectsIffSharedPixel(a: Rect, c: Rect)
    requires a.left < a.right && a.top < a.bottom
    requires c.left < c.right && c.top < c.bottom
    ensures Intersects(a, c) <==> exists px, py :: Covers(a, px, py) && Covers(c, px, py)
  {
    if Intersects(a, c) {
      var px := if a.left < c.left then c.left else a.left;
      var py := if a.top < c.top then c.top else a.top;
      assert Covers(a, px, py) && Covers(c, px, py);
    }
  }

  /** Two pets collide near the ceiling: they overlap and one of them is within 10 px of the top. */
  predicate CeilingCongested(a: PetRecord, c: PetRecord, b: Bounds)
  {
    Intersects(Box(a), Box(c)) && (a.y <= b.top + 10 || c.y <= b.top + 10)
  }

  // ───────────── clamping ─────────────

  function Dist(a: int, c: int): nat
  {
    if a < c then c - a else a - c
  }

  /** `v.coerceIn(lo, hi)` for a non-empty range: the point of [lo, hi] nearest to `v`. */
  function CoerceIn(v: int, lo: int, hi: int): (r: int)
    requires lo <= hi
    ensures lo <= r <= hi
    ensures lo <= v <= hi ==> r == v
    ensures forall z :: lo <= z <= hi ==> Dist(r, v) <= Dist(z, v)
  {
    if v < lo then lo else if v > hi then hi else v
  }

  // ───────────── what an update may do to one pet's record ─────────────

  /** The record with the per-tick latch cleared and 16 ms added to the behaviour timer. */
  function Reset(r: PetRecord): PetRecord
  {
    r.(behaviorChangedThisTick := false, behaviorTimer := r.behaviorTimer + TickMs)
  }

  /** The record once a change to `next` is committed. */
  function Committed(r: PetRecord, next: PetBehavior): PetRecord
  {
    r.(behavior := next, behaviorTimer := 0, behaviorChangedThisTick := true)
  }

  function WithEmoteOf(r: PetRecord, src: PetRecord): PetRecord
  {
    r.(currentEmote := src.currentEmote, emoteTimer := src.emoteTimer)
  }

  predicate EmoteKept(before: PetRecord, after: PetRecord)
  {
    after.currentEmote == before.currentEmote && after.emoteTimer == before.emoteTimer
  }

  /** The emote is either untouched or freshly set to a visible emote. */
  predicate EmoteKeptOrRestarted(before: PetRecord, after: PetRecord)
  {
    EmoteKept(before, after) || (after.currentEmote != EmoteType.NONE && after.emoteTimer == 0)
  }

  /** Every outcome of `tryChange(pet, next)`: nothing when the latch is set; otherwise the
      change is committed, and the emote becomes SLEEPY for SLEEP, or is kept or restarted. */
  predicate ChangeTried(before: PetRecord, next: PetBehavior, after: PetRecord)
  {
    if before.behaviorChangedThisTick then after == before
    else
      after == WithEmoteOf(Committed(before, next), after) &&
      if next == SLEEP then after.currentEmote == SLEEPY && after.emoteTimer == 0
      else EmoteKeptOrRestarted(before, after)
  }

  /** `tryChange` to one behaviour of `nexts`, chosen at random. */
  predicate ChangeTriedOneOf(before: PetRecord, nexts: set<PetBehavior>, after: PetRecord)
  {
    if before.behaviorChangedThisTick then after == before
    else after.behavior in nexts && ChangeTried(before, after.behavior, after)
  }

  /** `tryChange(pet, getRandomMovement())`. */
  predicate MovementTried(before: PetRecord, after: PetRecord)
  {
    ChangeTriedOneOf(before, {IDLE, WALK_LEFT, WALK_RIGHT}, after)
  }

  /** The horizontal launch speed of a jump: toward the horizontal centre of the bounds. */
  function JumpDx(x: int, b: Bounds, st: Steps): int
  {
    if x < KotlinInt.Div(b.right + b.left, 2) then st.leap else -(st.leap as int)
  }

  /** Every outcome of `startJump`: a change to JUMP is tried, and whether or not it commits the
      velocity is set for the launch; a 30% draw may then show SURPRISED. */
  predicate JumpStarted(before: PetRecord, b: Bounds, st: Steps, after: PetRecord)
  {
    var launched :=
      (if before.behaviorChangedThisTick then before else Committed(before, JUMP))
        .(dx := JumpDx(before.x, b, st), dy := -(st.fall as int));
    after == WithEmoteOf(launched, after) &&
    if before.behaviorChangedThisTick then
      EmoteKept(before, after) || (after.currentEmote == SURPRISED && after.emoteTimer == 0)
    else EmoteKeptOrRestarted(before, after)
  }

  /** Physics changes only position, velocity, behaviour, latch, timer and emote. */
  predicate PhysicsFrame(before: PetRecord, after: PetRecord)
  {
    after == before.(x := after.x, y := after.y, dx := after.dx, dy := after.dy,
      behaviorChangedThisTick := after.behaviorChangedThisTick, behavior := after.behavior,
      behaviorTimer := after.behaviorTimer,
      currentEmote := after.currentEmote, emoteTimer := after.emoteTimer)
  }

  /** The single-commit latch: a latched pet keeps its behaviour and timer, a newly latched one
      has a zero timer, and an unlatched one has neither behaviour nor timer changed. */
  predicate LatchRespected(before: PetRecord, after: PetRecord)
  {
    if before.behaviorChangedThisTick then
      after.behaviorChangedThisTick && after.behavior == before.behavior &&
      after.behaviorTimer == before.behaviorTimer
    else if after.behaviorChangedThisTick then after.behaviorTimer == 0
    else after.behavior == before.behavior && after.behaviorTimer == before.behaviorTimer
  }

  /** What any part of the tick may do to a pet the engine owns. */
  predicate Updated(before: PetRecord, after: PetRecord)
  {
    PhysicsFrame(before, after) && LatchRespected(before, after) && EmoteKeptOrRestarted(before, after)
  }

  /** What the collision pass may do: an update that does not move the pet. */
  predicate Steered(before: PetRecord, after: PetRecord)
  {
    Updated(before, after) && after.x == before.x && after.y == before.y
  }

  lemma {:induction false} UpdatedTransitive(r1: PetRecord, r2: PetRecord, r3: PetRecord)
    requires Updated(r1, r2) && Updated(r2, r3)
    ensures Updated(r1, r3)
  {
  }

  /** The record after moving: only position and velocity differ. */
  predicate Moved(before: PetRecord, after: PetRecord)
  {
    after == before.(x := after.x, y := after.y, dx := after.dx, dy := after.dy)
  }

  lemma MovedThenUpdated(before: PetRecord, moved: PetRecord, after: PetRecord)
    requires Moved(before, moved) && Updated(moved, after)
    ensures Updated(before, after)
  {
  }

  lemma ChangeTriedOneOfSteers(before: PetRecord, nexts: set<PetBehavior>, after: PetRecord)
    requires ChangeTriedOneOf(before, nexts, after)
    ensures Steered(before, after)
    ensures after.behaviorChangedThisTick
    ensures !before.behaviorChangedThisTick ==> after.behavior in nexts
  {
    if !before.behaviorChangedThisTick {
      ChangeTriedSteers(before, after.behavior, after);
    }
  }

  lemma ChangeTriedSteers(before: PetRecord, next: PetBehavior, after: PetRecord)
    requires ChangeTried(before, next, after)
    ensures Steered(before, after)
    ensures after.behaviorChangedThisTick
    ensures !before.behaviorChangedThisTick ==> after.behavior == next
  {
  }

  lemma JumpStartedSteers(before: PetRecord, b: Bounds, st: Steps, after: PetRecord)
    requires JumpStarted(before, b, st, after)
    ensures Steered(before, after)
    ensures after.behaviorChangedThisTick
    ensures after.dx == JumpDx(before.x, b, st) && after.dy == -(st.fall as int)
    ensures st.leap > 0 ==> (after.dx > 0 <==> before.x < KotlinInt.Div(b.left + b.right, 2))
    ensures st.leap > 0 ==> (after.dx < 0 <==> before.x >= KotlinInt.Div(b.left + b.right, 2))
    ensures after.dx == st.leap || after.dx == -(st.leap as int)
  {
    assert b.right + b.left == b.left + b.right;
  }

  // ───────────── helpers of the controller ─────────────

  /** `tryChange`: commit a behaviour change unless one was already committed this tick. */
  method TryChange(pet: PetState, next: PetBehavior)
    modifies pet
    ensures ChangeTried(old(pet.Record()), next, pet.Record())
    ensures Steered(old(pet.Record()), pet.Record())
  {
    if pet.behaviorChangedThisTick {
      return;
    }
    pet.behavior := next;
    pet.behaviorTimer := 0;
    pet.behaviorChangedThisTick := true;

    if next == SLEEP {
      TriggerEmote(pet, SLEEPY);
    } else {
      var emote := Random.Chance(50);
      if emote {
        TriggerRandomEmote(pet);
      }
    }
  }

  method TriggerEmote(pet: PetState, emote: EmoteType)
    modifies pet
    ensures pet.Record() == old(pet.Record()).(currentEmote := emote, emoteTimer := 0)
  {
    pet.currentEmote := emote;
    pet.emoteTimer := 0;
  }

  /** Show an emote drawn from every emote but NONE. */
  method TriggerRandomEmote(pet: PetState)
    modifies pet
    ensures pet.currentEmote != EmoteType.NONE && pet.emoteTimer == 0
    ensures pet.Record() == WithEmoteOf(old(pet.Record()), pet.Record())
  {
    var emotes := WithoutNone(Values());
    assert HAPPY in Values();
    var emote := Random.Pick(emotes);
    TriggerEmote(pet, emote);
  }

  /** `startJump`: try to switch to JUMP and launch toward the centre, even when the latch
      blocks the switch. */
  method StartJump(pet: PetState, b: Bounds, st: Steps)
    modifies pet
    ensures JumpStarted(old(pet.Record()), b, st, pet.Record())
  {
    TryChange(pet, JUMP);
    pet.dx := if pet.x < KotlinInt.Div(b.right + b.left, 2) then st.leap else -(st.leap as int);
    pet.dy := -(st.fall as int);

    var surprise := Random.Chance(300);
    if surprise {
      TriggerEmote(pet, SURPRISED);
    }
  }

  /** `stickToWall`: pin the pet to the wall at `x`, stop it vertically and try to climb. */
  method StickToWall(pet: PetState, x: int)
    modifies pet
    ensures ChangeTried(old(pet.Record()).(x := x, dy := 0), CLIMB_EDGE, pet.Record())
  {
    pet.x := x;
    pet.dy := 0;
    TryChange(pet, CLIMB_EDGE);
  }

  /** Come to rest at height `y` and try a random movement (the landing step shared by FALL,
      CLIMB_EDGE and JUMP). */
  method SettleAt(pet: PetState, y: int)
    modifies pet
    ensures MovementTried(old(pet.Record()).(y := y), pet.Record())
    ensures Steered(old(pet.Record()).(y := y), pet.Record())
  {
    pet.y := y;
    var next := GetRandomMovement();
    TryChange(pet, next);
  }

  /** `if (Random.nextFloat() < p) tryChange(pet, next)`, with p in permille. */
  method MaybeChange(pet: PetState, permille: nat, next: PetBehavior)
    modifies pet
    ensures pet.Record() == old(pet.Record()) || ChangeTried(old(pet.Record()), next, pet.Record())
    ensures Steered(old(pet.Record()), pet.Record())
  {
    var hit := Random.Chance(permille);
    if hit {
      TryChange(pet, next);
    }
  }

  /** `clampToBounds`: coerce the position into the bounds and copy it to the window params. */
  method ClampToBounds(pet: PetState, b: Bounds)
    requires Fits(pet.width, pet.height, b)
    modifies pet
    ensures var x := CoerceIn(old(pet.x), b.left, b.right - old(pet.width));
            var y := CoerceIn(old(pet.y), b.top, b.bottom - old(pet.height));
      pet.Record() == old(pet.Record()).(x := x, y := y, paramsX := x, paramsY := y)
    ensures InBounds(pet.Record(), b)
  {
    pet.x := CoerceIn(pet.x, b.left, b.right - pet.width);
    pet.y := CoerceIn(pet.y, b.top, b.bottom - pet.height);
    pet.paramsX := pet.x;
    pet.paramsY := pet.y;
  }

  // ───────────── behaviour updaters ─────────────
  //
  // Each updater first moves the pet by its step (only position and velocity change), then
  // reacts to what it touched. The reaction is a helper of its own, and its outcome, over the
  // record reached by the step, is the predicate the updater is specified by.

  /** The step of each behaviour, before it reacts to what it touched. */
  function FallStep(r: PetRecord, st: Steps): PetRecord { r.(dx := 0, dy := st.fall, y := r.y + st.fall) }
  function WalkLeftStep(r: PetRecord, st: Steps): PetRecord { r.(dx := -(st.walk as int), dy := 0, x := r.x - st.walk) }
  function WalkRightStep(r: PetRecord, st: Steps): PetRecord { r.(dx := st.walk, dy := 0, x := r.x + st.walk) }
  function JumpStep(r: PetRecord, st: Steps): PetRecord
  {
    r.(x := r.x + r.dx, dy := r.dy + st.gravity, y := r.y + r.dy + st.gravity)
  }
  function ClimbStep(r: PetRecord, step: int): PetRecord { r.(dx := 0, dy := step, y := r.y + step) }
  function IdleStep(r: PetRecord): PetRecord { r.(dx := 0, dy := 0) }
  function FlyStep(r: PetRecord, st: Steps): PetRecord { r.(dx := 0, dy := -(st.walk as int), y := r.y - st.walk) }

  /** What FALL does once it has dropped (`moved`): on the floor, rest there and pick a movement. */
  predicate FallOutcome(moved: PetRecord, b: Bounds, after: PetRecord)
  {
    if HitsFloor(moved.y, moved.height, b) then
      MovementTried(moved.(y := b.bottom - moved.height), after)
    else after == moved
  }

  /** FALL: drop by the fall step; on reaching the floor, rest on it and pick a movement. */
  method UpdateFall(pet: PetState, b: Bounds, st: Steps)
    modifies pet
    ensures FallOutcome(FallStep(old(pet.Record()), st), b, pet.Record())
  {
    pet.dx := 0;
    pet.dy := st.fall;
    pet.y := pet.y + pet.dy;

    if HitsFloor(pet.y, pet.height, b) {
      SettleAt(pet, b.bottom - pet.height);
    }
  }

  /** What WALK_LEFT does once it has stepped (`moved`): at the left wall, stop on it and climb
      or turn round; after 3 s a 2% draw may make the pet idle. */
  predicate WalkLeftOutcome(moved: PetRecord, b: Bounds, after: PetRecord)
  {
    if HitsLeftWall(moved.x, b) then
      ChangeTriedOneOf(moved.(x := b.left), {CLIMB_EDGE, WALK_RIGHT}, after)
    else if moved.behaviorTimer > 3000 then after == moved || ChangeTried(moved, IDLE, after)
    else after == moved
  }

  method AfterWalkLeftStep(pet: PetState, b: Bounds)
    modifies pet
    ensures WalkLeftOutcome(old(pet.Record()), b, pet.Record())
  {
    if HitsLeftWall(pet.x, b) {
      pet.x := b.left;
      var climb := Random.Chance(500);
      TryChange(pet, if climb then CLIMB_EDGE else WALK_RIGHT);
    } else if pet.behaviorTimer > 3000 {
      MaybeChange(pet, 20, IDLE);
    }
  }

  /** WALK_LEFT: step left by the walking step, then react. */
  method UpdateWalkLeft(pet: PetState, b: Bounds, st: Steps)
    modifies pet
    ensures WalkLeftOutcome(WalkLeftStep(old(pet.Record()), st), b, pet.Record())
  {
    pet.dx := -(st.walk as int);
    pet.dy := 0;
    pet.x := pet.x + pet.dx;
    assert pet.Record() == WalkLeftStep(old(pet.Record()), st);
    AfterWalkLeftStep(pet, b);
  }

  /** What WALK_RIGHT does once it has stepped: the mirror image of WALK_LEFT at the right wall. */
  predicate WalkRightOutcome(moved: PetRecord, b: Bounds, after: PetRecord)
  {
    if HitsRightWall(moved.x, moved.width, b) then
      ChangeTriedOneOf(moved.(x := b.right - moved.width), {CLIMB_EDGE, WALK_LEFT}, after)
    else if moved.behaviorTimer > 3000 then after == moved || ChangeTried(moved, IDLE, after)
    else after == moved
  }

  method AfterWalkRightStep(pet: PetState, b: Bounds)
    modifies pet
    ensures WalkRightOutcome(old(pet.Record()), b, pet.Record())
  {
    if HitsRightWall(pet.x, pet.width, b) {
      pet.x := b.right - pet.width;
      var climb := Random.Chance(500);
      TryChange(pet, if climb then CLIMB_EDGE else WALK_LEFT);
    } else if pet.behaviorTimer > 3000 {
      MaybeChange(pet, 20, IDLE);
    }
  }

  /** WALK_RIGHT: step right by the walking step, then react. */
  method UpdateWalkRight(pet: PetState, b: Bounds, st: Steps)
    modifies pet
    ensures WalkRightOutcome(WalkRightStep(old(pet.Record()), st), b, pet.Record())
  {
    pet.dx := st.walk;
    pet.dy := 0;
    pet.x := pet.x + pet.dx;
    assert pet.Record() == WalkRightStep(old(pet.Record()), st);
    AfterWalkRightStep(pet, b);
  }

  /** The vertical climbing step: chosen (25% down, else up) only when the pet is not moving
      vertically yet, otherwise kept. */
  predicate ClimbStepChosen(previous: int, step: int, st: Steps)
  {
    if previous == 0 then step == st.climb || step == -(st.climb as int) else step == previous
  }

  /** What CLIMB_EDGE does once it has climbed (`moved`): at the ceiling or the floor stop there
      and pick a movement; otherwise after 2 s a 2% draw launches a jump, and after 4 s a 0.5%
      draw lets go. */
  predicate ClimbOutcome(moved: PetRecord, b: Bounds, st: Steps, after: PetRecord)
  {
    if HitsCeiling(moved.y, b) then MovementTried(moved.(y := b.top), after)
    else if HitsFloor(moved.y, moved.height, b) then
      MovementTried(moved.(y := b.bottom - moved.height), after)
    else
      after == moved ||
      (moved.behaviorTimer > 2000 && JumpStarted(moved, b, st, after)) ||
      (moved.behaviorTimer > 4000 && ChangeTried(moved, FALL, after))
  }

  /** Pick the climbing direction when the pet has no vertical speed yet. */
  method ChooseClimbStep(pet: PetState, st: Steps)
    modifies pet
    ensures ClimbStepChosen(old(pet.dy), pet.dy, st)
    ensures pet.Record() == old(pet.Record()).(dy := pet.dy)
  {
    if pet.dy == 0 {
      var down := Random.Chance(250);
      pet.dy := if down then st.climb else -(st.climb as int);
    }
  }

  method AfterClimbStep(pet: PetState, b: Bounds, st: Steps)
    modifies pet
    ensures ClimbOutcome(old(pet.Record()), b, st, pet.Record())
  {
    if HitsCeiling(pet.y, b) {
      SettleAt(pet, b.top);
    } else if HitsFloor(pet.y, pet.height, b) {
      SettleAt(pet, b.bottom - pet.height);
    } else {
      var jump := false;
      if pet.behaviorTimer > 2000 {
        jump := Random.Chance(20);
      }
      if jump {
        StartJump(pet, b, st);
      } else if pet.behaviorTimer > 4000 {
        MaybeChange(pet, 5, FALL);
      }
    }
  }

  /** Every outcome of CLIMB_EDGE from `r`: the climbing step is either of the two directions
      when the pet had no vertical speed, and its vertical speed otherwise. */
  predicate ClimbEdgeOutcome(r: PetRecord, b: Bounds, st: Steps, after: PetRecord)
  {
    exists step | step in {st.climb, -(st.climb as int), r.dy} ::
      ClimbStepChosen(r.dy, step, st) &&
      ClimbOutcome(ClimbStep(r, step), b, st, after)
  }

  /** CLIMB_EDGE: stop horizontally, choose the climbing step if there is none, climb, react. */
  method UpdateClimbEdge(pet: PetState, b: Bounds, st: Steps)
    modifies pet
    ensures ClimbEdgeOutcome(old(pet.Record()), b, st, pet.Record())
  {
    pet.dx := 0;
    ChooseClimbStep(pet, st);
    ghost var step := pet.dy;
    pet.y := pet.y + pet.dy;
    ghost var moved := pet.Record();
    assert moved == ClimbStep(old(pet.Record()), step);
    AfterClimbStep(pet, b, st);
    assert step in {st.climb, -(st.climb as int), old(pet.dy)} && ClimbStepChosen(old(pet.dy), step, st);
  }

  /** What JUMP does once it has followed its arc for one tick (`moved`): a wall catches the pet,
      which climbs it; the floor ends the jump with a random movement; otherwise a 0.5% draw
      makes it fall. */
  predicate JumpOutcome(moved: PetRecord, b: Bounds, after: PetRecord)
  {
    if HitsLeftWall(moved.x, b) then ChangeTried(moved.(x := b.left, dy := 0), CLIMB_EDGE, after)
    else if HitsRightWall(moved.x, moved.width, b) then
      ChangeTried(moved.(x := b.right - moved.width, dy := 0), CLIMB_EDGE, after)
    else if HitsFloor(moved.y, moved.height, b) then
      MovementTried(moved.(y := b.bottom - moved.height), after)
    else after == moved || ChangeTried(moved, FALL, after)
  }

  method AfterJumpStep(pet: PetState, b: Bounds)
    modifies pet
    ensures JumpOutcome(old(pet.Record()), b, pet.Record())
  {
    if HitsLeftWall(pet.x, b) {
      StickToWall(pet, b.left);
    } else if HitsRightWall(pet.x, pet.width, b) {
      StickToWall(pet, b.right - pet.width);
    } else if HitsFloor(pet.y, pet.height, b) {
      SettleAt(pet, b.bottom - pet.height);
    } else {
      MaybeChange(pet, 5, FALL);
    }
  }

  /** JUMP: follow the launch arc under gravity, then react. */
  method UpdateJump(pet: PetState, b: Bounds, st: Steps)
    modifies pet
    ensures JumpOutcome(JumpStep(old(pet.Record()), st), b, pet.Record())
  {
    pet.x := pet.x + pet.dx;
    pet.dy := pet.dy + st.gravity;
    pet.y := pet.y + pet.dy;
    assert pet.Record() == JumpStep(old(pet.Record()), st);
    AfterJumpStep(pet, b);
  }

  /** What IDLE does once it has stopped (`still`): after 2 s a 5% draw picks a movement. */
  predicate IdleOutcome(still: PetRecord, after: PetRecord)
  {
    if still.behaviorTimer > 2000 then after == still || MovementTried(still, after)
    else after == still
  }

  /** IDLE: stand still, then maybe pick a movement. */
  method UpdateIdle(pet: PetState)
    modifies pet
    ensures IdleOutcome(IdleStep(old(pet.Record())), pet.Record())
  {
    pet.dx := 0;
    pet.dy := 0;
    if pet.behaviorTimer > 2000 {
      var move := Random.Chance(50);
      if move {
        var next := GetRandomMovement();
        TryChange(pet, next);
      }
    }
  }

  /** What FLY does once it has risen (`moved`): at the ceiling stop there and walk off left or
      right; after 2 s a 0.5% draw makes the pet fall. */
  predicate FlyOutcome(moved: PetRecord, b: Bounds, after: PetRecord)
  {
    if HitsCeiling(moved.y, b) then ChangeTriedOneOf(moved.(y := b.top), {WALK_LEFT, WALK_RIGHT}, after)
    else if moved.behaviorTimer > 2000 then after == moved || ChangeTried(moved, FALL, after)
    else after == moved
  }

  method AfterFlyStep(pet: PetState, b: Bounds)
    modifies pet
    ensures FlyOutcome(old(pet.Record()), b, pet.Record())
  {
    if HitsCeiling(pet.y, b) {
      pet.y := b.top;
      var left := Random.NextBoolean();
      TryChange(pet, if left then WALK_LEFT else WALK_RIGHT);
    } else if pet.behaviorTimer > 2000 {
      MaybeChange(pet, 5, FALL);
    }
  }

  /** FLY: rise by the walking step, then react. */
  method UpdateFly(pet: PetState, b: Bounds, st: Steps)
    modifies pet
    ensures FlyOutcome(FlyStep(old(pet.Record()), st), b, pet.Record())
  {
    pet.dx := 0;
    pet.dy := -(st.walk as int);
    pet.y := pet.y + pet.dy;
    assert pet.Record() == FlyStep(old(pet.Record()), st);
    AfterFlyStep(pet, b);
  }

  /** Every outcome of one behaviour step of a free pet, by its behaviour: the updater's outcome
      for the behaviours that have one, an attempted switch to FALL for the rest. */
  predicate BehaviorOutcome(r: PetRecord, b: Bounds, st: Steps, after: PetRecord)
  {
    match r.behavior
    case FALL => FallOutcome(FallStep(r, st), b, after)
    case WALK_LEFT => WalkLeftOutcome(WalkLeftStep(r, st), b, after)
    case WALK_RIGHT => WalkRightOutcome(WalkRightStep(r, st), b, after)
    case CLIMB_EDGE => ClimbEdgeOutcome(r, b, st, after)
    case JUMP => JumpOutcome(JumpStep(r, st), b, after)
    case IDLE => IdleOutcome(IdleStep(r), after)
    case FLY => FlyOutcome(FlyStep(r, st), b, after)
    case _ => ChangeTried(r, FALL, after)
  }

  lemma ClimbOutcomeUpdated(moved: PetRecord, b: Bounds, st: Steps, after: PetRecord)
    requires ClimbOutcome(moved, b, st, after)
    ensures Updated(moved, after)
  {
    if HitsCeiling(moved.y, b) {
      ChangeTriedOneOfSteers(moved.(y := b.top), {IDLE, WALK_LEFT, WALK_RIGHT}, after);
    } else if HitsFloor(moved.y, moved.height, b) {
      ChangeTriedOneOfSteers(moved.(y := b.bottom - moved.height), {IDLE, WALK_LEFT, WALK_RIGHT}, after);
    } else if after == moved {
    } else if moved.behaviorTimer > 2000 && JumpStarted(moved, b, st, after) {
      JumpStartedSteers(moved, b, st, after);
    } else {
      ChangeTriedSteers(moved, FALL, after);
    }
  }

  lemma JumpOutcomeUpdated(moved: PetRecord, b: Bounds, after: PetRecord)
    requires JumpOutcome(moved, b, after)
    ensures Updated(moved, after)
  {
    if HitsLeftWall(moved.x, b) {
      ChangeTriedSteers(moved.(x := b.left, dy := 0), CLIMB_EDGE, after);
    } else if HitsRightWall(moved.x, moved.width, b) {
      ChangeTriedSteers(moved.(x := b.right - moved.width, dy := 0), CLIMB_EDGE, after);
    } else if HitsFloor(moved.y, moved.height, b) {
      ChangeTriedOneOfSteers(moved.(y := b.bottom - moved.height), {IDLE, WALK_LEFT, WALK_RIGHT}, after);
    } else if after != moved {
      ChangeTriedSteers(moved, FALL, after);
    }
  }

  lemma WalkOutcomeUpdated(moved: PetRecord, b: Bounds, after: PetRecord)
    requires WalkLeftOutcome(moved, b, after) || WalkRightOutcome(moved, b, after)
    ensures Updated(moved, after)
  {
    if WalkLeftOutcome(moved, b, after) {
      if HitsLeftWall(moved.x, b) {
        ChangeTriedOneOfSteers(moved.(x := b.left), {CLIMB_EDGE, WALK_RIGHT}, after);
      } else if after != moved {
        ChangeTriedSteers(moved, IDLE, after);
      }
    } else {
      if HitsRightWall(moved.x, moved.width, b) {
        ChangeTriedOneOfSteers(moved.(x := b.right - moved.width), {CLIMB_EDGE, WALK_LEFT}, after);
      } else if after != moved {
        ChangeTriedSteers(moved, IDLE, after);
      }
    }
  }

  lemma FallOutcomeUpdated(moved: PetRecord, b: Bounds, after: PetRecord)
    requires FallOutcome(moved, b, after)
    ensures Updated(moved, after)
  {
    if HitsFloor(moved.y, moved.height, b) {
      ChangeTriedOneOfSteers(moved.(y := b.bottom - moved.height), {IDLE, WALK_LEFT, WALK_RIGHT}, after);
    }
  }

  lemma IdleOutcomeUpdated(still: PetRecord, after: PetRecord)
    requires IdleOutcome(still, after)
    ensures Updated(still, after)
  {
    if after != still {
      ChangeTriedOneOfSteers(still, {IDLE, WALK_LEFT, WALK_RIGHT}, after);
    }
  }

  lemma FlyOutcomeUpdated(moved: PetRecord, b: Bounds, after: PetRecord)
    requires FlyOutcome(moved, b, after)
    ensures Updated(moved, after)
  {
    if HitsCeiling(moved.y, b) {
      ChangeTriedOneOfSteers(moved.(y := b.top), {WALK_LEFT, WALK_RIGHT}, after);
    } else if after != moved {
      ChangeTriedSteers(moved, FALL, after);
    }
  }

  /** A behaviour step changes only the physics frame, respects the latch and leaves the emote
      alone or restarts it. */
  lemma BehaviorOutcomeUpdated(r: PetRecord, b: Bounds, st: Steps, after: PetRecord)
    requires BehaviorOutcome(r, b, st, after)
    ensures Updated(r, after)
  {
    match r.behavior
    case FALL =>
      FallOutcomeUpdated(FallStep(r, st), b, after);
      MovedThenUpdated(r, FallStep(r, st), after);
    case WALK_LEFT =>
      WalkOutcomeUpdated(WalkLeftStep(r, st), b, after);
      MovedThenUpdated(r, WalkLeftStep(r, st), after);
    case WALK_RIGHT =>
      WalkOutcomeUpdated(WalkRightStep(r, st), b, after);
      MovedThenUpdated(r, WalkRightStep(r, st), after);
    case CLIMB_EDGE =>
      var step :| step in {st.climb, -(st.climb as int), r.dy} &&
        ClimbStepChosen(r.dy, step, st) &&
        ClimbOutcome(ClimbStep(r, step), b, st, after);
      ClimbOutcomeUpdated(ClimbStep(r, step), b, st, after);
      MovedThenUpdated(r, ClimbStep(r, step), after);
    case JUMP =>
      JumpOutcomeUpdated(JumpStep(r, st), b, after);
      MovedThenUpdated(r, JumpStep(r, st), after);
    case IDLE =>
      IdleOutcomeUpdated(IdleStep(r), after);
      MovedThenUpdated(r, IdleStep(r), after);
    case FLY =>
      FlyOutcomeUpdated(FlyStep(r, st), b, after);
      MovedThenUpdated(r, FlyStep(r, st), after);
    case _ => ChangeTriedSteers(r, FALL, after);
  }

  /** A walk to the left that reaches the left wall stops on it, and, unless a change was already
      committed this tick, climbs it or turns right. */
  lemma WalkLeftStopsAtWall(r: PetRecord, b: Bounds, st: Steps, after: PetRecord)
    requires r.behavior == WALK_LEFT && BehaviorOutcome(r, b, st, after)
    requires HitsLeftWall(r.x - st.walk, b)
    ensures after.x == b.left && after.y == r.y && after.dx == -(st.walk as int) && after.dy == 0
    ensures !r.behaviorChangedThisTick ==> after.behavior in {CLIMB_EDGE, WALK_RIGHT}
  {
    ChangeTriedOneOfSteers(WalkLeftStep(r, st).(x := b.left), {CLIMB_EDGE, WALK_RIGHT}, after);
  }

  /** The mirror image at the right wall. */
  lemma WalkRightStopsAtWall(r: PetRecord, b: Bounds, st: Steps, after: PetRecord)
    requires r.behavior == WALK_RIGHT && BehaviorOutcome(r, b, st, after)
    requires HitsRightWall(r.x + st.walk, r.width, b)
    ensures after.x == b.right - r.width && after.y == r.y && after.dx == st.walk && after.dy == 0
    ensures !r.behaviorChangedThisTick ==> after.behavior in {CLIMB_EDGE, WALK_LEFT}
  {
    ChangeTriedOneOfSteers(WalkRightStep(r, st).(x := b.right - r.width), {CLIMB_EDGE, WALK_LEFT}, after);
  }

  /** A fall that reaches the floor rests on it and, unless a change was already committed this
      tick, picks a movement; a fall that does not just drops by the fall step. */
  lemma FallLands(r: PetRecord, b: Bounds, st: Steps, after: PetRecord)
    requires r.behavior == FALL && BehaviorOutcome(r, b, st, after)
    ensures HitsFloor(r.y + st.fall, r.height, b) ==>
      after.y == b.bottom - r.height && after.x == r.x &&
      (!r.behaviorChangedThisTick ==> after.behavior in {IDLE, WALK_LEFT, WALK_RIGHT})
    ensures !HitsFloor(r.y + st.fall, r.height, b) ==> after == r.(dx := 0, dy := st.fall, y := r.y + st.fall)
  {
    if HitsFloor(r.y + st.fall, r.height, b) {
      ChangeTriedOneOfSteers(FallStep(r, st).(y := b.bottom - r.height), {IDLE, WALK_LEFT, WALK_RIGHT}, after);
    }
  }

  /** NONE, SLEEP, INTERACT and COLLIDE do not move the pet; unless a change was already committed
      this tick they switch to FALL. */
  lemma InactiveBehaviorsFall(r: PetRecord, b: Bounds, st: Steps, after: PetRecord)
    requires r.behavior in {PetBehavior.NONE, SLEEP, INTERACT, COLLIDE} && BehaviorOutcome(r, b, st, after)
    ensures Steered(r, after) && after.dx == r.dx && after.dy == r.dy
    ensures !r.behaviorChangedThisTick ==> after.behavior == FALL && after.behaviorTimer == 0
  {
    ChangeTriedSteers(r, FALL, after);
  }

  /** A jump that reaches a wall sticks to it with no vertical speed and, unless a change was
      already committed this tick, climbs it. */
  lemma JumpSticksToWall(r: PetRecord, b: Bounds, st: Steps, after: PetRecord)
    requires r.behavior == JUMP && BehaviorOutcome(r, b, st, after)
    requires HitsLeftWall(r.x + r.dx, b) || HitsRightWall(r.x + r.dx, r.width, b)
    ensures after.dy == 0 && after.dx == r.dx
    ensures after.x == if HitsLeftWall(r.x + r.dx, b) then b.left else b.right - r.width
    ensures !r.behaviorChangedThisTick ==> after.behavior == CLIMB_EDGE
  {
    var m := JumpStep(r, st);
    if HitsLeftWall(m.x, b) {
      ChangeTriedSteers(m.(x := b.left, dy := 0), CLIMB_EDGE, after);
    } else {
      ChangeTriedSteers(m.(x := b.right - m.width, dy := 0), CLIMB_EDGE, after);
    }
  }

  /** The `when (pet.behavior)` dispatch: each behaviour with an updater runs it; NONE and every
      behaviour without one (SLEEP, INTERACT, COLLIDE) try to switch to FALL without moving. */
  method UpdateBehavior(pet: PetState, b: Bounds, st: Steps)
    modifies pet
    ensures BehaviorOutcome(old(pet.Record()), b, st, pet.Record())
    ensures Updated(old(pet.Record()), pet.Record())
  {
    ghost var before := pet.Record();
    match pet.behavior {
      case FALL => UpdateFall(pet, b, st);
      case WALK_LEFT => UpdateWalkLeft(pet, b, st);
      case WALK_RIGHT => UpdateWalkRight(pet, b, st);
      case CLIMB_EDGE => UpdateClimbEdge(pet, b, st);
      case JUMP => UpdateJump(pet, b, st);
      case IDLE => UpdateIdle(pet);
      case FLY => UpdateFly(pet, b, st);
      case NONE => TryChange(pet, FALL);
      case _ => TryChange(pet, FALL);
    }
    BehaviorOutcomeUpdated(before, b, st, pet.Record());
  }

  // ───────────── collisions ─────────────

  /** Every outcome of `resolveCollisions` on the pair (a, c) of free pets: nothing unless their
      boxes overlap; near the ceiling both try to fall; two climbers make the first jump off and
      the second fall; any other overlap is left alone. */
  predicate PairOutcome(a: PetRecord, c: PetRecord, b: Bounds, st: Steps, a': PetRecord, c': PetRecord)
  {
    if !Intersects(Box(a), Box(c)) then a' == a && c' == c
    else if a.y <= b.top + 10 || c.y <= b.top + 10 then
      ChangeTried(a, FALL, a') && ChangeTried(c, FALL, c')
    else if a.behavior == CLIMB_EDGE && c.behavior == CLIMB_EDGE then
      JumpStarted(a, b, st, a') && ChangeTried(c, FALL, c')
    else a' == a && c' == c
  }

  /** The body of the inner collision loop for the pair (a, c). */
  method ResolvePair(a: PetState, c: PetState, b: Bounds, st: Steps)
    requires a != c
    modifies a, c
    ensures PairOutcome(old(a.Record()), old(c.Record()), b, st, a.Record(), c.Record())
  {
    if !Intersects(Rect(a.x, a.y, a.x + a.width, a.y + a.height),
                   Rect(c.x, c.y, c.x + c.width, c.y + c.height)) {
      return;
    }
    if a.y <= b.top + 10 || c.y <= b.top + 10 {
      TryChange(a, FALL);
      TryChange(c, FALL);
      return;
    }
    if a.behavior == CLIMB_EDGE && c.behavior == CLIMB_EDGE {
      StartJump(a, b, st);
      TryChange(c, FALL);
    }
  }

  /** A pet newly latched by the collision pass has a zero timer and is falling, or is a climber
      launched into a jump toward the centre. */
  predicate CollisionLatched(before: PetRecord, after: PetRecord, b: Bounds, st: Steps)
  {
    after.behaviorChangedThisTick && !before.behaviorChangedThisTick ==>
      after.behaviorTimer == 0 &&
      (after.behavior == FALL ||
       (after.behavior == JUMP && before.behavior == CLIMB_EDGE &&
        after.dx == JumpDx(before.x, b, st) && after.dy == -(st.fall as int)))
  }

  lemma PairOutcomeSteers(a: PetRecord, c: PetRecord, b: Bounds, st: Steps, a': PetRecord, c': PetRecord)
    requires PairOutcome(a, c, b, st, a', c')
    ensures Steered(a, a') && Steered(c, c')
    ensures CollisionLatched(a, a', b, st) && CollisionLatched(c, c', b, st)
    ensures CeilingCongested(a, c, b) ==> a'.behaviorChangedThisTick && c'.behaviorChangedThisTick
    ensures (Intersects(Box(a), Box(c)) && !CeilingCongested(a, c, b) &&
             a.behavior == CLIMB_EDGE && c.behavior == CLIMB_EDGE) ==>
      a'.behaviorChangedThisTick && c'.behaviorChangedThisTick
    ensures (!Intersects(Box(a), Box(c)) ||
             (!(a.behavior == CLIMB_EDGE && c.behavior == CLIMB_EDGE) && !CeilingCongested(a, c, b))) ==>
      a' == a && c' == c
    ensures a.behaviorChangedThisTick && a.behavior != CLIMB_EDGE ==> a' == a
    ensures c.behaviorChangedThisTick ==> c' == c
    ensures !a'.behaviorChangedThisTick ==> a' == a
    ensures !c'.behaviorChangedThisTick ==> c' == c
    ensures a'.behaviorChangedThisTick && !a.behaviorChangedThisTick ==>
      if a'.behavior == JUMP then
        Intersects(Box(a), Box(c)) && !CeilingCongested(a, c, b) &&
        a.behavior == CLIMB_EDGE && c.behavior == CLIMB_EDGE
      else CeilingCongested(a, c, b)
    ensures c'.behaviorChangedThisTick && !c.behaviorChangedThisTick ==>
      CeilingCongested(a, c, b) ||
      (Intersects(Box(a), Box(c)) && !CeilingCongested(a, c, b) &&
       a.behavior == CLIMB_EDGE && c.behavior == CLIMB_EDGE)
  {
    if !Intersects(Box(a), Box(c)) {
    } else if a.y <= b.top + 10 || c.y <= b.top + 10 {
      ChangeTriedSteers(a, FALL, a');
      ChangeTriedSteers(c, FALL, c');
    } else if a.behavior == CLIMB_EDGE && c.behavior == CLIMB_EDGE {
      JumpStartedSteers(a, b, st, a');
      ChangeTriedSteers(c, FALL, c');
    }
  }

  lemma {:induction false} SteeredTransitive(r1: PetRecord, r2: PetRecord, r3: PetRecord)
    requires Steered(r1, r2) && Steered(r2, r3)
    ensures Steered(r1, r3)
  {
    UpdatedTransitive(r1, r2, r3);
  }

  /** A pet steered by earlier pairs either keeps its behaviour or is latched in FALL or JUMP. */
  lemma SteeredBehavior(r0: PetRecord, r: PetRecord, b: Bounds, st: Steps)
    requires Steered(r0, r) && CollisionLatched(r0, r, b, st)
    ensures r.behavior != r0.behavior ==>
      r.behaviorChangedThisTick && (r.behavior == FALL || r.behavior == JUMP)
  {
  }

  /** One more pair keeps a pet steered, and keeps what the pass has latched it into. */
  lemma PairKeepsPet(r0: PetRecord, r: PetRecord, r': PetRecord, b: Bounds, st: Steps)
    requires Steered(r0, r) && CollisionLatched(r0, r, b, st)
    requires Steered(r, r') && CollisionLatched(r, r', b, st)
    requires r.behaviorChangedThisTick && r.behavior != CLIMB_EDGE ==> r' == r
    ensures Steered(r0, r') && CollisionLatched(r0, r', b, st)
  {
    SteeredTransitive(r0, r, r');
    if r.behaviorChangedThisTick && !r0.behaviorChangedThisTick {
      assert r' == r;
    }
  }

  /** Pets p and q are both free and overlap near the ceiling. */
  predicate Congested(rs: seq<PetRecord>, p: int, q: int, b: Bounds)
    requires 0 <= p < |rs| && 0 <= q < |rs|
  {
    !Excluded(rs[p]) && !Excluded(rs[q]) && CeilingCongested(rs[p], rs[q], b)
  }

  /** Pets p and q are both free, overlap clear of the ceiling and both climb. */
  predicate Climbers(rs: seq<PetRecord>, p: int, q: int, b: Bounds)
    requires 0 <= p < |rs| && 0 <= q < |rs|
  {
    !Excluded(rs[p]) && !Excluded(rs[q]) && Intersects(Box(rs[p]), Box(rs[q])) &&
    !CeilingCongested(rs[p], rs[q], b) && rs[p].behavior == CLIMB_EDGE && rs[q].behavior == CLIMB_EDGE
  }

  /** Pet k is in no pair the collision pass acts on: with every free pet it overlaps, it is clear
      of the ceiling and not both climbing. A pet that overlaps no free pet is one. */
  predicate Undisturbed(rs: seq<PetRecord>, k: int, b: Bounds)
    requires 0 <= k < |rs|
  {
    forall j :: 0 <= j < |rs| && j != k && !Excluded(rs[j]) && Intersects(Box(rs[k]), Box(rs[j])) ==>
      !CeilingCongested(rs[k], rs[j], b) && !(rs[k].behavior == CLIMB_EDGE && rs[j].behavior == CLIMB_EDGE)
  }

  /** Pet k is the earlier pet of a pair of climbers: the pass may launch it into a jump. */
  predicate Launched(rs: seq<PetRecord>, k: int, b: Bounds)
    requires 0 <= k < |rs|
  {
    exists q :: k < q < |rs| && Climbers(rs, k, q, b)
  }

  /** Pet k is in a congested pair, or is the later pet of a pair of climbers: the pass may drop
      it into a fall. */
  predicate Dropped(rs: seq<PetRecord>, k: int, b: Bounds)
    requires 0 <= k < |rs|
  {
    (exists q :: k < q < |rs| && Congested(rs, k, q, b)) ||
    (exists p :: 0 <= p < k && (Congested(rs, p, k, b) || Climbers(rs, p, k, b)))
  }

  /** What the collision pass may do to one pet: steer it without moving it; a pet that ends
      unlatched is untouched, and a newly latched one has a zero timer and falls, only when
      `dropped`, or was launched from a climb, only when `launched`. */
  predicate CollisionSteered(before: PetRecord, after: PetRecord, b: Bounds, st: Steps,
                             launched: bool, dropped: bool)
  {
    Steered(before, after) && CollisionLatched(before, after, b, st) &&
    (!after.behaviorChangedThisTick ==> after == before) &&
    (after.behaviorChangedThisTick && !before.behaviorChangedThisTick ==>
       (after.behavior == JUMP ==> launched) && (after.behavior == FALL ==> dropped))
  }

  /** What the collision pass has done to every pet of `rs0`, giving `rs`: every pet is only
      steered, one that ends unlatched is untouched, a newly latched one falls (only from a
      congested pair or as the later of two climbers) or was launched (only as the earlier of two
      climbers); a dragged or menu-owning pet, and an undisturbed one, is untouched. */
  predicate PassSteers(rs0: seq<PetRecord>, rs: seq<PetRecord>, b: Bounds, st: Steps)
  {
    |rs| == |rs0| && forall k :: 0 <= k < |rs| ==> PetSteered(rs0, rs, k, b, st)
  }

  /** The part of `PassSteers` about pet k. */
  predicate PetSteered(rs0: seq<PetRecord>, rs: seq<PetRecord>, k: int, b: Bounds, st: Steps)
    requires |rs| == |rs0| && 0 <= k < |rs|
  {
    CollisionSteered(rs0[k], rs[k], b, st, Launched(rs0, k, b), Dropped(rs0, k, b)) &&
    (Excluded(rs0[k]) || Undisturbed(rs0, k, b) ==> rs[k] == rs0[k])
  }

  /** Every pair (p, q), p < q, that precedes (i, j) is handled: both pets of a congested pair
      are latched, and at least one pet of a pair of climbers. */
  predicate PairsHandled(rs0: seq<PetRecord>, rs: seq<PetRecord>, i: int, j: int, b: Bounds)
    requires |rs| == |rs0|
  {
    (forall p, q :: 0 <= p < q < |rs| && (p < i || (p == i && q < j)) && Congested(rs0, p, q, b) ==>
       rs[p].behaviorChangedThisTick && rs[q].behaviorChangedThisTick) &&
    (forall p, q :: 0 <= p < q < |rs| && (p < i || (p == i && q < j)) && Climbers(rs0, p, q, b) ==>
       rs[p].behaviorChangedThisTick || rs[q].behaviorChangedThisTick)
  }

  /** What the collision pass has done to `rs0`, giving `rs`, once it has handled every pair
      that precedes (i, j). */
  predicate Progress(rs0: seq<PetRecord>, rs: seq<PetRecord>, i: int, j: int, b: Bounds, st: Steps)
  {
    PassSteers(rs0, rs, b, st) && PairsHandled(rs0, rs, i, j, b)
  }

  /** The collision pass as a whole: every pair has been handled. */
  predicate CollisionsResolved(rs0: seq<PetRecord>, rs: seq<PetRecord>, b: Bounds, st: Steps)
  {
    Progress(rs0, rs, |rs0|, 0, b, st)
  }

  lemma ProgressInit(rs0: seq<PetRecord>, b: Bounds, st: Steps)
    ensures Progress(rs0, rs0, 0, 0, b, st)
  {
  }

  /** An undisturbed pet's pair with another free pet does nothing to either. */
  lemma UndisturbedPairIdle(rs0: seq<PetRecord>, rs: seq<PetRecord>, i: int, j: int, b: Bounds, st: Steps)
    requires Progress(rs0, rs, i, j, b, st) && 0 <= i < j < |rs|
    requires !Excluded(rs0[i]) && !Excluded(rs0[j])
    requires Undisturbed(rs0, i, b) || Undisturbed(rs0, j, b)
    ensures Intersects(Box(rs[i]), Box(rs[j])) ==>
      !CeilingCongested(rs[i], rs[j], b) && !(rs[i].behavior == CLIMB_EDGE && rs[j].behavior == CLIMB_EDGE)
  {
    assert PetSteered(rs0, rs, i, b, st) && PetSteered(rs0, rs, j, b, st);
    assert Box(rs[i]) == Box(rs0[i]) && Box(rs[j]) == Box(rs0[j]);
    if Intersects(Box(rs0[i]), Box(rs0[j])) {
      SteeredBehavior(rs0[i], rs[i], b, st);
      SteeredBehavior(rs0[j], rs[j], b, st);
      if Undisturbed(rs0, i, b) {
        assert !CeilingCongested(rs0[i], rs0[j], b);
      } else {
        assert Intersects(Box(rs0[j]), Box(rs0[i]));
        assert !CeilingCongested(rs0[j], rs0[i], b);
      }
    }
  }

  /** Once the pair (i, j) of climbers is handled, one of the two is latched. */
  lemma ClimbersLatched(rs0: seq<PetRecord>, rs: seq<PetRecord>, rs': seq<PetRecord>, i: int, j: int,
                        b: Bounds, st: Steps)
    requires Progress(rs0, rs, i, j, b, st) && 0 <= i < j < |rs| && Climbers(rs0, i, j, b)
    requires |rs'| == |rs| && PairOutcome(rs[i], rs[j], b, st, rs'[i], rs'[j])
    ensures rs'[i].behaviorChangedThisTick || rs'[j].behaviorChangedThisTick
  {
    assert PetSteered(rs0, rs, i, b, st) && PetSteered(rs0, rs, j, b, st);
    PairOutcomeSteers(rs[i], rs[j], b, st, rs'[i], rs'[j]);
    assert Box(rs[i]) == Box(rs0[i]) && Box(rs[j]) == Box(rs0[j]);
    SteeredBehavior(rs0[i], rs[i], b, st);
    SteeredBehavior(rs0[j], rs[j], b, st);
  }

  /** The first pet of the pair (i, j) stays within what the pass may do to it. */
  lemma PairSteersFirst(rs0: seq<PetRecord>, rs: seq<PetRecord>, rs': seq<PetRecord>, i: int, j: int,
                        b: Bounds, st: Steps)
    requires Progress(rs0, rs, i, j, b, st) && 0 <= i < j < |rs|
    requires !Excluded(rs0[i]) && !Excluded(rs0[j])
    requires |rs'| == |rs| && PairOutcome(rs[i], rs[j], b, st, rs'[i], rs'[j])
    ensures CollisionSteered(rs0[i], rs'[i], b, st, Launched(rs0, i, b), Dropped(rs0, i, b))
  {
    assert PetSteered(rs0, rs, i, b, st) && PetSteered(rs0, rs, j, b, st);
    PairOutcomeSteers(rs[i], rs[j], b, st, rs'[i], rs'[j]);
    SteeredBehavior(rs0[i], rs[i], b, st);
    SteeredBehavior(rs0[j], rs[j], b, st);
    PairKeepsPet(rs0[i], rs[i], rs'[i], b, st);
    if rs'[i].behaviorChangedThisTick && !rs[i].behaviorChangedThisTick {
      assert rs[i] == rs0[i];
      assert Box(rs[j]) == Box(rs0[j]);
      if rs'[i].behavior == JUMP {
        assert Climbers(rs0, i, j, b);
      } else {
        assert Congested(rs0, i, j, b);
      }
    }
  }

  /** The second pet of the pair (i, j) stays within what the pass may do to it. */
  lemma PairSteersSecond(rs0: seq<PetRecord>, rs: seq<PetRecord>, rs': seq<PetRecord>, i: int, j: int,
                         b: Bounds, st: Steps)
    requires Progress(rs0, rs, i, j, b, st) && 0 <= i < j < |rs|
    requires !Excluded(rs0[i]) && !Excluded(rs0[j])
    requires |rs'| == |rs| && PairOutcome(rs[i], rs[j], b, st, rs'[i], rs'[j])
    ensures CollisionSteered(rs0[j], rs'[j], b, st, Launched(rs0, j, b), Dropped(rs0, j, b))
  {
    assert PetSteered(rs0, rs, i, b, st) && PetSteered(rs0, rs, j, b, st);
    PairOutcomeSteers(rs[i], rs[j], b, st, rs'[i], rs'[j]);
    SteeredBehavior(rs0[i], rs[i], b, st);
    SteeredBehavior(rs0[j], rs[j], b, st);
    PairKeepsPet(rs0[j], rs[j], rs'[j], b, st);
    if rs'[j].behaviorChangedThisTick && !rs[j].behaviorChangedThisTick {
      assert rs[j] == rs0[j];
      assert Box(rs[i]) == Box(rs0[i]);
      if CeilingCongested(rs[i], rs[j], b) {
        assert Congested(rs0, i, j, b);
      } else {
        assert Climbers(rs0, i, j, b);
      }
    }
  }

  /** Handling the pair (i, j) moves the frontier past it. */
  lemma ProgressPair(rs0: seq<PetRecord>, rs: seq<PetRecord>, rs': seq<PetRecord>, i: int, j: int,
                     b: Bounds, st: Steps)
    requires Progress(rs0, rs, i, j, b, st) && 0 <= i < j < |rs|
    requires !Excluded(rs0[i]) && !Excluded(rs[j])
    requires |rs'| == |rs| && rs' == rs[i := rs'[i]][j := rs'[j]]
    requires PairOutcome(rs[i], rs[j], b, st, rs'[i], rs'[j])
    ensures Progress(rs0, rs', i, j + 1, b, st)
  {
    assert PetSteered(rs0, rs, i, b, st) && PetSteered(rs0, rs, j, b, st);
    PairOutcomeSteers(rs[i], rs[j], b, st, rs'[i], rs'[j]);
    SteeredBehavior(rs0[i], rs[i], b, st);
    assert Excluded(rs0[j]) == Excluded(rs[j]);
    PairSteersFirst(rs0, rs, rs', i, j, b, st);
    PairSteersSecond(rs0, rs, rs', i, j, b, st);
    if Undisturbed(rs0, i, b) || Undisturbed(rs0, j, b) {
      UndisturbedPairIdle(rs0, rs, i, j, b, st);
    }
    forall k | 0 <= k < |rs'|
      ensures PetSteered(rs0, rs', k, b, st)
    {
      if k != i && k != j {
        assert PetSteered(rs0, rs, k, b, st);
      }
    }
    forall p, q | 0 <= p < q < |rs'| && (p < i || (p == i && q < j + 1)) && Congested(rs0, p, q, b)
      ensures rs'[p].behaviorChangedThisTick && rs'[q].behaviorChangedThisTick
    {
      if p == i && q == j {
        assert Box(rs[i]) == Box(rs0[i]) && Box(rs[j]) == Box(rs0[j]);
        assert CeilingCongested(rs[i], rs[j], b);
      }
    }
    forall p, q | 0 <= p < q < |rs'| && (p < i || (p == i && q < j + 1)) && Climbers(rs0, p, q, b)
      ensures rs'[p].behaviorChangedThisTick || rs'[q].behaviorChangedThisTick
    {
      if p == i && q == j {
        ClimbersLatched(rs0, rs, rs', i, j, b, st);
      }
    }
  }

  lemma ProgressRowStart(rs0: seq<PetRecord>, rs: seq<PetRecord>, i: int, b: Bounds, st: Steps)
    requires Progress(rs0, rs, i, 0, b, st)
    ensures Progress(rs0, rs, i, i + 1, b, st)
  {
  }

  /** The collision pass never changes who is dragged or has the menu open. */
  lemma ProgressKeepsOwnership(rs0: seq<PetRecord>, rs: seq<PetRecord>, i: int, j: int, k: int,
                               b: Bounds, st: Steps)
    requires Progress(rs0, rs, i, j, b, st) && 0 <= k < |rs|
    ensures Excluded(rs[k]) == Excluded(rs0[k])
  {
    assert PetSteered(rs0, rs, k, b, st);
  }

  /** A dragged or menu-owning second pet is skipped. */
  lemma ProgressSkipSecond(rs0: seq<PetRecord>, rs: seq<PetRecord>, i: int, j: int, b: Bounds, st: Steps)
    requires Progress(rs0, rs, i, j, b, st) && 0 <= i < j < |rs| && Excluded(rs[j])
    ensures Progress(rs0, rs, i, j + 1, b, st)
  {
    ProgressKeepsOwnership(rs0, rs, i, j, j, b, st);
    assert !Congested(rs0, i, j, b) && !Climbers(rs0, i, j, b);
    assert PairsHandled(rs0, rs, i, j + 1, b);
  }

  /** Once the first pet of a row is excluded or all its partners are handled, the next row starts. */
  lemma ProgressNextRow(rs0: seq<PetRecord>, rs: seq<PetRecord>, i: int, j: int, b: Bounds, st: Steps)
    requires Progress(rs0, rs, i, j, b, st) && 0 <= i < |rs| && i < j
    requires j >= |rs| || Excluded(rs[i])
    ensures Progress(rs0, rs, i + 1, 0, b, st)
  {
    ProgressKeepsOwnership(rs0, rs, i, j, i, b, st);
  }

  /** `ResolvePair` on the i-th and j-th of the distinct pets, seen as a change of their records. */
  method ResolvePairAt(pets: seq<PetState>, i: int, j: int, b: Bounds, st: Steps)
    requires Distinct(pets) && 0 <= i < j < |pets|
    modifies pets[i], pets[j]
    ensures var rs0 := old(Records(pets)); var rs := Records(pets);
      rs == rs0[i := rs[i]][j := rs[j]] && PairOutcome(rs0[i], rs0[j], b, st, rs[i], rs[j])
  {
    ResolvePair(pets[i], pets[j], b, st);
    assert Records(pets) == old(Records(pets))[i := pets[i].Record()][j := pets[j].Record()];
  }

  /** One row of the collision pass: nothing when `pets[i]` is dragged or has its menu open,
      otherwise that pet against every later pet. */
  method ResolveRow(pets: seq<PetState>, i: int, b: Bounds, st: Steps, ghost rs0: seq<PetRecord>)
    requires Distinct(pets) && 0 <= i < |pets|
    requires Progress(rs0, Records(pets), i, 0, b, st)
    modifies set p | p in pets
    ensures Progress(rs0, Records(pets), i + 1, 0, b, st)
  {
    ghost var rs := Records(pets);
    var a := pets[i];
    if a.isDragging || a.isMenuOpen {
      ProgressNextRow(rs0, rs, i, i + 1, b, st);
      return;
    }
    ProgressKeepsOwnership(rs0, rs, i, 0, i, b, st);
    ProgressRowStart(rs0, rs, i, b, st);
    var j := i + 1;
    while j < |pets|
      invariant i < j <= |pets|
      invariant Progress(rs0, Records(pets), i, j, b, st)
    {
      ResolveStep(pets, i, j, b, st, rs0);
      j := j + 1;
    }
    ProgressNextRow(rs0, Records(pets), i, |pets|, b, st);
  }

  /** The body of the inner loop: skip a dragged or menu-owning second pet, otherwise resolve the
      pair. */
  method ResolveStep(pets: seq<PetState>, i: int, j: int, b: Bounds, st: Steps, ghost rs0: seq<PetRecord>)
    requires Distinct(pets) && 0 <= i < j < |pets|
    requires Progress(rs0, Records(pets), i, j, b, st) && !Excluded(rs0[i])
    modifies pets[i], pets[j]
    ensures Progress(rs0, Records(pets), i, j + 1, b, st)
  {
    var c := pets[j];
    if c.isDragging || c.isMenuOpen {
      ProgressSkipSecond(rs0, Records(pets), i, j, b, st);
    } else {
      ghost var before := Records(pets);
      ResolvePairAt(pets, i, j, b, st);
      ProgressPair(rs0, before, Records(pets), i, j, b, st);
    }
  }

  /** `resolveCollisions`: for every free pet, against every later free pet, resolve the pair. */
  method ResolveCollisions(pets: seq<PetState>, b: Bounds, st: Steps)
    requires Distinct(pets)
    modifies set p | p in pets
    ensures CollisionsResolved(old(Records(pets)), Records(pets), b, st)
  {
    ghost var rs0 := Records(pets);
    ProgressInit(rs0, b, st);
    if |pets| < 2 {
      return;
    }

    var i := 0;
    while i < |pets|
      invariant 0 <= i <= |pets|
      invariant Progress(rs0, Records(pets), i, 0, b, st)
    {
      ResolveRow(pets, i, b, st, rs0);
      i := i + 1;
    }
  }

  // ───────────── the tick ─────────────

  function ResetAll(rs: seq<PetRecord>): (rs': seq<PetRecord>)
    ensures |rs'| == |rs| && forall k :: 0 <= k < |rs| ==> rs'[k] == Reset(rs[k])
  {
    seq(|rs|, k requires 0 <= k < |rs| => Reset(rs[k]))
  }

  /** The first phase of `updatePhysics`: clear every latch and advance every behaviour timer. */
  method ResetLatches(pets: seq<PetState>)
    requires Distinct(pets)
    modifies set p | p in pets
    ensures Records(pets) == ResetAll(old(Records(pets)))
  {
    var k := 0;
    while k < |pets|
      invariant 0 <= k <= |pets|
      invariant forall m :: 0 <= m < k ==> pets[m].Record() == Reset(old(pets[m].Record()))
      invariant forall m :: k <= m < |pets| ==> pets[m].Record() == old(pets[m].Record())
    {
      pets[k].behaviorChangedThisTick := false;
      pets[k].behaviorTimer := pets[k].behaviorTimer + TickMs;
      k := k + 1;
    }
  }

  /** The record once `clampToBounds` has run. */
  function Clamped(r: PetRecord, b: Bounds): PetRecord
    requires Fits(r.width, r.height, b)
  {
    var x := CoerceIn(r.x, b.left, b.right - r.width);
    var y := CoerceIn(r.y, b.top, b.bottom - r.height);
    r.(x := x, y := y, paramsX := x, paramsY := y)
  }

  /** What the last phase does to a pet whose record is `m` after the collision pass: a dragged
      or menu-owning pet is left alone, any other takes one behaviour step and is clamped. */
  ghost predicate Stepped(m: PetRecord, b: Bounds, st: Steps, r: PetRecord)
  {
    if Excluded(m) then r == m
    else exists u :: BehaviorOutcome(m, b, st, u) && Fits(u.width, u.height, b) && r == Clamped(u, b)
  }

  /** The last phase of `updatePhysics`: every free pet runs its behaviour and is clamped. */
  method StepFreePets(pets: seq<PetState>, b: Bounds, st: Steps)
    requires Distinct(pets)
    requires forall k :: 0 <= k < |pets| && !Excluded(pets[k].Record()) ==>
      Fits(pets[k].width, pets[k].height, b)
    modifies set p | p in pets
    ensures forall k :: 0 <= k < |pets| ==> Stepped(old(pets[k].Record()), b, st, pets[k].Record())
  {
    var k := 0;
    while k < |pets|
      invariant 0 <= k <= |pets|
      invariant forall m :: 0 <= m < k ==> Stepped(old(pets[m].Record()), b, st, pets[m].Record())
      invariant forall m :: k <= m < |pets| ==> pets[m].Record() == old(pets[m].Record())
    {
      assert forall m :: 0 <= m < |pets| && m != k ==> pets[m] != pets[k];
      StepPet(pets[k], b, st);
      k := k + 1;
    }
  }

  /** The body of the update loop for one pet: skip it when the user owns it, otherwise run its
      behaviour and clamp it. */
  method StepPet(pet: PetState, b: Bounds, st: Steps)
    requires !Excluded(pet.Record()) ==> Fits(pet.width, pet.height, b)
    modifies pet
    ensures Stepped(old(pet.Record()), b, st, pet.Record())
  {
    ghost var m := pet.Record();
    if !(pet.isDragging || pet.isMenuOpen) {
      UpdateBehavior(pet, b, st);
      ghost var u := pet.Record();
      ClampToBounds(pet, b);
      assert BehaviorOutcome(m, b, st, u) && Fits(u.width, u.height, b) && pet.Record() == Clamped(u, b);
    }
  }

  /** A pet the collision pass latched ends the tick still latched, falling or jumping, with a
      zero timer. */
  predicate CeilingFallen(r: PetRecord)
  {
    r.behaviorChangedThisTick && r.behaviorTimer == 0 && (r.behavior == FALL || r.behavior == JUMP)
  }

  /** One pet's tick: reset, steered by the collision pass (untouched when dragged or menu-owning
      or left unlatched; when newly latched, into a fall only when `dropped` or into a jump launched
      from a climb only when `launched`), then stepped. */
  ghost predicate Ticked(r0: PetRecord, launched: bool, dropped: bool, b: Bounds, st: Steps, r: PetRecord)
  {
    exists m :: CollisionSteered(Reset(r0), m, b, st, launched, dropped) &&
      (Excluded(r0) ==> m == Reset(r0)) && Stepped(m, b, st, r)
  }

  /** The part of `TickOutcome` about pet k: its tick, with what its pairs in `rs0` allow the
      collision pass to do to it; an undisturbed free pet only takes its step. */
  ghost predicate PetTicked(rs0: seq<PetRecord>, k: int, b: Bounds, st: Steps, r: PetRecord)
    requires 0 <= k < |rs0|
  {
    Ticked(rs0[k], Launched(rs0, k, b), Dropped(rs0, k, b), b, st, r) &&
    (!Excluded(rs0[k]) && Undisturbed(rs0, k, b) ==> Stepped(Reset(rs0[k]), b, st, r))
  }

  /** Every outcome of `updatePhysics` on the records `rs0`, giving `rs`: every pet ticks as
      `PetTicked` says; both pets of a congested pair and at least one of a pair of climbers are
      latched into a fall or a jump. */
  ghost predicate TickOutcome(rs0: seq<PetRecord>, b: Bounds, st: Steps, rs: seq<PetRecord>)
  {
    |rs| == |rs0| &&
    (forall k :: 0 <= k < |rs| ==> PetTicked(rs0, k, b, st, rs[k])) &&
    (forall p, q :: 0 <= p < q < |rs| && Congested(rs0, p, q, b) ==> CeilingFallen(rs[p]) && CeilingFallen(rs[q])) &&
    (forall p, q :: 0 <= p < q < |rs| && Climbers(rs0, p, q, b) ==> CeilingFallen(rs[p]) || CeilingFallen(rs[q]))
  }

  /** The last phase keeps a latched pet's behaviour and timer. */
  lemma SteppedKeepsLatch(m: PetRecord, b: Bounds, st: Steps, r: PetRecord)
    requires Stepped(m, b, st, r) && m.behaviorChangedThisTick
    ensures r.behaviorChangedThisTick && r.behavior == m.behavior && r.behaviorTimer == m.behaviorTimer
  {
    if !Excluded(m) {
      var u :| BehaviorOutcome(m, b, st, u) && Fits(u.width, u.height, b) && r == Clamped(u, b);
      BehaviorOutcomeUpdated(m, b, st, u);
    }
  }

  /** Resetting keeps every box, behaviour and owner flag, hence which pairs the pass acts on. */
  lemma ResetKeepsGeometry(rs0: seq<PetRecord>, b: Bounds)
    ensures forall p, q :: 0 <= p < |rs0| && 0 <= q < |rs0| ==>
      Congested(ResetAll(rs0), p, q, b) == Congested(rs0, p, q, b) &&
      Climbers(ResetAll(rs0), p, q, b) == Climbers(rs0, p, q, b)
  {
    var rsR := ResetAll(rs0);
    assert forall j :: 0 <= j < |rs0| ==>
      Box(rsR[j]) == Box(rs0[j]) && Excluded(rsR[j]) == Excluded(rs0[j]) && rsR[j].behavior == rs0[j].behavior;
  }

  /** Resetting keeps what the pass may do to pet k. */
  lemma ResetKeepsRole(rs0: seq<PetRecord>, k: int, b: Bounds)
    requires 0 <= k < |rs0|
    ensures Launched(ResetAll(rs0), k, b) == Launched(rs0, k, b)
    ensures Dropped(ResetAll(rs0), k, b) == Dropped(rs0, k, b)
    ensures Undisturbed(ResetAll(rs0), k, b) == Undisturbed(rs0, k, b)
  {
    var rsR := ResetAll(rs0);
    ResetKeepsGeometry(rs0, b);
    assert forall j :: 0 <= j < |rs0| ==>
      Box(rsR[j]) == Box(rs0[j]) && Excluded(rsR[j]) == Excluded(rs0[j]) && rsR[j].behavior == rs0[j].behavior;
  }

  /** A pet the pass latched is still latched after the last phase, falling or jumping. */
  lemma LatchedFallen(r0: PetRecord, m: PetRecord, b: Bounds, st: Steps, r: PetRecord)
    requires CollisionLatched(Reset(r0), m, b, st) && Stepped(m, b, st, r) && m.behaviorChangedThisTick
    ensures CeilingFallen(r)
  {
    SteppedKeepsLatch(m, b, st, r);
  }

  /** The three phases compose into the outcome of the tick for pet k. */
  lemma PetTickComposed(rs0: seq<PetRecord>, rsM: seq<PetRecord>, r: PetRecord, k: int, b: Bounds, st: Steps)
    requires CollisionsResolved(ResetAll(rs0), rsM, b, st) && 0 <= k < |rs0|
    requires Stepped(rsM[k], b, st, r)
    ensures PetTicked(rs0, k, b, st, r)
  {
    var rsR := ResetAll(rs0);
    assert PetSteered(rsR, rsM, k, b, st);
    ResetKeepsRole(rs0, k, b);
    assert rsR[k] == Reset(rs0[k]);
    assert Excluded(rs0[k]) ==> Excluded(rsR[k]);
    assert CollisionSteered(Reset(rs0[k]), rsM[k], b, st, Launched(rs0, k, b), Dropped(rs0, k, b));
  }

  /** The three phases compose into the outcome of the tick. */
  lemma TickComposed(rs0: seq<PetRecord>, rsM: seq<PetRecord>, rs: seq<PetRecord>, b: Bounds, st: Steps)
    requires CollisionsResolved(ResetAll(rs0), rsM, b, st)
    requires |rs| == |rsM| && forall k :: 0 <= k < |rs| ==> Stepped(rsM[k], b, st, rs[k])
    ensures TickOutcome(rs0, b, st, rs)
  {
    var rsR := ResetAll(rs0);
    ResetKeepsGeometry(rs0, b);
    forall k | 0 <= k < |rs|
      ensures PetTicked(rs0, k, b, st, rs[k])
    {
      PetTickComposed(rs0, rsM, rs[k], k, b, st);
    }
    forall p, q | 0 <= p < q < |rs| && Congested(rs0, p, q, b)
      ensures CeilingFallen(rs[p]) && CeilingFallen(rs[q])
    {
      assert Congested(rsR, p, q, b);
      assert PetSteered(rsR, rsM, p, b, st) && PetSteered(rsR, rsM, q, b, st);
      LatchedFallen(rs0[p], rsM[p], b, st, rs[p]);
      LatchedFallen(rs0[q], rsM[q], b, st, rs[q]);
    }
    forall p, q | 0 <= p < q < |rs| && Climbers(rs0, p, q, b)
      ensures CeilingFallen(rs[p]) || CeilingFallen(rs[q])
    {
      assert Climbers(rsR, p, q, b);
      assert PetSteered(rsR, rsM, p, b, st) && PetSteered(rsR, rsM, q, b, st);
      if rsM[p].behaviorChangedThisTick {
        LatchedFallen(rs0[p], rsM[p], b, st, rs[p]);
      } else {
        LatchedFallen(rs0[q], rsM[q], b, st, rs[q]);
      }
    }
  }

  /** What the tick promises every free pet: clamped into the bounds, window placed at its
      position, and otherwise only its physics frame updated under the latch. */
  lemma TickedFreePet(r0: PetRecord, launched: bool, dropped: bool, b: Bounds, st: Steps, r: PetRecord)
    requires Ticked(r0, launched, dropped, b, st, r)
    ensures Excluded(r0) ==> r == Reset(r0)
    ensures !Excluded(r0) ==>
      InBounds(r, b) && r.paramsX == r.x && r.paramsY == r.y &&
      Updated(Reset(r0), r.(paramsX := r0.paramsX, paramsY := r0.paramsY))
  {
    var m :| CollisionSteered(Reset(r0), m, b, st, launched, dropped) &&
      (Excluded(r0) ==> m == Reset(r0)) && Stepped(m, b, st, r);
    if !Excluded(r0) {
      var u :| BehaviorOutcome(m, b, st, u) && Fits(u.width, u.height, b) && r == Clamped(u, b);
      BehaviorOutcomeUpdated(m, b, st, u);
      UpdatedTransitive(Reset(r0), m, u);
    }
  }

  /** The collision pass keeps every free pet fitting in the bounds, since it moves no pet and
      changes no owner flag. */
  lemma ResolvedKeepsFit(rs0: seq<PetRecord>, rsM: seq<PetRecord>, b: Bounds, st: Steps)
    requires CollisionsResolved(ResetAll(rs0), rsM, b, st)
    requires forall k :: 0 <= k < |rs0| && !Excluded(rs0[k]) ==> Fits(rs0[k].width, rs0[k].height, b)
    ensures forall k :: 0 <= k < |rsM| && !Excluded(rsM[k]) ==> Fits(rsM[k].width, rsM[k].height, b)
  {
    forall k | 0 <= k < |rsM| && !Excluded(rsM[k])
      ensures Fits(rsM[k].width, rsM[k].height, b)
    {
      assert PetSteered(ResetAll(rs0), rsM, k, b, st);
    }
  }

  /**
   * `updatePhysics`: reset every latch and advance every timer, resolve collisions, then let
   * every pet the user does not own run its behaviour and be clamped into the bounds.
   */
  method UpdatePhysics(pets: seq<PetState>, b: Bounds, st: Steps)
    requires Distinct(pets)
    requires forall k :: 0 <= k < |pets| && !Excluded(pets[k].Record()) ==>
      Fits(pets[k].width, pets[k].height, b)
    modifies set p | p in pets
    ensures TickOutcome(old(Records(pets)), b, st, Records(pets))
  {
    ghost var rs0 := Records(pets);
    ResetLatches(pets);
    ResolveCollisions(pets, b, st);
    ghost var rsM := Records(pets);
    ResolvedKeepsFit(rs0, rsM, b, st);
    assert forall k :: 0 <= k < |pets| ==> rsM[k] == pets[k].Record();
    StepFreePets(pets, b, st);
    TickComposed(rs0, rsM, Records(pets), b, st);
  }
}
