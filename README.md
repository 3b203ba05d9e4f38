# Companion shimejis: the pet simulation in Dafny

This project models the per-tick simulation of the companionshimejis Android overlay pets. Each
frame of the animation loop does two things, in order:

- **Physics** (`PetPhysicsController.updatePhysics`):
  - every pet's single-change latch is cleared and its behaviour timer is advanced by 16 ms;
  - overlapping pairs of free pets are resolved (congestion at the ceiling, two climbers);
  - each pet that is neither dragged nor has its menu open runs the updater of its behaviour;
  - the pet is clamped into the usable screen rectangle.
- **Animation** (`PetAnimationController.updateAnimations`):
  - every registry pet whose sprite sheet is ready restarts its animation on a behaviour change;
  - its frame timer advances and, when it reaches the frame duration, the frame moves on cyclically;
  - the frame rectangle for its layout is selected;
  - its emote runs out after three seconds.

The project also models the supporting data: the behaviour and emote enumerations, the `Pet`
layout record, the registry of built-in pets and the mutable `PetState`. Last, it models the
checkerboard remover `TransparencyHelper.removeCheckerboard`, a breadth-first 4-way flood fill
from the bitmap's border.

Modules, one per source file:
- `PetBehaviors`, `Emotes`, `Pets`, `PetRepository` and `PetStates` hold the data.
- `PetPhysics` and `PetAnimation` hold the two controllers.
- `Transparency` holds the flood fill.
- `Simulation` holds the frame callback of `MainService`.

`KotlinInt` (Kotlin's truncating `/` and `%`), `Random` and `Wrappers` are support modules.

How the source's shape is kept:
- `PetState` is a class with one mutable field per source field. Its methods are specified by a
  snapshot `PetRecord` of the fields: each method states its new snapshot as a function of the
  old one.
- The physics and animation updaters are methods over those objects.
- The flood fill keeps its arrays:
  - a fresh `array2` for the copied bitmap;
  - a flat `visited` array indexed `y * width + x`;
  - a queue as a sequence.

Conventions:
- Every random draw is a nondeterministic choice: `chance(p)`, `nextBoolean`, `(0..2).random()`
  and `list.random()`. Contracts describe every outcome.
- Each float product `(k * speed).toInt()` is an integer input:
  - the physics step sizes `Steps`;
  - the animation and emote step `step`.
- The usable bounds (`getUsableBounds()`) are an input, and so is the set of sprite sheets that
  have finished loading.

Where the code and its description disagree, the model follows the code:
- `PetBehavior.FLY` is used by the physics and animation code but not declared by the sealed
  class. The model's behaviour type includes it.
- `NONE` and the behaviours without an updater (SLEEP, INTERACT, COLLIDE) go to FALL through
  `tryChange`, so the latch can stop them.
- `Rect.intersects` is strict overlap: boxes that only touch do not collide.

## Model

| member | source | states |
|---|---|---|
| KotlinInt.Div | app/src/main/java/com/learning/companionshimejis/physics/PetPhysicsController.kt:231 | Kotlin's integer division truncates toward zero: it agrees with `/` on non-negative operands, and the quotient is non-negative when the signs agree |
| KotlinInt.Rem | app/src/main/java/com/learning/companionshimejis/animation/PetAnimationController.kt:92 | Kotlin's `%` agrees with `%` on non-negative operands |
| KotlinInt.DivRemLaws | app/src/main/java/com/learning/companionshimejis/animation/PetAnimationController.kt:92 | `a == (a / b) * b + a % b`; a non-negative dividend leaves a remainder in `[0, abs(b))`, and a negative one leaves a remainder in `(-abs(b), 0]` |
| Random.Chance | app/src/main/java/com/learning/companionshimejis/physics/PetPhysicsController.kt:262 | `nextFloat() < p` never hits for p = 0 and always hits for p = 1 |
| Random.Between | app/src/main/java/com/learning/companionshimejis/data/model/PetBehavior.kt:20 | `(lo..hi).random()` lies in the closed range |
| Random.Pick | app/src/main/java/com/learning/companionshimejis/physics/PetPhysicsController.kt:226 | `list.random()` is an element of the list |
| PetBehaviors.NamesDistinct | app/src/main/java/com/learning/companionshimejis/data/model/PetBehavior.kt:4-13 | behaviours with the same `name` are the same behaviour |
| PetBehaviors.RandomMovement | app/src/main/java/com/learning/companionshimejis/data/model/PetBehavior.kt:19-25 | whatever the draw, `getRandomMovement` yields IDLE, WALK_LEFT or WALK_RIGHT |
| PetBehaviors.GetRandomMovement | app/src/main/java/com/learning/companionshimejis/data/model/PetBehavior.kt:19-25 | one draw in 0..2 gives one of the three movements |
| PetBehaviors.MovementDraw | app/src/main/java/com/learning/companionshimejis/data/model/PetBehavior.kt:20-24 | each of the three movements is produced by some draw in 0..2 |
| PetBehaviors.RandomMovementInjective | app/src/main/java/com/learning/companionshimejis/data/model/PetBehavior.kt:20-24 | different draws in 0..2 give different movements, so each movement has exactly one draw |
| Emotes.Values | app/src/main/java/com/learning/companionshimejis/data/model/EmoteType.kt:12-14 | `values()` lists all six emotes, each once, NONE first |
| Emotes.ValueOf | app/src/main/java/com/learning/companionshimejis/data/model/EmoteType.kt:16-26 | `valueOf` returns an emote with the given name, and fails exactly when no emote has that name |
| Emotes.ValueOfName | app/src/main/java/com/learning/companionshimejis/data/model/EmoteType.kt:16-23 | `valueOf(name(e)) == e` for every emote |
| Emotes.WithoutNone | app/src/main/java/com/learning/companionshimejis/physics/PetPhysicsController.kt:225 | filtering out NONE keeps exactly the other emotes of the list |
| Emotes.RandomEmotePool | app/src/main/java/com/learning/companionshimejis/data/model/EmoteType.kt:5-10 | the random-emote pool is exactly HAPPY, SURPRISED, THINKING, SLEEPY and ANGRY |
| Pets.DefaultLayout | app/src/main/java/com/learning/companionshimejis/data/model/Pet.kt:3-12 | a pet built from id, name and resource alone is a 4 x 4 sheet in the LEGACY_4ROW scheme |
| PetRepository.Find | app/src/main/java/com/learning/companionshimejis/data/PetRepository.kt:36 | `find` returns the first listed pet with the id (no earlier pet has it), and returns null exactly when no listed pet has it |
| PetRepository.GetPetById | app/src/main/java/com/learning/companionshimejis/data/PetRepository.kt:35-37 | lookup returns a registry pet with that id, and returns null exactly for ids other than cat_01, dog_01 and man_01 |
| PetRepository.IdsDistinct | app/src/main/java/com/learning/companionshimejis/data/PetRepository.kt:9-32 | the registry ids are pairwise distinct |
| PetRepository.RegistryLayouts | app/src/main/java/com/learning/companionshimejis/data/PetRepository.kt:9-32 | every registry pet has 4 columns; man_01 is 7 rows in LITTLE_MAN_7ROW and the others are 4 rows in LEGACY_4ROW; none uses the default scheme |
| PetRepository.LookupFindsEntry | app/src/main/java/com/learning/companionshimejis/data/PetRepository.kt:35-37 | looking up a registry pet's id returns that very pet |
| PetStates.PetState.constructor | app/src/main/java/com/learning/companionshimejis/persistence/PetState.kt:30-55 | a new pet has the given id, placement, position and velocity. It is not dragged and its menu is closed. Its latch is clear, its behaviour NONE with timer 0, its animation timer and frame 0, its last behaviour NONE, and it shows no emote |
| PetStates.Records | app/src/main/java/com/learning/companionshimejis/persistence/PetState.kt:30-55 | the snapshot list has one record per pet, in order |
| PetPhysics.IntersectsIffSharedPixel | app/src/main/java/com/learning/companionshimejis/physics/PetPhysicsController.kt:251-255 | for boxes of positive size, `intersects` holds exactly when some pixel lies in both |
| PetPhysics.CoerceIn | app/src/main/java/com/learning/companionshimejis/physics/PetPhysicsController.kt:245-246 | `coerceIn` returns a value in range: the input itself when it is in range, otherwise the nearest point of the range |
| PetPhysics.ChangeTriedSteers | app/src/main/java/com/learning/companionshimejis/physics/PetPhysicsController.kt:205-217 | after `tryChange` the pet is latched; if it was not latched before, it now has the requested behaviour; its position does not move |
| PetPhysics.ChangeTriedOneOfSteers | app/src/main/java/com/learning/companionshimejis/physics/PetPhysicsController.kt:205-217 | the same for a change to a randomly chosen behaviour from a set: an unlatched pet ends with one of the set |
| PetPhysics.JumpStartedSteers | app/src/main/java/com/learning/companionshimejis/physics/PetPhysicsController.kt:229-236 | `startJump` leaves the pet latched, with dy = -fall step and dx = ± the leap step, even when the latch blocked the change. For a positive leap step, dx > 0 exactly when x is left of the truncated centre `(right + left) / 2`, and dx < 0 exactly when it is not |
| PetPhysics.UpdatedTransitive | app/src/main/java/com/learning/companionshimejis/physics/PetPhysicsController.kt:34-63 | two successive updates compose into one: the frame, the latch and the emote rules are preserved |
| PetPhysics.TryChange | app/src/main/java/com/learning/companionshimejis/physics/PetPhysicsController.kt:205-217 | a latched pet is unchanged. Otherwise the behaviour is committed with timer 0 and the latch set; a change to SLEEP shows SLEEPY from 0; any other change keeps the emote or starts a visible one |
| PetPhysics.TriggerEmote | app/src/main/java/com/learning/companionshimejis/physics/PetPhysicsController.kt:219-222 | the emote is set and its timer zeroed; nothing else changes |
| PetPhysics.TriggerRandomEmote | app/src/main/java/com/learning/companionshimejis/physics/PetPhysicsController.kt:224-227 | a visible (non-NONE) emote is shown from 0; nothing else changes |
| PetPhysics.StartJump | app/src/main/java/com/learning/companionshimejis/physics/PetPhysicsController.kt:229-236 | JUMP is tried, the launch velocity is set regardless of the latch, and SURPRISED may be shown |
| PetPhysics.StickToWall | app/src/main/java/com/learning/companionshimejis/physics/PetPhysicsController.kt:238-242 | the pet is pinned at x with dy = 0, then CLIMB_EDGE is tried |
| PetPhysics.SettleAt | app/src/main/java/com/learning/companionshimejis/physics/PetPhysicsController.kt:72-75 | landing: the pet rests at the given height and tries a random movement |
| PetPhysics.MaybeChange | app/src/main/java/com/learning/companionshimejis/physics/PetPhysicsController.kt:143 | a random draw either leaves the pet alone or tries the change |
| PetPhysics.ClampToBounds | app/src/main/java/com/learning/companionshimejis/physics/PetPhysicsController.kt:244-249 | the position is coerced into the bounds and copied to the window parameters; the pet ends within the bounds |
| PetPhysics.UpdateFall | app/src/main/java/com/learning/companionshimejis/physics/PetPhysicsController.kt:67-76 | FALL drops by the fall step; on the floor it rests at bottom - height and tries a random movement |
| PetPhysics.UpdateWalkLeft | app/src/main/java/com/learning/companionshimejis/physics/PetPhysicsController.kt:78-89 | WALK_LEFT steps left. At the wall it stops at the left edge and tries CLIMB_EDGE or WALK_RIGHT; after 3 s it may try IDLE |
| PetPhysics.UpdateWalkRight | app/src/main/java/com/learning/companionshimejis/physics/PetPhysicsController.kt:91-102 | the mirror image at the right wall, at right - width |
| PetPhysics.ChooseClimbStep | app/src/main/java/com/learning/companionshimejis/physics/PetPhysicsController.kt:107-109 | a pet without vertical speed picks up or down at the climbing step; a pet with vertical speed keeps it |
| PetPhysics.UpdateClimbEdge | app/src/main/java/com/learning/companionshimejis/physics/PetPhysicsController.kt:104-129 | CLIMB_EDGE climbs. At the ceiling or the floor it stops there and tries a random movement; otherwise after 2 s it may jump, and after 4 s it may fall |
| PetPhysics.UpdateJump | app/src/main/java/com/learning/companionshimejis/physics/PetPhysicsController.kt:131-145 | JUMP follows its arc under gravity. A wall catches it (x pinned, dy 0, CLIMB_EDGE tried); the floor lands it; otherwise it may fall |
| PetPhysics.UpdateIdle | app/src/main/java/com/learning/companionshimejis/physics/PetPhysicsController.kt:147-153 | IDLE stops; after 2 s it may try a random movement |
| PetPhysics.UpdateFly | app/src/main/java/com/learning/companionshimejis/physics/PetPhysicsController.kt:155-169 | FLY rises by the walking step; at the ceiling it stops and tries a walk to a random side; after 2 s it may fall |
| PetPhysics.BehaviorOutcomeUpdated | app/src/main/java/com/learning/companionshimejis/physics/PetPhysicsController.kt:48-58 | any behaviour step changes only position, velocity, behaviour, latch, timer and emote; it respects the single-change latch; the emote is kept or restarted |
| PetPhysics.UpdateBehavior | app/src/main/java/com/learning/companionshimejis/physics/PetPhysicsController.kt:48-58 | the dispatch runs the updater of the pet's behaviour; NONE, SLEEP, INTERACT and COLLIDE try FALL |
| PetPhysics.WalkLeftStopsAtWall | app/src/main/java/com/learning/companionshimejis/physics/PetPhysicsController.kt:78-85 | a walk left that reaches the wall ends at x = minX, not moving vertically; if it was unlatched, the behaviour is then CLIMB_EDGE or WALK_RIGHT |
| PetPhysics.WalkRightStopsAtWall | app/src/main/java/com/learning/companionshimejis/physics/PetPhysicsController.kt:91-98 | a walk right that reaches the wall ends at x = maxX - width; if it was unlatched, the behaviour is then CLIMB_EDGE or WALK_LEFT |
| PetPhysics.FallLands | app/src/main/java/com/learning/companionshimejis/physics/PetPhysicsController.kt:67-76 | a fall that reaches the floor ends at y = maxY - height and, if unlatched, in IDLE, WALK_LEFT or WALK_RIGHT; otherwise the pet just drops by the fall step |
| PetPhysics.InactiveBehaviorsFall | app/src/main/java/com/learning/companionshimejis/physics/PetPhysicsController.kt:56-57 | NONE, SLEEP, INTERACT and COLLIDE do not move; an unlatched pet switches to FALL with timer 0 |
| PetPhysics.JumpSticksToWall | app/src/main/java/com/learning/companionshimejis/physics/PetPhysicsController.kt:136-138 | a jump that reaches a wall is pinned at that wall with dy = 0 and, if unlatched, becomes CLIMB_EDGE |
| PetPhysics.ResolvePair | app/src/main/java/com/learning/companionshimejis/physics/PetPhysicsController.kt:184-199 | a non-overlapping pair is untouched. If either pet is within 10 px of the top, both try FALL; otherwise two climbers make the first jump and the second fall; any other overlap changes nothing |
| PetPhysics.PairOutcomeSteers | app/src/main/java/com/learning/companionshimejis/physics/PetPhysicsController.kt:184-199 | resolving a pair never moves either pet. A pet it leaves unlatched is untouched. A pet it newly latches has timer 0. The first pet newly latched into JUMP was one of two overlapping climbers clear of the ceiling, launched with the jump's dx and dy; otherwise it falls, and only in a ceiling-congested pair. The second pet is newly latched only in a congested pair or a climber pair. Both pets of a ceiling-congested pair end latched, and so do both of an overlapping climber pair clear of the ceiling. Any other pair, and an already latched pet that is not climbing, is untouched |
| PetPhysics.PairSteersFirst | app/src/main/java/com/learning/companionshimejis/physics/PetPhysicsController.kt:184-197 | after earlier pairs and the pair (i, j), pet i is only steered. If it ends unlatched it is as it entered the pass. If newly latched into JUMP, (i, j) is a climber pair of the entry records; if into FALL, (i, j) is congested |
| PetPhysics.PairSteersSecond | app/src/main/java/com/learning/companionshimejis/physics/PetPhysicsController.kt:184-197 | after earlier pairs and the pair (i, j), pet j is only steered. If it ends unlatched it is as it entered the pass. If newly latched, (i, j) is a congested or a climber pair of the entry records |
| PetPhysics.ResolveStep | app/src/main/java/com/learning/companionshimejis/physics/PetPhysicsController.kt:180-199 | one pass of the inner loop: after it, the pair (i, j) is also handled in the sense of ResolveCollisions |
| PetPhysics.ClimbersLatched | app/src/main/java/com/learning/companionshimejis/physics/PetPhysicsController.kt:193-197 | once an overlapping pair of climbers clear of the ceiling is resolved, at least one of the two is latched, even after earlier pairs have acted on them |
| PetPhysics.ResolveCollisions | app/src/main/java/com/learning/companionshimejis/physics/PetPhysicsController.kt:173-201 | over all pairs i < j, no pet moves. A pet that ends unlatched is exactly as it entered. Excluded pets are untouched, and so is every free pet whose overlaps with free pets are all clear of the ceiling and not both climbing. A newly latched pet has timer 0. It is in JUMP, launched with the jump's dx and dy, only as the earlier pet of an overlapping climber pair. It is in FALL only in a ceiling-congested pair or as the later pet of a climber pair. Both pets of every ceiling-congested free pair are latched, and at least one of every overlapping climber pair clear of the ceiling |
| PetPhysics.ResolvedKeepsFit | app/src/main/java/com/learning/companionshimejis/physics/PetPhysicsController.kt:173-201 | the collision pass keeps every free pet fitting in the bounds, so the update loop's clamping stays defined |
| PetPhysics.ResetAll | app/src/main/java/com/learning/companionshimejis/physics/PetPhysicsController.kt:37-40 | every pet, dragged or not, has its latch cleared and its behaviour timer advanced by 16 |
| PetPhysics.ResetLatches | app/src/main/java/com/learning/companionshimejis/physics/PetPhysicsController.kt:37-40 | the loop applies that reset to every pet in place |
| PetPhysics.StepPet | app/src/main/java/com/learning/companionshimejis/physics/PetPhysicsController.kt:45-62 | one pass of the update loop: an excluded pet is untouched, and any other pet takes one behaviour step and is clamped |
| PetPhysics.StepFreePets | app/src/main/java/com/learning/companionshimejis/physics/PetPhysicsController.kt:45-62 | every excluded pet is untouched; every other pet takes one behaviour step and is clamped |
| PetPhysics.SteppedKeepsLatch | app/src/main/java/com/learning/companionshimejis/physics/PetPhysicsController.kt:205-206 | a pet latched by the collision pass keeps that behaviour and timer through its updater |
| PetPhysics.PetTickComposed | app/src/main/java/com/learning/companionshimejis/physics/PetPhysicsController.kt:34-63 | reset, collisions and stepping compose into one pet's tick. It ends as reset and stepped, unless the pass latched it. The pass latches it into a jump only as the earlier of two climbers and into a fall only as a congested or later climbing pet. A free undisturbed pet only takes its step |
| PetPhysics.TickComposed | app/src/main/java/com/learning/companionshimejis/physics/PetPhysicsController.kt:34-63 | reset, collisions and stepping compose into the tick's outcome. Every pet ticks as PetTickComposed says. Both pets of a ceiling-congested pair end FALL or JUMP, latched, with timer 0, and so does at least one of every overlapping climber pair |
| PetPhysics.TickedFreePet | app/src/main/java/com/learning/companionshimejis/physics/PetPhysicsController.kt:46 | after a tick, a dragged or menu-owning pet is only reset (same x, y, dx, dy, behaviour). Any other pet lies within the bounds with its window at its position, and only its physics frame changed, under the latch rules |
| PetPhysics.UpdatePhysics | app/src/main/java/com/learning/companionshimejis/physics/PetPhysicsController.kt:34-63 | the whole tick over the pet list, in place. Every pet is reset, then steered by collisions, then stepped. A pet the pass leaves unlatched, and an excluded pet, steps from its reset state. A newly latched pet jumps only as the earlier of two overlapping climbers and falls only in a congested pair or as the later climber. Both pets of a congested pair, and at least one of a climber pair, end latched in FALL or JUMP with timer 0 |
| PetAnimation.BaseSpecFacts | app/src/main/java/com/learning/companionshimejis/animation/PetAnimationController.kt:21-41 | every behaviour's animation has 6 frames, a row in 0..6 and a positive duration. The map has no entry exactly for SLEEP, INTERACT and COLLIDE, which get IDLE's row 4, 6 frames, 250 ms |
| PetAnimation.MapToLegacy4Row | app/src/main/java/com/learning/companionshimejis/animation/PetAnimationController.kt:137-148 | the legacy scheme yields rows 0..3 |
| PetAnimation.MapToLittleMan7Row | app/src/main/java/com/learning/companionshimejis/animation/PetAnimationController.kt:153-165 | the little-man scheme yields rows 0..6 |
| PetAnimation.LittleManMatchesSpecRows | app/src/main/java/com/learning/companionshimejis/animation/PetAnimationController.kt:150-152 | the little-man scheme is exactly the row of each behaviour's base animation |
| PetAnimation.ResolveAnimationData | app/src/main/java/com/learning/companionshimejis/animation/PetAnimationController.kt:132 | the frame count is the smaller of the sheet's columns and the animation's frame count |
| PetAnimation.RegistryAnimationsFit | app/src/main/java/com/learning/companionshimejis/animation/PetAnimationController.kt:114-134 | for every registry pet and behaviour, the row is below the pet's rows and the frame count is between 1 and its columns |
| PetAnimation.DefaultSchemeUsesSpecRow | app/src/main/java/com/learning/companionshimejis/animation/PetAnimationController.kt:123 | a layout id other than the two known ones uses the spec's row |
| PetAnimation.FrameInsideSheet | app/src/main/java/com/learning/companionshimejis/animation/PetAnimationController.kt:97-101 | a frame whose index is below cols and whose row is below rows lies inside the sheet |
| PetAnimation.AnimationStepFacts | app/src/main/java/com/learning/companionshimejis/animation/PetAnimationController.kt:82-93 | only the animation fields change, and lastBehavior becomes the behaviour. The timer ends below the duration. The index advances by one modulo the frame count exactly when the timer reached the duration, else it stays. The index is in range after a restart or when it was in range |
| PetAnimation.AnimationStepKeepsValid | app/src/main/java/com/learning/companionshimejis/animation/PetAnimationController.kt:82-93 | with a non-negative step, a consistent animation (timer in [0, duration), index in range) stays consistent |
| PetAnimation.EmoteStepFrame | app/src/main/java/com/learning/companionshimejis/animation/PetAnimationController.kt:166-175 | the emote step changes only the emote and its timer; with no emote it changes nothing; the emote either stays or becomes NONE |
| PetAnimation.EmoteShownWhileYoung | app/src/main/java/com/learning/companionshimejis/animation/PetAnimationController.kt:168-172 | an emote started at 0 is still shown after n steps while n * step <= 3000, and its age is n * step |
| PetAnimation.EmoteExpires | app/src/main/java/com/learning/companionshimejis/animation/PetAnimationController.kt:168-172 | with a positive step, an emote started at 0 is still shown after 3000 / step steps and gone, timer 0, one step later |
| PetAnimation.AnimatedKeepsPhysics | app/src/main/java/com/learning/companionshimejis/animation/PetAnimationController.kt:68-108 | the animation update never changes position, velocity, window, ownership, behaviour, latch or behaviour timer |
| PetAnimation.UpdatePetAnimation | app/src/main/java/com/learning/companionshimejis/animation/PetAnimationController.kt:68-108 | an unknown pet or a sheet still loading changes nothing, emote included, and draws nothing. Otherwise a frame is drawn: the one the row and index select; the pet remembers its behaviour; the timer is below the duration; and the frame lies inside the sheet if the animation was consistent or restarted |
| PetAnimation.AdvanceAnimation | app/src/main/java/com/learning/companionshimejis/animation/PetAnimationController.kt:82-93 | the restart and the timer advance, in place, as the animation step states |
| PetAnimation.UpdatePetEmote | app/src/main/java/com/learning/companionshimejis/animation/PetAnimationController.kt:166-175 | the emote step in place |
| PetAnimation.UpdateAnimations | app/src/main/java/com/learning/companionshimejis/animation/PetAnimationController.kt:64-66 | every active pet, independently, gets its own animation update |
| Transparency.Alpha | app/src/main/java/com/learning/companionshimejis/animation/TransparencyHelper.kt:42 | the alpha channel is in 0..255 |
| Transparency.Red | app/src/main/java/com/learning/companionshimejis/animation/TransparencyHelper.kt:43 | the red channel is in 0..255 |
| Transparency.Green | app/src/main/java/com/learning/companionshimejis/animation/TransparencyHelper.kt:44 | the green channel is in 0..255 |
| Transparency.Blue | app/src/main/java/com/learning/companionshimejis/animation/TransparencyHelper.kt:45 | the blue channel is in 0..255 |
| Transparency.IsBackground | app/src/main/java/com/learning/companionshimejis/animation/TransparencyHelper.kt:59-75 | background means every two channels differ by less than 30 (saturation below 30) and the truncated mean brightness is above 80 or below 30 |
| Transparency.BackgroundIgnoresChannelOrder | app/src/main/java/com/learning/companionshimejis/animation/TransparencyHelper.kt:59-75 | permuting the channels does not change the verdict |
| Transparency.BorderReached | app/src/main/java/com/learning/companionshimejis/animation/TransparencyHelper.kt:26-33 | every opaque background pixel on the border is reached |
| Transparency.ReachedSpreads | app/src/main/java/com/learning/companionshimejis/animation/TransparencyHelper.kt:49-53 | a clearable 4-neighbour of a reached pixel is reached |
| Transparency.ReachedByReached | app/src/main/java/com/learning/companionshimejis/animation/TransparencyHelper.kt:49-53 | every reached pixel is joined to the border by a 4-connected path of reached (hence cleared) pixels |
| Transparency.RefillReachesNothing | app/src/main/java/com/learning/companionshimejis/animation/TransparencyHelper.kt:17-57 | the result leaves nothing to reach, so removing the checkerboard a second time changes nothing |
| Transparency.ClosedSetHoldsTrail | app/src/main/java/com/learning/companionshimejis/animation/TransparencyHelper.kt:35-55 | a set holding the border and closed under clearable neighbours holds the end of every trail |
| Transparency.Idx | app/src/main/java/com/learning/companionshimejis/animation/TransparencyHelper.kt:37 | `y * width + x` is an index of the visited array |
| Transparency.IdxInjective | app/src/main/java/com/learning/companionshimejis/animation/TransparencyHelper.kt:37 | distinct pixels have distinct visited indices |
| Transparency.Neighbours | app/src/main/java/com/learning/companionshimejis/animation/TransparencyHelper.kt:50-53 | the queued neighbours are exactly the in-grid 4-neighbours |
| Transparency.FrontierHoldsReached | app/src/main/java/com/learning/companionshimejis/animation/TransparencyHelper.kt:35-55 | when the queue is empty, every reached pixel has been visited |
| Transparency.SeedEdges | app/src/main/java/com/learning/companionshimejis/animation/TransparencyHelper.kt:26-33 | the seeded queue holds border pixels only, and every border pixel |
| Transparency.RemoveCheckerboard | app/src/main/java/com/learning/companionshimejis/animation/TransparencyHelper.kt:17-57 | the result is a new bitmap of the same size. A pixel is transparent exactly when it was opaque background joined to the border through such pixels; every other pixel keeps its colour |
| Transparency.Visit | app/src/main/java/com/learning/companionshimejis/animation/TransparencyHelper.kt:36-54 | one turn keeps the fill invariant and either marks a new pixel visited or shortens the queue, so the loop terminates |
| Transparency.VisitFirst | app/src/main/java/com/learning/companionshimejis/animation/TransparencyHelper.kt:38-54 | the first visit of a queued pixel marks it, clears it when clearable and queues its in-grid neighbours, keeping the fill invariant and strictly decreasing the unvisited count |
| Transparency.Fill | app/src/main/java/com/learning/companionshimejis/animation/TransparencyHelper.kt:35-55 | the fill loop runs until the queue is empty. Then a pixel is transparent exactly when it is reached, and every other pixel keeps its colour |
| Transparency.MarkVisited | app/src/main/java/com/learning/companionshimejis/animation/TransparencyHelper.kt:38-39 | exactly the flag of (x, y) is set, one fewer flag is clear |
| Transparency.ClearPixel | app/src/main/java/com/learning/companionshimejis/animation/TransparencyHelper.kt:47 | a clearable pixel seen for the first time becomes transparent |
| Simulation.Ids | app/src/main/java/com/learning/companionshimejis/service/MainService.kt:78-79 | the ids of the active pets, in order |
| Simulation.Tick | app/src/main/java/com/learning/companionshimejis/service/MainService.kt:77-80 | a frame is a physics tick followed by every pet's animation step |
| Simulation.FrameKeepsHeldPets | app/src/main/java/com/learning/companionshimejis/service/MainService.kt:77-80 | over a frame, a dragged or menu-owning pet keeps x, y, dx, dy and behaviour; every other pet ends within the bounds with its window at its position |

## Left out

- Window and view calls are output only and are not modelled: `updateViewLayout`, `updateFrame` and `setEmote`. The view and the `currentAnimation` field (`PetAnimation.kt`) are never read by the core.
- `loadSpriteSheet` and its bitmap cache, background thread and decoding are not modelled. The sheets that are ready are an input map from resource to sheet size.
- The float speed multiplier is not modelled. Each `(k * speed).toInt()` is an integer input, and the animation and emote step is one value `step`, although the source converts it with `toLong` for both.
- Random draws are nondeterministic choices; the probabilities themselves are not modelled.
- PetPhysics.UpdatePhysics: requires every free pet to fit in the bounds, where the source would throw from `coerceIn`.
- PetAnimation.PetAnimated: a pet with no columns or no frames is left unchanged, where the source would throw from `/ petData.cols` and `% frameCount`. RegistryAnimationsFit shows that these guards never fire for a registry pet. The same holds for PetAnimation.UpdatePetAnimation.
- Transparency.RemoveCheckerboard: requires a bitmap of at least 1 x 1 pixels, which every Android `Bitmap` is.
- Transparency.Alpha: models `shr` and `and 0xFF` on the signed 32-bit colour by floor division and a non-negative remainder, which is what the bit operations compute.
- `PetBehavior.duration` is never read or written by the core and is not modelled.
- The external writers of a pet's state are not modelled: the touch handler, the options menu and the pet manager. They act between ticks, and the model's contracts take whatever state they leave.
- The service, the 16 ms loop, persistence and the settings screens are not part of this model.
- Positions, velocities, sizes, timers and the pixel index `y * width + x` are unbounded integers. Kotlin `Int` and `Long` overflow is not modelled.
- `Random.NextBoolean` has no contract: every boolean is a possible outcome.
