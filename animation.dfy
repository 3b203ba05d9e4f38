/**
 * Sprite-frame selection and emote expiry (`PetAnimationController`): each tick every pet whose
 * layout and sprite sheet are known restarts its animation on a behaviour change, advances its
 * frame timer, picks the frame rectangle to draw and lets its emote run out.
 *
 * `(16 * speed).toLong()` is the parameter `step`. Loading and decoding sheets is outside the
 * model: the sheets that are ready are given as a map from resource to sheet size, and a
 * resource missing from it is one whose sheet is still loading.
 */
module PetAnimation {
  import opened Wrappers
  import opened PetBehaviors
  import opened Emotes
  import opened Pets
  import opened PetStates
  import PetRepository
  import KotlinInt

  /** `AnimationSpec`: the sheet row, the number of frames and the duration of one frame. */
  datatype AnimationSpec = AnimationSpec(row: int, frameCount: int, frameDurationMs: int)

  /** `animationMap`: the animation of each behaviour that has one of its own. */
  const AnimationMap: map<PetBehavior, AnimationSpec> := map[
    PetBehavior.WALK_LEFT := AnimationSpec(0, 6, 100),
    PetBehavior.WALK_RIGHT := AnimationSpec(1, 6, 100),
    PetBehavior.CLIMB_EDGE := AnimationSpec(2, 6, 120),
    PetBehavior.JUMP := AnimationSpec(3, 6, 80),
    PetBehavior.IDLE := AnimationSpec(4, 6, 250),
    PetBehavior.FALL := AnimationSpec(5, 6, 120),
    PetBehavior.FLY := AnimationSpec(6, 6, 150),
    PetBehavior.NONE := AnimationSpec(4, 6, 250)
  ]

  /** `animationMap[behavior] ?: animationMap[IDLE]!!`. */
  function BaseSpec(b: PetBehavior): AnimationSpec
  {
    if b in AnimationMap then AnimationMap[b] else AnimationMap[IDLE]
  }

  /** Every behaviour gets an animation of six frames, on one of rows 0..6, with a positive
      frame duration; SLEEP, INTERACT and COLLIDE, which have no entry, get IDLE's. */
  lemma BaseSpecFacts(b: PetBehavior)
    ensures 0 <= BaseSpec(b).row <= 6 && BaseSpec(b).frameCount == 6 && BaseSpec(b).frameDurationMs > 0
    ensures b !in AnimationMap <==> b in {SLEEP, INTERACT, COLLIDE}
    ensures b !in AnimationMap ==> BaseSpec(b) == AnimationSpec(4, 6, 250)
  {
  }

  /** `mapToLegacy4Row`: walking left and right, climbing (and flying), everything else. */
  function MapToLegacy4Row(b: PetBehavior): (row: int)
    ensures 0 <= row <= 3
  {
    match b
    case WALK_LEFT => 0
    case WALK_RIGHT => 1
    case CLIMB_EDGE => 2
    case JUMP => 3
    case IDLE => 3
    case FALL => 3
    case FLY => 2
    case _ => 3
  }

  /** `mapToLittleMan7Row`: one row per animated behaviour, IDLE's row for the rest. */
  function MapToLittleMan7Row(b: PetBehavior): (row: int)
    ensures 0 <= row <= 6
  {
    match b
    case WALK_LEFT => 0
    case WALK_RIGHT => 1
    case CLIMB_EDGE => 2
    case JUMP => 3
    case IDLE => 4
    case FALL => 5
    case FLY => 6
    case _ => 4
  }

  /** The little man's layout is exactly the row of each behaviour's base animation. */
  lemma LittleManMatchesSpecRows(b: PetBehavior)
    ensures MapToLittleMan7Row(b) == BaseSpec(b).row
  {
  }

  /** `resolveAnimationData`: the row the pet's layout scheme gives the behaviour, and the frame
      count capped by the sheet's columns. */
  function ResolveAnimationData(p: Pet, b: PetBehavior, spec: AnimationSpec): (rf: (int, int))
    ensures rf.1 == p.cols || rf.1 == spec.frameCount
    ensures rf.1 <= p.cols && rf.1 <= spec.frameCount
  {
    var row :=
      if p.behaviorMapId == "LEGACY_4ROW" then MapToLegacy4Row(b)
      else if p.behaviorMapId == "LITTLE_MAN_7ROW" then MapToLittleMan7Row(b)
      else spec.row;
    var frames := if p.cols < spec.frameCount then p.cols else spec.frameCount;
    (row, frames)
  }

  /** For every registry pet and every behaviour, the resolved row is a row of its sheet and the
      frame count is between 1 and its number of columns. */
  lemma RegistryAnimationsFit(p: Pet, b: PetBehavior)
    requires p in PetRepository.PredefinedPets
    ensures var (row, frames) := ResolveAnimationData(p, b, BaseSpec(b));
      0 <= row < p.rows && 1 <= frames <= p.cols
  {
    PetRepository.RegistryLayouts();
    BaseSpecFacts(b);
  }

  /** A pet other than the registry's, on the default scheme, uses the base animation's row. */
  lemma DefaultSchemeUsesSpecRow(p: Pet, b: PetBehavior, spec: AnimationSpec)
    requires p.behaviorMapId != "LEGACY_4ROW" && p.behaviorMapId != "LITTLE_MAN_7ROW"
    ensures ResolveAnimationData(p, b, spec).0 == spec.row
  {
  }

  // ───────────── frame rectangles ─────────────

  /** The size of a decoded sprite sheet, in pixels. */
  datatype Sheet = Sheet(width: nat, height: nat)

  /** The source rectangle handed to `updateFrame`. */
  datatype FrameRect = FrameRect(x: int, y: int, width: int, height: int)

  /** Frame `index` of row `row` on a sheet cut into `cols` x `rows` equal cells. */
  function FrameAt(sheet: Sheet, cols: int, rows: int, index: int, row: int): FrameRect
    requires cols > 0 && rows > 0
  {
    var fw := KotlinInt.Div(sheet.width, cols);
    var fh := KotlinInt.Div(sheet.height, rows);
    FrameRect(index * fw, row * fh, fw, fh)
  }

  predicate InsideSheet(f: FrameRect, sheet: Sheet)
  {
    0 <= f.x && 0 <= f.width && f.x + f.width <= sheet.width &&
    0 <= f.y && 0 <= f.height && f.y + f.height <= sheet.height
  }

  /** `k` cells of size `n / d` fit in `n` when `k <= d`. */
  lemma CellsFit(n: nat, d: int, k: int)
    requires 0 < d && 0 <= k <= d
    ensures 0 <= k * (n / d) <= n
  {
    assert k * (n / d) <= d * (n / d) by {
      assert (d - k) * (n / d) >= 0;
    }
  }

  /** A frame whose column and row are within the grid lies inside the sheet. */
  lemma FrameInsideSheet(sheet: Sheet, cols: int, rows: int, index: int, row: int)
    requires cols > 0 && rows > 0
    requires 0 <= index < cols && 0 <= row < rows
    ensures InsideSheet(FrameAt(sheet, cols, rows, index, row), sheet)
  {
    var fw := sheet.width / cols;
    var fh := sheet.height / rows;
    CellsFit(sheet.width, cols, index + 1);
    CellsFit(sheet.height, rows, row + 1);
    assert index * fw + fw == (index + 1) * fw;
    assert row * fh + fh == (row + 1) * fh;
  }

  // ───────────── one pet's animation step ─────────────

  /** Steps 3 and 4 of `updatePetAnimation`: restart on a behaviour change, then advance the timer
      and, when it reaches the frame duration, move to the next frame modulo `frames`. */
  function AnimationStep(r: PetRecord, duration: int, frames: int, step: int): PetRecord
    requires frames > 0
  {
    var restarted :=
      if r.behavior != r.lastBehavior then r.(lastBehavior := r.behavior, animationTimer := 0, currentFrameIndex := 0)
      else r;
    var timer := restarted.animationTimer + step;
    if timer >= duration then
      restarted.(animationTimer := 0,
                 currentFrameIndex := KotlinInt.Rem(restarted.currentFrameIndex + 1, frames))
    else restarted.(animationTimer := timer)
  }

  /** The animation state is consistent with `frames` frames of `duration` ms each. */
  predicate AnimationValid(r: PetRecord, duration: int, frames: int)
  {
    0 <= r.animationTimer < duration && 0 <= r.currentFrameIndex < frames
  }

  /** What an animation step promises: the pet now remembers its behaviour; only the animation
      fields change; the timer is below the frame duration; the frame advances by one (cyclically)
      exactly when the timer reached the duration, and stays otherwise; and the frame index is in
      range whenever the behaviour changed or the index was in range before. */
  lemma AnimationStepFacts(r: PetRecord, duration: int, frames: int, step: int)
    requires frames > 0 && duration > 0
    ensures var r' := AnimationStep(r, duration, frames, step);
      var changed := r.behavior != r.lastBehavior;
      var timer := (if changed then 0 else r.animationTimer) + step;
      var index := if changed then 0 else r.currentFrameIndex;
      r' == r.(lastBehavior := r'.lastBehavior, animationTimer := r'.animationTimer,
               currentFrameIndex := r'.currentFrameIndex) &&
      r'.lastBehavior == r.behavior &&
      r'.animationTimer < duration &&
      (timer >= duration ==> r'.animationTimer == 0 && r'.currentFrameIndex == KotlinInt.Rem(index + 1, frames)) &&
      (timer < duration ==> r'.animationTimer == timer && r'.currentFrameIndex == index) &&
      (changed || 0 <= r.currentFrameIndex < frames ==> 0 <= r'.currentFrameIndex < frames)
  {
    var changed := r.behavior != r.lastBehavior;
    var index := if changed then 0 else r.currentFrameIndex;
    if index >= 0 {
      KotlinInt.DivRemLaws(index + 1, frames);
    }
  }

  /** With a non-negative step, an animation step keeps a valid animation valid. */
  lemma AnimationStepKeepsValid(r: PetRecord, duration: int, frames: int, step: int)
    requires frames > 0 && duration > 0 && step >= 0
    requires r.behavior == r.lastBehavior ==> AnimationValid(r, duration, frames)
    ensures AnimationValid(AnimationStep(r, duration, frames, step), duration, frames)
  {
    AnimationStepFacts(r, duration, frames, step);
  }

  // ───────────── emotes ─────────────

  /** How long an emote stays on screen, in ms. */
  const EmoteMs: int := 3000

  /** `updatePetEmote`: a visible emote ages by `step` and disappears once older than 3 s. */
  function EmoteStep(r: PetRecord, step: int): PetRecord
  {
    if r.currentEmote == EmoteType.NONE then r
    else if r.emoteTimer + step > EmoteMs then r.(currentEmote := EmoteType.NONE, emoteTimer := 0)
    else r.(emoteTimer := r.emoteTimer + step)
  }

  /** `n` emote steps in a row. */
  function EmoteSteps(r: PetRecord, step: int, n: nat): PetRecord
    decreases n
  {
    if n == 0 then r else EmoteSteps(EmoteStep(r, step), step, n - 1)
  }

  /** An emote step changes nothing but the emote and its timer; without an emote it changes
      nothing at all. */
  lemma EmoteStepFrame(r: PetRecord, step: int)
    ensures var r' := EmoteStep(r, step);
      r' == r.(currentEmote := r'.currentEmote, emoteTimer := r'.emoteTimer) &&
      (r.currentEmote == EmoteType.NONE ==> r' == r) &&
      (r'.currentEmote == EmoteType.NONE || r'.currentEmote == r.currentEmote)
  {
  }

  /** While it has not outlived 3 s, an emote that started at timer 0 is still shown after n
      steps, aged n * step. */
  lemma {:induction false} EmoteShownWhileYoung(r: PetRecord, step: nat, n: nat)
    requires r.currentEmote != EmoteType.NONE && r.emoteTimer == 0
    requires n * step <= EmoteMs
    ensures EmoteSteps(r, step, n) == r.(emoteTimer := n * step)
  {
    if n > 0 {
      EmoteShownWhileYoung(r, step, n - 1);
      assert EmoteSteps(r, step, n - 1) == r.(emoteTimer := (n - 1) * step);
      EmoteStepsLast(r, step, n - 1);
    }
  }

  /** Unrolling the last of n + 1 emote steps. */
  lemma {:induction false} EmoteStepsLast(r: PetRecord, step: int, n: nat)
    ensures EmoteSteps(r, step, n + 1) == EmoteStep(EmoteSteps(r, step, n), step)
    decreases n
  {
    if n > 0 {
      EmoteStepsLast(EmoteStep(r, step), step, n - 1);
    }
  }

  /** With a positive step, an emote that started at timer 0 disappears on step 3000 / step + 1,
      its timer back at 0. */
  lemma EmoteExpires(r: PetRecord, step: nat)
    requires r.currentEmote != EmoteType.NONE && r.emoteTimer == 0 && step > 0
    ensures var n := EmoteMs / step + 1;
      EmoteSteps(r, step, n) == r.(currentEmote := EmoteType.NONE, emoteTimer := 0) &&
      EmoteSteps(r, step, n - 1).currentEmote == r.currentEmote
  {
    var n := EmoteMs / step;
    assert n * step <= EmoteMs;
    EmoteShownWhileYoung(r, step, n);
    EmoteStepsLast(r, step, n);
    assert n * step + step > EmoteMs;
  }

  // ───────────── the per-pet update ─────────────

  /** What `updatePetAnimation` does to a pet's record: nothing when its id is unknown or its
      sheet is not ready, otherwise an animation step and an emote step. */
  function PetAnimated(r: PetRecord, id: string, step: int, sheets: map<Drawable, Sheet>): PetRecord
  {
    match PetRepository.GetPetById(id)
    case None => r
    case Some(p) =>
      if p.resId !in sheets || p.cols <= 0 then r
      else
        var spec := BaseSpec(r.behavior);
        var (_, frames) := ResolveAnimationData(p, r.behavior, spec);
        if frames <= 0 then r
        else EmoteStep(AnimationStep(r, spec.frameDurationMs, frames, step), step)
  }

  /** `updatePetAnimation` touches only the animation and emote fields: position, velocity,
      window, ownership and behaviour are left as they were. */
  lemma AnimatedKeepsPhysics(r: PetRecord, id: string, step: int, sheets: map<Drawable, Sheet>)
    ensures var r' := PetAnimated(r, id, step, sheets);
      r' == r.(animationTimer := r'.animationTimer, currentFrameIndex := r'.currentFrameIndex,
               lastBehavior := r'.lastBehavior, currentEmote := r'.currentEmote, emoteTimer := r'.emoteTimer)
  {
    match PetRepository.GetPetById(id)
    case None =>
    case Some(p) =>
      if p.resId in sheets && p.cols > 0 {
        var spec := BaseSpec(r.behavior);
        var (_, frames) := ResolveAnimationData(p, r.behavior, spec);
        if frames > 0 {
          var a := AnimationStep(r, spec.frameDurationMs, frames, step);
          BaseSpecFacts(r.behavior);
          AnimationStepFacts(r, spec.frameDurationMs, frames, step);
          EmoteStepFrame(a, step);
        }
      }
  }

  /** The rectangle `updatePetAnimation` draws for a pet whose record (after the step) is `r`. */
  function DrawnFrame(r: PetRecord, p: Pet, sheet: Sheet): FrameRect
    requires p.cols > 0 && p.rows > 0
  {
    var (row, _) := ResolveAnimationData(p, r.behavior, BaseSpec(r.behavior));
    FrameAt(sheet, p.cols, p.rows, r.currentFrameIndex, row)
  }

  /**
   * `updatePetAnimation`: returns the frame drawn, or None when the pet was skipped. A registry
   * pet whose sheet is ready ends the tick remembering its behaviour, with its timer below the
   * frame duration, and, if its animation was consistent before, with a frame inside its sheet.
   */
  method UpdatePetAnimation(pet: PetState, step: int, sheets: map<Drawable, Sheet>)
      returns (frame: Option<FrameRect>)
    modifies pet
    ensures pet.Record() == PetAnimated(old(pet.Record()), pet.id, step, sheets)
    ensures FrameOutcome(old(pet.Record()), pet.Record(), pet.id, sheets, frame)
  {
    var found := PetRepository.GetPetById(pet.id);
    if found.None? {
      return None;
    }
    var p := found.value;
    if p.resId !in sheets {
      return None;
    }
    var sheet := sheets[p.resId];
    PetRepository.RegistryLayouts();

    var spec := BaseSpec(pet.behavior);
    var (row, frames) := ResolveAnimationData(p, pet.behavior, spec);
    BaseSpecFacts(pet.behavior);
    RegistryAnimationsFit(p, pet.behavior);
    ghost var before := pet.Record();

    AdvanceAnimation(pet, spec.frameDurationMs, frames, step);
    AnimationStepFacts(before, spec.frameDurationMs, frames, step);

    var frameWidth := KotlinInt.Div(sheet.width, p.cols);
    var frameHeight := KotlinInt.Div(sheet.height, p.rows);
    frame := Some(FrameRect(pet.currentFrameIndex * frameWidth, row * frameHeight, frameWidth, frameHeight));
    if 0 <= pet.currentFrameIndex < frames {
      FrameInsideSheet(sheet, p.cols, p.rows, pet.currentFrameIndex, row);
    }
    ghost var animated := pet.Record();
    assert DrawnWell(before, animated, p, sheets, frame.value);

    UpdatePetEmote(pet, step);
    EmoteStepFrame(animated, step);
  }

  /** No frame for an unknown pet or a sheet that is not ready; otherwise a frame drawn well. */
  predicate FrameOutcome(before: PetRecord, after: PetRecord, id: string, sheets: map<Drawable, Sheet>,
                         frame: Option<FrameRect>)
  {
    match PetRepository.GetPetById(id)
    case None => frame.None?
    case Some(p) =>
      if p.resId !in sheets then frame.None?
      else frame.Some? && DrawnWell(before, after, p, sheets, frame.value)
  }

  /** What the frame drawn for a registry pet `p` whose record goes from `before` to `after`
      satisfies: the pet remembers its behaviour, its timer is below the frame duration, the frame
      is the one its row and frame index select, and it lies inside the sheet if the animation was
      consistent before (or restarted). */
  predicate DrawnWell(before: PetRecord, after: PetRecord, p: Pet, sheets: map<Drawable, Sheet>, frame: FrameRect)
  {
    var spec := BaseSpec(after.behavior);
    p.resId in sheets && p.cols > 0 && p.rows > 0 &&
    after.lastBehavior == after.behavior &&
    after.animationTimer < spec.frameDurationMs &&
    frame == DrawnFrame(after, p, sheets[p.resId]) &&
    (before.behavior != before.lastBehavior ||
     0 <= before.currentFrameIndex < ResolveAnimationData(p, after.behavior, spec).1 ==>
       InsideSheet(frame, sheets[p.resId]))
  }

  /** Steps 3 and 4 of `updatePetAnimation` on the pet itself. */
  method AdvanceAnimation(pet: PetState, duration: int, frames: int, step: int)
    requires frames > 0
    modifies pet
    ensures pet.Record() == AnimationStep(old(pet.Record()), duration, frames, step)
  {
    if pet.behavior != pet.lastBehavior {
      pet.lastBehavior := pet.behavior;
      pet.animationTimer := 0;
      pet.currentFrameIndex := 0;
    }
    pet.animationTimer := pet.animationTimer + step;
    if pet.animationTimer >= duration {
      pet.animationTimer := 0;
      pet.currentFrameIndex := KotlinInt.Rem(pet.currentFrameIndex + 1, frames);
    }
  }

  /** `updatePetEmote`. */
  method UpdatePetEmote(pet: PetState, step: int)
    modifies pet
    ensures pet.Record() == EmoteStep(old(pet.Record()), step)
  {
    if pet.currentEmote != EmoteType.NONE {
      pet.emoteTimer := pet.emoteTimer + step;
      if pet.emoteTimer > EmoteMs {
        pet.currentEmote := EmoteType.NONE;
        pet.emoteTimer := 0;
      }
    }
  }

  /** `updateAnimations`: every active pet, in order. */
  method UpdateAnimations(pets: seq<PetState>, step: int, sheets: map<Drawable, Sheet>)
    requires Distinct(pets)
    modifies set p | p in pets
    ensures forall k :: 0 <= k < |pets| ==>
      pets[k].Record() == PetAnimated(old(pets[k].Record()), pets[k].id, step, sheets)
  {
    ghost var rs0 := Records(pets);
    ghost var want := seq(|pets|, m requires 0 <= m < |pets| => PetAnimated(rs0[m], pets[m].id, step, sheets));
    var k := 0;
    while k < |pets|
      invariant 0 <= k <= |pets|
      invariant forall m :: 0 <= m < k ==> pets[m].Record() == want[m]
      invariant forall m :: k <= m < |pets| ==> pets[m].Record() == rs0[m]
    {
      ghost var target := want[k];
      assert forall m :: 0 <= m < |pets| && m != k ==> pets[m] != pets[k];
      var _ := UpdatePetAnimation(pets[k], step, sheets);
      assert pets[k].Record() == target;
      k := k + 1;
    }
  }
}
