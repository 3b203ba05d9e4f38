/** The mutable per-pet record that physics and animation update in place (`PetState`). */
module PetStates {
  import opened PetBehaviors
  import opened Emotes

  /** A snapshot of every mutable field of a `PetState`, used to state what an update does. */
  datatype PetRecord = PetRecord(
    x: int, y: int, dx: int, dy: int,
    paramsX: int, paramsY: int, width: int, height: int,
    isMenuOpen: bool, isDragging: bool,
    behaviorChangedThisTick: bool, behavior: PetBehavior, behaviorTimer: int,
    animationTimer: int, currentFrameIndex: int, lastBehavior: PetBehavior,
    currentEmote: EmoteType, emoteTimer: int)

  /**
   * One live pet. `params` (the window layout parameters) is folded into the fields
   * `paramsX`, `paramsY`, `width` and `height`; the view is output only and is not modelled.
   */
  class PetState {
    const id: string

    // window placement and size (params.x, params.y, params.width, params.height)
    var paramsX: int
    var paramsY: int
    var width: int
    var height: int

    // position and per-tick displacement
    var x: int
    var y: int
    var dx: int
    var dy: int

    // set by the touch handler and the options menu
    var isMenuOpen: bool
    var isDragging: bool

    // behaviour state
    var behaviorChangedThisTick: bool
    var behavior: PetBehavior
    var behaviorTimer: int

    // animation state
    var animationTimer: int
    var currentFrameIndex: int
    var lastBehavior: PetBehavior

    // emote state
    var currentEmote: EmoteType
    var emoteTimer: int

    ghost function Record(): PetRecord
      reads this
    {
      PetRecord(x, y, dx, dy, paramsX, paramsY, width, height, isMenuOpen, isDragging,
        behaviorChangedThisTick, behavior, behaviorTimer,
        animationTimer, currentFrameIndex, lastBehavior, currentEmote, emoteTimer)
    }

    /** A new pet: the given identity, window placement, position and velocity, and every other
        field at its default: not dragged, menu closed, latch clear, behaviour `NONE` with a zero
        timer, animation at frame 0 of `NONE`, no emote. */
    constructor (id: string, paramsX: int, paramsY: int, width: int, height: int,
                 x: int, y: int, dx: int, dy: int)
      ensures this.id == id
      ensures Record() == PetRecord(x, y, dx, dy, paramsX, paramsY, width, height,
        false, false, false, PetBehavior.NONE, 0, 0, 0, PetBehavior.NONE, EmoteType.NONE, 0)
    {
      this.id := id;
      this.paramsX, this.paramsY, this.width, this.height := paramsX, paramsY, width, height;
      this.x, this.y, this.dx, this.dy := x, y, dx, dy;
      isMenuOpen, isDragging := false, false;
      behaviorChangedThisTick, behavior, behaviorTimer := false, PetBehavior.NONE, 0;
      animationTimer, currentFrameIndex, lastBehavior := 0, 0, PetBehavior.NONE;
      currentEmote, emoteTimer := EmoteType.NONE, 0;
    }
  }

  /** The live pets are distinct objects (the service keeps one state per pet id). */
  predicate Distinct(pets: seq<PetState>)
  {
    forall i, j :: 0 <= i < j < |pets| ==> pets[i] != pets[j]
  }

  /** The snapshots of a list of pets, in order. */
  ghost function Records(pets: seq<PetState>): (rs: seq<PetRecord>)
    reads set p | p in pets
    ensures |rs| == |pets|
    ensures forall k :: 0 <= k < |pets| ==> rs[k] == pets[k].Record()
  {
    if pets == [] then [] else Records(pets[..|pets| - 1]) + [pets[|pets| - 1].Record()]
  }
}
