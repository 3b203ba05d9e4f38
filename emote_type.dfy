/** The transient emotes a pet can show (the sealed class `EmoteType`). */
module Emotes {
  import opened Wrappers

  datatype EmoteType = NONE | HAPPY | SURPRISED | THINKING | SLEEPY | ANGRY

  function Name(e: EmoteType): string
  {
    match e
    case NONE => "NONE"
    case HAPPY => "HAPPY"
    case SURPRISED => "SURPRISED"
    case THINKING => "THINKING"
    case SLEEPY => "SLEEPY"
    case ANGRY => "ANGRY"
  }

  /** `EmoteType.values()`: every emote, each exactly once, `NONE` first. */
  function Values(): (vs: seq<EmoteType>)
    ensures forall e: EmoteType :: e in vs
    ensures forall i, j :: 0 <= i < j < |vs| ==> vs[i] != vs[j]
    ensures |vs| == 6 && vs[0] == NONE
  {
    var vs := [NONE, HAPPY, SURPRISED, THINKING, SLEEPY, ANGRY];
    assert forall e: EmoteType :: e in vs by {
      forall e: EmoteType ensures e in vs {
        if e == NONE { assert vs[0] == e; }
        else if e == HAPPY { assert vs[1] == e; }
        else if e == SURPRISED { assert vs[2] == e; }
        else if e == THINKING { assert vs[3] == e; }
        else if e == SLEEPY { assert vs[4] == e; }
        else { assert vs[5] == e; }
      }
    }
    vs
  }

  /** `EmoteType.valueOf(value)`: the emote with that name, or the `IllegalArgumentException`
      the source throws for any other string. */
  function ValueOf(value: string): (r: Result<EmoteType, string>)
    ensures r.Success? ==> Name(r.value) == value
    ensures r.Failure? <==> forall e: EmoteType :: Name(e) != value
  {
    match value
    case "NONE" => Success(NONE)
    case "HAPPY" => Success(HAPPY)
    case "SURPRISED" => Success(SURPRISED)
    case "THINKING" => Success(THINKING)
    case "SLEEPY" => Success(SLEEPY)
    case "ANGRY" => Success(ANGRY)
    case _ => Failure("No object com.learning.companionshimejis.data.model.EmoteType." + value)
  }

  /** `valueOf` inverts `name`. */
  lemma ValueOfName(e: EmoteType)
    ensures ValueOf(Name(e)) == Success(e)
  {
  }

  /** `filter { it != EmoteType.NONE }`: the emotes of `es` other than `NONE`, in order. */
  function WithoutNone(es: seq<EmoteType>): (r: seq<EmoteType>)
    ensures forall e :: e in r <==> e in es && e != NONE
    ensures |r| <= |es|
  {
    if es == [] then []
    else if es[0] == NONE then WithoutNone(es[1..])
    else [es[0]] + WithoutNone(es[1..])
  }

  /** The pool a random emote is drawn from: the five emotes other than `NONE`. */
  lemma RandomEmotePool()
    ensures WithoutNone(Values()) == [HAPPY, SURPRISED, THINKING, SLEEPY, ANGRY]
  {
  }
}
