/** The static description of a pet's sprite sheet (the data class `Pet`). */
module Pets {

  /** The drawable resources the registry refers to (`R.drawable.*`); their numeric ids are
      generated by the build and play no role in the model. */
  datatype Drawable = PetSpritePurpleCat | PetSpriteBlueDog | SpriteSheetLittleMan

  /** A sprite-sheet layout: `cols` x `rows` frames and the behaviour-to-row scheme to use.
      Without explicit values a pet is a 4 x 4 sheet laid out in the legacy 4-row scheme. */
  datatype Pet = Pet(
    id: string,
    name: string,
    resId: Drawable,
    cols: int := 4,
    rows: int := 4,
    behaviorMapId: string := "LEGACY_4ROW")

  /** The constructor's defaults. */
  lemma DefaultLayout(id: string, name: string, resId: Drawable)
    ensures var p := Pet(id, name, resId);
      p.id == id && p.name == name && p.resId == resId &&
      p.cols == 4 && p.rows == 4 && p.behaviorMapId == "LEGACY_4ROW"
  {
  }
}
