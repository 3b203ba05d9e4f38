/** The built-in registry of pets (`PetRepository`). */
module PetRepository {
  import opened Wrappers
  import opened Pets

  const PredefinedPets: seq<Pet> := [
    Pet("cat_01", "Purple Cat", PetSpritePurpleCat, cols := 4, rows := 4, behaviorMapId := "LEGACY_4ROW"),
    Pet("dog_01", "Blue Dog", PetSpriteBlueDog, cols := 4, rows := 4, behaviorMapId := "LEGACY_4ROW"),
    Pet("man_01", "Little Man", SpriteSheetLittleMan, cols := 4, rows := 7, behaviorMapId := "LITTLE_MAN_7ROW")
  ]

  /** `pets.find { it.id == id }`: the first pet with that id, or null when there is none. */
  function Find(pets: seq<Pet>, id: string): (r: Option<Pet>)
    ensures r.Some? ==> r.value in pets && r.value.id == id
    ensures r.None? <==> forall p :: p in pets ==> p.id != id
    ensures r.Some? ==> exists k :: 0 <= k < |pets| && pets[k] == r.value && forall j :: 0 <= j < k ==> pets[j].id != id
  {
    if pets == [] then None
    else if pets[0].id == id then Some(pets[0])
    else Find(pets[1..], id)
  }

  /** `getPetById(id)`: the registry pet with that id, null for any other id. */
  function GetPetById(id: string): (r: Option<Pet>)
    ensures r.Some? ==> r.value in PredefinedPets && r.value.id == id
    ensures r.None? <==> id != "cat_01" && id != "dog_01" && id != "man_01"
  {
    Find(PredefinedPets, id)
  }

  /** The registry's ids are pairwise distinct, so a lookup by id is unambiguous. */
  lemma IdsDistinct()
    ensures forall i, j :: 0 <= i < j < |PredefinedPets| ==> PredefinedPets[i].id != PredefinedPets[j].id
  {
  }

  /** The registry's layouts: the cat and the dog are 4 x 4 legacy sheets, the little man a
      4-column, 7-row sheet; no pet uses the default (one row per behaviour) scheme. */
  lemma RegistryLayouts()
    ensures forall p :: p in PredefinedPets ==> p.cols == 4
    ensures forall p :: p in PredefinedPets ==>
      (p.id == "man_01" ==> p.rows == 7 && p.behaviorMapId == "LITTLE_MAN_7ROW") &&
      (p.id != "man_01" ==> p.rows == 4 && p.behaviorMapId == "LEGACY_4ROW")
    ensures forall p :: p in PredefinedPets ==>
      p.behaviorMapId == "LEGACY_4ROW" || p.behaviorMapId == "LITTLE_MAN_7ROW"
  {
  }

  /** Each registry id finds its own entry. */
  lemma LookupFindsEntry(k: nat)
    requires k < |PredefinedPets|
    ensures GetPetById(PredefinedPets[k].id) == Some(PredefinedPets[k])
  {
  }
}
