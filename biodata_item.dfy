/**
  * The one entity of the app: the `biodata_table` row. A Kotlin data class
  * with only `val` fields is an immutable value, so it is a datatype here.
  */
module Model {
  import opened Wrappers

  /** Kotlin's `Int`: a signed 32-bit integer. */
  newtype Int32 = x: int | -0x8000_0000 <= x < 0x8000_0000

  /** The id every record gets when none is supplied. */
  const DefaultId: Int32 := 1

  /**
    * A row of `biodata_table`. `id` is the primary key and is not
    * auto-generated, so it is whatever the caller passes (1 by default).
    * `birthDate` is free text. `photoUri` is an optional, unvalidated handle
    * to an image outside the app (absent by default).
    */
  datatype Biodataitem = Biodataitem(
    id: Int32 := DefaultId,
    name: string,
    nim: string,
    birthPlace: string,
    birthDate: string,
    address: string,
    photoUri: Option<string> := None)

  /** A record built without `id` and `photoUri` gets id 1 and no photo. */
  lemma DefaultsApply(name: string, nim: string, birthPlace: string, birthDate: string, address: string)
    ensures var r := Biodataitem(name := name, nim := nim, birthPlace := birthPlace,
                                 birthDate := birthDate, address := address);
            r.id == 1 && r.photoUri == None
            && r.name == name && r.nim == nim && r.birthPlace == birthPlace
            && r.birthDate == birthDate && r.address == address
  {
  }

  /** Data-class equality: two records are equal exactly when all seven fields are. */
  lemma EqualityIsStructural(a: Biodataitem, b: Biodataitem)
    ensures a == b <==>
      && a.id == b.id && a.name == b.name && a.nim == b.nim
      && a.birthPlace == b.birthPlace && a.birthDate == b.birthDate
      && a.address == b.address && a.photoUri == b.photoUri
  {
  }
}
