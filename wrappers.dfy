/** Kotlin's nullable types (`String?`, `Biodataitem?`) as an explicit option. */
module Wrappers {

  datatype Option<+T> = None | Some(value: T)
}
