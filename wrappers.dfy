/** Optional values, standing for a nullable pointer or a `std::optional`. */
module Wrappers {

  datatype Option<+T> = None | Some(value: T)

  /** The result of a three-way comparison (`operator<=>`). */
  datatype Ordering = Less | Equivalent | Greater

  /** Three-way comparison of integers, as the built-in `<=>` on an integral type. */
  function CompareInt(a: int, b: int): (r: Ordering)
    ensures r == Less <==> a < b
    ensures r == Equivalent <==> a == b
    ensures r == Greater <==> a > b
  {
    if a < b then Less else if a == b then Equivalent else Greater
  }
}
