/**
 * `named_type<T, Tag>`: a value of `T` under a distinct nominal type, so that
 * two parameters of the same underlying type (a width and a height, stencil
 * and vsync) cannot be swapped. `Tag` only tells the types apart.
 */
module NamedType {
  import opened Wrappers

  /** The wrapper; its one field is the stored `value_`. */
  datatype Named<T, Tag> = Named(value: T)

  /** The explicit constructor from a `T`; there is no implicit conversion the other way round. */
  function Make<T, Tag>(v: T): (n: Named<T, Tag>)
    ensures n.value == v
  {
    Named(v)
  }

  /** `value()`: the stored value. */
  function Value<T, Tag>(n: Named<T, Tag>): (v: T)
    ensures Make<T, Tag>(v) == n
  {
    n.value
  }

  /** The implicit conversion `operator T()`: the stored value, like `value()`. */
  function Convert<T, Tag>(n: Named<T, Tag>): (v: T)
    ensures v == Value(n)
  {
    n.value
  }

  /** Wrapping and reading back give the value wrapped, and wrapping loses nothing. */
  lemma RoundTrip<T, Tag>(v: T, n: Named<T, Tag>)
    ensures Value(Make<T, Tag>(v)) == v && Convert(Make<T, Tag>(v)) == v
    ensures Make<T, Tag>(Value(n)) == n
  {
  }

  /** The defaulted `operator==`: equal exactly when the wrapped values are. */
  function Equal<T(==), Tag>(a: Named<T, Tag>, b: Named<T, Tag>): (r: bool)
    ensures r <==> Value(a) == Value(b)
  {
    a == b
  }

  /** The defaulted `operator<=>` over the single member, for an integral `T`. */
  function Compare<Tag>(a: Named<int, Tag>, b: Named<int, Tag>): (r: Ordering)
    ensures r == Less <==> Value(a) < Value(b)
    ensures r == Greater <==> Value(a) > Value(b)
    ensures r == Equivalent <==> Equal(a, b)
  {
    CompareInt(a.value, b.value)
  }

  /** The ordering of wrapped values is a strict total order, as that of the values. */
  lemma CompareIsTotalOrder<Tag>(a: Named<int, Tag>, b: Named<int, Tag>, c: Named<int, Tag>)
    ensures Compare(a, b) == Less <==> Compare(b, a) == Greater
    ensures Compare(a, b) == Less && Compare(b, c) == Less ==> Compare(a, c) == Less
    ensures Compare(a, a) == Equivalent
  {
  }
}
