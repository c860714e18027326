/**
 * `ranged_value<T, Min, Max>`: a value validated on construction to lie in
 * `[Min, Max]`, and `angle`, the instance over [-180, 180]. `T` is modelled
 * as `real`; the template bounds become the fields `lo` and `hi`.
 */
module RangedValue {
  import opened Wrappers

  /** `std::clamp(v, lo, hi)`, which requires `!(hi < lo)`. */
  function Clamp(v: real, lo: real, hi: real): (r: real)
    requires lo <= hi
    ensures lo <= r <= hi
    ensures r == v <==> lo <= v <= hi
  {
    if v < lo then lo else if hi < v then hi else v
  }

  /** `is_in_range<T, Min, Max>`: clamping leaves the value where it is. */
  predicate IsInRange(lo: real, hi: real, v: real)
    requires lo <= hi
  {
    Clamp(v, lo, hi) == v
  }

  /** The predicate is the closed interval, endpoints included. */
  lemma IsInRangeIsInterval(lo: real, hi: real, v: real)
    requires lo <= hi
    ensures IsInRange(lo, hi, v) <==> lo <= v && v <= hi
    ensures IsInRange(lo, hi, lo) && IsInRange(lo, hi, hi)
  {
  }

  datatype Ranged = Ranged(lo: real, hi: real, value: real)

  /** Every `ranged_value` that exists satisfies its range predicate. */
  type RangedValue = r: Ranged | r.lo <= r.hi && IsInRange(r.lo, r.hi, r.value) witness Ranged(0.0, 0.0, 0.0)

  /** The validating constructor; a value outside the range yields no object. */
  function Make(lo: real, hi: real, v: real): (r: Option<RangedValue>)
    requires lo <= hi
    ensures r.Some? <==> lo <= v <= hi
    ensures r.Some? ==> r.value == Ranged(lo, hi, v)
  {
    if IsInRange(lo, hi, v) then Some(Ranged(lo, hi, v)) else None
  }

  /** The default constructor builds from `T{}`, so it succeeds only when zero is in range. */
  function Default(lo: real, hi: real): (r: Option<RangedValue>)
    requires lo <= hi
    ensures r.Some? <==> lo <= 0.0 <= hi
    ensures r.Some? ==> r.value.value == 0.0
  {
    Make(lo, hi, 0.0)
  }

  /** Unary `operator-`: rebuilds a value of the same type from `-value()`, validating it again. */
  function Negate(x: RangedValue): (r: Option<RangedValue>)
    ensures r.Some? <==> x.lo <= -x.value <= x.hi
    ensures r.Some? ==> r.value == Ranged(x.lo, x.hi, -x.value)
  {
    Make(x.lo, x.hi, -x.value)
  }

  /** With bounds symmetric around zero, negation never fails and undoes itself. */
  lemma NegateSymmetric(x: RangedValue)
    requires x.lo == -x.hi
    ensures Negate(x).Some?
    ensures Negate(x).value.value == -x.value
    ensures Negate(Negate(x).value) == Some(x)
  {
  }

  const AngleMin: real := -180.0
  const AngleMax: real := 180.0

  /** `angle = ranged_value<float, -180, 180>`. */
  type Angle = r: RangedValue | r.lo == AngleMin && r.hi == AngleMax witness Ranged(-180.0, 180.0, 0.0)

  function MakeAngle(v: real): (r: Option<Angle>)
    ensures r.Some? <==> -180.0 <= v <= 180.0
    ensures r.Some? ==> r.value.value == v
  {
    match Make(AngleMin, AngleMax, v)
    case None => None
    case Some(a) => Some(a)
  }

  /** A default `angle` exists and is zero. */
  function DefaultAngle(): (a: Angle)
    ensures a.value == 0.0
  {
    Default(AngleMin, AngleMax).value
  }

  /** Negating an `angle` always yields an `angle`: the negated value. */
  function NegateAngle(a: Angle): (r: Angle)
    ensures r.value == -a.value
  {
    NegateSymmetric(a);
    Negate(a).value
  }

  /** 200 is rejected, 180 accepted, and the boundary -180 negates to 180. */
  lemma AngleBoundaries()
    ensures MakeAngle(200.0) == None
    ensures MakeAngle(180.0).Some?
    ensures NegateAngle(MakeAngle(-180.0).value).value == 180.0
  {
  }
}
