/** The comparison of numbers in JavaScript. */
module Numbers {
  import opened ObjectGraphs

  /** `==` and `===` on numbers */
  predicate LooseEquals(a: Number, b: Number) {
    if a.NaN? || b.NaN? then false
    else if IsZero(a) || IsZero(b) then IsZero(a) && IsZero(b)
    else a == b
  }

  /** NaN equals nothing, the two zeros equal each other, and otherwise numbers equal themselves. */
  lemma LooseEqualsMeans(a: Number, b: Number)
    ensures LooseEquals(a, b) <==> a != NaN && b != NaN && (a == b || {a, b} == {NegativeZero, Finite(0.0)})
  {}

  predicate IsZero(a: Number) {
    a == NegativeZero || a == Finite(0.0)
  }

  /** `1 / a` */
  function Reciprocal(a: Number): Number {
    match a
    case NaN => NaN
    case NegativeZero => Infinite(true)
    case Infinite(negative) => if negative then NegativeZero else Finite(0.0)
    case Finite(r) => if r == 0.0 then Infinite(false) else Finite(1.0 / r)
  }

  /** `a != +a ? b != +b : (a == 0 ? 1 / a == 1 / b : a == +b)` */
  predicate SameNumber(a: Number, b: Number) {
    if !LooseEquals(a, a) then !LooseEquals(b, b)
    else if IsZero(a) then LooseEquals(Reciprocal(a), Reciprocal(b))
    else LooseEquals(a, b)
  }

  /** The number comparison tells the zeros apart, and takes NaN to be equal to itself. */
  lemma SameNumberMeansIdentical(a: Number, b: Number)
    ensures SameNumber(a, b) <==> a == b
  {}

  function FromBool(b: bool): Number {
    Finite(if b then 1.0 else 0.0)
  }
}
