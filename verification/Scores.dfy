/** Scores, with the infinite one. */
module Scores {
  /** A score; dividing by zero gives the infinite one. */
  datatype Score = Finite(value: real) | Infinite

  function Plus(a: Score, b: Score): Score {
    if a.Finite? && b.Finite? then Finite(a.value + b.value) else Infinite
  }

  predicate Below(s: Score, x: real) {
    s.Finite? && s.value < x
  }

  predicate Between(low: real, s: Score, high: real) {
    s.Finite? && low <= s.value <= high
  }

  predicate Above(a: Score, b: Score) {
    b.Finite? && (a.Finite? ==> a.value > b.value)
  }
}
