/** Real arithmetic shared by the scoring and ledger code. Floats are reals here. */
module Numbers {

  /** Nearest integer, halves away from zero. */
  function Round(x: real): int {
    if x >= 0.0 then (x + 0.5).Floor else -((-x + 0.5).Floor)
  }

  /** Rounding to four decimal places. */
  function RoundTo4(x: real): real {
    Round(x * 10000.0) as real / 10000.0
  }

  function RoundTo2(x: real): real {
    Round(x * 100.0) as real / 100.0
  }

  lemma RoundNear(x: real)
    ensures -0.5 <= Round(x) as real - x <= 0.5
  {
  }

  lemma RoundMonotone(x: real, y: real)
    requires x <= y
    ensures Round(x) <= Round(y)
  {
  }

  lemma RoundTo4Near(x: real)
    ensures -0.00005 <= RoundTo4(x) - x <= 0.00005
  {
    RoundNear(x * 10000.0);
  }

  lemma RoundTo4Monotone(x: real, y: real)
    requires x <= y
    ensures RoundTo4(x) <= RoundTo4(y)
  {
    RoundMonotone(x * 10000.0, y * 10000.0);
  }

  function Max(a: real, b: real): real {
    if a >= b then a else b
  }

  function MaxInt(a: int, b: int): int {
    if a > b then a else b
  }
}
