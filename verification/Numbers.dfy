/** Small arithmetic shared by the modules: larger, smaller, distance, rounding. */
module Numbers {
  function Max(a: real, b: real): real { if a < b then b else a }
  function Min(a: real, b: real): real { if a < b then a else b }
  function Abs(x: real): real { if x < 0.0 then -x else x }

  function MinNat(a: nat, b: nat): nat { if a < b then a else b }

  /** The nearest integer, ties to even. */
  function RoundHalfEven(x: real): int {
    var rest := x - x.Floor as real;
    if rest < 0.5 || (rest == 0.5 && x.Floor % 2 == 0) then x.Floor else x.Floor + 1
  }

  lemma RoundedIsClose(x: real)
    ensures x - 0.5 <= RoundHalfEven(x) as real <= x + 0.5
  {}

  /** Half-way numbers go to the even neighbour. */
  lemma TiesGoToEven(n: int)
    ensures RoundHalfEven(n as real + 0.5) == if n % 2 == 0 then n else n + 1
  {
    assert (n as real + 0.5).Floor == n;
  }

  /** Rounding keeps order and leaves integers alone. */
  lemma RoundingIsMonotone(x: real, y: real)
    requires x <= y
    ensures RoundHalfEven(x) <= RoundHalfEven(y)
  {
    assert x.Floor <= y.Floor;
  }

  lemma IntegersStay(n: int)
    ensures RoundHalfEven(n as real) == n
  {}
}
