/** JavaScript number helpers shared by the editor's modules. */
module Numbers {
  /** `Math.round`: the nearest integer, halves rounded up. */
  function Round(x: real): (n: int)
    ensures n as real - 0.5 <= x < n as real + 0.5
  {
    (x + 0.5).Floor
  }

  /** Rounding is monotonic. */
  lemma RoundMonotonic(x: real, y: real)
    requires x <= y
    ensures Round(x) <= Round(y)
  {
  }

  /** Rounding an integer gives it back. */
  lemma RoundOfInt(i: int)
    ensures Round(i as real) == i
  {
  }

  /** A value between zero and a whole bound rounds to a whole number between them. */
  lemma RoundWithin(x: real, bound: real)
    ensures bound == bound.Floor as real && 0.0 <= x <= bound ==> 0 <= Round(x) && Round(x) as real <= bound
  {
    if bound == bound.Floor as real && 0.0 <= x <= bound {
      assert Round(x) as real - 0.5 <= x;
      assert Round(x) <= bound.Floor;
    }
  }
}
