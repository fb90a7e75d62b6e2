/** The numeric helpers of apps/api/src/core.ts over real numbers. */
module Numbers {
  const DAY := 86_400_000  // milliseconds
  const MAX_LIST_ITEMS := 128  // entries in a bounded list

  /** `Math.round(x * 1000000)`: halves round up. */
  function Micros(x: real): int {
    (x * 1000000.0 + 0.5).Floor
  }

  /** `roundNumber(x, 6)`. */
  function Round6(x: real): real {
    Micros(x) as real / 1000000.0
  }

  lemma Round6Near(x: real)
    ensures x - 0.0000005 < Round6(x) <= x + 0.0000005
  {
  }

  lemma FloorMonotone(x: real, y: real)
    requires x <= y
    ensures x.Floor <= y.Floor
  {
  }

  lemma Round6Monotone(x: real, y: real)
    requires x <= y
    ensures Round6(x) <= Round6(y)
  {
    FloorMonotone(x * 1000000.0 + 0.5, y * 1000000.0 + 0.5);
    var m, n := Micros(x), Micros(y);
    assert m <= n;
    assert m as real <= n as real;
  }

  /** A whole number of millionths is its own rounding. */
  lemma Round6Exact(n: int)
    ensures Round6(n as real / 1000000.0) == n as real / 1000000.0
  {
    var x := n as real / 1000000.0;
    assert x * 1000000.0 + 0.5 == n as real + 0.5;
    assert (n as real + 0.5).Floor == n;
  }

  /** `Math.round(n / 10)` and `Math.round(n / 100)` for whole numbers: halves round up. */
  function Tenth(n: int): int { (n + 5) / 10 }
  function Hundredth(n: int): int { (n + 50) / 100 }

  /** The product of two computed numbers, under a name so that proofs can hold on to it. */
  function Times(a: real, b: real): real { a * b }

  lemma TimesMonotone(a: real, b: real, q: real)
    requires a <= b && q >= 0.0
    ensures Times(a, q) <= Times(b, q)
  {
  }

  lemma TimesAdds(a: real, b: real, q: real)
    ensures Times(a + b, q) == Times(a, q) + Times(b, q)
    ensures Times(a - b, q) == Times(a, q) - Times(b, q)
  {
  }

  lemma TimesUnit(a: real, b: real)
    ensures Times(a, b) == Times(b, a)
    ensures Times(a, 1.0) == a && Times(1.0, a) == a
    ensures Times(a, 0.0) == 0.0 && Times(0.0, a) == 0.0
  {
  }

  lemma TimesAssociates(a: real, b: real, c: real)
    ensures Times(a, Times(b, c)) == Times(Times(a, b), c)
  {
  }

  function Min(x: int, y: int): int { if x <= y then x else y }
  function Max(x: int, y: int): int { if x <= y then y else x }
  function MinReal(x: real, y: real): real { if x <= y then x else y }
  function MaxReal(x: real, y: real): real { if x <= y then y else x }
  function Abs(x: real): real { if x < 0.0 then -x else x }
  function Clamp01(x: real): real { MaxReal(0.0, MinReal(1.0, x)) }

  /** `isoAgeDays`: whole days from `target` to `reference`, never negative. */
  function AgeDays(reference: int, target: int): nat {
    Max(0, (reference - target) / DAY)
  }

  lemma AgeDaysBound(reference: int, target: int)
    ensures AgeDays(reference, target) > 0 ==> AgeDays(reference, target) * DAY <= reference - target
    ensures AgeDays(reference, reference) == 0
  {
  }
}
