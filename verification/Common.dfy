/** Small vocabulary shared by all the models. */
module Common {
  datatype Option<+T> = None | Some(value: T)

  function Min(a: int, b: int): int { if a < b then a else b }

  function Max(a: int, b: int): int { if a > b then a else b }

  /** The positive part of a number: itself, or zero when it is negative. */
  function Positive(a: int): int { if a > 0 then a else 0 }

  /** The sum of the first n counts. */
  function Total(counts: seq<nat>, n: nat): nat
    requires n <= |counts|
  {
    if n == 0 then 0 else Total(counts, n - 1) + counts[n - 1]
  }

  lemma TimesMonotone(x: int, y: int, k: nat)
    ensures x <= y ==> x * k <= y * k
  {
  }
}
