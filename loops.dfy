/** Facts about counting loops that the network and the readers share. */
module Loops {
  /** How often `for (int i = 0; i < n; i++)` runs: `n` times, and not at
      all when `n` is not positive. */
  function LoopCount(n: int): (c: nat)
    ensures n <= 0 ==> c == 0
    ensures n > 0 ==> c == n
  {
    if n <= 0 then 0 else n
  }

  /** One more round of `n` steps. */
  lemma MulSucc(a: int, n: int)
    ensures (a + 1) * n == a * n + n
  {
  }
}
