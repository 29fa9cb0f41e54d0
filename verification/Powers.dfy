/** Powers of two. */
module Powers {
  function Pow2(k: nat): (p: int)
    ensures p >= 1
  {
    if k == 0 then 1 else 2 * Pow2(k - 1)
  }

  lemma Pow2Drop7(k: nat)
    requires k >= 7
    ensures Pow2(k) == 128 * Pow2(k - 7)
  {
    assert Pow2(k) == 2 * Pow2(k - 1) == 4 * Pow2(k - 2) == 8 * Pow2(k - 3);
    assert Pow2(k - 3) == 2 * Pow2(k - 4) == 4 * Pow2(k - 5) == 8 * Pow2(k - 6);
    assert Pow2(k - 6) == 2 * Pow2(k - 7);
  }

  lemma {:induction false} Pow2Mono(j: nat, k: nat)
    requires j <= k
    ensures Pow2(j) <= Pow2(k)
    decreases k
  {
    if j < k { Pow2Mono(j, k - 1); }
  }
}
