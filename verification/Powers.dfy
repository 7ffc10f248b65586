/** Powers of two, which both backoff schedules double by. */
module Powers {

  function TwoTo(n: nat): nat {
    if n == 0 then 1 else 2 * TwoTo(n - 1)
  }

  lemma {:induction false} TwoToGrows(n: nat, m: nat)
    requires n <= m
    ensures 1 <= TwoTo(n) <= TwoTo(m)
  {
    if n < m {
      TwoToGrows(n, m - 1);
    } else if n > 0 {
      TwoToGrows(n - 1, n - 1);
    }
  }
}
