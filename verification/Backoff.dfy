/** How long a failing build waits (internal/buildcontroller/errors.go). Times are in seconds. */
module Backoff {
  const PENDING_RETRY: nat := 30
  const MAX_BACKOFF: nat := 600

  function Pow2(n: nat): (p: nat)
    ensures p >= 1
  {
    if n == 0 then 1 else 2 * Pow2(n - 1)
  }

  /** min(30 * 2^n, 600). */
  function Wait(n: nat): nat {
    if PENDING_RETRY * Pow2(n) < MAX_BACKOFF then PENDING_RETRY * Pow2(n) else MAX_BACKOFF
  }

  lemma {:induction false} Pow2Grows(m: nat, n: nat)
    requires m <= n
    ensures Pow2(m) <= Pow2(n)
  {
    if m < n {
      Pow2Grows(m, n - 1);
    }
  }

  method FailureBackoff(n: nat) returns (d: nat)
    ensures d == Wait(n)
  {
    d := PENDING_RETRY;
    for k := 0 to n
      invariant d == PENDING_RETRY * Pow2(k)
    {
      if d >= MAX_BACKOFF {
        Pow2Grows(k, n);
        break;
      }
      d := d * 2;
    }
    d := if d < MAX_BACKOFF then d else MAX_BACKOFF;
  }

  /** The waits after the first k failures, summed. */
  function TotalWait(k: nat): nat {
    if k == 0 then 0 else TotalWait(k - 1) + Wait(k)
  }

  lemma {:induction false} TotalWaitIs(k: nat)
    requires k >= 5
    ensures TotalWait(k) == 60 + 120 + 240 + 480 + 600 * (k - 4)
  {
    if k == 5 {
      assert TotalWait(5) == TotalWait(4) + Wait(5);
      assert TotalWait(3) == TotalWait(2) + Wait(3);
      assert TotalWait(1) == Wait(1);
    } else {
      TotalWaitIs(k - 1);
      Pow2Grows(5, k);
      assert Pow2(5) == 2 * Pow2(4) && Pow2(4) == 2 * Pow2(3) && Pow2(3) == 2 * Pow2(2);
    }
  }
}
