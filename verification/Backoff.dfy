/** Capped doubling, as the scanner, the watcher and the retry policy compute it. */
module Backoff {

  function Doubled(base: nat, failures: nat): nat {
    if failures == 0 then base else 2 * Doubled(base, failures - 1)
  }

  lemma {:induction false} DoublingGrows(base: nat, a: nat, b: nat)
    requires a <= b
    ensures Doubled(base, a) <= Doubled(base, b)
    decreases b
  {
    if a < b {
      DoublingGrows(base, a, b - 1);
    }
  }

  function Capped(base: nat, cap: nat, failures: nat): nat {
    if Doubled(base, failures) > cap then cap else Doubled(base, failures)
  }

  /** retryDelay and reopenDelay: the loop never computes a value above twice the cap's half. */
  method Delay(base: nat, cap: nat, failures: int) returns (delay: nat)
    ensures delay == Capped(base, cap, if failures < 0 then 0 else failures)
  {
    delay := base;
    var n: nat := if failures < 0 then 0 else failures;
    var i := 0;
    while i < n && delay < cap
      invariant i <= n && delay == Doubled(base, i)
      invariant i > 0 ==> delay <= cap
    {
      DoublingGrows(base, i + 1, n);
      if delay > cap / 2 {
        return cap;
      }
      delay := delay * 2;
      i := i + 1;
    }
    DoublingGrows(base, i, n);
    if delay > cap {
      return cap;
    }
    if i < n {
      assert delay == cap <= Doubled(base, n);
    }
  }

  /** Delays never shrink as failures mount, and never exceed the cap. */
  lemma DelaysGrowToTheCap(base: nat, cap: nat, a: nat, b: nat)
    requires a <= b
    ensures Capped(base, cap, a) <= Capped(base, cap, b) <= cap
  {
    DoublingGrows(base, a, b);
  }
}
