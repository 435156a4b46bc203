/** How evenly a wrapping round-robin counter spreads its draws (pkg/workqueue/workqueue.go). */
module RoundRobin {

  /** How many of the draws 1..k go to worker `w` of `n`, when the counter wraps at `wrap`. */
  function Share(k: nat, n: nat, w: nat, wrap: nat): nat
    requires n > 0 && wrap > 0
  {
    if k == 0 then 0 else Share(k - 1, n, w, wrap) + if (k % wrap) % n == w then 1 else 0
  }

  /** Every worker gets the quotient, rounded down or up. */
  ghost predicate Fair(k: nat, n: nat, wrap: nat)
    requires n > 0 && wrap > 0
  {
    forall w :: 0 <= w < n ==> k / n <= Share(k, n, w, wrap) <= (k + n - 1) / n
  }

  /** The share in closed form, as long as the wrap does not show. */
  function Quota(k: nat, n: nat, w: nat): nat
    requires n > 0
  {
    k / n + if 1 <= w <= k % n then 1 else 0
  }

  lemma MulAtLeast(d: int, n: int)
    requires n > 0
    ensures d >= 1 ==> d * n >= n
    ensures d <= -1 ==> d * n <= -n
  {
    if d >= 1 { assert (d - 1) * n >= 0; }
    if d <= -1 { assert (-d - 1) * n >= 0; }
  }

  lemma DivUnique(k: int, n: int, q: int, r: int)
    requires n > 0 && k == q * n + r && 0 <= r < n
    ensures k / n == q && k % n == r
  {
    var d := k / n - q;
    assert k == (k / n) * n + k % n;
    assert d * n == (k / n) * n - q * n;
    MulAtLeast(d, n);
  }

  lemma DivStep(k: nat, n: nat)
    requires n > 0 && k > 0
    ensures if k % n == 0 then k / n == (k - 1) / n + 1 && (k - 1) % n == n - 1
            else k / n == (k - 1) / n && k % n == (k - 1) % n + 1
  {
    var q, r := (k - 1) / n, (k - 1) % n;
    assert k - 1 == q * n + r;
    if r == n - 1 {
      assert k == (q + 1) * n;
      DivUnique(k, n, q + 1, 0);
    } else {
      DivUnique(k, n, q, r + 1);
    }
  }

  lemma QuotaStep(k: nat, n: nat, w: nat)
    requires n > 0 && k > 0 && w < n
    ensures Quota(k, n, w) == Quota(k - 1, n, w) + if k % n == w then 1 else 0
  {
    DivStep(k, n);
  }

  /** Before the wrap, or when the wrap is a multiple of the number of workers, shares are quotas. */
  lemma {:induction false} ShareIsQuota(k: nat, n: nat, w: nat, wrap: nat)
    requires n > 0 && w < n && wrap > 0 && (k < wrap || wrap % n == 0)
    ensures Share(k, n, w, wrap) == Quota(k, n, w)
  {
    if k == 0 {
      DivUnique(0, n, 0, 0);
    } else {
      ShareIsQuota(k - 1, n, w, wrap);
      QuotaStep(k, n, w);
      if k < wrap {
        DivUnique(k, wrap, 0, k);
      } else {
        ModMod(k, n, wrap);
      }
    }
  }

  lemma ModMod(k: nat, n: nat, wrap: nat)
    requires n > 0 && wrap > 0 && wrap % n == 0
    ensures (k % wrap) % n == k % n
  {
    var c, q, m := wrap / n, k / wrap, k % wrap;
    assert k == q * wrap + m && wrap == c * n && m == (m / n) * n + m % n;
    assert q * wrap == q * c * n;
    assert k == (q * c + m / n) * n + m % n;
    DivUnique(k, n, q * c + m / n, m % n);
  }

  lemma CeilFloor(k: nat, n: nat)
    requires n > 0
    ensures (k + n - 1) / n == k / n + if k % n == 0 then 0 else 1
  {
    var q, r := k / n, k % n;
    assert k == q * n + r;
    if r == 0 {
      DivUnique(k + n - 1, n, q, n - 1);
    } else {
      assert k + n - 1 == (q + 1) * n + (r - 1);
      DivUnique(k + n - 1, n, q + 1, r - 1);
    }
  }

  lemma QuotasFair(k: nat, n: nat, wrap: nat)
    requires n > 0 && wrap > 0 && (k < wrap || wrap % n == 0)
    ensures Fair(k, n, wrap)
  {
    forall w | 0 <= w < n ensures k / n <= Share(k, n, w, wrap) <= (k + n - 1) / n {
      ShareIsQuota(k, n, w, wrap);
      CeilFloor(k, n);
    }
  }

  lemma ShareStep(k: nat, n: nat, w: nat, wrap: nat)
    requires n > 0 && wrap > 0
    ensures Share(k + 1, n, w, wrap) == Share(k, n, w, wrap) + if ((k + 1) % wrap) % n == w then 1 else 0
  {
  }

  lemma ModShift(k: nat, wrap: nat)
    requires wrap > 0
    ensures (k + wrap) % wrap == k % wrap
  {
    var q, m := k / wrap, k % wrap;
    assert k == q * wrap + m;
    assert k + wrap == (q + 1) * wrap + m;
    DivUnique(k + wrap, wrap, q + 1, m);
  }

  lemma {:induction false} SharePeriodic(k: nat, n: nat, w: nat, wrap: nat)
    requires n > 0 && wrap > 0
    ensures Share(k + wrap, n, w, wrap) == Share(k, n, w, wrap) + Share(wrap, n, w, wrap)
    decreases k
  {
    if k > 0 {
      var j := k - 1;
      SharePeriodic(j, n, w, wrap);
      ModShift(k, wrap);
      ShareStep(j + wrap, n, w, wrap);
      ShareStep(j, n, w, wrap);
    }
  }

  lemma OneCycle(n: nat, w: nat, wrap: nat)
    requires 0 < n && w < n && wrap > 0
    ensures Share(wrap, n, w, wrap) == Quota(wrap - 1, n, w) + if w == 0 then 1 else 0
  {
    ShareIsQuota(wrap - 1, n, w, wrap);
    DivUnique(wrap, wrap, 1, 0);
    DivUnique(0, n, 0, 0);
  }

  /** Otherwise two wraps are enough to set two workers two draws apart. */
  lemma UnfairAfterTwoWraps(n: nat, wrap: nat)
    requires n > 0 && wrap > 0 && wrap % n != 0
    ensures !Fair(wrap + wrap, n, wrap)
  {
    assert n > 1;
    DivStep(wrap, n);
    OneCycle(n, 0, wrap);
    OneCycle(n, n - 1, wrap);
    SharePeriodic(wrap, n, 0, wrap);
    SharePeriodic(wrap, n, n - 1, wrap);
    CeilFloor(wrap + wrap, n);
    assert Share(wrap + wrap, n, 0, wrap) == Share(wrap + wrap, n, n - 1, wrap) + 2;
  }

  /** Round robin stays fair forever exactly when the number of workers divides the wrap of the counter. */
  lemma FairForeverIff(n: nat, wrap: nat)
    requires n > 0 && wrap > 0
    ensures (forall k: nat :: Fair(k, n, wrap)) <==> wrap % n == 0
  {
    if wrap % n == 0 {
      forall k: nat ensures Fair(k, n, wrap) { QuotasFair(k, n, wrap); }
    } else {
      UnfairAfterTwoWraps(n, wrap);
    }
  }
}
