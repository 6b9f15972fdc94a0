/** Index arithmetic of the descriptor rings: the macros of xp_netdev.h. */
module Ring {

  /** Remainder by repeated subtraction; equal to `x % n` (WrapIsMod). */
  function Wrap(x: nat, n: nat): (r: nat)
    requires n > 0
    ensures r < n
  {
    if x < n then x else Wrap(x - n, n)
  }

  /** xpnet_add_and_wrap. */
  function AddAndWrap(idx: nat, incr: nat, limit: nat): (r: nat)
    requires limit > 0
    ensures r == Wrap(idx + incr, limit)
  {
    WrapIsMod(idx + limit + incr, limit);
    assert Wrap(idx + limit + incr, limit) == Wrap(idx + incr, limit);
    (idx + limit + incr) % limit
  }

  /** xpnet_get_busy_desc: descriptors strictly between head and tail. */
  function BusyDesc(n: nat, head: nat, tail: nat): (r: nat)
    requires head < n && tail < n
    ensures r == if head < tail then tail - head - 1 else n + tail - head - 1
  {
    WrapIsMod(n + tail - (head + 1), n);
    assert n + tail - (head + 1) < 2 * n;
    (n + tail - (head + 1)) % n
  }

  /** Steps forward around the ring from one index to another. */
  function Distance(n: nat, from: nat, to: nat): nat
    requires from < n && to < n
  {
    if from <= to then to - from else to + n - from
  }

  /** xpnet_get_free_desc: the slots from the tail on, up to the one at the head, which stays reserved. */
  function FreeDesc(n: nat, head: nat, tail: nat): (r: nat)
    requires head < n && tail < n
    ensures r == Distance(n, tail, head)
  {
    n - 1 - BusyDesc(n, head, tail)
  }

  lemma MultipleBound(e: int, n: int)
    requires n >= 0
    ensures e >= 1 ==> e * n >= n
    ensures e <= -1 ==> e * n <= -n
  {
  }

  lemma ModUnique(x: nat, q: nat, r: nat, n: nat)
    requires r < n && x == q * n + r
    ensures x % n == r && x / n == q
  {
    var e := x / n - q;
    assert e * n == r - x % n by { assert x / n * n == q * n + e * n; }
    MultipleBound(e, n);
  }

  lemma {:induction false} WrapIsMod(x: nat, n: nat)
    requires n > 0
    ensures Wrap(x, n) == x % n
  {
    if x < n {
      ModUnique(x, 0, x, n);
    } else {
      WrapIsMod(x - n, n);
      var q, r := (x - n) / n, (x - n) % n;
      assert x == (q + 1) * n + r;
      ModUnique(x, q + 1, r, n);
    }
  }

  /** Stepping from a wrapped index is wrapping the step. */
  lemma {:induction false} WrapAdd(x: nat, k: nat, n: nat)
    requires n > 0
    ensures Wrap(Wrap(x, n) + k, n) == Wrap(x + k, n)
  {
    if x >= n {
      WrapAdd(x - n, k, n);
    }
  }

  /** Two numbers less than a lap apart share a slot only if they are equal. */
  lemma {:induction false} WrapInjective(a: nat, b: nat, n: nat)
    requires n > 0 && a < b + n && b < a + n && Wrap(a, n) == Wrap(b, n)
    ensures a == b
    decreases a + b
  {
    if a >= n && b >= n {
      WrapInjective(a - n, b - n, n);
    }
  }

  /** Different numbers of one lap live in different slots. */
  lemma Apart(n: nat, lo: nat, x: nat, a: nat)
    requires n > 0 && lo <= x < lo + n && lo <= a < lo + n && a != x
    ensures Wrap(a, n) != Wrap(x, n)
  {
    if Wrap(a, n) == Wrap(x, n) {
      WrapInjective(a, x, n);
    }
  }

  lemma {:induction false} DistanceOfStep(n: nat, x: nat, d: nat)
    requires d < n
    ensures Distance(n, Wrap(x, n), Wrap(x + d, n)) == d
  {
    if x >= n {
      DistanceOfStep(n, x - n, d);
    }
  }

  /**
   With `reclaimed` descriptors taken back and `published` handed out since the queue was
   set up, head and tail are their remainders, and the macros recover the difference.
   */
  lemma {:induction false} BusyCount(n: nat, reclaimed: nat, published: nat)
    requires n > 0 && reclaimed <= published < reclaimed + n
    ensures BusyDesc(n, Wrap(reclaimed + n - 1, n), Wrap(published, n)) == published - reclaimed
  {
    if reclaimed >= n {
      BusyCount(n, reclaimed - n, published - n);
    } else if reclaimed > 0 {
      assert Wrap(reclaimed + n - 1, n) == reclaimed - 1;
    }
  }

  /** A step of the head takes one descriptor out of the busy ones, unless none is left. */
  lemma BusyStep(n: nat, head: nat, tail: nat)
    requires head < n && tail < n && n >= 2
    ensures var next := AddAndWrap(head, 1, n);
            && (BusyDesc(n, head, tail) > 0 <==> next != tail)
            && (next != tail ==> BusyDesc(n, next, tail) == BusyDesc(n, head, tail) - 1)
  {
    hide AddAndWrap, BusyDesc;
    assert Wrap(head + 1, n) == if head + 1 < n then head + 1 else 0;
  }
}
