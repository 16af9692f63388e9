/** The index arithmetic the page carousels share. Two idioms occur: the
    room carousel and the room gallery compare against the ends
    (`prev === n - 1 ? 0 : prev + 1`), the blog and testimonial carousels
    take a remainder (`(prev + 1) % n`). Both are modelled as written, on
    every integer, and shown to agree on the indices in range. */
module Cyclic {

  /** `prev === n - 1 ? 0 : prev + 1`. */
  function WrapNext(i: int, n: int): (r: int)
    ensures 0 <= i < n ==> 0 <= r < n && r == (i + 1) % n
  {
    if i == n - 1 then 0 else i + 1
  }

  /** `prev === 0 ? n - 1 : prev - 1`. */
  function WrapPrev(i: int, n: int): (r: int)
    ensures 0 <= i < n ==> 0 <= r < n && r == (i - 1 + n) % n
  {
    if i == 0 then n - 1 else i - 1
  }

  /** Back undoes forward and forward undoes back on an index in range. */
  lemma WrapInverse(i: int, n: int)
    requires 0 <= i < n
    ensures WrapPrev(WrapNext(i, n), n) == i
    ensures WrapNext(WrapPrev(i, n), n) == i
  {
  }

  /** With nothing to show the index leaves the range: forward never meets
      `n - 1` and climbs to 1; back meets 0 and goes to `n - 1 = -1`. */
  lemma WrapEmpty()
    ensures WrapNext(0, 0) == 1 && WrapPrev(0, 0) == -1
  {
  }

  /** `k` presses of the forward button. */
  function Forward(i: int, n: int, k: nat): int
  {
    if k == 0 then i else WrapNext(Forward(i, n, k - 1), n)
  }

  /** Forward `k` times is moving `k` places round the circle; after `n`
      presses the carousel is back where it started. */
  lemma {:induction false} ForwardCycle(i: int, n: int, k: nat)
    requires 0 <= i < n
    ensures Forward(i, n, k) == (i + k) % n
    ensures k == n ==> Forward(i, n, k) == i
  {
    if k > 0 {
      ForwardCycle(i, n, k - 1);
      var j := Forward(i, n, k - 1);
      assert j == (i + k - 1) % n && 0 <= j < n;
      assert Forward(i, n, k) == (j + 1) % n;
      ModSucc(i + k - 1, n);
    } else {
      ModUnique(i, 0, i, n);
    }
    if k == n {
      ModUnique(i + k, 1, i, n);
    }
  }

  lemma ModSucc(a: int, n: int)
    requires n > 0
    ensures (a % n + 1) % n == (a + 1) % n
  {
    var q := a / n;
    assert a == q * n + a % n;
    assert a + 1 == q * n + (a % n + 1);
    ModShift(a % n + 1, q, n);
  }

  lemma ModShift(b: int, q: int, n: int)
    requires n > 0
    ensures (q * n + b) % n == b % n
  {
    var r := b % n;
    assert b == (b / n) * n + r;
    assert q * n + b == (q + b / n) * n + r;
    ModUnique(q * n + b, q + b / n, r, n);
  }

  lemma ModUnique(a: int, q: int, r: int, n: int)
    requires n > 0 && 0 <= r < n && a == q * n + r
    ensures a % n == r
  {
    var q2 := a / n;
    var r2 := a % n;
    assert a == q2 * n + r2;
    assert (q - q2) * n == r2 - r;
    if q > q2 {
      MulAtLeast(q - q2, n);
    } else if q < q2 {
      MulAtLeast(q2 - q, n);
    }
  }

  lemma MulAtLeast(k: int, n: int)
    requires k >= 1 && n > 0
    ensures k * n >= n
  {
    assert k * n == (k - 1) * n + n;
  }

  /** JavaScript's `%` on a positive divisor: the remainder takes the sign
      of the dividend. */
  function JsRem(a: int, n: int): (r: int)
    requires n > 0
    ensures a >= 0 ==> r == a % n
    ensures -n < r < n
    ensures a < 0 ==> r <= 0
  {
    if a >= 0 then a % n else -((-a) % n)
  }

  /** `(prev + 1) % n`. */
  function ModNext(i: int, n: int): (r: int)
    requires n > 0
    ensures 0 <= i < n ==> 0 <= r < n && r == WrapNext(i, n)
  {
    JsRem(i + 1, n)
  }

  /** `(prev - 1 + n) % n`. */
  function ModPrev(i: int, n: int): (r: int)
    requires n > 0
    ensures 0 <= i < n ==> 0 <= r < n && r == WrapPrev(i, n)
  {
    JsRem(i - 1 + n, n)
  }

  /** On an index in range the remainder idiom's back and forward undo
      each other too. */
  lemma ModInverse(i: int, n: int)
    requires 0 <= i < n
    ensures ModPrev(ModNext(i, n), n) == i
    ensures ModNext(ModPrev(i, n), n) == i
  {
    WrapInverse(i, n);
  }

  /** The remainder idiom also walks back in range from any index above
      the range, where the comparison idiom keeps climbing. */
  lemma ModNextAboveRange(i: int, n: int)
    requires n > 0 && i >= n
    ensures 0 <= ModNext(i, n) < n
    ensures WrapNext(i, n) == i + 1
  {
  }
}
