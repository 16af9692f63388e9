/** The scroll-driven history timeline
    (`app/components/historyTimeline/historyTimeline.tsx`). While the sticky
    container is pinned, the scroll handler records how far the reader has
    scrolled through it; the render derives from that progress which event
    is shown, which comes next, how far the transition between them has
    gone, and how each dot of the track is drawn. Progress is kept as an
    exact fraction of two integers (pixels scrolled over scrollable
    pixels). */
module HistoryTimeline {
  import opened Seqs

  /** The fraction `num / den`. */
  datatype Ratio = Ratio(num: int, den: int)

  /** A fraction in [0, 1]. */
  predicate InUnit(p: Ratio)
  {
    p.den > 0 && 0 <= p.num <= p.den
  }

  /** `p <= q` for fractions with positive denominators. */
  predicate AtMost(p: Ratio, q: Ratio)
    requires p.den > 0 && q.den > 0
  {
    p.num * q.den <= q.num * p.den
  }

  // ---------------------------------------------------------------------
  // handleScroll

  /** The sticky block is pinned: the container's top edge has reached the
      top of the window and its bottom edge is still below the window. */
  predicate Pinned(top: int, height: int, windowHeight: int)
  {
    top <= 0 && top + height > windowHeight
  }

  /** `Math.min(1, Math.max(0, p))`. */
  function Clamp(p: Ratio): (r: Ratio)
    requires p.den > 0
    ensures InUnit(r)
    ensures InUnit(p) ==> r == p
  {
    if p.num < 0 then Ratio(0, 1)
    else if p.num > p.den then Ratio(1, 1)
    else p
  }

  /** The progress written by the handler: `|top|` pixels scrolled out of
      `offsetHeight - windowHeight`, clamped to [0, 1]. The container's
      `offsetHeight` is its rectangle's `height`. */
  function ScrollProgress(top: int, height: int, windowHeight: int): (r: Ratio)
    requires Pinned(top, height, windowHeight)
    ensures InUnit(r)
    ensures r.num * (height - windowHeight) == -top * r.den
  {
    var scrolled := -top;
    var scrollable := height - windowHeight;
    Clamp(Ratio(scrolled, scrollable))
  }

  /** While pinned the fraction is already below 1, so the clamp never
      changes it and the handler never reports the end of the container. */
  lemma ScrollProgressBelowOne(top: int, height: int, windowHeight: int)
    requires Pinned(top, height, windowHeight)
    ensures ScrollProgress(top, height, windowHeight) == Ratio(-top, height - windowHeight)
    ensures ScrollProgress(top, height, windowHeight).num < ScrollProgress(top, height, windowHeight).den
  {
  }

  /** The component's `scrollProgress` state and the number of events. */
  class Timeline {
    var eventCount: nat
    var scrollProgress: Ratio

    constructor (events: nat)
      ensures eventCount == events && scrollProgress == Ratio(0, 1)
    {
      eventCount := events;
      scrollProgress := Ratio(0, 1);
    }

    /** `handleScroll`: nothing happens for an empty timeline or while the
        container is not pinned; otherwise the progress is recomputed. */
    method HandleScroll(top: int, height: int, windowHeight: int)
      modifies this
      ensures eventCount == old(eventCount)
      ensures old(eventCount) == 0 || !Pinned(top, height, windowHeight) ==>
                scrollProgress == old(scrollProgress)
      ensures old(eventCount) > 0 && Pinned(top, height, windowHeight) ==>
                scrollProgress == ScrollProgress(top, height, windowHeight)
      ensures old(InUnit(scrollProgress)) ==> InUnit(scrollProgress)
    {
      if eventCount == 0 {
        return;
      }
      if Pinned(top, height, windowHeight) {
        scrollProgress := ScrollProgress(top, height, windowHeight);
      }
    }
  }

  // ---------------------------------------------------------------------
  // Derived indices

  /** `activeIndex = Math.min(Math.floor(progress * n), n - 1)`. */
  function ActiveIndex(p: Ratio, n: nat): (a: int)
    requires InUnit(p) && n >= 1
    ensures 0 <= a <= n - 1
  {
    var f := (p.num * n) / p.den;
    if f < n - 1 then f else n - 1
  }

  /** No progress shows the first event and full progress the last. */
  lemma ActiveIndexEnds(p: Ratio, n: nat)
    requires InUnit(p) && n >= 1
    ensures p.num == 0 ==> ActiveIndex(p, n) == 0
    ensures p.num == p.den ==> ActiveIndex(p, n) == n - 1
  {
    if p.num == p.den {
      assert p.num * n == p.den * n;
      DivMulCancel(p.den, n);
    }
  }

  /** `nextIndex = Math.min(activeIndex + 1, n - 1)`. */
  function NextIndex(p: Ratio, n: nat): (r: int)
    requires InUnit(p) && n >= 1
    ensures ActiveIndex(p, n) <= r <= n - 1
    ensures r == ActiveIndex(p, n) <==> ActiveIndex(p, n) == n - 1
    ensures r != ActiveIndex(p, n) ==> r == ActiveIndex(p, n) + 1
  {
    var a := ActiveIndex(p, n);
    if a + 1 < n - 1 then a + 1 else n - 1
  }

  /** `interpolation = progress * n - activeIndex`, a fraction over the
      same denominator as the progress. */
  function Interpolation(p: Ratio, n: nat): (r: Ratio)
    requires InUnit(p) && n >= 1
    ensures r.den == p.den
    ensures InUnit(r)
    ensures r.num == r.den <==> p.num == p.den
  {
    var a := ActiveIndex(p, n);
    InterpolationRange(p, n);
    Ratio(p.num * n - a * p.den, p.den)
  }

  /** `progress * n` lies between `activeIndex` and `activeIndex + 1`, and
      reaches the upper end only at full progress. */
  lemma InterpolationRange(p: Ratio, n: nat)
    requires InUnit(p) && n >= 1
    ensures var x := p.num * n;
            var a := ActiveIndex(p, n);
            && 0 <= x - a * p.den <= p.den
            && (x - a * p.den == p.den <==> p.num == p.den)
  {
    var d := p.den;
    var x := p.num * n;
    var f := x / d;
    var a := ActiveIndex(p, n);
    DivBounds(x, d);
    MulLe(n, p.num, p.den);
    assert x <= n * d;
    if f < n - 1 {
      assert a * d == d * f;
      if p.num == p.den {
        assert x == d * n;
        DivMulCancel(d, n);
      }
    } else {
      MulLe(d, n - 1, f);
      assert a * d == d * (n - 1) == n * d - d;
      if p.num < p.den {
        MulLess(n, p.num, p.den);
      }
    }
  }

  lemma MulLe(k: int, a: int, b: int)
    requires k >= 0 && a <= b
    ensures k * a <= k * b
  {
    assert k * b - k * a == k * (b - a);
  }

  lemma MulLess(k: int, a: int, b: int)
    requires k > 0 && a < b
    ensures k * a < k * b
  {
    assert k * b - k * a == k * (b - a);
  }

  lemma MulLeCancel(k: int, a: int, b: int)
    requires k > 0 && k * a <= k * b
    ensures a <= b
  {
    if a > b {
      MulLess(k, b, a);
    }
  }

  lemma MulLessCancel(k: int, a: int, b: int)
    requires k > 0 && k * a < k * b
    ensures a < b
  {
    if a >= b {
      MulLe(k, b, a);
    }
  }

  lemma DivBounds(x: int, d: int)
    requires d > 0
    ensures d * (x / d) <= x < d * (x / d) + d
  {
  }

  lemma DivMulCancel(d: int, k: int)
    requires d > 0
    ensures (d * k) / d == k
  {
    var q := (d * k) / d;
    DivBounds(d * k, d);
    assert d * (k + 1) == d * k + d;
    assert d * (q + 1) == d * q + d;
    MulLessCancel(d, q, k + 1);
    MulLessCancel(d, k, q + 1);
  }

  /** More progress never moves the active event back. */
  lemma ActiveIndexMonotone(p: Ratio, q: Ratio, n: nat)
    requires InUnit(p) && InUnit(q) && n >= 1
    requires AtMost(p, q)
    ensures ActiveIndex(p, n) <= ActiveIndex(q, n)
  {
    var fp := (p.num * n) / p.den;
    var fq := (q.num * n) / q.den;
    DivBounds(p.num * n, p.den);
    DivBounds(q.num * n, q.den);
    ScaleChain(p.num, p.den, q.num, q.den, n, fp);
    assert q.den * (fq + 1) == q.den * fq + q.den;
    MulLessCancel(q.den, fp, fq + 1);
  }

  /** From `b * f <= a * n` and `a / b <= c / d` follows `d * f <= c * n`. */
  lemma ScaleChain(a: int, b: int, c: int, d: int, n: int, f: int)
    requires b > 0 && d > 0 && n >= 0
    requires b * f <= a * n && a * d <= c * b
    ensures d * f <= c * n
  {
    MulLe(d, b * f, a * n);
    MulLe(n, a * d, c * b);
    assert d * (b * f) == b * (d * f);
    assert d * (a * n) == n * (a * d);
    assert n * (c * b) == b * (c * n);
    MulLeCancel(b, d * f, c * n);
  }

  // ---------------------------------------------------------------------
  // Dots

  /** `Math.abs(progress * n - i) < 0.5`, cleared of fractions. */
  predicate IsActiveDot(p: Ratio, n: nat, i: int)
  {
    var d := 2 * p.num * n - 2 * i * p.den;
    -p.den < d < p.den
  }

  /** `progress * n > i + 0.5`, cleared of fractions. */
  predicate IsPassedDot(p: Ratio, n: nat, i: int)
  {
    2 * p.num * n > (2 * i + 1) * p.den
  }

  /** At most one dot is active, and an active dot is not also passed. */
  lemma DotsExclusive(p: Ratio, n: nat, i: int, j: int)
    requires InUnit(p)
    requires IsActiveDot(p, n, i) && IsActiveDot(p, n, j)
    ensures i == j
    ensures !IsPassedDot(p, n, i)
  {
    var d := p.den;
    assert 2 * j * d - 2 * i * d == d * (2 * (j - i));
    assert d * 2 == 2 * d && d * -2 == -2 * d;
    MulLessCancel(d, 2 * (j - i), 2);
    MulLessCancel(d, -2, 2 * (j - i));
    assert (2 * i + 1) * d == 2 * i * d + d;
  }

  /** The dots before the first active one are all passed. */
  lemma PassedBeforeActive(p: Ratio, n: nat, i: int, j: int)
    requires InUnit(p)
    requires IsActiveDot(p, n, j) && i < j
    ensures IsPassedDot(p, n, i)
  {
    MulLe(2 * p.den, i + 1, j);
    assert (2 * i + 1) * p.den == 2 * p.den * (i + 1) - p.den;
    assert 2 * j * p.den == 2 * p.den * j;
  }

  // ---------------------------------------------------------------------
  // Layout and the event shown

  /** `Math.max(timeline.length * 120, 500)` viewport heights. */
  function ContainerHeightVh(n: nat): (h: nat)
    ensures h >= 500 && h >= 120 * n
    ensures h == 500 || h == 120 * n
  {
    if n * 120 > 500 then n * 120 else 500
  }

  /** `timeline[activeIndex] || timeline[0]`: absent only for an empty
      timeline; the first event at the start, the last one at the end. */
  function ActiveEvent<T>(timeline: seq<T>, p: Ratio): (r: Option<T>)
    requires InUnit(p)
    ensures r.None? <==> timeline == []
    ensures r.Some? ==> r.value in timeline
    ensures timeline != [] ==> r == Some(timeline[ActiveIndex(p, |timeline|)])
    ensures timeline != [] && p.num == 0 ==> r == Some(timeline[0])
    ensures timeline != [] && p.num == p.den ==> r == Some(timeline[|timeline| - 1])
  {
    if timeline == [] then None
    else
      ActiveIndexEnds(p, |timeline|);
      Some(timeline[ActiveIndex(p, |timeline|)])
  }
}
