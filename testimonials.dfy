/** The testimonials section (`app/components/testimonials/testimonials.tsx`):
    a carousel over the featured testimonials and the five-star rating
    display. */
module Testimonials {
  import opened Seqs
  import opened Data
  import opened Cyclic

  // ---------------------------------------------------------------------
  // renderStars

  /** `Array.from({ length: 5 }, (_, i) => i < rating)`: star `i` is filled
      when `i < rating`. A missing rating (`undefined`) fills none, since
      every comparison with it is false. */
  function RenderStars(rating: Option<int>): (stars: seq<bool>)
    ensures |stars| == 5
    ensures forall i :: 0 <= i < 5 ==> (stars[i] <==> rating.Some? && i < rating.value)
  {
    seq(5, i requires 0 <= i < 5 => rating.Some? && i < rating.value)
  }

  /** The number of filled stars. */
  function Filled(stars: seq<bool>): nat
  {
    if stars == [] then 0 else (if stars[0] then 1 else 0) + Filled(stars[1..])
  }

  /** The rating clamped to the five stars. */
  function Clamped(rating: Option<int>): (k: nat)
    ensures k <= 5
  {
    if rating.None? || rating.value < 0 then 0
    else if rating.value > 5 then 5
    else rating.value
  }

  /** The stars show the rating clamped to 0..5: the filled stars come
      first and there are exactly that many. */
  lemma StarsShowRating(rating: Option<int>)
    ensures Filled(RenderStars(rating)) == Clamped(rating)
    ensures forall i, j :: 0 <= i < j < 5 && RenderStars(rating)[j] ==> RenderStars(rating)[i]
  {
    FilledPrefix(RenderStars(rating), Clamped(rating));
  }

  /** A row whose first `k` entries are filled and the rest empty has `k`
      filled entries. */
  lemma {:induction false} FilledPrefix(stars: seq<bool>, k: nat)
    requires k <= |stars|
    requires forall i :: 0 <= i < |stars| ==> (stars[i] <==> i < k)
    ensures Filled(stars) == k
  {
    if stars != [] {
      FilledPrefix(stars[1..], if k > 0 then k - 1 else 0);
    }
  }

  // ---------------------------------------------------------------------
  // The featured carousel

  class TestimonialCarousel {
    var testimonials: seq<Testimonial>
    var currentSlide: int

    constructor (loaded: seq<Testimonial>)
      ensures testimonials == loaded && currentSlide == 0
    {
      testimonials := loaded;
      currentSlide := 0;
    }

    /** `featuredTestimonials`. */
    function Featured(): seq<Testimonial>
      reads this
    {
      FeaturedTestimonials(testimonials)
    }

    predicate SlideInRange()
      reads this
    {
      0 <= currentSlide < |Featured()|
    }

    /** `featuredTestimonials[currentSlide]?`: the testimonial on show, if
        the index points at one. */
    function Current(): (r: Option<Testimonial>)
      reads this
      ensures r.Some? <==> SlideInRange()
      ensures r.Some? ==> r.value in testimonials && r.value.featured
    {
      if SlideInRange() then Some(Featured()[currentSlide]) else None
    }

    /** The stars under the testimonial on show. */
    function CurrentStars(): (stars: seq<bool>)
      reads this
      ensures Current().None? ==> forall i :: 0 <= i < |stars| ==> !stars[i]
    {
      RenderStars(if Current().Some? then Some(Current().value.rating) else None)
    }

    /** `nextSlide`: `(prev + 1) % featuredTestimonials.length`. */
    method NextSlide()
      requires |Featured()| > 0
      modifies this
      ensures testimonials == old(testimonials)
      ensures currentSlide == ModNext(old(currentSlide), |Featured()|)
      ensures old(SlideInRange()) ==> SlideInRange() && currentSlide == WrapNext(old(currentSlide), |Featured()|)
    {
      currentSlide := JsRem(currentSlide + 1, |Featured()|);
    }

    /** `prevSlide`: `(prev - 1 + length) % length`. */
    method PrevSlide()
      requires |Featured()| > 0
      modifies this
      ensures testimonials == old(testimonials)
      ensures currentSlide == ModPrev(old(currentSlide), |Featured()|)
      ensures old(SlideInRange()) ==> SlideInRange() && currentSlide == WrapPrev(old(currentSlide), |Featured()|)
    {
      currentSlide := JsRem(currentSlide - 1 + |Featured()|, |Featured()|);
    }

    /** A dot was clicked. */
    method GoToSlide(index: nat)
      requires index < |Featured()|
      modifies this
      ensures currentSlide == index && testimonials == old(testimonials)
      ensures SlideInRange()
    {
      currentSlide := index;
    }
  }
}
