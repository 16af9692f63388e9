/** The rooms carousel of the home page
    (`app/components/roomCarousel/roomCarousel.tsx`): five fixed slides, a
    strip shifted by whole slide widths, arrows that wrap at the ends and
    one indicator per slide. */
module RoomCarousel {
  import opened Cyclic

  datatype Slide = Slide(id: nat, title: string)

  const Slides: seq<Slide> := [
    Slide(1, "Habitación Grand Premier"),
    Slide(2, "Suite Premier de una habitación"),
    Slide(3, "Suite Ejecutiva Four Seasons"),
    Slide(4, "Suite del Penthouse"),
    Slide(5, "Habitación Deluxe")
  ]

  /** `translateX(-${currentIndex * 100}%)`: the strip's shift, as a
      percentage of one slide's width. */
  function ShiftPercent(index: int): int
  {
    -(index * 100)
  }

  /** Each slide in range has its own shift, a whole number of widths to
      the left, so exactly slide `index` is in view. */
  lemma ShiftShowsOneSlide(i: int, j: int)
    requires 0 <= i < |Slides| && 0 <= j < |Slides|
    ensures ShiftPercent(i) == ShiftPercent(j) <==> i == j
    ensures -400 <= ShiftPercent(i) <= 0 && ShiftPercent(i) % 100 == 0
  {
  }

  class Carousel {
    var currentIndex: int

    constructor ()
      ensures currentIndex == 0
    {
      currentIndex := 0;
    }

    predicate InRange()
      reads this
    {
      0 <= currentIndex < |Slides|
    }

    /** The indicator of slide `index` is highlighted. */
    predicate IsActive(index: int)
      reads this
    {
      index == currentIndex
    }

    /** `nextSlide`: `prevIndex === slides.length - 1 ? 0 : prevIndex + 1`. */
    method NextSlide()
      modifies this
      ensures currentIndex == WrapNext(old(currentIndex), |Slides|)
      ensures old(InRange()) ==> InRange()
      ensures old(currentIndex) == |Slides| - 1 ==> currentIndex == 0
    {
      currentIndex := if currentIndex == |Slides| - 1 then 0 else currentIndex + 1;
    }

    /** `prevSlide`: `prevIndex === 0 ? slides.length - 1 : prevIndex - 1`. */
    method PrevSlide()
      modifies this
      ensures currentIndex == WrapPrev(old(currentIndex), |Slides|)
      ensures old(InRange()) ==> InRange()
      ensures old(currentIndex) == 0 ==> currentIndex == |Slides| - 1
    {
      currentIndex := if currentIndex == 0 then |Slides| - 1 else currentIndex - 1;
    }

    /** An indicator was clicked: it becomes the only active one. */
    method GoTo(index: nat)
      requires index < |Slides|
      modifies this
      ensures currentIndex == index && InRange()
      ensures forall j :: IsActive(j) <==> j == index
    {
      currentIndex := index;
    }
  }
}
