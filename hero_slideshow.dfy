/**
 * The landing page's hero slideshow: three slides, previous/next buttons and
 * an interval that advances every 5000 ms. The interval firing is an
 * explicit step.
 */
module HeroSlideshow {
  import ViewProduct

  const SlideCount := 3
  const IntervalMs := 5000

  datatype Slide = Slide(title: string, subtitle: string)

  const HeroSlides: seq<Slide> := [
    Slide("Flash Sales", "Up to 50% off on selected items"),
    Slide("New Arrivals", "Check out the latest products"),
    Slide("Free Shipping", "On orders over 50")
  ]

  function NextSlide(i: int): (r: int)
    ensures 0 <= r < SlideCount
  {
    (i + 1) % |HeroSlides|
  }

  function PrevSlide(i: int): (r: int)
    ensures 0 <= r < SlideCount
  {
    (i - 1 + |HeroSlides|) % |HeroSlides|
  }

  /** The interval's callback. */
  function Tick(i: int): (r: int) {
    (i + 1) % |HeroSlides|
  }

  /** A tick moves exactly as the "next" button does. */
  lemma TickIsNext(i: int)
    ensures Tick(i) == NextSlide(i)
  {
  }

  /** The two buttons undo each other. */
  lemma PrevNextInverse(i: int)
    requires 0 <= i < SlideCount
    ensures PrevSlide(NextSlide(i)) == i && NextSlide(PrevSlide(i)) == i
  {
  }

  /** The buttons step like the product gallery's arrows over three images. */
  lemma AgreesWithGallery(i: nat)
    requires i < SlideCount
    ensures NextSlide(i) == ViewProduct.NextImage(i, SlideCount)
    ensures PrevSlide(i) == ViewProduct.PrevImage(i, SlideCount)
  {
  }

  /** Slide `index` is drawn opaque iff it is the current one. */
  predicate Visible(index: int, currentSlide: int) {
    index == currentSlide
  }

  /** From any reachable index, exactly one slide is visible. */
  lemma ExactlyOneVisible(currentSlide: int)
    requires 0 <= currentSlide < SlideCount
    ensures Visible(currentSlide, currentSlide)
    ensures forall k :: 0 <= k < |HeroSlides| && Visible(k, currentSlide) ==> k == currentSlide
  {
  }
}
