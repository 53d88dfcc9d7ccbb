/**
 * The image carousel: an integer index over the slides, the "active" class on
 * each slide, and the two arrows, each hidden exactly at its end of the range.
 */
module Carousel {

  /** `Math.max(0, Math.min(index, count - 1))`: the nearest index of a slide. */
  function Clamp(index: int, count: nat): (r: int)
    ensures count >= 1 ==> 0 <= r < count
    ensures 0 <= index < count ==> r == index
    ensures count >= 1 && index >= count ==> r == count - 1
    ensures index < 0 || count == 0 ==> r == 0
  {
    var upper := if index < count - 1 then index else count - 1;
    if upper > 0 then upper else 0
  }

  /** The "active" class of `count` slides when the slide at `index` is the current one. */
  function ActiveMarks(count: nat, index: int): (marks: seq<bool>)
    ensures |marks| == count
  {
    seq(count, j requires 0 <= j < count => j == index)
  }

  /** How many slides carry the "active" class. */
  function CountActive(marks: seq<bool>): nat
    decreases |marks|
  {
    if marks == [] then 0 else (if marks[0] then 1 else 0) + CountActive(marks[1..])
  }

  /** No marked slide, no count. */
  lemma {:induction false} NoneActive(marks: seq<bool>)
    requires forall j :: 0 <= j < |marks| ==> !marks[j]
    ensures CountActive(marks) == 0
    decreases |marks|
  {
    if marks != [] {
      NoneActive(marks[1..]);
    }
  }

  /** With the current index in range, exactly one slide is active. */
  lemma {:induction false} ExactlyOneActive(count: nat, index: int)
    requires 0 <= index < count
    ensures CountActive(ActiveMarks(count, index)) == 1
    ensures forall j :: 0 <= j < count ==> (ActiveMarks(count, index)[j] <==> j == index)
    decreases count
  {
    var marks := ActiveMarks(count, index);
    if index == 0 {
      NoneActive(marks[1..]);
    } else {
      ExactlyOneActive(count - 1, index - 1);
      assert marks[1..] == ActiveMarks(count - 1, index - 1);
    }
  }

  class CarouselView {
    const hasTrack: bool
    const hasLeftArrow: bool
    const hasRightArrow: bool
    const dotCount: nat
    /** The "active" class of each `.carousel-slide`, in document order. */
    const slides: array<bool>
    var currentIndex: int
    /** `display: none` on the left and right arrows. */
    var leftHidden: bool
    var rightHidden: bool

    /**
     * The carousel invariant, once the carousel has been drawn: the index is a
     * slide, exactly that slide is active, and each arrow is hidden exactly at
     * its end. Without a track or without slides nothing is ever drawn.
     */
    ghost predicate Settled()
      reads this, slides
    {
      hasTrack && slides.Length >= 1 ==>
        && 0 <= currentIndex < slides.Length
        && slides[..] == ActiveMarks(slides.Length, currentIndex)
        && (hasLeftArrow ==> (leftHidden <==> currentIndex == 0))
        && (hasRightArrow ==> (rightHidden <==> currentIndex == slides.Length - 1))
    }

    /** The page as the markup has it, before the first drawing; the index starts at 0. */
    constructor (track: bool, leftArrow: bool, rightArrow: bool, dots: nat, slideClasses: array<bool>,
                 leftDisplayNone: bool, rightDisplayNone: bool)
      ensures hasTrack == track && hasLeftArrow == leftArrow && hasRightArrow == rightArrow
      ensures dotCount == dots && slides == slideClasses && currentIndex == 0
      ensures leftHidden == leftDisplayNone && rightHidden == rightDisplayNone
    {
      hasTrack, hasLeftArrow, hasRightArrow := track, leftArrow, rightArrow;
      dotCount, slides := dots, slideClasses;
      currentIndex := 0;
      leftHidden, rightHidden := leftDisplayNone, rightDisplayNone;
    }

    /** `updateCarousel`: clamps the index, marks its slide, and sets the arrows. */
    method UpdateCarousel()
      modifies this, slides
      ensures Settled()
      ensures !(hasTrack && slides.Length >= 1) ==> unchanged(this) && unchanged(slides)
      ensures hasTrack && slides.Length >= 1 ==> currentIndex == Clamp(old(currentIndex), slides.Length)
      ensures !hasLeftArrow ==> leftHidden == old(leftHidden)
      ensures !hasRightArrow ==> rightHidden == old(rightHidden)
    {
      if !hasTrack || slides.Length == 0 {
        return;
      }
      currentIndex := Clamp(currentIndex, slides.Length);
      for i := 0 to slides.Length
        modifies slides
        invariant forall j :: 0 <= j < i ==> (slides[j] <==> j == currentIndex)
      {
        slides[i] := i == currentIndex;
      }
      assert slides[..] == ActiveMarks(slides.Length, currentIndex);
      if hasLeftArrow {
        leftHidden := currentIndex == 0;
      }
      if hasRightArrow {
        rightHidden := currentIndex == slides.Length - 1;
      }
    }

    /**
     * The left arrow: one slide back, and nothing at all on the first slide.
     * Before the first drawing the index is clamped as it moves.
     */
    method LeftArrowClick()
      modifies this, slides
      ensures !(hasTrack && slides.Length >= 1) ==>
        slides[..] == old(slides[..]) && leftHidden == old(leftHidden) && rightHidden == old(rightHidden)
      ensures old(Settled()) ==> Settled()
      ensures hasLeftArrow && old(currentIndex) > 0 ==>
        && Settled()
        && currentIndex == if hasTrack && slides.Length >= 1 then Clamp(old(currentIndex) - 1, slides.Length) else old(currentIndex) - 1
      ensures old(Settled()) && hasLeftArrow && old(currentIndex) > 0 ==> currentIndex == old(currentIndex) - 1
      ensures !hasLeftArrow || old(currentIndex) <= 0 ==> unchanged(this) && unchanged(slides)
    {
      if hasLeftArrow && currentIndex > 0 {
        currentIndex := currentIndex - 1;
        UpdateCarousel();
      }
    }

    /**
     * The right arrow: one slide on, and nothing at all on the last slide.
     * Before the first drawing the index is clamped as it moves.
     */
    method RightArrowClick()
      modifies this, slides
      ensures !(hasTrack && slides.Length >= 1) ==>
        slides[..] == old(slides[..]) && leftHidden == old(leftHidden) && rightHidden == old(rightHidden)
      ensures old(Settled()) ==> Settled()
      ensures hasRightArrow && old(currentIndex) < slides.Length - 1 ==>
        && Settled()
        && currentIndex == if hasTrack && slides.Length >= 1 then Clamp(old(currentIndex) + 1, slides.Length) else old(currentIndex) + 1
      ensures old(Settled()) && hasRightArrow && old(currentIndex) < slides.Length - 1 ==> currentIndex == old(currentIndex) + 1
      ensures !hasRightArrow || old(currentIndex) >= slides.Length - 1 ==> unchanged(this) && unchanged(slides)
    {
      if hasRightArrow && currentIndex < slides.Length - 1 {
        currentIndex := currentIndex + 1;
        UpdateCarousel();
      }
    }

    /** Dot `i`: jumps to slide `i`, or to the last slide when there are fewer slides than dots. */
    method DotClick(i: nat)
      requires i < dotCount
      modifies this, slides
      ensures !(hasTrack && slides.Length >= 1) ==>
        slides[..] == old(slides[..]) && leftHidden == old(leftHidden) && rightHidden == old(rightHidden)
      ensures Settled()
      ensures hasTrack && slides.Length >= 1 ==> currentIndex == if i < slides.Length then i else slides.Length - 1
      ensures !(hasTrack && slides.Length >= 1) ==> currentIndex == i
    {
      currentIndex := i;
      UpdateCarousel();
    }

    /** The page's load event and the (debounced) resize event both redraw; a drawn carousel keeps its slide. */
    method Redraw()
      modifies this, slides
      ensures !(hasTrack && slides.Length >= 1) ==>
        slides[..] == old(slides[..]) && leftHidden == old(leftHidden) && rightHidden == old(rightHidden)
      ensures Settled()
      ensures hasTrack && slides.Length >= 1 ==> currentIndex == Clamp(old(currentIndex), slides.Length)
      ensures old(Settled()) ==> currentIndex == old(currentIndex) && slides[..] == old(slides[..])
    {
      UpdateCarousel();
    }
  }
}
