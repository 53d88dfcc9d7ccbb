/**
 * The navigation bar slides out of view while the visitor scrolls down past
 * the first 100 pixels, and comes back on any scroll up.
 */
module Navbar {

  /** The threshold below which the bar always stays, in pixels. */
  const Threshold: real := 100.0

  /** The bar is hidden after a scroll from `lastY` to `currentY`. */
  function Hidden(lastY: real, currentY: real): (down: bool)
    ensures currentY <= lastY ==> !down
    ensures currentY <= Threshold ==> !down
    ensures currentY > lastY && currentY > Threshold ==> down
  {
    currentY > lastY && currentY > Threshold
  }

  /** Everything the scroll handler keeps: the last position seen and the bar's transform. */
  datatype Bar = Bar(lastScrollY: real, hidden: bool)

  /** The handler's whole state after one scroll event at `y`. */
  function AfterScroll(b: Bar, y: real): (next: Bar)
    ensures next.lastScrollY == y
    ensures next.hidden <==> y > b.lastScrollY && y > Threshold
  {
    Bar(y, Hidden(b.lastScrollY, y))
  }

  /** The handler's whole state after scroll events at each of `positions` in turn. */
  function Scrolled(b: Bar, positions: seq<real>): Bar
    decreases |positions|
  {
    if positions == [] then b else Scrolled(AfterScroll(b, positions[0]), positions[1..])
  }

  /**
   * The bar keeps no history: after two or more scroll events its state is fixed
   * by the last two positions alone, whatever state it started in, hidden or not.
   */
  lemma {:induction false} OnlyLastStepCounts(b: Bar, positions: seq<real>)
    requires |positions| >= 2
    ensures Scrolled(b, positions)
         == Bar(positions[|positions| - 1], Hidden(positions[|positions| - 2], positions[|positions| - 1]))
    decreases |positions|
  {
    var next := AfterScroll(b, positions[0]);
    if |positions| > 2 {
      OnlyLastStepCounts(next, positions[1..]);
    } else {
      assert Scrolled(next, positions[1..]) == Scrolled(AfterScroll(next, positions[1]), []);
    }
  }

  class NavbarState {
    /** The scroll position seen by the previous scroll event. */
    var lastScrollY: real
    /** `transform: translateY(-100%)` rather than `translateY(0)`. */
    var hidden: bool

    /** The handler's state as a value. */
    function State(): Bar
      reads this
    {
      Bar(lastScrollY, hidden)
    }

    /** The bar as loaded: shown, remembering the scroll position of the page. */
    constructor (scrollY: real)
      ensures lastScrollY == scrollY && !hidden
    {
      lastScrollY, hidden := scrollY, false;
    }

    /** A scroll event at position `y`: one step of `Scrolled`. */
    method OnScroll(y: real)
      modifies this
      ensures State() == AfterScroll(old(State()), y)
      ensures hidden == Hidden(old(lastScrollY), y)
      ensures lastScrollY == y
    {
      if y > lastScrollY && y > Threshold {
        hidden := true;
      } else {
        hidden := false;
      }
      lastScrollY := y;
    }
  }
}
