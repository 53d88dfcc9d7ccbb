/**
 * The hamburger menu: one shared open flag, two toggle buttons (one per page
 * layout), a full-screen overlay, and the body's scroll lock.
 */
module Menu {

  /** Which of the menu's elements the current page has. */
  datatype Elements = Elements(hasMenuToggle: bool, hasHomeToggle: bool, hasOverlay: bool)

  /**
   * What the page shows: the "active" class on each toggle and on the overlay,
   * and whether `document.body.style.overflow` is 'hidden'. An element the page
   * lacks never carries the class.
   */
  datatype View = View(menuToggleActive: bool, homeToggleActive: bool, overlayActive: bool, scrollLocked: bool)

  /** The user actions the script listens for. */
  datatype Event =
    | ToggleClick(home: bool)         // a click on #homeMenuToggle (home) or #menuToggle (not home)
    | OverlayClick(onBackdrop: bool)  // a click inside #menuOverlay; onBackdrop: the overlay itself is the target
    | KeyDown(key: string)            // a key press anywhere in the document

  /** The view `openMenu` (open) or `closeMenu` (not open) leaves behind, whatever came before. */
  function ViewOf(open: bool, e: Elements): (v: View)
    ensures v.scrollLocked == open
    ensures v.overlayActive == (open && e.hasOverlay)
    ensures v.menuToggleActive == (open && e.hasMenuToggle)
    ensures v.homeToggleActive == (open && e.hasHomeToggle)
  {
    View(open && e.hasMenuToggle, open && e.hasHomeToggle, open && e.hasOverlay, open)
  }

  /** Whether the script registered a handler for `ev` on a page with the elements `e`. */
  predicate Wired(e: Elements, ev: Event)
  {
    match ev
    case ToggleClick(home) => (if home then e.hasHomeToggle else e.hasMenuToggle) && e.hasOverlay
    case OverlayClick(_) => e.hasOverlay
    case KeyDown(_) => e.hasOverlay
  }

  /** The open flag after the script has handled `ev`. */
  function Step(open: bool, e: Elements, ev: Event): (next: bool)
    ensures !Wired(e, ev) ==> next == open
    ensures Wired(e, ev) && ev.ToggleClick? ==> next == !open
    ensures Wired(e, ev) && ev == OverlayClick(true) ==> !next
    ensures ev == OverlayClick(false) ==> next == open
    ensures Wired(e, ev) && ev == KeyDown("Escape") ==> !next
    ensures ev.KeyDown? && ev.key != "Escape" ==> next == open
  {
    if !Wired(e, ev) then open
    else
      match ev
      case ToggleClick(_) => !open
      case OverlayClick(onBackdrop) => if onBackdrop then false else open
      case KeyDown(key) => if key == "Escape" && open then false else open
  }

  /** The open flag after a whole sequence of events. */
  function Run(open: bool, e: Elements, events: seq<Event>): bool
    decreases |events|
  {
    if events == [] then open else Run(Step(open, e, events[0]), e, events[1..])
  }

  /** Any sequence of clicks on wired toggle buttons leaves the menu open iff it started open xor the number of clicks is odd. */
  lemma {:induction false} TogglesFlip(open: bool, e: Elements, events: seq<Event>)
    requires forall i :: 0 <= i < |events| ==> events[i].ToggleClick? && Wired(e, events[i])
    ensures Run(open, e, events) == (open != (|events| % 2 == 1))
    decreases |events|
  {
    if events != [] {
      TogglesFlip(!open, e, events[1..]);
    }
  }

  /** Once the menu is closed, no sequence of backdrop clicks and key presses opens it. */
  lemma {:induction false} ClosedStaysClosed(e: Elements, events: seq<Event>)
    requires forall i :: 0 <= i < |events| ==> !events[i].ToggleClick?
    ensures !Run(false, e, events)
    decreases |events|
  {
    if events != [] {
      ClosedStaysClosed(e, events[1..]);
    }
  }

  /** The menu's state: the open flag (`isMenuOpen`) and what the page shows. */
  class MenuController {
    const elements: Elements
    var isMenuOpen: bool
    var view: View

    /** The overlay, the toggles and the scroll lock agree with the flag. */
    ghost predicate Consistent()
      reads this
    {
      view == ViewOf(isMenuOpen, elements)
    }

    /** An element the page lacks cannot carry a class. */
    ghost predicate Valid()
      reads this
    {
      && (!elements.hasMenuToggle ==> !view.menuToggleActive)
      && (!elements.hasHomeToggle ==> !view.homeToggleActive)
      && (!elements.hasOverlay ==> !view.overlayActive)
    }

    /** A freshly loaded page: menu closed, nothing active, scrolling allowed. */
    constructor (e: Elements)
      ensures elements == e && !isMenuOpen && Valid() && Consistent()
    {
      elements := e;
      isMenuOpen := false;
      view := ViewOf(false, e);
    }

    /** `openMenu`: marks every present element active and locks scrolling, from any state. */
    method OpenMenu()
      requires Valid()
      modifies this
      ensures Valid() && isMenuOpen && Consistent()
    {
      if elements.hasMenuToggle { view := view.(menuToggleActive := true); }
      if elements.hasHomeToggle { view := view.(homeToggleActive := true); }
      if elements.hasOverlay { view := view.(overlayActive := true); }
      view := view.(scrollLocked := true);
      isMenuOpen := true;
    }

    /** `closeMenu`: clears every "active" marker and unlocks scrolling, from any state. */
    method CloseMenu()
      requires Valid()
      modifies this
      ensures Valid() && !isMenuOpen && Consistent()
    {
      if elements.hasMenuToggle { view := view.(menuToggleActive := false); }
      if elements.hasHomeToggle { view := view.(homeToggleActive := false); }
      if elements.hasOverlay { view := view.(overlayActive := false); }
      view := view.(scrollLocked := false);
      isMenuOpen := false;
    }

    /** A click on one of the two toggle buttons. */
    method ToggleClick(home: bool)
      requires Valid() && Consistent()
      modifies this
      ensures Valid() && Consistent()
      ensures isMenuOpen == Step(old(isMenuOpen), elements, Event.ToggleClick(home))
    {
      if Wired(elements, Event.ToggleClick(home)) {
        isMenuOpen := !isMenuOpen;
        if isMenuOpen {
          OpenMenu();
        } else {
          CloseMenu();
        }
      }
    }

    /** A click inside the overlay: only a click on the backdrop itself closes the menu. */
    method OverlayClick(onBackdrop: bool)
      requires Valid() && Consistent()
      modifies this
      ensures Valid() && Consistent()
      ensures isMenuOpen == Step(old(isMenuOpen), elements, Event.OverlayClick(onBackdrop))
    {
      if elements.hasOverlay && onBackdrop {
        CloseMenu();
      }
    }

    /** A key press: Escape closes the menu, and only an open menu is touched at all. */
    method KeyDown(key: string)
      requires Valid() && Consistent()
      modifies this
      ensures Valid() && Consistent()
      ensures isMenuOpen == Step(old(isMenuOpen), elements, Event.KeyDown(key))
      ensures !old(isMenuOpen) ==> unchanged(this)
    {
      if elements.hasOverlay && key == "Escape" && isMenuOpen {
        CloseMenu();
      }
    }
  }
}
