/**
 * The hero ("main screen") scroll effect. A wheel event whose direction
 * differs from the last one handled switches the hero between its normal look
 * and its zoomed look: downwards the background boxes show the four featured
 * projects and the decoration zooms away, upwards every box gets back what it
 * showed when the page loaded.
 */
module Hero {
  import opened Common
  import opened ProjectPaths

  // ---------------------------------------------------------------------------
  // Wheel direction: an edge trigger over lastDirection ∈ {unset, up, down}
  // ---------------------------------------------------------------------------

  datatype Direction = Up | Down

  /** `isOnMainScreen`: the hero element exists and its inline display is 'flex' or unset. */
  predicate IsOnMainScreen(present: bool, display: string)
  {
    present && (display == "flex" || display == "")
  }

  /** A wheel delta is "down" exactly when it is positive; zero counts as "up". */
  function DirectionOf(deltaY: real): (d: Direction)
    ensures d == Down <==> deltaY > 0.0
  {
    if deltaY > 0.0 then Down else Up
  }

  /** The direction a zoom call stands for: zooming in is scrolling down. */
  function ZoomDirection(zoomIn: bool): Direction
  {
    if zoomIn then Down else Up
  }

  /** The `applyScrollZoom` call a wheel event makes, if any: Some(zoomIn). */
  function Trigger(last: Option<Direction>, onMain: bool, deltaY: real): (zoom: Option<bool>)
    ensures zoom.Some? <==> onMain && last != Some(DirectionOf(deltaY))
    ensures zoom.Some? ==> ZoomDirection(zoom.value) == DirectionOf(deltaY)
  {
    if onMain && last != Some(DirectionOf(deltaY)) then Some(deltaY > 0.0) else None
  }

  /** `lastDirection` after a wheel event: the event's direction, unless the hero is not shown. */
  function AfterWheel(last: Option<Direction>, onMain: bool, deltaY: real): (next: Option<Direction>)
    ensures !onMain ==> next == last
    ensures onMain ==> next == Some(DirectionOf(deltaY))
  {
    if Trigger(last, onMain, deltaY).Some? then Some(DirectionOf(deltaY)) else last
  }

  /** One wheel event, with whether the hero was shown when it arrived. */
  datatype WheelEvent = WheelEvent(onMain: bool, deltaY: real)

  /** `lastDirection` after a sequence of wheel events. */
  function FinalDirection(last: Option<Direction>, events: seq<WheelEvent>): Option<Direction>
    decreases |events|
  {
    if events == [] then last
    else FinalDirection(AfterWheel(last, events[0].onMain, events[0].deltaY), events[1..])
  }

  /** The arguments of the `applyScrollZoom` calls a sequence of wheel events makes, in order. */
  function Zooms(last: Option<Direction>, events: seq<WheelEvent>): seq<bool>
    decreases |events|
  {
    if events == [] then []
    else
      var e := events[0];
      var now := match Trigger(last, e.onMain, e.deltaY) case Some(z) => [z] case None => [];
      now + Zooms(AfterWheel(last, e.onMain, e.deltaY), events[1..])
  }

  /** Wheeling on in one direction zooms at most once, and not at all if that was already the last direction. */
  lemma {:induction false} SameDirectionZoomsAtMostOnce(last: Option<Direction>, events: seq<WheelEvent>, d: Direction)
    requires forall i :: 0 <= i < |events| ==> DirectionOf(events[i].deltaY) == d
    ensures |Zooms(last, events)| <= 1
    ensures last == Some(d) ==> Zooms(last, events) == []
    decreases |events|
  {
    if events != [] {
      var e := events[0];
      SameDirectionZoomsAtMostOnce(AfterWheel(last, e.onMain, e.deltaY), events[1..], d);
    }
  }

  /** Zooms take turns: each goes the other way from the direction handled before it. */
  ghost predicate Alternating(last: Option<Direction>, zooms: seq<bool>)
    decreases |zooms|
  {
    zooms == [] ||
    (Some(ZoomDirection(zooms[0])) != last && Alternating(Some(ZoomDirection(zooms[0])), zooms[1..]))
  }

  /** In an alternating run, neighbouring zooms go opposite ways. */
  lemma {:induction false} AlternatingNeighbours(last: Option<Direction>, zooms: seq<bool>)
    requires Alternating(last, zooms)
    ensures forall i :: 0 < i < |zooms| ==> zooms[i] != zooms[i - 1]
    decreases |zooms|
  {
    if zooms != [] {
      var rest := zooms[1..];
      AlternatingNeighbours(Some(ZoomDirection(zooms[0])), rest);
      forall i | 0 < i < |zooms| ensures zooms[i] != zooms[i - 1] {
        if i == 1 {
          assert Some(ZoomDirection(rest[0])) != Some(ZoomDirection(zooms[0]));
        } else {
          assert zooms[i] == rest[i - 1] && zooms[i - 1] == rest[i - 2];
        }
      }
    }
  }

  /**
   * Every sequence of wheel events zooms in and out strictly in turn, starting
   * away from the last direction handled, and `lastDirection` always names the
   * direction of the last zoom made (or is unchanged when none was made).
   */
  lemma {:induction false} ZoomsAlternate(last: Option<Direction>, events: seq<WheelEvent>)
    ensures Alternating(last, Zooms(last, events))
    ensures var z := Zooms(last, events);
      FinalDirection(last, events) == if z == [] then last else Some(ZoomDirection(z[|z| - 1]))
    decreases |events|
  {
    if events != [] {
      var e := events[0];
      var next := AfterWheel(last, e.onMain, e.deltaY);
      var rest := Zooms(next, events[1..]);
      ZoomsAlternate(next, events[1..]);
      match Trigger(last, e.onMain, e.deltaY)
      case None =>
        assert Zooms(last, events) == rest;
      case Some(b) =>
        var z := [b] + rest;
        assert Zooms(last, events) == z;
        assert z[1..] == rest;
        assert ZoomDirection(b) == DirectionOf(e.deltaY);
    }
  }

  // ---------------------------------------------------------------------------
  // Background boxes: load-time snapshot and the project catalogue
  // ---------------------------------------------------------------------------

  /**
   * One `.background-box`: whether it has an `<img>` and an overlay caption
   * span, what they show, and its `data-project` slug ("" when absent: every
   * reader of the attribute treats a missing and an empty one alike).
   */
  datatype Box = Box(hasImg: bool, imgSrc: string, hasOverlay: bool, overlayText: string, dataProject: string)

  /** What a box showed when the page loaded (`originalImageData`). */
  datatype Snapshot = Snapshot(imgSrc: string, overlayText: string, dataProject: string)

  /** An entry of the featured-project catalogue (`scrollProjects`). */
  datatype Project = Project(img: string, name: string, dataProject: string)

  /** The featured projects, in box order. */
  const Catalogue: seq<Project> := [
    Project("assets/thumbnails/thehollowchild.png", "The Hollow Child", "the-hollow-child"),
    Project("assets/thumbnails/thedisconnect.png", "The Disconnect", "the-disconnect"),
    Project("assets/thumbnails/thehungerofmollyfinch.png", "The Hunger of Molly Finch", "the-hunger-of-molly-finch"),
    Project("assets/thumbnails/sessionpieces.png", "Session Pieces", "session-pieces")
  ]

  /** The snapshot of one box: a missing image or caption is recorded as "". */
  function SnapshotOf(b: Box): Snapshot
  {
    Snapshot(if b.hasImg then b.imgSrc else "", if b.hasOverlay then b.overlayText else "", b.dataProject)
  }

  /** The snapshot of every box, in order. */
  function Snapshots(boxes: seq<Box>): (snap: seq<Snapshot>)
    ensures |snap| == |boxes|
  {
    seq(|boxes|, i requires 0 <= i < |boxes| => SnapshotOf(boxes[i]))
  }

  /**
   * What `changeBackgroundImages(useProjects)` does to the box at `index`: a
   * box without an image is left alone; otherwise it takes the catalogue entry
   * at its position when zooming in, and its snapshot in every other case.
   */
  function SwapBox(b: Box, index: nat, useProjects: bool, snap: seq<Snapshot>): (r: Box)
    ensures r.hasImg == b.hasImg && r.hasOverlay == b.hasOverlay
    ensures !b.hasImg ==> r == b
    ensures !b.hasOverlay ==> r.overlayText == b.overlayText
    ensures b.hasImg && useProjects && index < |Catalogue| ==>
      r.imgSrc == Catalogue[index].img && r.dataProject == Catalogue[index].dataProject &&
      (b.hasOverlay ==> r.overlayText == Catalogue[index].name)
    ensures b.hasImg && !(useProjects && index < |Catalogue|) && index < |snap| ==>
      r.imgSrc == snap[index].imgSrc && r.dataProject == snap[index].dataProject &&
      (b.hasOverlay ==> r.overlayText == snap[index].overlayText)
    ensures !(useProjects && index < |Catalogue|) && index >= |snap| ==> r == b
  {
    if !b.hasImg then b
    else if useProjects && index < |Catalogue| then
      var p := Catalogue[index];
      b.(imgSrc := p.img, overlayText := if b.hasOverlay then p.name else b.overlayText, dataProject := p.dataProject)
    else if index < |snap| then
      var s := snap[index];
      b.(imgSrc := s.imgSrc, overlayText := if b.hasOverlay then s.overlayText else b.overlayText, dataProject := s.dataProject)
    else b
  }

  /** `changeBackgroundImages(useProjects)` over the whole list of boxes. */
  function Swapped(boxes: seq<Box>, useProjects: bool, snap: seq<Snapshot>): (r: seq<Box>)
    ensures |r| == |boxes|
    ensures forall i :: 0 <= i < |boxes| ==> r[i] == SwapBox(boxes[i], i, useProjects, snap)
  {
    seq(|boxes|, i requires 0 <= i < |boxes| => SwapBox(boxes[i], i, useProjects, snap))
  }

  /** Restoring the load-time snapshot onto the boxes it was taken from changes nothing. */
  lemma RestoreIsIdentity(original: seq<Box>)
    ensures Swapped(original, false, Snapshots(original)) == original
  {
    var r := Swapped(original, false, Snapshots(original));
    forall i | 0 <= i < |original| ensures r[i] == original[i] {
      var b := original[i];
      assert Snapshots(original)[i] == SnapshotOf(b);
    }
  }

  /** Only the last swap counts: every box with an image is rewritten in full each time. */
  lemma LastSwapWins(boxes: seq<Box>, first: bool, second: bool, snap: seq<Snapshot>)
    requires |snap| == |boxes|
    ensures Swapped(Swapped(boxes, first, snap), second, snap) == Swapped(boxes, second, snap)
  {
    var once := Swapped(boxes, first, snap);
    var twice := Swapped(once, second, snap);
    var direct := Swapped(boxes, second, snap);
    forall i | 0 <= i < |boxes| ensures twice[i] == direct[i] {
      assert once[i] == SwapBox(boxes[i], i, first, snap);
    }
  }

  /** Zooming in and then out gives every box back exactly what it showed at load time. */
  lemma ZoomRoundTrip(original: seq<Box>)
    ensures var snap := Snapshots(original);
      Swapped(Swapped(original, true, snap), false, snap) == original
  {
    LastSwapWins(original, true, false, Snapshots(original));
    RestoreIsIdentity(original);
  }

  /** The boxes as the hero shows them: zoomed (featured projects) or not (as loaded). */
  function Shown(original: seq<Box>, zoomed: bool): seq<Box>
  {
    if zoomed then Swapped(original, true, Snapshots(original)) else original
  }

  /** Whatever the boxes show, a swap brings them to the look the swap's direction stands for. */
  lemma SwapShown(original: seq<Box>, zoomed: bool, useProjects: bool)
    ensures Swapped(Shown(original, zoomed), useProjects, Snapshots(original)) == Shown(original, useProjects)
  {
    var snap := Snapshots(original);
    if zoomed {
      LastSwapWins(original, true, useProjects, snap);
    }
    if !useProjects {
      RestoreIsIdentity(original);
    }
  }

  // ---------------------------------------------------------------------------
  // The hero's decoration
  // ---------------------------------------------------------------------------

  /**
   * The classes and inline styles `applyScrollZoom` sets on the decoration:
   * the name's "scroll-scale"/"inactive", the scroll indicator's "inactive",
   * the featured-work title and subtitle's "visible", the side subtitles'
   * "inactive", the stars' zoom and fade, and the boxes' "active-hover".
   */
  datatype Decor = Decor(
    nameScaled: bool, indicatorInactive: bool, featuredTextVisible: bool, featuredSubtitleVisible: bool,
    subtitlesInactive: bool, starsHidden: bool, boxesHover: bool)

  /** The decoration after `applyScrollZoom(zoomIn)`: every effect on when zooming in, off otherwise. */
  function DecorFor(zoomIn: bool): Decor
  {
    Decor(zoomIn, zoomIn, zoomIn, zoomIn, zoomIn, zoomIn, zoomIn)
  }

  // ---------------------------------------------------------------------------
  // The hero's state
  // ---------------------------------------------------------------------------

  /** Reads every box once, in order, into the load-time snapshot (`originalImageData`). */
  method TakeSnapshot(boxes: array<Box>) returns (snap: seq<Snapshot>)
    ensures snap == Snapshots(boxes[..])
  {
    snap := [];
    var i := 0;
    while i < boxes.Length
      invariant 0 <= i <= boxes.Length
      invariant |snap| == i
      invariant forall j :: 0 <= j < i ==> snap[j] == SnapshotOf(boxes[j])
    {
      var box := boxes[i];
      var imgSrc := if box.hasImg then box.imgSrc else "";
      var overlayText := if box.hasOverlay then box.overlayText else "";
      snap := snap + [Snapshot(imgSrc, overlayText, box.dataProject)];
      i := i + 1;
    }
  }

  class HeroScreen {
    const mainScreenPresent: bool
    const boxes: array<Box>
    const snapshot: seq<Snapshot>
    ghost const original: seq<Box>
    var lastDirection: Option<Direction>
    var decor: Decor
    var scrollLocked: bool

    /**
     * The boxes and the decoration are in exactly one of two looks, the one
     * `lastDirection` names: zoomed after a downward wheel, as loaded otherwise.
     */
    ghost predicate Valid()
      reads this, boxes
    {
      && |original| == boxes.Length
      && snapshot == Snapshots(original)
      && boxes[..] == Shown(original, lastDirection == Some(Down))
      && decor == DecorFor(lastDirection == Some(Down))
    }

    /** Page load: the boxes as the markup has them, and their snapshot. */
    constructor (present: bool, initial: array<Box>)
      ensures mainScreenPresent == present && boxes == initial && original == old(initial[..])
      ensures lastDirection == None && !scrollLocked
      ensures Valid()
    {
      var snap := TakeSnapshot(initial);
      mainScreenPresent := present;
      boxes := initial;
      snapshot := snap;
      original := initial[..];
      lastDirection := None;
      decor := DecorFor(false);
      scrollLocked := false;
    }

    /** `changeBackgroundImages`: rewrites every box with an image, one box at a time. */
    method ChangeBackgroundImages(useProjects: bool)
      modifies boxes
      ensures boxes[..] == Swapped(old(boxes[..]), useProjects, snapshot)
    {
      for i := 0 to boxes.Length
        invariant forall j :: 0 <= j < i ==> boxes[j] == SwapBox(old(boxes[j]), j, useProjects, snapshot)
        invariant forall j :: i <= j < boxes.Length ==> boxes[j] == old(boxes[j])
      {
        var box := boxes[i];
        if box.hasImg {
          if useProjects && i < |Catalogue| {
            var project := Catalogue[i];
            box := box.(imgSrc := project.img);
            if box.hasOverlay {
              box := box.(overlayText := project.name);
            }
            box := box.(dataProject := project.dataProject);
          } else if i < |snapshot| {
            var saved := snapshot[i];
            box := box.(imgSrc := saved.imgSrc);
            if box.hasOverlay {
              box := box.(overlayText := saved.overlayText);
            }
            box := box.(dataProject := saved.dataProject);
          }
          boxes[i] := box;
        }
      }
    }

    /** `applyScrollZoom(zoomIn)`: the boxes and the decoration take the look `zoomIn` names. */
    method ApplyScrollZoom(zoomIn: bool)
      requires Valid()
      modifies this, boxes
      ensures boxes[..] == Shown(original, zoomIn) && decor == DecorFor(zoomIn)
      ensures lastDirection == old(lastDirection) && scrollLocked == old(scrollLocked)
    {
      if zoomIn {
        ChangeBackgroundImages(true);
        decor := DecorFor(true);
      } else {
        decor := DecorFor(false);
        ChangeBackgroundImages(false);
      }
      SwapShown(original, lastDirection == Some(Down), zoomIn);
    }

    /** The wheel handler: zooms only on a change of direction, and only while the hero is shown. */
    method Wheel(deltaY: real, display: string)
      requires Valid()
      modifies this, boxes
      ensures Valid()
      ensures lastDirection == AfterWheel(old(lastDirection), IsOnMainScreen(mainScreenPresent, display), deltaY)
      ensures Trigger(old(lastDirection), IsOnMainScreen(mainScreenPresent, display), deltaY).None? ==>
        unchanged(this) && unchanged(boxes)
      ensures scrollLocked == old(scrollLocked)
    {
      if !IsOnMainScreen(mainScreenPresent, display) {
        return;
      }
      var scrollDown := deltaY > 0.0;
      var newDirection := if scrollDown then Down else Up;
      if Some(newDirection) != lastDirection {
        ApplyScrollZoom(scrollDown);
        lastDirection := Some(newDirection);
      }
    }

    /**
     * A click on box `i`: with a slug, locks scrolling and leads to that
     * project's page; the slug is the featured project's while zoomed in and
     * the box's own otherwise.
     */
    method BoxClick(i: nat, currentPath: string) returns (target: Option<string>)
      requires Valid() && i < boxes.Length
      modifies this`scrollLocked
      ensures Valid()
      ensures target == ProjectPage(currentPath, boxes[i].dataProject)
      ensures scrollLocked == (old(scrollLocked) || target.Some?)
      ensures lastDirection == Some(Down) && original[i].hasImg && i < |Catalogue| ==>
        target == ProjectPage(currentPath, Catalogue[i].dataProject)
      ensures lastDirection != Some(Down) ==> target == ProjectPage(currentPath, original[i].dataProject)
    {
      var slug := boxes[i].dataProject;
      target := None;
      if slug != "" {
        scrollLocked := true;
        target := ProjectPage(currentPath, slug);
      }
    }
  }
}
