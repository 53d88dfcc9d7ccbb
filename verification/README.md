# Portfolio site script: a verified model

This project models the browser-side behaviour of a multi-page portfolio
site's single script. It covers these parts:

- The hamburger menu: one shared open flag, two toggle buttons, an overlay and a scroll lock.
- The hero ("main screen") wheel effect. A change of wheel direction zooms the decoration and
  swaps the background boxes between the four featured projects and what they showed at load
  time.
- The carousel: a clamped index, one active slide, and arrows hidden at each end.
- The contact form's validation gate and its button states.
- How a project page path is built from a tile's slug and the current page.
- The back button's choice between a listing page, the home page and the browser history.
- The navigation bar's hide-on-scroll rule.
- The current-page indicator in the menu.

Each part is one module in one file:

- `common.dfy`: `Option` and the two ways the script navigates.
- `text.dfy`: the string operations `includes`, `trim` and `split('/').pop()`.
- `menu.dfy`, `hero.dfy`, `carousel.dfy`, `contact_form.dfy`, `project_paths.dfy`,
  `back_navigation.dfy`, `navbar.dfy`, `page_indicator.dfy`.

Pure decisions are functions, and lemmas state their properties. State that the script
updates is modelled as classes, and their methods are proved against those functions:

- the menu flag;
- the hero's boxes, direction and decoration;
- the carousel index and slide classes;
- the form's button and timers;
- the navbar's last scroll position.

Events from the browser become method calls. A click, a wheel or scroll event, a settled
fetch and a timer firing are each a method, and each is called with the values it reads from
the page. Those values are the wheel delta, the inline `display` style, the location path, the
referrer and its parsed path, the field values, and the links' `href` attributes.

Behaviour worth knowing:

- A wheel delta of exactly 0 counts as "up" (`Hero.DirectionOf`).
- A missing `data-project` attribute and an empty one behave alike, and both are modelled as "".
  The load-time snapshot records a missing one as '' and the click handler tests truthiness.
- Once the menu is closed, nothing but a toggle click opens it (`Menu.ClosedStaysClosed`).
- Zooms strictly alternate in direction (`Hero.ZoomsAlternate`).
- Zooming in and back out restores every box exactly (`Hero.ZoomRoundTrip`).
- Only a form with no blank field and an '@' in its email field is posted, and it is posted
  once until its message has been shown (`ContactForm.SentIff`, `ContactForm.Form.Submit`).

## Model

| member | source | states |
|---|---|---|
| Text.IncludesIff | js/script.js:533 | the left-to-right scan used for `includes` answers yes exactly when the needle occurs at some position |
| Text.IncludesChar | js/script.js:475 | `includes('@')` holds exactly when '@' is one of the string's characters |
| Text.Trim | js/script.js:454 | `trim()` gives the slice of its input left after removing the leading and trailing white space: everything outside the slice is white space, and the slice neither starts nor ends with white space |
| Text.TrimEmptyIffBlank | js/script.js:454 | `!field.value.trim()` holds exactly for the values made only of white space, the empty value included |
| Text.LastSegment | js/script.js:630 | `split('/').pop()` is a suffix of the path with no slash, preceded by a slash unless it is the whole path |
| Text.LastSegmentAfterSlash | js/script.js:630 | whatever comes before the last slash, the piece after it is what `pop()` returns |
| Menu.ViewOf | js/script.js:52-66 | after `openMenu`/`closeMenu` exactly the present elements are active iff the menu is open, and scrolling is locked iff it is open |
| Menu.Step | js/script.js:11-50 | a wired toggle click flips the flag; a backdrop click and Escape close the menu; a click inside the panel or another key changes nothing; an unwired event changes nothing |
| Menu.TogglesFlip | js/script.js:11-34 | after n wired toggle clicks the menu is open iff it started open xor n is odd |
| Menu.ClosedStaysClosed | js/script.js:36-50 | from a closed menu, no sequence of overlay clicks and key presses opens it |
| Menu.MenuController.constructor | js/script.js:8 | the page starts with the menu closed, nothing active and scrolling allowed |
| Menu.MenuController.OpenMenu | js/script.js:52-58 | from any state, every present element becomes active, scrolling is locked and the flag is set |
| Menu.MenuController.CloseMenu | js/script.js:60-66 | from any state, every element loses "active", scrolling is unlocked and the flag is cleared |
| Menu.MenuController.ToggleClick | js/script.js:11-34 | a toggle click moves the flag as `Step` says and keeps the view in agreement with the flag |
| Menu.MenuController.OverlayClick | js/script.js:37-43 | only a click on the backdrop itself closes the menu; the view keeps agreeing with the flag |
| Menu.MenuController.KeyDown | js/script.js:45-49 | Escape closes an open menu; a closed menu is left entirely untouched by any key |
| Hero.DirectionOf | js/script.js:258-259 | a wheel event is "down" exactly when its delta is positive |
| Hero.Trigger | js/script.js:255-265 | a wheel event zooms iff the hero is shown and its direction differs from the last one handled, and the zoom goes in the event's direction |
| Hero.AfterWheel | js/script.js:255-265 | off the hero the last direction is kept; on it, it becomes the event's direction |
| Hero.SameDirectionZoomsAtMostOnce | js/script.js:255-265 | a run of wheel events in one direction zooms at most once, and not at all if that direction was the last one handled |
| Hero.AlternatingNeighbours | js/script.js:261-264 | in an alternating run of zooms, consecutive zooms go opposite ways |
| Hero.ZoomsAlternate | js/script.js:255-265 | any wheel sequence zooms strictly in turn, starting away from the last direction, and the last direction afterwards is that of the last zoom made |
| Hero.TakeSnapshot | js/script.js:119-129 | the load-time snapshot records each box's image source, caption and slug in order, with "" for a missing image or caption |
| Hero.SwapBox | js/script.js:131-168 | a box without an image is untouched; otherwise it takes the catalogue entry at its position when zooming in, and its snapshot otherwise; a missing caption is never written |
| Hero.RestoreIsIdentity | js/script.js:152-160 | restoring the snapshot onto the boxes it was taken from changes nothing |
| Hero.LastSwapWins | js/script.js:131-168 | two swaps in a row leave the boxes as the second swap alone would |
| Hero.ZoomRoundTrip | js/script.js:170-248 | zooming in and then out gives every box back exactly what it showed at load time |
| Hero.SwapShown | js/script.js:170-248 | from either look, a swap brings the boxes to the look its argument names |
| Hero.HeroScreen.constructor | js/script.js:102-129 | page load: no direction handled, scrolling unlocked, snapshot taken, boxes as loaded |
| Hero.HeroScreen.ChangeBackgroundImages | js/script.js:131-168 | the in-place pass over the boxes gives each one exactly its `SwapBox` value |
| Hero.HeroScreen.ApplyScrollZoom | js/script.js:170-248 | the boxes and all the decoration take the zoomed look when zooming in and the loaded look otherwise, from either look |
| Hero.HeroScreen.Wheel | js/script.js:250-265 | the wheel handler updates the direction as `AfterWheel` says, changes nothing when it does not zoom, and keeps boxes and decoration in the look of the last direction |
| Hero.HeroScreen.BoxClick | js/script.js:296-314 | a click on a box with a slug locks scrolling and leads to that slug's project page; while zoomed in the slug is the featured project's, otherwise the box's own |
| Carousel.Clamp | js/script.js:340 | the clamped index is a slide index, equal to the old one when in range, the last slide above the range and 0 below it |
| Carousel.ExactlyOneActive | js/script.js:342-345 | with the index in range exactly one slide, the one at the index, carries "active" |
| Carousel.CarouselView.constructor | js/script.js:335 | the carousel starts at index 0 with the markup's classes and arrow styles |
| Carousel.CarouselView.UpdateCarousel | js/script.js:337-353 | with a track and slides: the index is clamped, only its slide is active, each present arrow is hidden exactly at its end; otherwise nothing changes |
| Carousel.CarouselView.LeftArrowClick | js/script.js:381-388 | one slide back, or nothing at all on the first slide; a drawn carousel stays drawn, before the first drawing the index is clamped as it moves, and without a track or slides the slide classes and arrows stay as they were |
| Carousel.CarouselView.RightArrowClick | js/script.js:390-397 | one slide on, or nothing at all on the last slide; a drawn carousel stays drawn, before the first drawing the index is clamped as it moves, and without a track or slides the slide classes and arrows stay as they were |
| Carousel.CarouselView.DotClick | js/script.js:400-405 | dot i shows slide i, or the last slide when there are fewer slides than dots; without a track or slides the slide classes and arrows stay as they were |
| Carousel.CarouselView.Redraw | js/script.js:407-419 | the load and resize redraws settle the carousel, and an already settled carousel keeps its slide; without a track or slides the slide classes and arrows stay as they were |
| ProjectPaths.ProjectFolder | js/script.js:304-309 | the interactive-media folder exactly when the current path includes "interactive-design.html", the sound-design folder otherwise |
| ProjectPaths.ProjectPage | js/script.js:299-311 | a tile leads somewhere exactly when its slug is non-empty |
| ProjectPaths.ProjectPageRoundTrip | js/script.js:311 | the built path reads back as the chosen folder and the tile's own slug |
| ProjectPaths.ParsedIsProjectPage | js/script.js:437 | every path that reads back as a project page is `projects/<folder>/<slug>.html` for one of the two folders and a non-empty slug |
| ContactForm.Validate | js/script.js:449-486 | the form is incomplete iff some field trims to empty, and has a bad email iff it is complete, has an email input and that value lacks '@' |
| ContactForm.SentIff | js/script.js:449-486 | a form passes iff no field is blank and the email field, if any, contains '@' |
| ContactForm.BlankFieldBlocks | js/script.js:453-471 | one blank field makes the form incomplete, whatever the email says |
| ContactForm.Form.constructor | js/script.js:442-444 | the form starts with an enabled "SUBMIT" button and nothing sent |
| ContactForm.Form.CheckAllFilled | js/script.js:449-457 | the `allValid` pass is true exactly when no field trims to empty |
| ContactForm.Form.Submit | js/script.js:446-490 | a disabled button does nothing; a failed check shows its message in red, shakes and starts a 2 s timer without sending; a passing form shows "SENDING...", is disabled and issues exactly one request |
| ContactForm.Form.ClearFields | js/script.js:505 | every field is emptied |
| ContactForm.Form.Settle | js/script.js:492-522 | an OK response shows "SUCCESS!" in green and clears the fields; any other outcome shows the error message in red and keeps them; either way the button stays disabled and a 3 s timer starts |
| ContactForm.Form.ResetTimerFires | js/script.js:465-469 | the 2 s timer restores "SUBMIT", the plain colour and no shake, and leaves the button's enabled state alone |
| ContactForm.Form.SendTimerFires | js/script.js:506-510 | the 3 s timer restores "SUBMIT" and the plain colour and enables the button |
| BackNavigation.BasePath | js/script.js:547-549 | "../../" exactly when the current path is under a sound-design or interactive-media project folder, "" otherwise |
| BackNavigation.ListingFromPath | js/script.js:552-558 | the listing named by the referrer path, sound design first, then interactive design, then all works; none iff it names none |
| BackNavigation.ListingFromText | js/script.js:565-571 | the raw-text fallback picks sound design iff the text includes its file name or "/sound-design"; interactive design only when the text names it; all works only when the text names it and names neither sound nor interactive design; none iff the text contains none of the six patterns |
| BackNavigation.BackTarget | js/script.js:527-587 | off a project page the button goes home; with no referrer it goes back in history; otherwise it leads to the base path followed by the listing found in the parsed path, or in the raw text when the referrer does not parse, and goes back in history when none is found; any page it leads to is named in the parsed path |
| BackNavigation.NamedListingLeadsThere | js/script.js:552-558 | a parsed referrer path naming a listing page, and none looked for before it, leads back to that listing page |
| BackNavigation.UnknownReferrerGoesBack | js/script.js:575-581 | a referrer path naming no listing page falls back to the browser history |
| BackNavigation.BackToSoundListing | js/script.js:541-558 | coming to a sound-design project from the sound-design listing leads to "../../sound-design.html" |
| Navbar.Hidden | js/script.js:615-621 | the bar hides iff the new position is below the previous one and more than 100 px down |
| Navbar.AfterScroll | js/script.js:612-624 | one scroll event remembers the new position and hides the bar iff it moved down and is past 100 px |
| Navbar.OnlyLastStepCounts | js/script.js:612-624 | after two or more scroll events the handler's whole state (last position and bar) is fixed by the last two positions, whatever state it started in |
| Navbar.NavbarState.constructor | js/script.js:608-610 | the bar starts shown and remembers the page's scroll position |
| Navbar.NavbarState.OnScroll | js/script.js:612-624 | each scroll event is one step of `AfterScroll` on the handler's whole state: the bar is set as `Hidden` says and the new position remembered |
| PageIndicator.SelectorRoundTrip | js/script.js:633-640 | each `a[href="<file>"]` selector asks for exactly the link to `<file>` |
| PageIndicator.CurrentFile | js/script.js:630 | the current file is non-empty and slash-free; for a path not ending in a slash it is the part after the last slash (the whole path when there is none), and it is "index.html" when the path ends in a slash or is empty |
| PageIndicator.PageUnderDirectory | js/script.js:630 | a page file under any directory is recognised as itself |
| PageIndicator.FirstWithHref | js/script.js:644 | `querySelector` finds the first link whose href matches, and none iff there is no such link |
| PageIndicator.MarkedLink | js/script.js:628-649 | the marked link is the first link to the current file, and none is marked iff the file is not a menu page or the page has no link to it |
| PageIndicator.ProjectPageUnmarked | js/script.js:642-648 | on a project page, which is not a menu page, no link is marked |

## Left out

- Timers, `requestAnimationFrame` and the debounced resize are modelled in one of two ways.
  Either a callback runs at once (the image swap, the resize redraw), or a timer firing is its
  own method (the form's 2 s and 3 s timers). No clock is modelled.
- `navigateToPage`'s fade-out and 300 ms delay, and the page-load fade-in (js/script.js:70-89),
  are left out. They only style the body. Navigation is modelled as the URL it would go to.
- The star pulse animation (js/script.js:267-294) is left out. It depends on the clock and on
  `Math.random`.
- The stars' zoom, fade and pointer events are modelled together as one flag of the
  decoration (`Hero.Decor.starsHidden`); only their pulse transform is left out. The image
  opacity fades inside the box swap are left out. So are the carousel track's pixel offset (js/script.js:355-371) and the dots' "active" class
  (js/script.js:374-376). All of these depend on layout or are purely visual.
- The project-link click handler (js/script.js:316-326) and smooth scrolling to anchors
  (js/script.js:589-605) are left out. They only forward to navigation or to the browser.
- `fetch` and `FormData` are left out. The request's outcome is a parameter of
  `ContactForm.Form.Settle`, and only the number of requests issued is counted.
- `new URL(referrer)` is not modelled. Its pathname, or None when it throws, is a parameter of
  `BackNavigation.BackTarget`.
- The model assumes the hero page has a `.my-name` element and the form has a submit button.
  Without them the script throws part-way through a handler.
- The page map is an object literal. A file named like an `Object.prototype` member, such as
  "constructor", would find an inherited value there and make `querySelector` throw. The model
  treats such a file as unmapped.
- JavaScript strings are UTF-16 code units; here they are sequences of Dafny characters.
- `Hero.HeroScreen.BoxClick`: `scrollLocked` is set as in the script, but nothing in the script
  reads it, so the model gives it no effect.
- `ContactForm.Form.Submit`: only the button's `disabled` state stops a second submission. This
  is how a disabled submit button behaves in a browser: it is not the handler's own check.
