/**
 * The current-page indicator: the menu link that points at the page being
 * shown gets the "current-page" class. The page is named by the last segment
 * of the location's path, and an empty last segment means the home page.
 */
module PageIndicator {
  import opened Common
  import opened Text

  const HomeFile := "index.html"

  /** The selector `a[href="<file>"]` of the link to `file`. */
  function LinkSelector(file: string): (sel: string)
    ensures |sel| == |file| + 10
  {
    "a[href=\"" + file + "\"]"
  }

  /** The six menu pages. */
  const MenuPages: set<string> := {
    "index.html", "about.html", "contact.html",
    "sound-design.html", "interactive-design.html", "all-works.html"
  }

  /** The page map: each menu page and the selector of its link. */
  const PageMap: map<string, string> := map file | file in MenuPages :: LinkSelector(file)

  /** The href value an `a[href="…"]` selector asks for, or None for any other selector. */
  function SelectedHref(sel: string): Option<string>
  {
    if |sel| >= 10 && sel[..8] == "a[href=\"" && sel[|sel| - 2..] == "\"]"
    then Some(sel[8..|sel| - 2])
    else None
  }

  /** A link selector asks for exactly the file it was built from. */
  lemma SelectorRoundTrip(file: string)
    ensures SelectedHref(LinkSelector(file)) == Some(file)
  {
    var sel := LinkSelector(file);
    assert sel[..8] == "a[href=\"";
    assert sel[|sel| - 2..] == "\"]";
    assert sel[8..|sel| - 2] == file;
  }

  /**
   * The home page's name is a plain file name. Kept apart from `CurrentFile`:
   * checking the literal there, beside the facts about the path, is costly.
   */
  lemma HomeFileIsAFile()
    ensures HomeFile != "" && '/' !in HomeFile
  {
  }

  /** `currentPath.split('/').pop() || 'index.html'`. */
  function CurrentFile(path: string): (file: string)
    ensures file != "" && '/' !in file
    ensures path == [] || path[|path| - 1] == '/' ==> file == HomeFile
    ensures path != [] && path[|path| - 1] != '/' ==>
      (|file| <= |path| && path[|path| - |file|..] == file && (|file| == |path| || path[|path| - |file| - 1] == '/'))
  {
    var last := LastSegment(path);
    if last == "" then
      HomeFileIsAFile();
      HomeFile
    else
      assert last[|last| - 1] == path[|path| - 1];
      last
  }

  /** A page file under any directory is recognised as itself. */
  lemma PageUnderDirectory(dir: string, page: string)
    requires page != "" && '/' !in page
    ensures CurrentFile(dir + "/" + page) == page
  {
    LastSegmentAfterSlash(dir, page);
  }

  /** `document.querySelector`: the first link, in document order, whose href is `href`. */
  function FirstWithHref(hrefs: seq<string>, href: string): (i: Option<nat>)
    ensures i.None? <==> href !in hrefs
    ensures i.Some? ==> i.value < |hrefs| && hrefs[i.value] == href
    ensures i.Some? ==> forall j :: 0 <= j < i.value ==> hrefs[j] != href
    decreases |hrefs|
  {
    if hrefs == [] then None
    else if hrefs[0] == href then Some(0)
    else match FirstWithHref(hrefs[1..], href)
      case None => None
      case Some(k) => Some(k + 1)
  }

  /**
   * `addCurrentPageIndicator`: the position, among the page's links (given by
   * their href attributes), of the link that gets the "current-page" class.
   */
  function MarkedLink(path: string, hrefs: seq<string>): (i: Option<nat>)
    ensures i.None? <==> CurrentFile(path) !in PageMap || CurrentFile(path) !in hrefs
    ensures i.Some? ==> i.value < |hrefs| && hrefs[i.value] == CurrentFile(path)
    ensures i.Some? ==> forall j :: 0 <= j < i.value ==> hrefs[j] != CurrentFile(path)
  {
    var file := CurrentFile(path);
    if file in PageMap then
      SelectorRoundTrip(file);
      match SelectedHref(PageMap[file])
      case Some(href) => FirstWithHref(hrefs, href)
      case None => None
    else None
  }

  /** Project pages are not in the menu, so on them no link is marked. */
  lemma ProjectPageUnmarked(dir: string, slug: string, hrefs: seq<string>)
    requires slug != "" && '/' !in slug && slug + ".html" !in PageMap
    ensures MarkedLink(dir + "/" + slug + ".html", hrefs) == None
  {
    assert dir + "/" + slug + ".html" == dir + "/" + (slug + ".html");
    PageUnderDirectory(dir, slug + ".html");
  }
}
