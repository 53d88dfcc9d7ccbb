/**
 * The back button. Off a project page it always leads home. On a project page
 * it guesses the listing page the visitor came from by looking at the
 * referrer: first at the path of the parsed referrer URL, or, when the
 * referrer does not parse, at the raw referrer text; with no referrer, or none
 * of the three listing pages named in it, the browser's history takes over.
 */
module BackNavigation {
  import opened Common
  import opened Text

  const SoundPage := "sound-design.html"
  const InteractivePage := "interactive-design.html"
  const AllWorksPage := "all-works.html"
  const HomePage := "index.html"
  const UpToSite := "../../"

  /** The three listing pages the back button knows. */
  predicate IsListing(page: string)
  {
    page == SoundPage || page == InteractivePage || page == AllWorksPage
  }

  /** The order in which the listing pages are looked for in a referrer. */
  function Rank(page: string): nat
  {
    if page == SoundPage then 0 else if page == InteractivePage then 1 else 2
  }

  /** The current page is a project detail page. */
  predicate OnProjectPage(currentPath: string)
  {
    Includes(currentPath, "/projects/")
  }

  /** The prefix that leads from the current page back to the site's top level. */
  function BasePath(currentPath: string): (base: string)
    ensures base == UpToSite <==>
      Includes(currentPath, "/projects/sound-design/") || Includes(currentPath, "/projects/interactive-media/")
    ensures base != UpToSite ==> base == ""
  {
    if Includes(currentPath, "/projects/sound-design/") || Includes(currentPath, "/projects/interactive-media/")
    then UpToSite
    else ""
  }

  /**
   * The listing page a parsed referrer path names, tried in a fixed order:
   * sound design, then interactive design, then all works.
   */
  function ListingFromPath(referrerPath: string): (page: Option<string>)
    ensures page.Some? ==> IsListing(page.value) && Includes(referrerPath, page.value)
    ensures page.None? <==>
      !Includes(referrerPath, SoundPage) && !Includes(referrerPath, InteractivePage) && !Includes(referrerPath, AllWorksPage)
    ensures Includes(referrerPath, SoundPage) ==> page == Some(SoundPage)
    ensures page == Some(AllWorksPage) ==> !Includes(referrerPath, SoundPage) && !Includes(referrerPath, InteractivePage)
  {
    if Includes(referrerPath, SoundPage) then Some(SoundPage)
    else if Includes(referrerPath, InteractivePage) then Some(InteractivePage)
    else if Includes(referrerPath, AllWorksPage) then Some(AllWorksPage)
    else None
  }

  /**
   * The fallback for a referrer that does not parse as a URL: the same three
   * pages in the same order, each recognised by its file name or by
   * "/<name>" anywhere in the raw text.
   */
  function ListingFromText(referrer: string): (page: Option<string>)
    ensures page.Some? ==> IsListing(page.value)
    ensures page == Some(SoundPage) <==> Includes(referrer, SoundPage) || Includes(referrer, "/sound-design")
    ensures page == Some(InteractivePage) ==>
      Includes(referrer, InteractivePage) || Includes(referrer, "/interactive-design")
    ensures page == Some(AllWorksPage) ==>
      && (Includes(referrer, AllWorksPage) || Includes(referrer, "/all-works"))
      && !Includes(referrer, InteractivePage) && !Includes(referrer, "/interactive-design")
    ensures page.None? <==>
      && !Includes(referrer, SoundPage) && !Includes(referrer, "/sound-design")
      && !Includes(referrer, InteractivePage) && !Includes(referrer, "/interactive-design")
      && !Includes(referrer, AllWorksPage) && !Includes(referrer, "/all-works")
  {
    if Includes(referrer, SoundPage) || Includes(referrer, "/sound-design") then Some(SoundPage)
    else if Includes(referrer, InteractivePage) || Includes(referrer, "/interactive-design") then Some(InteractivePage)
    else if Includes(referrer, AllWorksPage) || Includes(referrer, "/all-works") then Some(AllWorksPage)
    else None
  }

  /**
   * What a click on the back button does. `parsedPath` is the pathname of
   * `new URL(referrer)`, or None when that constructor throws.
   */
  function BackTarget(currentPath: string, referrer: string, parsedPath: Option<string>): (nav: Navigation)
    ensures !OnProjectPage(currentPath) ==> nav == NavigateTo(HomePage)
    ensures OnProjectPage(currentPath) && referrer == "" ==> nav == HistoryBack
    ensures OnProjectPage(currentPath) && referrer != "" ==>
      var page := if parsedPath.Some? then ListingFromPath(parsedPath.value) else ListingFromText(referrer);
      nav == if page.Some? then NavigateTo(BasePath(currentPath) + page.value) else HistoryBack
    ensures OnProjectPage(currentPath) && nav.NavigateTo? ==>
      |BasePath(currentPath)| <= |nav.url| && nav.url[..|BasePath(currentPath)|] == BasePath(currentPath)
    ensures OnProjectPage(currentPath) && nav.NavigateTo? ==>
      var page := nav.url[|BasePath(currentPath)|..];
      IsListing(page) && (parsedPath.Some? ==> Includes(parsedPath.value, page))
  {
    if !OnProjectPage(currentPath) then NavigateTo(HomePage)
    else if referrer == "" then HistoryBack
    else
      var page := match parsedPath
        case Some(path) => ListingFromPath(path)
        case None => ListingFromText(referrer);
      match page
      case Some(listing) =>
        var url := BasePath(currentPath) + listing;
        assert url[|BasePath(currentPath)|..] == listing;
        NavigateTo(url)
      case None => HistoryBack
  }

  /** A referrer whose path names none of the listing pages falls back to the browser history. */
  lemma UnknownReferrerGoesBack(currentPath: string, referrer: string, path: string)
    requires OnProjectPage(currentPath) && referrer != ""
    requires !Includes(path, SoundPage) && !Includes(path, InteractivePage) && !Includes(path, AllWorksPage)
    ensures BackTarget(currentPath, referrer, Some(path)) == HistoryBack
  {
  }

  /**
   * A referrer whose path names a listing page, and no listing page looked for
   * before it, leads back to that listing page.
   */
  lemma NamedListingLeadsThere(currentPath: string, referrer: string, path: string, page: string)
    requires OnProjectPage(currentPath) && referrer != ""
    requires IsListing(page) && Includes(path, page)
    requires forall q :: IsListing(q) && Rank(q) < Rank(page) ==> !Includes(path, q)
    ensures BackTarget(currentPath, referrer, Some(path)) == NavigateTo(BasePath(currentPath) + page)
  {
    if page != SoundPage {
      assert IsListing(SoundPage) && Rank(SoundPage) < Rank(page);
    }
    if page == AllWorksPage {
      assert IsListing(InteractivePage) && Rank(InteractivePage) < Rank(page);
    }
  }

  /**
   * A visitor who came to a sound-design project from the sound-design listing
   * is sent back to that listing, two folders up, whatever site it is on.
   */
  lemma BackToSoundListing(site: string, slug: string, referrer: string, host: string)
    requires referrer != ""
    ensures BackTarget(site + "/projects/sound-design/" + slug, referrer, Some(host + "/" + SoundPage))
         == NavigateTo(UpToSite + SoundPage)
  {
    var current := site + "/projects/sound-design/" + slug;
    IncludesMiddle(site, "/projects/sound-design/", slug);
    assert current == site + "/projects/" + ("sound-design/" + slug);
    IncludesMiddle(site, "/projects/", "sound-design/" + slug);
    assert host + "/" + SoundPage == (host + "/") + SoundPage + "";
    IncludesMiddle(host + "/", SoundPage, "");
  }
}
