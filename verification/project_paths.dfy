/**
 * Where a click on a project tile leads: the featured background boxes of the
 * hero section and the carousel slides both build the path
 * `projects/<folder>/<slug>.html`, choosing the folder from the current page.
 */
module ProjectPaths {
  import opened Common
  import opened Text

  const SoundFolder := "sound-design"
  const InteractiveFolder := "interactive-media"
  const SoundPrefix := "projects/" + SoundFolder + "/"
  const InteractivePrefix := "projects/" + InteractiveFolder + "/"
  const PageSuffix := ".html"

  /** The folder of the project pages linked from the page at `currentPath`. */
  function ProjectFolder(currentPath: string): (folder: string)
    ensures folder == InteractiveFolder <==> Includes(currentPath, "interactive-design.html")
    ensures folder == SoundFolder <==> !Includes(currentPath, "interactive-design.html")
  {
    if Includes(currentPath, "interactive-design.html") then InteractiveFolder else SoundFolder
  }

  /** The path a project tile with the given slug leads to; a missing or empty slug leads nowhere. */
  function ProjectPage(currentPath: string, slug: string): (target: Option<string>)
    ensures target.Some? <==> slug != ""
  {
    if slug == "" then None
    else Some("projects/" + ProjectFolder(currentPath) + "/" + slug + PageSuffix)
  }

  /** Reads a project page path back into its folder and (non-empty) slug. */
  function ParseProjectPage(url: string): Option<(string, string)>
  {
    if |url| < |PageSuffix| || url[|url| - |PageSuffix|..] != PageSuffix then None
    else ParseStem(url[..|url| - |PageSuffix|])
  }

  /** Reads `projects/<folder>/<slug>` back into its folder and (non-empty) slug. */
  function ParseStem(stem: string): Option<(string, string)>
  {
    if |stem| > |SoundPrefix| && stem[..|SoundPrefix|] == SoundPrefix then
      Some((SoundFolder, stem[|SoundPrefix|..]))
    else if |stem| > |InteractivePrefix| && stem[..|InteractivePrefix|] == InteractivePrefix then
      Some((InteractiveFolder, stem[|InteractivePrefix|..]))
    else None
  }

  /** The page suffix is read off and nothing else. */
  lemma ParseWithSuffix(stem: string)
    ensures ParseProjectPage(stem + PageSuffix) == ParseStem(stem)
  {
    var url := stem + PageSuffix;
    assert url[..|url| - |PageSuffix|] == stem;
    assert url[|url| - |PageSuffix|..] == PageSuffix;
  }

  /** A folder prefix followed by a slug reads back as that folder and slug. */
  lemma ParseStemOf(folder: string, slug: string)
    requires folder == SoundFolder || folder == InteractiveFolder
    requires slug != ""
    ensures ParseStem("projects/" + folder + "/" + slug) == Some((folder, slug))
  {
    var prefix := "projects/" + folder + "/";
    var stem := prefix + slug;
    assert stem[..|prefix|] == prefix && stem[|prefix|..] == slug;
    if folder == SoundFolder {
      assert prefix == SoundPrefix;
    } else {
      assert prefix == InteractivePrefix;
      assert stem[9] == 'i' && SoundPrefix[9] == 's';
    }
  }

  /** The path a tile produces names the folder chosen for the page and the tile's own slug. */
  lemma ProjectPageRoundTrip(currentPath: string, slug: string)
    requires slug != ""
    ensures ProjectPage(currentPath, slug).Some?
    ensures ParseProjectPage(ProjectPage(currentPath, slug).value) == Some((ProjectFolder(currentPath), slug))
  {
    var folder := ProjectFolder(currentPath);
    ParseStemOf(folder, slug);
    ParseWithSuffix("projects/" + folder + "/" + slug);
  }

  /** A stem that reads back as a folder and slug is that folder's prefix followed by the slug. */
  lemma ParsedStem(stem: string, folder: string, slug: string)
    requires ParseStem(stem) == Some((folder, slug))
    ensures slug != "" && (folder == SoundFolder || folder == InteractiveFolder)
    ensures stem == "projects/" + folder + "/" + slug
  {
    var prefix := "projects/" + folder + "/";
    if |stem| > |SoundPrefix| && stem[..|SoundPrefix|] == SoundPrefix {
      assert prefix == SoundPrefix;
    } else {
      assert prefix == InteractivePrefix;
    }
    assert stem == prefix + slug;
  }

  /** Conversely, every path that reads back as a project page is the one its tile would produce. */
  lemma ParsedIsProjectPage(url: string, folder: string, slug: string)
    requires ParseProjectPage(url) == Some((folder, slug))
    ensures slug != "" && (folder == SoundFolder || folder == InteractiveFolder)
    ensures url == "projects/" + folder + "/" + slug + PageSuffix
  {
    var n := |url| - |PageSuffix|;
    var stem := url[..n];
    assert url == stem + PageSuffix by {
      assert url[n..] == PageSuffix;
    }
    ParsedStem(stem, folder, slug);
  }
}
