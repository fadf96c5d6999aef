/**
 * What the banner test and the lookup give for concrete entries and responses.
 */
module GitHubBannerExamples {
  import opened JsText
  import opened GitHubBanner

  /** An entry of the given name and type; the other fields play no part. */
  function Entry(name: string, kind: EntryType): GitHubFile {
    GitHubFile(name, "public/" + name, "", 0, "", "", "", None, kind)
  }

  /** An upper-case name qualifies. */
  lemma UpperCaseNameQualifies()
    ensures IsBanner(Entry("BANNER.PNG", File))
  {
    var name := Lower("BANNER.PNG");
    assert name == "banner.png";
    assert Includes(name, BannerWord);
    assert ArraySome(ValidExtensions, (ext: string) => EndsWith(name, ext));
  }

  /** "banner" may stand anywhere in the name. */
  lemma InnerBannerQualifies()
    ensures IsBanner(Entry("mybannerimage.svg", File))
  {
    var name := "mybannerimage.svg";
    LowerKeepsLowerCase(name);
    assert name[2..8] == "banner";
    assert OccursAt(name, "banner", 2);
    assert EndsWith(name, ".svg");
    IsBannerIff(Entry(name, File));
  }

  /** A file named banner.gif fails the test: its extension is not listed. */
  lemma GifDoesNotQualify()
    ensures !IsBanner(Entry("banner.gif", File))
  {
    var name := "banner.gif";
    LowerKeepsLowerCase(name);
    assert !ArraySome(ValidExtensions, (ext: string) => EndsWith(name, ext));
  }

  /** A file named banner, with no extension, fails the test. */
  lemma BareNameDoesNotQualify()
    ensures !IsBanner(Entry("banner", File))
  {
    var name := "banner";
    LowerKeepsLowerCase(name);
    assert !ArraySome(ValidExtensions, (ext: string) => EndsWith(name, ext));
  }

  /** A directory named banner.png fails the test. */
  lemma DirectoryDoesNotQualify()
    ensures !IsBanner(Entry("banner.png", Dir))
  {
  }

  /** "octo-org/site": a `public` folder with index.html, banner-dark.svg and
      logo.png gives back all three entries. */
  lemma SiteScenario()
    ensures var files := [Entry("index.html", File), Entry("banner-dark.svg", File), Entry("logo.png", File)];
      var outcome := FetchGitHubBanner("site", Received(Response(200, "OK", Entries(files))));
      outcome == Listing(files) && |outcome.files| == 3
  {
    var files := [Entry("index.html", File), Entry("banner-dark.svg", File), Entry("logo.png", File)];
    var name := "banner-dark.svg";
    LowerKeepsLowerCase(name);
    assert OccursAt(name, "banner", 0);
    assert BannerSpec(files[1]);
    BannerGivesFullListing("site", Response(200, "OK", Entries(files)), 1);
  }

  /** "octo-org/empty-repo": no `public` folder. */
  lemma EmptyRepoScenario()
    ensures FetchGitHubBanner("empty-repo", Received(Response(404, "Not Found", Entries([]))))
      == Report(FetchResult(false, NotFoundMessage("empty-repo"), Details(NotFoundSuggestion, 404)))
  {
  }

  /** An empty `public` folder holds no banner. */
  lemma EmptyFolderScenario()
    ensures FetchGitHubBanner("site", Received(Response(200, "OK", Entries([]))))
      == Report(FetchResult(false, NoBannerMessage("site"), Details(NoBannerSuggestion, 200)))
  {
  }

  /** A server error becomes the error "Error 500: Internal Server Error". */
  lemma ServerErrorScenario()
    ensures FetchGitHubBanner("site", Received(Response(500, "Internal Server Error", Entries([]))))
      == Failure(Error("Error 500: Internal Server Error"))
  {
    FailingStatusGivesError("site", Response(500, "Internal Server Error", Entries([])));
    ServerErrorMessage();
  }

  lemma ServerErrorMessage()
    ensures StatusErrorMessage(500, "Internal Server Error") == "Error 500: Internal Server Error"
  {
    DecimalOf500();
    assert "Error " + "500" + ": " + "Internal Server Error" == "Error 500: Internal Server Error";
  }

  lemma DecimalOf500()
    ensures Decimal(500) == "500"
  {
    assert Decimal(5) == "5";
    assert Decimal(50) == Decimal(5) + "0";
    assert Decimal(500) == Decimal(50) + "0";
  }
}
