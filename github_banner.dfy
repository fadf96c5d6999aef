/**
 * The decision logic of `fetchGitHubBanner` (src/api/fetchGitHubBanner.ts):
 * given what the request for a repository's `public` folder produced, decide
 * whether the folder holds a banner image and answer with the folder's
 * listing, a diagnostic report, or an error value.
 *
 * The network request and the JSON decoding are not modelled; what they
 * produced is the input `Fetched`.
 */
module GitHubBanner {
  import opened JsText

  datatype Option<T> = None | Some(value: T)

  // ---------------------------------------------------------------------
  // Data model
  // ---------------------------------------------------------------------

  /** The `type` of an entry of a contents listing. */
  datatype EntryType = File | Dir

  /** `IGitHubFile`: one entry of the contents listing, carried unchanged. */
  datatype GitHubFile = GitHubFile(
    name: string,
    path: string,
    sha: string,
    size: int,
    url: string,
    htmlUrl: string,
    gitUrl: string,
    downloadUrl: Option<string>,
    kind: EntryType)

  datatype Details = Details(suggestion: string, status: int)

  /** `IFetchResult`: the diagnostic returned when there is no banner to show. */
  datatype FetchResult = FetchResult(success: bool, message: string, details: Details)

  /** A JavaScript `Error` value; the model keeps only its message. */
  datatype Error = Error(message: string)

  /** What `response.json()` produced: the decoded entries, or the error it raised. */
  datatype Body = Entries(files: seq<GitHubFile>) | Malformed(fault: Error)

  /** An HTTP response: its numeric status, its status text and its body. */
  datatype Response = Response(status: nat, statusText: string, body: Body)

  /** What `fetch` produced: a response, or the error it raised. */
  datatype Fetched = Received(response: Response) | TransportFault(fault: Error)

  /** The three kinds of value `fetchGitHubBanner` resolves to. */
  datatype Outcome =
    | Listing(files: seq<GitHubFile>)
    | Report(result: FetchResult)
    | Failure(error: Error)

  // ---------------------------------------------------------------------
  // Constants and messages
  // ---------------------------------------------------------------------

  const BannerWord: string := "banner"

  const ValidExtensions: seq<string> := [".png", ".jpg", ".jpeg", ".svg"]

  const NotFoundSuggestion: string :=
    "Create a \"public\" folder and insert your banner (e.g: /public/bannerXYZ.svg - bannerABC.png - bannerEFG.jpg)"

  const NoBannerSuggestion: string :=
    "Insert an image that contains the name \"banner\" and is png, jpg, jpeg or svg"

  /** `response.ok`: the status is in the range 200 to 299. */
  predicate IsOk(status: nat) {
    200 <= status <= 299
  }

  function NotFoundMessage(repositoryName: string): string {
    "\U{26A0}\U{FE0F}\U{1F4C2} In the repository >" + repositoryName + "< the \"public\" folder was not found."
  }

  function NoBannerMessage(repositoryName: string): string {
    "\U{26A0}\U{FE0F}\U{1F5BC}\U{FE0F} In repository >" + repositoryName + "< no banner file was found in folder \"public\"."
  }

  /** The report for a repository without a `public` folder. */
  function NotFoundFolder(repositoryName: string): FetchResult {
    FetchResult(false, NotFoundMessage(repositoryName), Details(NotFoundSuggestion, 404))
  }

  /** The report for a `public` folder that holds no banner. */
  function NoBannerFound(repositoryName: string): FetchResult {
    FetchResult(false, NoBannerMessage(repositoryName), Details(NoBannerSuggestion, 200))
  }

  const ErrorPrefix: string := "Error "

  /** The message of the error thrown for a failing status other than 404. */
  function StatusErrorMessage(status: nat, statusText: string): string {
    ErrorPrefix + Decimal(status) + ": " + statusText
  }

  // ---------------------------------------------------------------------
  // The banner test
  // ---------------------------------------------------------------------

  /** The test `hasBanner` applies to each entry: a file whose lower-cased
      name contains "banner" and ends with one of the valid extensions. */
  predicate IsBanner(file: GitHubFile) {
    var name := Lower(file.name);
    file.kind == File
    && Includes(name, BannerWord)
    && ArraySome(ValidExtensions, (ext: string) => EndsWith(name, ext))
  }

  /** `hasBanner`: some entry of the listing passes the banner test. */
  predicate HasBanner(files: seq<GitHubFile>) {
    ArraySome(files, IsBanner)
  }

  /** What makes a file a banner, stated without the search functions. */
  ghost predicate BannerSpec(file: GitHubFile) {
    var name := Lower(file.name);
    file.kind == File
    && (exists i :: OccursAt(name, "banner", i))
    && (EndsWith(name, ".png") || EndsWith(name, ".jpg") || EndsWith(name, ".jpeg") || EndsWith(name, ".svg"))
  }

  /** The banner test holds exactly of the files `BannerSpec` describes. */
  lemma IsBannerIff(file: GitHubFile)
    ensures IsBanner(file) <==> BannerSpec(file)
  {
    var name := Lower(file.name);
    IncludesIff(name, BannerWord);
    ArraySomeIff(ValidExtensions, (ext: string) => EndsWith(name, ext));
  }

  /** `hasBanner` holds exactly when some entry of the listing is a banner. */
  lemma HasBannerIff(files: seq<GitHubFile>)
    ensures HasBanner(files) <==> exists i :: 0 <= i < |files| && BannerSpec(files[i])
  {
    ArraySomeIff(files, IsBanner);
    forall i | 0 <= i < |files| {
      IsBannerIff(files[i]);
    }
  }

  /** The banner test ignores case: names that lower-case alike are treated alike. */
  lemma IsBannerIgnoresCase(file: GitHubFile, name: string)
    requires Lower(name) == Lower(file.name)
    ensures IsBanner(file.(name := name)) <==> IsBanner(file)
  {
  }

  /** In particular, upper-casing a name does not change the verdict. */
  lemma IsBannerIgnoresUpperCasing(file: GitHubFile)
    ensures IsBanner(file.(name := Upper(file.name))) <==> IsBanner(file)
  {
    LowerOfUpper(file.name);
  }

  /** The banner test looks at nothing but the name and the type. */
  lemma IsBannerDependsOnNameAndType(a: GitHubFile, b: GitHubFile)
    requires a.name == b.name && a.kind == b.kind
    ensures IsBanner(a) <==> IsBanner(b)
  {
  }

  // ---------------------------------------------------------------------
  // The lookup
  // ---------------------------------------------------------------------

  /** `fetchGitHubBanner`, from the point where `fetch` has settled. Every
      error raised along the way is caught and returned as a value. */
  function FetchGitHubBanner(repositoryName: string, fetched: Fetched): (r: Outcome)
    // a listing is handed back only when it holds a banner, and only as decoded
    ensures r.Listing? ==>
      && fetched.Received?
      && fetched.response.body == Entries(r.files)
      && HasBanner(r.files)
    // a report is never a success, and carries one of the two statuses
    ensures r.Report? ==> !r.result.success && r.result.details.status in {200, 404}
  {
    match fetched
    case TransportFault(err) => Failure(err)
    case Received(response) =>
      if !IsOk(response.status) then
        if response.status == 404 then Report(NotFoundFolder(repositoryName))
        else Failure(Error(StatusErrorMessage(response.status, response.statusText)))
      else
        match response.body
        case Malformed(err) => Failure(err)
        case Entries(files) =>
          if !HasBanner(files) then Report(NoBannerFound(repositoryName))
          else Listing(files)
  }

  /** A 404 answers with the "no public folder" report, never with a listing,
      whatever the body. */
  lemma NotFoundGivesFolderReport(repositoryName: string, response: Response)
    requires response.status == 404
    ensures var outcome := FetchGitHubBanner(repositoryName, Received(response));
      && outcome.Report?
      && !outcome.result.success
      && outcome.result.details.status == 404
      && outcome.result.details.suggestion == NotFoundSuggestion
  {
  }

  /** Any other failing status answers with an error whose message reads
      "Error <status>: <statusText>", from which both can be read back. */
  lemma FailingStatusGivesError(repositoryName: string, response: Response)
    requires !IsOk(response.status) && response.status != 404
    ensures var outcome := FetchGitHubBanner(repositoryName, Received(response));
      && outcome.Failure?
      && outcome.error.message == "Error " + Decimal(response.status) + ": " + response.statusText
      && ParseStatusError(outcome.error.message) == Some((response.status, response.statusText))
  {
    StatusErrorRoundTrip(response.status, response.statusText);
  }

  /** When some entry is a banner, the answer is the decoded listing itself:
      same entries, same order, the other entries included. */
  lemma BannerGivesFullListing(repositoryName: string, response: Response, k: nat)
    requires IsOk(response.status) && response.body.Entries?
    requires k < |response.body.files| && BannerSpec(response.body.files[k])
    ensures FetchGitHubBanner(repositoryName, Received(response)) == Listing(response.body.files)
  {
    HasBannerIff(response.body.files);
  }

  /** When no entry is a banner (an empty folder included), the answer is the
      "no banner" report, with status 200. */
  lemma NoBannerGivesReport(repositoryName: string, response: Response)
    requires IsOk(response.status) && response.body.Entries?
    requires forall i :: 0 <= i < |response.body.files| ==> !BannerSpec(response.body.files[i])
    ensures var outcome := FetchGitHubBanner(repositoryName, Received(response));
      && outcome.Report?
      && !outcome.result.success
      && outcome.result.details.status == 200
      && outcome.result.details.suggestion == NoBannerSuggestion
  {
    HasBannerIff(response.body.files);
  }

  /** A fault raised by `fetch` or by the decoding is returned as it was raised. */
  lemma FaultsAreReturned(repositoryName: string, fetched: Fetched)
    requires fetched.TransportFault? || (IsOk(fetched.response.status) && fetched.response.body.Malformed?)
    ensures FetchGitHubBanner(repositoryName, fetched)
      == Failure(if fetched.TransportFault? then fetched.fault else fetched.response.body.fault)
  {
  }

  /** Both reports name the repository in their message. */
  lemma ReportsNameRepository(repositoryName: string, fetched: Fetched)
    ensures var outcome := FetchGitHubBanner(repositoryName, fetched);
      outcome.Report? ==> !outcome.result.success && Includes(outcome.result.message, repositoryName)
  {
    var outcome := FetchGitHubBanner(repositoryName, fetched);
    if outcome.Report? {
      if outcome.result.details.status == 404 {
        IncludesAt("\U{26A0}\U{FE0F}\U{1F4C2} In the repository >", repositoryName,
          "< the \"public\" folder was not found.");
      } else {
        IncludesAt("\U{26A0}\U{FE0F}\U{1F5BC}\U{FE0F} In repository >", repositoryName,
          "< no banner file was found in folder \"public\".");
      }
    }
  }

  /** Which of the three kinds the answer is, for every input. */
  lemma OutcomeClassification(repositoryName: string, fetched: Fetched)
    ensures var outcome := FetchGitHubBanner(repositoryName, fetched);
      && (outcome.Listing? <==>
            && fetched.Received?
            && IsOk(fetched.response.status)
            && fetched.response.body.Entries?
            && exists i :: 0 <= i < |fetched.response.body.files| && BannerSpec(fetched.response.body.files[i]))
      && (outcome.Report? <==>
            && fetched.Received?
            && (|| fetched.response.status == 404
                || (&& IsOk(fetched.response.status)
                    && fetched.response.body.Entries?
                    && forall i :: 0 <= i < |fetched.response.body.files| ==> !BannerSpec(fetched.response.body.files[i]))))
      && (outcome.Failure? <==>
            || fetched.TransportFault?
            || (!IsOk(fetched.response.status) && fetched.response.status != 404)
            || (IsOk(fetched.response.status) && fetched.response.body.Malformed?))
  {
    if fetched.Received? && fetched.response.body.Entries? {
      HasBannerIff(fetched.response.body.files);
    }
  }

  /** Every status that `response.ok` accepts is treated alike: the status
      itself and its text play no further part, and a report for a folder
      without a banner says 200 whichever of them it was. */
  lemma OkStatusesAlike(repositoryName: string, r1: Response, r2: Response)
    requires IsOk(r1.status) && IsOk(r2.status) && r1.body == r2.body
    ensures FetchGitHubBanner(repositoryName, Received(r1)) == FetchGitHubBanner(repositoryName, Received(r2))
  {
  }

  /** The status a report carries tells which of the two reports it is. */
  lemma ReportStatusTellsCause(repositoryName: string, fetched: Fetched)
    requires FetchGitHubBanner(repositoryName, fetched).Report?
    ensures var report := FetchGitHubBanner(repositoryName, fetched).result;
      && fetched.Received?
      && (report.details.status == 404 <==> fetched.response.status == 404)
      && (report.details.status == 200 <==> IsOk(fetched.response.status))
  {
  }

  // ---------------------------------------------------------------------
  // Reading an error message back
  // ---------------------------------------------------------------------

  /** Reads "Error <digits>: <text>" back into the status and the text. */
  function ParseStatusError(message: string): Option<(nat, string)> {
    if |message| < |ErrorPrefix| || message[..|ErrorPrefix|] != ErrorPrefix then None
    else
      var rest := message[|ErrorPrefix|..];
      var digits := DigitPrefix(rest);
      var after := rest[|digits|..];
      if |digits| == 0 || |after| < 2 || after[..2] != ": " then None
      else Some((DecimalValue(digits), after[2..]))
  }

  /** The error message determines the status and the status text it was built from. */
  lemma StatusErrorRoundTrip(status: nat, statusText: string)
    ensures ParseStatusError(StatusErrorMessage(status, statusText)) == Some((status, statusText))
  {
    var digits := Decimal(status);
    var message := StatusErrorMessage(status, statusText);
    var rest := message[|ErrorPrefix|..];
    assert message[..|ErrorPrefix|] == ErrorPrefix;
    assert rest == digits + (": " + statusText);
    DigitPrefixOf(digits, ": " + statusText);
    assert rest[|digits|..] == ": " + statusText;
    DecimalRoundTrip(status);
  }

  /** Two failing responses that give the same error message had the same status and status text. */
  lemma StatusErrorIsInjective(s1: nat, t1: string, s2: nat, t2: string)
    requires StatusErrorMessage(s1, t1) == StatusErrorMessage(s2, t2)
    ensures s1 == s2 && t1 == t2
  {
    StatusErrorRoundTrip(s1, t1);
    StatusErrorRoundTrip(s2, t2);
  }
}
