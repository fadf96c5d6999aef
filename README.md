# GitHub banner lookup, modelled in Dafny

`fetchGitHubBanner(gitHubUsername, repositoryName)` asks the GitHub contents
API for the `public` folder of a repository. It then decides whether that
folder holds a banner image. A banner is a file whose lower-cased name
contains `banner` and ends in `.png`, `.jpg`, `.jpeg` or `.svg`. The function
resolves to exactly one of three values:

- the decoded folder listing, unchanged, when some entry is a banner;
- an `IFetchResult` report with `success: false`. Its `details.status` is 404
  when the folder is missing and 200 when the folder holds no banner;
- an `Error`. This is either the error `Error <status>: <statusText>` thrown
  for any other failing status, or whatever `fetch` or `response.json()`
  raised, or the `TypeError` the banner test raises on a body that is not a
  list of entries (see "## Left out"). The error is caught and returned, not
  propagated.

The project has three files:

- `js_text.dfy` (module `JsText`): the JavaScript built-ins the decision relies
  on. These are `toLowerCase` (ASCII letters only), `includes`, `endsWith`,
  `Array.prototype.some` and the decimal rendering of a status code in a
  template literal. `includes`, `endsWith`, `some` and the decimal rendering
  are each tied by a lemma to an independent description. `toLowerCase` is
  defined character by character and comes with its algebraic properties.
- `github_banner.dfy` (module `GitHubBanner`): the `IGitHubFile` and
  `IFetchResult` shapes, the banner test, and the lookup `FetchGitHubBanner`.
  The lookup is a pure function from what `fetch` produced (the datatype
  `Fetched`) to an `Outcome` with three variants. The lemmas about it state
  each branch, the classification of every input, and that the error message
  can be read back into its status and status text.
- `github_banner_examples.dfy` (module `GitHubBannerExamples`): what the banner
  test and the lookup give for concrete entries and responses.

`response.ok` is modelled as the Fetch standard defines it: the status lies
between 200 and 299. The source checks `!response.ok` first and tests for 404
only inside that branch. So every 2xx status, 204 for example, goes on to the
decoding and the banner test. In that case the "no banner" report still says
status 200, because the code hard-codes that value. `OkStatusesAlike` states
this.

Both reports keep the emoji prefixes of the source messages. They are written
as Unicode escapes: U+26A0 U+FE0F U+1F4C2 for the missing folder, and
U+26A0 U+FE0F U+1F5BC U+FE0F for the missing banner.

## Model

| member | source | states |
|---|---|---|
| `GitHubBanner.IsBannerIff` | src/api/fetchGitHubBanner.ts:45-51 | An entry passes the banner test exactly when its type is `file`, its lower-cased name contains "banner" at some position, and that name ends with `.png`, `.jpg`, `.jpeg` or `.svg`. |
| `GitHubBanner.HasBannerIff` | src/api/fetchGitHubBanner.ts:46-51 | `hasBanner` is true exactly when some entry of the listing is a banner. |
| `GitHubBanner.IsBannerIgnoresCase` | src/api/fetchGitHubBanner.ts:49-50 | Two names with the same lower-case form get the same verdict. |
| `GitHubBanner.IsBannerIgnoresUpperCasing` | src/api/fetchGitHubBanner.ts:49-50 | Upper-casing an entry's name does not change whether it is a banner. |
| `GitHubBanner.IsBannerDependsOnNameAndType` | src/api/fetchGitHubBanner.ts:47-50 | The banner test reads only the name and the type; path, sha, size and the URLs play no part. |
| `GitHubBanner.FetchGitHubBanner` | src/api/fetchGitHubBanner.ts:22-70 | A listing is returned only when it holds a banner, and it is the decoded body itself. A report never has `success` set, and its status is 200 or 404. |
| `GitHubBanner.NotFoundGivesFolderReport` | src/api/fetchGitHubBanner.ts:26-38 | A 404 gives the "public folder not found" report, whatever the body: `success` false, status 404, the folder suggestion. It never gives the listing. |
| `GitHubBanner.FailingStatusGivesError` | src/api/fetchGitHubBanner.ts:26-41 | Any failing status other than 404 gives an error whose message is exactly "Error " + status + ": " + statusText. Status and text can be read back from the message. |
| `GitHubBanner.BannerGivesFullListing` | src/api/fetchGitHubBanner.ts:43-66 | On an ok status, if some decoded entry is a banner, the answer is the decoded list itself. It keeps every entry, the non-banners included, in the same order. |
| `GitHubBanner.NoBannerGivesReport` | src/api/fetchGitHubBanner.ts:53-63 | On an ok status, if no decoded entry is a banner (the empty folder included), the answer is the "no banner" report: `success` false, status 200, the naming suggestion. |
| `GitHubBanner.FaultsAreReturned` | src/api/fetchGitHubBanner.ts:23-69 | An error raised by `fetch`, or by decoding the body of an ok response, is returned as the very value raised. |
| `GitHubBanner.ReportsNameRepository` | src/api/fetchGitHubBanner.ts:28-63 | Every report has `success` false, and its message contains the repository name. |
| `GitHubBanner.OutcomeClassification` | src/api/fetchGitHubBanner.ts:22-70 | For every input, this says which of the three outcomes results, each as an if-and-only-if. Listing: ok, decoded, and some entry is a banner. Report: a 404, or ok, decoded and no banner. Error: a transport fault, any other failing status, or a decoding fault. |
| `GitHubBanner.OkStatusesAlike` | src/api/fetchGitHubBanner.ts:26-66 | Any two statuses that `response.ok` accepts give the same outcome for the same body. |
| `GitHubBanner.ReportStatusTellsCause` | src/api/fetchGitHubBanner.ts:27-63 | A report says 404 exactly when the response was a 404. It says 200 exactly when the response was ok. |
| `GitHubBanner.StatusErrorRoundTrip` | src/api/fetchGitHubBanner.ts:40 | Reading the message "Error <status>: <statusText>" back gives the status and the status text it was built from. |
| `GitHubBanner.StatusErrorIsInjective` | src/api/fetchGitHubBanner.ts:40 | Two failing responses with the same error message had the same status and status text. |
| `JsText.IncludesIff` | src/api/fetchGitHubBanner.ts:49 | `includes` holds exactly when the searched string occurs at some index. |
| `JsText.EndsWithIff` | src/api/fetchGitHubBanner.ts:50 | `endsWith` holds exactly when the string is some prefix followed by the suffix. |
| `JsText.ArraySomeIff` | src/api/fetchGitHubBanner.ts:46-51 | `Array.prototype.some` holds exactly when some element satisfies the predicate. |
| `JsText.LowerIsIdempotent` | src/api/fetchGitHubBanner.ts:49-50 | A lower-cased name has no upper-case ASCII letter, and lower-casing it again changes nothing. |
| `JsText.LowerKeepsLowerCase` | src/api/fetchGitHubBanner.ts:49-50 | A name without upper-case ASCII letters is its own lower-case form. |
| `JsText.LowerOfUpper` | src/api/fetchGitHubBanner.ts:49-50 | Upper-casing before lower-casing changes nothing. |
| `JsText.Decimal` | src/api/fetchGitHubBanner.ts:40 | A status renders as at least one decimal digit, with no leading zero unless the status is 0. |
| `JsText.DecimalRoundTrip` | src/api/fetchGitHubBanner.ts:40 | Reading back a rendered status gives the status. |
| `GitHubBannerExamples.UpperCaseNameQualifies` | src/api/fetchGitHubBanner.ts:48-50 | The file `BANNER.PNG` is a banner. |
| `GitHubBannerExamples.InnerBannerQualifies` | src/api/fetchGitHubBanner.ts:48-50 | The file `mybannerimage.svg` is a banner. |
| `GitHubBannerExamples.GifDoesNotQualify` | src/api/fetchGitHubBanner.ts:45-50 | The file `banner.gif` is not a banner. |
| `GitHubBannerExamples.BareNameDoesNotQualify` | src/api/fetchGitHubBanner.ts:45-50 | The file `banner` is not a banner. |
| `GitHubBannerExamples.DirectoryDoesNotQualify` | src/api/fetchGitHubBanner.ts:48 | A directory named `banner.png` is not a banner. |
| `GitHubBannerExamples.SiteScenario` | src/api/fetchGitHubBanner.ts:43-66 | A folder with `index.html`, `banner-dark.svg` and `logo.png` gives back all three entries. |
| `GitHubBannerExamples.EmptyRepoScenario` | src/api/fetchGitHubBanner.ts:27-38 | A 404 gives the "folder not found" report for that repository. |
| `GitHubBannerExamples.EmptyFolderScenario` | src/api/fetchGitHubBanner.ts:53-63 | An empty folder gives the "no banner" report with status 200. |
| `GitHubBannerExamples.ServerErrorScenario` | src/api/fetchGitHubBanner.ts:40 | A 500 "Internal Server Error" gives the error "Error 500: Internal Server Error". |

Every outcome is exactly one of the three kinds by construction: `Outcome` is a
datatype with three variants. The lookup is a function, so the same inputs
always give the same outcome.

## Left out

- The `fetch` call and the URL built from `gitHubUsername` and `repositoryName` (line 24): this is network I/O. What `fetch` produced is the input `Fetched`, and `gitHubUsername`, used only in the URL, is not a parameter.
- `response.json()` and the unchecked `as IGitHubFile[]` cast (line 43): this is a foreign JSON parser. The body is given either as a list of entries or as the error raised while reading it. The cast is never checked, so a body that is not a list of entries can still reach the banner test. `jsonData.some` (lines 46-51) stops at the first item that passes the test, so items after it are never looked at. A `TypeError` is raised, caught and returned (lines 67-68) in three cases. The first is a body that is not an array, where `jsonData.some` is not a function. The second is a `null` item before the first banner entry. The third is an item before the first banner entry whose `type` is `'file'` and whose `name` is not a string (line 49). An item that is not `null` and whose `type` is not `'file'`, such as `1`, fails the test on line 48 without throwing. A body whose first banner entry comes before any such ill-formed item is returned whole by line 66, the ill-formed items included; `[<banner entry>, null]` and `[1, <banner entry>]` are examples. The model cannot represent that listing, because `Listing` holds only entries. It also does not say which raw JSON values lead to which outcome.
- `console.warn` (lines 37 and 62): a log side channel with no effect on the returned value.
- `async`/`await` and promise semantics: there is no concurrency in the decision.
- `toLowerCase` beyond ASCII: only `A`-`Z` are mapped, to `a`-`z`. Strings are sequences of Unicode scalar values, not UTF-16 code units. Under full Unicode lower-casing only two other characters become ASCII letters: U+0130 becomes `i` followed by a combining dot, and U+212A becomes `k`. Neither `i` nor `k` occurs in `banner` or in the four extensions, so the verdict of the banner test is the same either way.
- An `Error` carries only its message; its name, stack and any other thrown value are not modelled.
- `Decimal` renders the status as a natural number; JavaScript's rendering of fractional or negative numbers is not needed for an HTTP status.
