# pr-validator, modelled in Dafny

A model of the decision logic of the 2factorauth pull-request validator, a
Cloudflare worker with two handlers:

- **passkeys** discovers the entry files a pull request touches and tests
  them one after another. It answers 400 with an `::error` annotation at the
  first test that rejects. Otherwise it answers with the logger's lines and
  clears the logger.
- **twofactorauth** starts every test of every entry without awaiting it.
  For each rejection it asks the logger for an annotation for the entry's
  file: a warning for the rank of an additional domain, an error otherwise.
  The logger has no `addError`, so as written only the warnings are logged
  (see Findings). It answers 200 with the logger's lines, joined at
  src/twofactorauth.js:42 before any of the request's tests has settled, and
  never clears the logger.

The tests are:

- **SimilarWeb**: a rank lookup classified against a limit.
- **Blocklist**: membership in three newline-delimited lists of the Block
  List Project, cached per URL for the life of the process.
- **Facebook**: a page probe, modelled only by its verdict.

The model is functional:

- The logger is an immutable list of lines.
- The process state that outlives a request is `State(log, cache)`.
- Requests to the outside world are oracle functions: rank replies, list
  texts and page statuses in `Checks.Env`, entry documents in
  `Discovery.RawSource`. The rank limit and the number formatter
  (`toLocaleString`) are parameters in `Checks.Env`.
- A listing or document that cannot be obtained or decoded is `Failed(reason)`.

Modules:

| file | module | models |
|---|---|---|
| common.dfy | `Common` | results, fetch outcomes, verdicts, responses |
| text.dfy | `Text` | `String.prototype.trim`, `split` on one character, `Array.prototype.join` |
| logger.dfy | `Log` | the logger singleton |
| similarweb.dfy | `SimilarWeb` | the rank test |
| facebook.dfy | `Facebook` | the verdict of the page probe |
| blocklist.dfy | `Blocklist` | list parsing, the URL cache, the blocklist test |
| filedomain.dfy | `FileDomain` | the filename regular expression of the passkeys discovery |
| discovery.dfy | `Discovery` | `fetchEntries` of both handlers |
| checks.dfy | `Checks` | the tests of one entry, in order, and one test's effect on the state |
| passkeys.dfy | `Passkeys` | the passkeys handler |
| twofactorauth.dfy | `TwoFactorAuth` | the twofactorauth handler |

### Behaviour of the code worth knowing

- Nothing normalises a domain to its base domain. Blocklist membership is
  exact string equality.
- No HTTP status gets special treatment beyond `res.ok`.
- The blocklist lookup never checks `res.ok`: an error page is parsed as a
  list.
- The list cache has no freshness window; an entry is kept for the life of
  the process.
- Annotation lines have no `title=` field.
- passkeys stops all entries at the first rejection, and keeps the logger's
  lines when it answers 400.
- twofactorauth answers before its tests settle (see Findings).

## Model

| member | source | states |
|---|---|---|
| `Text.Trim` | src/tests/Blocklist.js:55 | the trimmed line has whitespace at neither end and is no longer than the line |
| `Text.TrimRemovesOnlyEdges` | src/tests/Blocklist.js:55 | the trimmed line is an infix of the line with only whitespace before it and only whitespace after it |
| `Text.TrimOfPadded` | src/tests/Blocklist.js:55 | whitespace, a string with no whitespace at its ends, then whitespace, trims to exactly that string (this determines `trim`) |
| `Text.TrimWhitespaceAround` | src/tests/Blocklist.js:55 | adding whitespace around any string does not change its trim |
| `Text.TrimUnpadded` | src/tests/Blocklist.js:55 | a string without whitespace at its ends is its own trim |
| `Text.TrimIdempotent` | src/tests/Blocklist.js:55 | trimming twice is trimming once |
| `Text.TrimKeepsFirst` | src/tests/Blocklist.js:55-56 | a line that starts with a non-whitespace character (such as `#`) still starts with it after trimming |
| `Text.Split` | src/tests/Blocklist.js:51 | a split has at least one piece |
| `Text.SplitPiecesAreClean` | src/tests/Blocklist.js:51 | no piece of a split contains the separator |
| `Text.JoinSplit` | src/tests/Blocklist.js:51 | joining the pieces with the separator gives back the text |
| `Text.Join` | src/passkeys.js:34 | `Array.prototype.join` with a one-character separator; its partners `Text.JoinSplit` and `Text.SplitJoin` state that it inverts `Text.Split` in both directions |
| `Text.SplitJoin` | src/passkeys.js:34 | splitting a join of separator-free pieces gives back the pieces |
| `Text.SplitAround` | src/tests/Blocklist.js:51 | the pieces of `a + sep + b` are the pieces of `a` followed by the pieces of `b` |
| `Text.SplitAfterPiece` | src/tests/Blocklist.js:51 | a separator-free piece followed by the separator is split off whole |
| `Text.SplitPiece` | src/tests/Blocklist.js:51 | a text without the separator splits into itself alone |
| `Log.AddMessage` | src/logger.js:6-10 | appends exactly `<test>: <message>`; one more line, earlier lines unchanged |
| `Log.AddWarning` | src/logger.js:17-21 | appends exactly `::warning file=<file>:: <message>`; one more line, earlier lines unchanged |
| `Log.AddError` | src/twofactorauth.js:16 | the `addError` the handler calls, assumed to append `::error file=<file>:: <message>` in the same way |
| `Log.Clear` | src/logger.js:27-29 | a cleared logger is the freshly constructed, empty one |
| `Log.ClearThenReplay` | src/logger.js:27-29 | after a clear, the logger holds exactly the lines of the later add calls |
| `Log.ApplyAppends` | src/logger.js:9 | one add call appends its own line |
| `Log.ReplayIsAppend` | src/logger.js:6-21 | a run of add calls appends their lines, in call order, after the earlier ones |
| `Log.GetMessages` | src/logger.js:23-25 | `getMessages()`: the logger's lines; `Log.ReplayAppendsInOrder` states they are the earlier lines followed by one line per add call, in call order |
| `Log.ReplayAppendsInOrder` | src/logger.js:23-25 | `getMessages` returns the earlier lines unchanged and then one line per call in insertion order |
| `Log.ReplayConcat` | src/logger.js:6-21 | two runs of add calls in turn give the same logger as their concatenation |
| `Log.AnnotationMessage` | src/logger.js:18 | reads a line back as an annotation of a kind and file: some message exactly when the line is that annotation of it |
| `Log.WarningRoundTrip` | src/logger.js:18 | a warning line reads back as its file's warning with its message and never as an error |
| `Log.ErrorRoundTrip` | src/twofactorauth.js:16 | an error line reads back as its file's error with its message and never as a warning |
| `Log.MessageIsNotAnnotation` | src/logger.js:7 | a plain message of a named test is not an annotation of any kind |
| `Log.AnnotationInjective` | src/logger.js:18 | different messages give different annotation lines |
| `SimilarWeb.Classify` | src/tests/SimilarWeb.js:13-31 | each of the five outcomes occurs exactly under its full condition, with the guards in source order |
| `SimilarWeb.Rank` | src/tests/SimilarWeb.js:1-32 | resolves to 1 exactly on a soft pass and 0 exactly within the limit; otherwise rejects with the fetch failure's reason or the message of its outcome |
| `SimilarWeb.RankAtLimitPasses` | src/tests/SimilarWeb.js:26-31 | a rank equal to the limit passes and one above it rejects |
| `SimilarWeb.PassIsMonotoneInLimit` | src/tests/SimilarWeb.js:26 | a passing reply still passes, with the same value, under a larger limit |
| `SimilarWeb.NonOkIgnoresBody` | src/tests/SimilarWeb.js:13 | a non-ok status rejects with `Unable to fetch website rank` whatever the body |
| `SimilarWeb.SoftPassIgnoresRank` | src/tests/SimilarWeb.js:19 | an ok reply whose `meta.status` is not `Success` resolves to 1 whatever the rank fields |
| `Facebook.Probe` | src/tests/Facebook.js:10-11 | passes exactly on an ok status; a non-ok page rejects naming the handle |
| `Blocklist.UrlInjective` | src/tests/Blocklist.js:7-11 | a list URL determines its category |
| `Blocklist.ParseList` | src/tests/Blocklist.js:50-59 | the set built from the downloaded text; `Blocklist.ParseListExactly` states its exact membership and `Blocklist.ParsedDomainsAreClean` that every member is a clean domain |
| `Blocklist.CollectDomainsExactly` | src/tests/Blocklist.js:54-59 | the set holds exactly the trimmed lines that are non-empty and do not start with `#` |
| `Blocklist.ParseListExactly` | src/tests/Blocklist.js:50-59 | the parsed set holds exactly the kept trimmed lines of the text split at newlines |
| `Blocklist.ParsedDomainsAreClean` | src/tests/Blocklist.js:55-57 | no parsed domain is empty, starts with `#`, has whitespace at either end, or contains a newline |
| `Blocklist.ParseOneLine` | src/tests/Blocklist.js:50-59 | a text without newlines parses to its trim if that is kept, else to nothing |
| `Blocklist.CollectOneLine` | src/tests/Blocklist.js:54-59 | one line contributes its trim exactly when the trim is kept |
| `Blocklist.CollectDomainsAppend` | src/tests/Blocklist.js:54-59 | the set of two runs of lines is the union of their sets |
| `Blocklist.ParseListAppend` | src/tests/Blocklist.js:50-59 | two texts joined by a newline parse to the union of their sets |
| `Blocklist.ParseListDuplicate` | src/tests/Blocklist.js:57 | duplicate lines collapse: a text listed twice parses to the same set |
| `Blocklist.ParseCommentLine` | src/tests/Blocklist.js:56 | a `#` line contributes nothing |
| `Blocklist.ParsePaddedLine` | src/tests/Blocklist.js:55-57 | a domain padded with non-newline whitespace contributes the bare domain |
| `Blocklist.ParseBlankLine` | src/tests/Blocklist.js:56 | a blank line contributes nothing |
| `Blocklist.ParseCleanLine` | src/tests/Blocklist.js:55-57 | a clean domain line contributes itself |
| `Blocklist.ExactMembership` | src/tests/Blocklist.js:24 | membership is exact equality: a list with a comment, padding, a carriage return, a blank line and a duplicate holds the domain alone, and its `www.` subdomain is not a member |
| `Blocklist.FetchAndCacheList` | src/tests/Blocklist.js:39-64 | a cached URL is answered from the cache with no request; otherwise the URL is requested once and its parse is cached; a failed request leaves the cache as it was |
| `Blocklist.LookupTouchesOnlyItsUrl` | src/tests/Blocklist.js:61 | a lookup leaves the entries of every other URL unchanged |
| `Blocklist.LookupConsults` | src/tests/Blocklist.js:40-63 | the lookup of a category's URL yields the cached set, else a fresh download |
| `Blocklist.FetchOnceThenReuse` | src/tests/Blocklist.js:40-63 | after a successful lookup, a second one for the same URL returns the same set, makes no request and keeps the cache |
| `Blocklist.LookupIsTransparent` | src/tests/Blocklist.js:39-64 | with a cache that agrees with the server, a lookup yields what a download would, and the cache keeps agreeing |
| `Blocklist.ScanLists` | src/tests/Blocklist.js:22-29 | starts one lookup per category against the cache as the test found it; `Blocklist.ScanVerdict`, `Blocklist.ScanRejectsFirst` and `Blocklist.ScanCachesCategory` state its rejection and cache |
| `Blocklist.ScanRejectsFirst` | src/tests/Blocklist.js:22-29 | the lookups reject with the reason of the first category, in declaration order, whose promise rejects |
| `Blocklist.FirstFindingNone` | src/tests/Blocklist.js:22-29 | nothing rejects exactly when no category's promise rejects |
| `Blocklist.FirstFindingIsAFinding` | src/tests/Blocklist.js:22-29 | a rejection is the rejection of one of the categories |
| `Blocklist.ScanKeepsEntries` | src/tests/Blocklist.js:22-29 | the lookups keep every earlier cache entry unchanged |
| `Blocklist.ScanAddsOnlyCategories` | src/tests/Blocklist.js:22-29 | every entry the lookups add is the URL of a consulted category that resolved to a list |
| `Blocklist.ScanCachesCategory` | src/tests/Blocklist.js:22-29 | a category's URL is cached afterwards exactly when the category resolved to a list, and holds that list |
| `Blocklist.ScanFetchesUrl` | src/tests/Blocklist.js:40-41 | a URL is requested exactly when it belongs to a consulted category and was not cached |
| `Blocklist.ScanDependsOnlyOnListings` | src/tests/Blocklist.js:22-29 | which reason rejects depends only on what each category resolves to |
| `Blocklist.ScanVerdict` | src/tests/Blocklist.js:22-29 | over the three categories: no rejection exactly when every list was obtained without the domain; otherwise the reason of some category |
| `Blocklist.Check` | src/tests/Blocklist.js:21-31 | the blocklist test; `Blocklist.CheckVerdict`, `Blocklist.CheckCache`, `Blocklist.CheckFetches` and `Blocklist.CacheIsTransparent` state its verdict, logger, cache and requests |
| `Blocklist.CheckVerdict` | src/tests/Blocklist.js:21-31 | the test passes exactly when every list was obtained and none holds the domain, and then appends `Blocklist: <domain> not found in any list`; otherwise it rejects with the reason of a category and logs nothing |
| `Blocklist.ListedDomainIsRejected` | src/tests/Blocklist.js:24-25 | when every list was obtained and one holds the domain, the test rejects with `<domain> is categorized as a <list> website.` for a list that holds it |
| `Blocklist.CheckCache` | src/tests/Blocklist.js:40-63 | after the test, earlier entries are unchanged, a category's URL is cached exactly when its list was obtained and then holds that list, and nothing else is added |
| `Blocklist.CheckFetches` | src/tests/Blocklist.js:40-41 | the test requests exactly the category URLs not yet cached |
| `Blocklist.CacheIsTransparent` | src/tests/Blocklist.js:12 | with a cache that agrees with the server, the verdict and the logger are those of a process that has cached nothing, and the cache keeps agreeing |
| `Blocklist.CoherentConsultsDownload` | src/tests/Blocklist.js:40 | a cache that agrees with the server resolves every category as a download would |
| `Blocklist.CheckKeepsCoherence` | src/tests/Blocklist.js:61 | every entry the test leaves in the cache is the parse of a successful download of its URL |
| `Blocklist.ScanKeepsCoherentAt` | src/tests/Blocklist.js:61 | after the lookups, each cached entry is the parse of a successful download of its URL |
| `FileDomain.StripDomain` | src/passkeys.js:77 | the domain derived from an entry's path never contains a `/`; `FileDomain.StripDomainRoundTrip` states that `<dir>/<name>.<ext>` yields `name` |
| `FileDomain.Replace` | src/passkeys.js:77 | the global replace scanned from left to right; `FileDomain.DropsDirectory`, `FileDomain.DropsLastExtension` and `FileDomain.KeepsPlainName` state what it removes and keeps |
| `FileDomain.SlashMatch` | src/passkeys.js:77 | the directory alternative ends at a `/` and crosses no line terminator; without a match, the text does not start with `/` |
| `FileDomain.SlashMatchOnOneLine` | src/passkeys.js:77 | on one line, the directory alternative matches exactly when there is a `/`, and reaches the last one |
| `FileDomain.StripDomainHasNoSlash` | src/passkeys.js:77 | the derived domain never contains `/` |
| `FileDomain.DropsLastExtension` | src/passkeys.js:77 | a slash-free name followed by `.ext` loses exactly the last extension; dots inside the name stay |
| `FileDomain.KeepsFirst` | src/passkeys.js:77 | where neither alternative matches, the replace keeps the first character |
| `FileDomain.KeepsPlainName` | src/passkeys.js:77 | a name without `/` or `.` is kept whole |
| `FileDomain.DropsDirectory` | src/passkeys.js:77 | everything up to and including the last `/` is dropped |
| `FileDomain.StripDomainRoundTrip` | src/passkeys.js:77 | `<dir>/<name>.<ext>` yields `name` |
| `FileDomain.ExampleEntryPath` | src/passkeys.js:77 | `entries/e/example.com.json` yields `example.com` |
| `Discovery.Candidates` | src/passkeys.js:61-68 | the candidates are no more than the records listed |
| `Discovery.CandidatesExactly` | src/passkeys.js:64-68 | a record is a candidate exactly when it is listed, its status is not `removed` and its path starts with `entries/` |
| `Discovery.CandidatesAppend` | src/passkeys.js:61-81 | filtering keeps listing order: it distributes over concatenation |
| `Discovery.CandidatesAreCandidates` | src/passkeys.js:64-68 | every candidate is a listed, non-removed record under `entries/` |
| `Discovery.Discover` | src/passkeys.js:60-83 | the loop over the listing; `Discovery.DiscoverIsFilterThenTag` states that it equals filtering and then tagging each candidate with its document, failing at the first missing one |
| `Discovery.Tag` | src/passkeys.js:73-79 | the entry built from a record and its document; `Discovery.EntryFields` states its fields for each handler |
| `Discovery.DiscoverFiltersFirst` | src/passkeys.js:61-81 | discovery gives the same result on the listing and on its candidates alone |
| `Discovery.DiscoverTagsEach` | src/passkeys.js:61-81 | on candidates, discovery succeeds exactly when every document is available, and then yields one tagged entry per candidate in order |
| `Discovery.DiscoverStopsAtFirstMissing` | src/passkeys.js:70 | on candidates, a failure carries the reason of the first document that could not be obtained |
| `Discovery.DiscoverIsFilterThenTag` | src/passkeys.js:61-81 | discovery equals filtering and then fetching: it succeeds exactly when every candidate's document is available, and then yields one entry per candidate in listing order |
| `Discovery.DiscoverFailsAtFirstMissing` | src/passkeys.js:70 | a failed discovery carries the reason of the first candidate whose document could not be obtained |
| `Discovery.DiscoverReadsOnlyCandidates` | src/passkeys.js:64-70 | only candidates' documents are requested: oracles that agree on them give the same discovery |
| `Discovery.EntryFields` | src/passkeys.js:73-79 | each entry's `file` is its record's path; its domain is derived from the path in passkeys and taken from the document in twofactorauth; the other fields come from the document |
| `Discovery.FetchEntries` | src/passkeys.js:48-84 | a listing that cannot be obtained, or whose status is not ok, fails with its reason or its text before any entry is looked at; otherwise the result is discovery over its records |
| `Discovery.VariantsAgreeButForDomain` | src/twofactorauth.js:52-87 | both handlers discover the same files in the same order, and their entries differ only in `domain` |
| `Checks.AdditionalStepsInOrder` | src/passkeys.js:20-23 | each additional domain gets a rank test and then a blocklist test, in list order |
| `Checks.Plan` | src/passkeys.js:16-26 | the tests of one entry; `Checks.PlanOrder` states their order and `Checks.AdditionalStepsInOrder` the additional domains' part |
| `Checks.PlanOrder` | src/passkeys.js:16-26 | an entry's tests are rank then blocklist of the primary domain, the same pair per additional domain (none when the field is missing), and the Facebook test last and only when a handle is given |
| `Checks.Run` | src/passkeys.js:16-26 | only the blocklist test changes the process state |
| `Checks.BlocklistVerdictIgnoresLog` | src/tests/Blocklist.js:21-31 | the blocklist verdict does not depend on the logger |
| `Checks.RunIsStateless` | src/tests/Blocklist.js:40-63 | with a cache that agrees with the server, a test behaves as in a fresh process: the same verdict, only its own lines added, the cache still agreeing |
| `Passkeys.Handle` | src/passkeys.js:6-39 | a failed discovery throws and changes nothing; otherwise the answer is 400 or 200, and after a 200 the logger is empty |
| `Passkeys.RunSteps` | src/passkeys.js:14-31 | the tests of one entry, awaited in order; `Passkeys.RunStepsIsFlat` states it is that entry's part of the flat schedule |
| `Passkeys.RunEntries` | src/passkeys.js:13-32 | the loop over the entries; `Passkeys.RunEntriesIsFlat`, `Passkeys.RunScheduleCompletes` and `Passkeys.RunScheduleStops` state that it runs the flat schedule up to the first rejection |
| `Passkeys.RunStepsIsFlat` | src/passkeys.js:14-27 | the tests of one entry run as the entry's part of the flat schedule |
| `Passkeys.RunScheduleAppend` | src/passkeys.js:13-32 | a schedule in two parts runs the second from where the first completed, and not at all if the first stopped |
| `Passkeys.RunEntriesIsFlat` | src/passkeys.js:13-32 | the nested loops over entries and tests run the flat schedule |
| `Passkeys.RunScheduleKeepsCoherence` | src/passkeys.js:13-32 | the cache keeps agreeing with the server through the tests |
| `Passkeys.RunScheduleCompletes` | src/passkeys.js:13-32 | the tests complete exactly when none rejects in a fresh process, having logged every passing test's lines |
| `Passkeys.RunScheduleStops` | src/passkeys.js:27-31 | the tests stop at the first one that rejects, with its file and message, having logged the lines of the tests before it |
| `Passkeys.HandleReference` | src/passkeys.js:6-39 | the answer is 400 exactly when some test rejects, with body `::error file=<file>:: <message>` of the first, leaving the earlier lines in the logger; otherwise the body is every line so far joined by newlines and the logger is emptied |
| `Passkeys.ListingFailureRunsNothing` | src/passkeys.js:11 | a listing that cannot be obtained or is not ok throws before any test; logger and cache unchanged |
| `TwoFactorAuth.FailureEvent` | src/twofactorauth.js:15-33 | a rejection is a warning exactly for the rank test of an additional domain, an error otherwise, for the entry's file with the rejection's message |
| `TwoFactorAuth.Respond` | src/twofactorauth.js:6-43 | a failed discovery throws and changes nothing; otherwise the answer is 200 with the lines of the logger joined by newlines, as read after the tests settle when the version awaits them and before they do otherwise (as written) |
| `TwoFactorAuth.RunCaught` | src/twofactorauth.js:15-33 | one test with its `.catch` handler; `TwoFactorAuth.RunCaughtIsStateless` states the lines it adds |
| `TwoFactorAuth.RunAllEntries` | src/twofactorauth.js:13-40 | the loop over the entries without awaiting; `TwoFactorAuth.RunAllEntriesIsFlat` and `TwoFactorAuth.RunScheduleReference` state that every test runs and adds its lines in schedule order |
| `TwoFactorAuth.Handle` | src/twofactorauth.js:6-43 | the handler with both repairs; `TwoFactorAuth.HandleReference`, `TwoFactorAuth.OutageIsReported` and `TwoFactorAuth.HealthyRunReported` state its answer and state |
| `TwoFactorAuth.HandleAsWritten` | src/twofactorauth.js:6-43 | the handler as it stands; `TwoFactorAuth.HandleReference`, `TwoFactorAuth.OutageIsSilentAsWritten` and `TwoFactorAuth.HealthyRunAsWritten` state its answer and state |
| `TwoFactorAuth.RunAllStepsIsFlat` | src/twofactorauth.js:14-34 | the tests of one entry run as the entry's part of the flat schedule |
| `TwoFactorAuth.RunScheduleAppend` | src/twofactorauth.js:13-40 | a schedule in two parts runs the second from where the first left the state |
| `TwoFactorAuth.RunAllEntriesIsFlat` | src/twofactorauth.js:13-40 | the nested loops over entries and tests run the flat schedule |
| `TwoFactorAuth.RunCaughtIsStateless` | src/twofactorauth.js:15-33 | with a cache that agrees with the server, one test with its handler adds exactly the lines a fresh process would, and the cache keeps agreeing |
| `TwoFactorAuth.RunScheduleReference` | src/twofactorauth.js:13-40 | every test runs: the logger receives, after its earlier lines, the lines of every test in schedule order |
| `TwoFactorAuth.HandleReference` | src/twofactorauth.js:6-43 | the answer is 200; the logger keeps every earlier line and gains the lines of the request's tests in schedule order; a version that awaits the tests answers all of them, the code as written only the earlier ones |
| `TwoFactorAuth.Classification` | src/twofactorauth.js:15-33 | rejected rank test of an additional domain: one warning; any other rejection: one error; passing blocklist test: its message; other passing tests: nothing |
| `TwoFactorAuth.AsWrittenLosesOnlyErrors` | src/twofactorauth.js:16-33 | without `addError`, the events logged are those with `addError` in place, in the same order and multiplicity, with the error annotations filtered out; the number filtered out is the number of tests reported as errors |
| `TwoFactorAuth.OneEntryDiscovered` | src/twofactorauth.js:65-84 | a pull request adding one entry file discovers that entry with the document's domain |
| `TwoFactorAuth.OutageRun` | src/twofactorauth.js:13-42 | while the rank service and the list server are down, the logger gains one error line per test of the entry exactly when `addError` exists, and the answer carries the request's lines exactly when it is built after the tests settle; each repair is shown on its own |
| `TwoFactorAuth.OutageIsReported` | src/twofactorauth.js:15-19 | while the rank service and the list server are down, the corrected handler logs and answers one error line per test of the entry, in order |
| `TwoFactorAuth.OutageIsSilentAsWritten` | src/twofactorauth.js:16-19 | during the same outage, the handler as written logs nothing and answers only the earlier lines |
| `TwoFactorAuth.HealthyRun` | src/twofactorauth.js:13-42 | for an entry that passes every test, the blocklist message is logged whichever repairs are made, and the answer carries it exactly when it is built after the tests settle |
| `TwoFactorAuth.HealthyRunAsWritten` | src/twofactorauth.js:13-42 | for an entry that passes every test, the blocklist message reaches the logger once the test settles, but the answer as written, built before that, does not carry it |
| `TwoFactorAuth.HealthyRunReported` | src/twofactorauth.js:13-42 | for the same entry, the corrected handler logs the blocklist message and its answer carries it |

## Left out

- Requests and decoding: `fetch`, `res.text()` and `res.json()` are oracles. A body that the code decodes and that cannot be decoded is a failed request; the rank test rejects a non-ok reply before decoding its body, so such a reply is modelled by its status.
- Transport settings: the `cf` cache options and request headers.
- Logging to the console: `console.debug` has no effect on results.
- Routing: `src/router.js` is not part of this model. The repository name and pull-request number only address requests.
- Requests served side by side: the model runs one request at a time, with the logger and cache carried from one request to the next.
- Blocklist.Check: `Promise.all` rejects with whichever rejection comes first in time. The model takes the first in category order. Its contract (`Blocklist.CheckVerdict`) promises only that the reason is that of some rejecting category, which holds for every order.
- TwoFactorAuth.RunAllEntries: the tests settle one after another in plan order. In the source they interleave, so the lines of a request can arrive in another order, and several blocklist tests of one request can each request a list that is not cached yet. By `Checks.RunIsStateless`, the verdicts and lines do not depend on the cache, only the number of requests does.
- TwoFactorAuth.HandleReference: the state after a request is the state once every unawaited test has settled, and the next request starts from it. The source does not decide this: the response is returned without `waitUntil`, so the runtime may cancel pending tests, and a later request may run in another isolate with a fresh module-level logger and cache. The same assumption underlies `TwoFactorAuth.OutageRun`, `TwoFactorAuth.HealthyRun` and the logged halves of the lemmas built on them; what the answer of the request itself holds does not depend on it.
- Blocklist.CheckCache: after a rejection, `Promise.all` rejects at once and passkeys answers 400 without waiting for the other list downloads. The model's cache is the one once every download has settled, so the promise that each obtained list is cached holds only if the runtime lets those downloads finish; the verdicts do not depend on it (`Blocklist.CacheIsTransparent`). The same holds for `Blocklist.ScanCachesCategory` and for the state `Passkeys.HandleReference` gives after a 400.
- TwoFactorAuth.HandleReference and Passkeys.HandleReference assume a cache that agrees with the list server. `Handle` itself also covers a list that changed after it was cached.
- SimilarWeb.OverLimitMessage: `toLocaleString` is locale-dependent, so it is a `format` parameter.
- The rank limit is an integer. A `null` rank (which JavaScript compares as 0), a non-numeric rank, a missing `meta` or a `null` `similar_rank` (each a `TypeError`) are not modelled. A missing `rank` field compares false and passes, and is modelled.
- Third arguments: the `title` passed to `addWarning`, and the third argument passed to `SimilarWeb` by passkeys, are ignored by the source and have no counterpart here.
- Facebook: only the probe's verdict on the page status is modelled.
- The 500 answer of twofactorauth (src/twofactorauth.js:35-38): an unawaited test never throws synchronously. It needs a malformed document, such as a non-iterable `additional-domains`, which the entry types exclude. For the same reason, an entry document that is not an object, or a `domain` that is not a string, is not modelled.

## Findings

`TwoFactorAuth.Version` records the two repairs separately: `hasAddError`
(the logger has an `addError` shaped like `addWarning`) and `awaitsTests`
(the answer is built once the tests settle). `AsWritten` has neither and
`Corrected` has both; `OutageRun` and `HealthyRun` state each repair on its
own.

| source | as written | input that shows it | evidently intended | confidence | as-written member | corrected member |
|---|---|---|---|---|---|---|
| src/twofactorauth.js:16-33 | every `.catch` handler except the additional-domain rank one calls `logger.addError`, which the logger (src/logger.js:1-30) does not define. The handler throws a `TypeError`, and the rejection leaves no line. | an entry whose primary rank test rejects, e.g. while the rank service answers 500 | one `::error file=<file>:: <message>` line per rejection, shaped like `addWarning` | high; not executed | `TwoFactorAuth.OutageIsSilentAsWritten` | `TwoFactorAuth.OutageIsReported` |
| src/twofactorauth.js:13-42 | the tests are started without `await`, and the answer joins the logger's lines at line 42, before any of them settles. If the runtime lets them finish, a request's results reach only a later answer served by the same process, since the logger is never cleared. | an entry that passes every test: its blocklist message is logged, but the answer built for it does not hold the message | the answer reports the request's own tests, built once every test has settled | high; not executed | `TwoFactorAuth.HealthyRunAsWritten` | `TwoFactorAuth.HealthyRunReported` |
