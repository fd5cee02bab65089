# Website analysis and UK text helpers, in Dafny

This project models two parts of a UK lead-generation tool.

- **The website analyser** (`src/core/analyzer.py`). `analyze_website` builds a
  results record for one URL in four stages:
  1. It prepends `https://` when the URL has no scheme.
  2. The basic checks run: SSL, a HEAD probe of the HTTPS variant, and one GET.
     That GET gives the HTTP status, a cross-domain redirect, the viewport meta
     tag and the page size.
  3. One of two things follows. If Lighthouse is available, its JSON report is
     read: four category scores and nine audits. If not, the source adds a
     notice and a second GET feeds four fallback heuristics.
  4. The priority is computed: 1 for an unreachable site, 2 for a poor one,
     3 for a good one.
- **Three text helpers** (`src/utils/helpers.py`):
  - `validate_uk_location` accepts a non-blank location that matches the
    postcode pattern, or that has at least three characters, all letters,
    whitespace, hyphens or apostrophes (the city list never decides).
  - `extract_postcode` finds the leftmost UK postcode and normalises its
    spacing.
  - `format_business_type` drops stop words, capitalises what remains and
    defaults to `"Business"`.

Files:

- `wrappers.dfy`: `Option`, standing for Python's `None` and a present value.
- `text.dfy`: ASCII string operations as Python defines them: `upper`, `lower`,
  `in` on strings, `split()`, `strip()`, `' '.join` and `str(int)`, each with
  its characterising lemmas.
- `analyzer.dfy`: the pipeline. The results dictionary is an immutable
  `Analysis` record.
  - Each issue is an `Issue` value. `IssueText` renders it to the exact string
    the source appends.
  - The priority looks for its marker in the space-joined rendered text, as
    the source does.
  - Network requests, the Lighthouse run and `urlparse(...).netloc` are
    functions held in a `World` value, so every stage is a pure function of
    the URL.
- `analyzer_properties.dfy`: each stage related to an independent
  description of what it appends and which scores it sets. It also covers the
  whole pipeline: issue order, SSL and the scheme, the no-report case, and
  unreachable sites.
- `helpers.dfy`: the three text helpers and their properties.
  - The postcode regular expression is modelled as a backtracking matcher over
    its eight shapes, in the order Python's `re` tries them.
  - An independent outward-code/inward-code description is proved to agree
    with it.
- `helpers_examples.dfy`: worked examples of the helpers.

Lighthouse scores are exact reals, and `int(score * 100)` is truncation
toward zero. The page-size test `len(content) / 1024 > 5000` is exact for
these magnitudes; `LargePageThreshold` proves it equals `bytes > 5120000`.
`f"{n / 1024:.1f}"` rounds half to even in tenths; dividing by 1024 is exact.

For an empty URL `analyze_website` returns early, before it sets a priority,
so `priority` stays `None` there.

## Model

| member | source | states |
|---|---|---|
| `Analyzer.AnalyzeWebsite` | src/core/analyzer.py:75-110 | An empty URL yields only the "No URL provided" issue, zero scores and no priority. Any other URL gets a priority between 1 and 3, and that priority is the one `_calculate_priority` gives for the returned record. |
| `Analyzer.EffectiveUrl` | src/core/analyzer.py:91-92 | The URL used by every stage has a scheme. It is the given URL when that has one, and otherwise `https://` followed by the given URL. |
| `AnalyzerProperties.EffectiveUrlHttps` | src/core/analyzer.py:91-92 | The effective URL starts with `https://` exactly when the given URL does not start with `http://`. |
| `AnalyzerProperties.SslFollowsScheme` | src/core/analyzer.py:91-116 | `has_ssl` of the final result holds exactly when the URL does not start with `http://`. |
| `AnalyzerProperties.NoSslIssueFollowsScheme` | src/core/analyzer.py:91-118 | The missing-SSL issue is in the final result exactly when the URL starts with `http://`. No later stage adds it. |
| `AnalyzerProperties.HttpUrlReportsNoSsl` | src/core/analyzer.py:91-118 | A URL starting with `http://` ends with the missing-SSL issue among its issues. |
| `AnalyzerProperties.SecureUrlHasNoSslIssue` | src/core/analyzer.py:91-118 | Any other URL is checked over HTTPS and ends without the missing-SSL issue. |
| `AnalyzerProperties.LaterStagesAddNoSsl` | src/core/analyzer.py:97-105 | The stages after the basic checks only append, and never the missing-SSL issue. |
| `AnalyzerProperties.FallbackAddsNoSsl` | src/core/analyzer.py:104-105 | The fallback, after its Lighthouse-unavailable notice, only appends, and never the missing-SSL issue. |
| `Analyzer.NewWebsiteAnalyzer` | src/core/analyzer.py:16-24 | Lighthouse counts as available exactly when the analyser was asked to use it and the probe found it. |
| `Analyzer.HttpsVariant` | src/core/analyzer.py:121 | The URL the HEAD probe tries is `https://` followed by the URL without its `http://`, or by the whole URL when it has no `http://`. |
| `Analyzer.CheckSsl` | src/core/analyzer.py:116-127 | Appends at most two issues and records SSL exactly for `https://` URLs. It changes nothing else. |
| `AnalyzerProperties.CheckSslAppend` | src/core/analyzer.py:116-127 | Appends nothing for HTTPS. Otherwise it appends the missing-SSL issue, then the HTTPS-available notice exactly when the probe answered below 400. |
| `Analyzer.CheckPage` | src/core/analyzer.py:137-150 | Appends at most three issues and records a viewport exactly when the lower-cased page contains `viewport`. |
| `AnalyzerProperties.CheckPageAppend` | src/core/analyzer.py:137-150 | Appends the redirect issue when the netlocs differ, then the viewport issue when none is found, then the size issue for pages over 5,120,000 bytes, in that order. |
| `Analyzer.CheckWebsiteBasics` | src/core/analyzer.py:112-155 | Only appends (at most five issues), sets only the SSL and viewport flags, and finds a viewport only on a page answering below 400. |
| `AnalyzerProperties.BasicsAppend` | src/core/analyzer.py:112-155 | Appends the SSL issues, then one issue per request exception (access error or basic-analysis error), or the status issue, or the page issues. A viewport is recorded exactly for a page below 400 that names one. |
| `AnalyzerProperties.ErrorStatusEndsBasics` | src/core/analyzer.py:133-135 | A status of 400 or more adds only its own issue after the SSL issues, and no viewport is recorded. |
| `AnalyzerProperties.LargePageThreshold` | src/core/analyzer.py:148-149 | `len(content) / 1024 > 5000` holds exactly when the page has more than 5,120,000 bytes. |
| `Analyzer.RoundedTenths` | src/core/analyzer.py:150 | The kilobyte figure in the size issue is within half a tenth of the exact size. Ties round to even. |
| `Text.IntToString` | src/core/analyzer.py:134 | The status in the issue text is the decimal form of the code: a minus sign exactly for negatives, then digits whose value is the magnitude. It is never empty and has no leading zero. |
| `Analyzer.Truncate` | src/core/analyzer.py:289 | `int()` on a score truncates toward zero. |
| `Analyzer.ApplyCategories` | src/core/analyzer.py:286-298 | Sets only scores, and only those of categories present in the report. An exception comes from a missing or null category score. |
| `AnalyzerProperties.ApplyReadableCategories` | src/core/analyzer.py:286-298 | When every present category carries a number, each present category's score becomes its truncated percentage and nothing is raised. |
| `AnalyzerProperties.ReadableCategoryScore` | src/core/analyzer.py:286-298 | For any reading order of readable categories, a listed category present in the report gets its truncated percentage. Every other category keeps its score. |
| `AnalyzerProperties.UnreadableCategoryStops` | src/core/analyzer.py:286-298 | The first present category with a missing or null score raises the matching exception. The scores set before it are kept. |
| `Analyzer.CheckAudits` | src/core/analyzer.py:301-344 | Only appends audit issues, at most one per audit. A null score raises before the last audit. |
| `AnalyzerProperties.CheckReadableAudits` | src/core/analyzer.py:301-344 | Without null scores, the appended issues are exactly one per present audit scoring below 0.5, in audit order. A missing score counts as 1. |
| `AnalyzerProperties.NullAuditStops` | src/core/analyzer.py:301-344 | The first audit with a null score stops the reading and keeps the issues of the failing audits before it. |
| `Analyzer.ProcessLighthouseResults` | src/core/analyzer.py:282-347 | Only appends (at most nine issues), leaves the flags and priority, and leaves the score of every category absent from the report. |
| `AnalyzerProperties.ReadableReportIssues` | src/core/analyzer.py:282-344 | A readable report appends exactly the failing-audit issues, in audit order. |
| `AnalyzerProperties.ReadableReportScores` | src/core/analyzer.py:286-298 | A readable report sets each present category to `int(score * 100)` and leaves the others. |
| `AnalyzerProperties.AuditsKeepScores` | src/core/analyzer.py:300-347 | Reading the audits, and turning an exception into an issue, never change a score set by the categories. |
| `AnalyzerProperties.NullAuditReport` | src/core/analyzer.py:301-347 | A report whose first null audit is at position `j` appends the failing audits before `j`, then the processing-error issue. |
| `AnalyzerProperties.UnreadableCategoryIssues` | src/core/analyzer.py:286-298 | A report with an unreadable category score appends only the processing-error issue. No audit is read. |
| `AnalyzerProperties.UnreadableCategoryScores` | src/core/analyzer.py:286-298 | The categories before the unreadable one get their scores. The rest keep theirs. |
| `AnalyzerProperties.ReportAddsAuditIssues` | src/core/analyzer.py:282-347 | The Lighthouse stage appends nothing but audit issues and the processing-error issue. |
| `AnalyzerProperties.ReadReportAddsAuditFailures` | src/core/analyzer.py:300-344 | Before an exception becomes an issue, reading a report appends only failed-audit issues. |
| `AnalyzerProperties.ReportAddsNoSsl` | src/core/analyzer.py:282-347 | The Lighthouse stage never appends the missing-SSL issue. |
| `AnalyzerProperties.EmptyReportChangesNothing` | src/core/analyzer.py:99-101 | Processing an empty report is the identity. So skipping a falsy report (`if lighthouse_results:`) and processing it agree. |
| `Analyzer.MissingHeaderNames` | src/core/analyzer.py:391-392 | The reported headers are exactly the security headers absent from the response, with no others. |
| `Analyzer.MissingHeaderNamesAppend` | src/core/analyzer.py:391-392 | The missing names of two lists in a row are the missing names of the first, then those of the second, so the report keeps the order of `security_headers`. |
| `Analyzer.MissingHeaderName` | src/core/analyzer.py:392 | A single wanted header is reported exactly when the response lacks it. |
| `AnalyzerProperties.AltTextTestCollapses` | src/core/analyzer.py:383 | The alt-text test as written reduces to an `<img ` tag with no ` alt="` in the page. |
| `AnalyzerProperties.PerformanceHeuristicSpec` | src/core/analyzer.py:360-364 | Performance is 50 with the large-page issue exactly for more than 1,000,000 bytes, and 70 otherwise. |
| `AnalyzerProperties.SeoHeuristicSpec` | src/core/analyzer.py:366-377 | SEO is 40 exactly when the title or the description is missing, and 60 otherwise. One issue is appended per missing item, title first. |
| `AnalyzerProperties.AccessibilityHeuristicSpec` | src/core/analyzer.py:379-385 | Accessibility is 40 with the alt-text issue exactly when an image tag appears and no ` alt="` does, and 50 otherwise. |
| `AnalyzerProperties.BestPracticesHeuristicSpec` | src/core/analyzer.py:387-396 | Best practices is 40 with one issue naming the missing headers exactly when some security header is absent, and 60 otherwise. |
| `Analyzer.PerformBasicAnalysis` | src/core/analyzer.py:349-399 | Only appends, and keeps the flags. A failed request appends exactly the basic-analysis error. |
| `AnalyzerProperties.FallbackIssuesOnPage` | src/core/analyzer.py:349-396 | On a fetched page the fallback appends exactly the heuristic issues, in the source's order. |
| `AnalyzerProperties.FallbackScoresOnPage` | src/core/analyzer.py:359-396 | On a fetched page the fallback sets each of the four scores from its own test. |
| `Analyzer.CalculatePriority` | src/core/analyzer.py:401-422 | The priority is between 1 and 3. It is 1 exactly when the space-joined issues contain "Error accessing website". |
| `AnalyzerProperties.PriorityLevels` | src/core/analyzer.py:401-422 | Without the marker, the priority is 2 exactly when the scores sum below 240 or there are more than three issues, and 3 otherwise. |
| `AnalyzerProperties.AccessErrorIsPriorityOne` | src/core/analyzer.py:404-405 | Any access-error issue, wherever it sits, makes the priority 1. |
| `AnalyzerProperties.IssuesOnlyGrow` | src/core/analyzer.py:94-108 | The final issues begin with the issues of the basic checks: the SSL issues, then those of the GET. |
| `AnalyzerProperties.LaterStagesAppend` | src/core/analyzer.py:97-105 | The Lighthouse stage or the fallback keeps the issues of the basic checks as a prefix. |
| `AnalyzerProperties.FallbackFollowsNotice` | src/core/analyzer.py:102-105 | Without Lighthouse the issues are the basic ones, then the Lighthouse-unavailable notice, then the fallback's. |
| `AnalyzerProperties.ReportFollowsBasics` | src/core/analyzer.py:97-101 | With a readable report the issues are the basic ones followed by the failing audits. |
| `AnalyzerProperties.NoReportKeepsBasics` | src/core/analyzer.py:97-101 | When Lighthouse yields no report, the result is the basic checks with all scores 0, so the priority is 1 or 2. |
| `AnalyzerProperties.UnreachableSiteIsPriorityOne` | src/core/analyzer.py:152-153 | A GET that raises a request exception makes the final priority 1, whatever later stages add. |
| `Text.StripEmptyIffAllSpace` | src/utils/helpers.py:26 | `location.strip()` is empty exactly when the location is all whitespace. |
| `Helpers.ValidateUkLocation` | src/utils/helpers.py:15-51 | A blank location is rejected and a full postcode match (upper-cased, `$` allowing one final newline) is accepted. |
| `Helpers.PostcodeMatchNotBlank` | src/utils/helpers.py:26-32 | Text that matches the postcode pattern is never blank, so the blank check cannot reject a postcode. |
| `Helpers.PostcodeMatchDigit` | src/utils/helpers.py:30-31 | Text matching the postcode pattern holds a digit. |
| `Helpers.PostcodeStartsWithLetter` | src/utils/helpers.py:30-31 | Text whose first character is not an upper-case letter never fully matches the postcode pattern. |
| `Helpers.ValidateIgnoresCityList` | src/utils/helpers.py:34-51 | The city list never decides the outcome. A location is valid exactly when it is not blank and is a postcode, or has at least three characters that are all letters, whitespace, hyphens or apostrophes. |
| `Helpers.ListedLocationIsValid` | src/utils/helpers.py:26-45 | A listed city, in any case, is accepted, and is also not blank and passes the character-class check. |
| `Helpers.UnlistedLocation` | src/utils/helpers.py:26-51 | A location not on the list is valid exactly when it is not blank and is a postcode, or has at least three name characters. |
| `Helpers.MajorUkLocationsAreWords` | src/utils/helpers.py:35-42 | Every listed city is at least three lower-case ASCII letters. |
| `Helpers.ListedLocationIsNameChars` | src/utils/helpers.py:35-49 | Every listed city, in any case, is not blank and also passes the character-class check. |
| `Helpers.FirstFit` | src/utils/helpers.py:155-156 | At a position, the match taken is the first of the eight pattern shapes, in backtracking order, that fits. `None` means no shape fits. |
| `Helpers.Find` | src/utils/helpers.py:156 | The search returns the leftmost matching position, and `None` only when no position matches. |
| `Helpers.FitIsMatchText` | src/utils/helpers.py:155 | Every match is an outward code, an optional space and an inward code. |
| `Helpers.SpacedPostcodeIsPostcode` | src/utils/helpers.py:30 | Every outward-space-inward postcode fully matches the validation pattern. |
| `Helpers.FitsSpacedPostcodeWhole` | src/utils/helpers.py:155-156 | A match at the start of a spaced postcode spans all of it. |
| `Helpers.Respace` | src/utils/helpers.py:161-165 | The spacing step yields one space before the inward code. It keeps the non-space characters and leaves an already spaced match alone. |
| `Helpers.UnspacedMatch` | src/utils/helpers.py:155-162 | A match whose text before the inward code is an outward code has no space. |
| `Helpers.SpaceBeforeInward` | src/utils/helpers.py:155-162 | A match whose text before the inward code is not an outward code has its space right before the inward code. |
| `Helpers.UnspacedIsOutward` | src/utils/helpers.py:162-164 | A match without a space splits into an outward code and the last three characters. |
| `Helpers.SpacedMatch` | src/utils/helpers.py:162-167 | A match with a space is already an outward code, one space and an inward code. |
| `Helpers.InsertedSpace` | src/utils/helpers.py:162-165 | Putting the space before the last three characters of an unspaced match gives a spaced postcode with the same non-space characters. |
| `Helpers.SpaceBetween` | src/utils/helpers.py:165 | An outward code, a space and an inward code form a spaced postcode. |
| `Text.NonSpaceSkipsSpace` | src/utils/helpers.py:165 | A space inserted between two texts does not change their non-space characters. |
| `Helpers.ExtractPostcode` | src/utils/helpers.py:141-169 | Empty text gives `None`. A result exists exactly when the upper-cased text contains a match, and it is always an outward code, one space and an inward code. |
| `Helpers.ExtractPostcodeIsLeftmostMatch` | src/utils/helpers.py:154-167 | The result is the leftmost match of the upper-cased text. Only its spacing changes, and a spaced match is returned as found. |
| `Helpers.ExtractPostcodeIdempotent` | src/utils/helpers.py:141-169 | Extracting from an extracted postcode returns it unchanged. |
| `Helpers.SpacedPostcodeFoundWhole` | src/utils/helpers.py:155-159 | The search finds a spaced postcode at position 0, and the match taken there spans the whole text. |
| `Helpers.SpacedPostcodeIsValidLocation` | src/utils/helpers.py:30-32 | Every extracted postcode passes location validation. |
| `Helpers.KeepWords` | src/utils/helpers.py:185-188 | The filter keeps exactly the words whose lower-case form is not a stop word. |
| `Helpers.KeepWordsAppend` | src/utils/helpers.py:188 | The filter distributes over concatenation, so kept words keep their order. |
| `Helpers.OnlyStopWordsKeepNothing` | src/utils/helpers.py:185-191 | Words that are all stop words, in any case, leave nothing, so the result is "Business". |
| `Helpers.CapitalizeIdempotent` | src/utils/helpers.py:194 | `capitalize()` applied twice equals applied once. |
| `Helpers.LowerOfCapitalize` | src/utils/helpers.py:188-194 | Capitalising does not change a word's lower-case form, so it cannot turn a word into a stop word. |
| `Helpers.FormatBusinessType` | src/utils/helpers.py:171-196 | Never empty. It is "Business" when every word is a stop word. Otherwise its words are the kept words, in order, each capitalised, joined by single spaces. |
| `Helpers.BusinessIsFixed` | src/utils/helpers.py:181-191 | The default "Business" formats to itself. |
| `Helpers.FormatBusinessTypeIdempotent` | src/utils/helpers.py:171-196 | Formatting a formatted business type changes nothing. |
| `Text.SplitJoin` | src/utils/helpers.py:187-194 | Splitting the space-joined non-empty, space-free words gives back those words. |
| `Text.SplitKeepsNonSpace` | src/utils/helpers.py:187 | `split()` drops exactly the whitespace: its words concatenate to the non-space characters of the input. |
| `HelperExamples.ExtractAddsSpace` | src/utils/helpers.py:156-165 | `extract_postcode("sw1a1aa")` is `"SW1A 1AA"`. |
| `HelperExamples.ValidateUnlistedTown` | src/utils/helpers.py:47-49 | "Milton Keynes" is valid by its characters, without being listed. |
| `HelperExamples.ValidateRejectsDigits` | src/utils/helpers.py:47-51 | "12345" is not a valid location. |
| `HelperExamples.FormatOnlyStopWords` | src/utils/helpers.py:188-191 | "the and" formats to "Business". |

## Left out

- Network I/O. `requests.head`, the two `requests.get` calls and `urlparse(...).netloc` are functions of the URL held in `World`.
  - The two GETs are independent functions, since the site may answer them differently.
  - A HEAD probe that raises is `None`, which the source swallows.
- `_check_lighthouse` and `_run_lighthouse`: Chrome detection, subprocesses, temporary files and JSON parsing. Availability is a boolean fixed at construction. A run's outcome is an optional parsed report.
- The shape of an arbitrary JSON report. A report is modelled as category and audit maps whose scores are missing, null or a number. Non-numeric scores and other malformed JSON raise other exceptions in the source and are not modelled.
- Floating point. Scores are exact reals, so `int(score * 100)` can differ from CPython for scores such as 0.29, where the double product is just below 29.
- Exception messages other than the three the report reader can raise. Request failures carry their `str(e)` as an opaque string.
- Unicode. `upper()`, `lower()`, `capitalize()`, `split()`, `strip()` and the regex classes are modelled for ASCII. Python's whitespace set includes `\x1c`-`\x1f`; non-ASCII whitespace and case mappings are not modelled.
- HTTP header names are compared case-insensitively over ASCII (`HasHeader`), as the response's case-insensitive mapping does.
- `Analyzer.ProcessLighthouseResults`: its contract bounds the issues and frames the record. The exact issues and scores are stated separately, by the lemmas of `AnalyzerProperties`.
- `clean_url`, `extract_phone_number`, `extract_email`, `rate_limit_sleep`, `get_resource_path`, `setup_logging` and all printing are outside the modelled core.
