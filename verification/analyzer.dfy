/** The website analysis pipeline of `src/core/analyzer.py`, with its network
    requests, the Lighthouse subprocess and URL parsing taken as inputs.

    One call threads an immutable `Analysis` record through four stages:
    the basic checks, then either the Lighthouse report or the fallback
    heuristics, then the priority. */
module Analyzer {
  import opened Wrappers
  import opened Text

  // =====================================================================
  // The Lighthouse report
  // =====================================================================

  /** The four Lighthouse categories the analyzer keeps a score for, in the
      order the report is read. */
  datatype Category = Performance | Accessibility | BestPractices | Seo

  const CategoryOrder: seq<Category> := [Performance, Accessibility, BestPractices, Seo]

  function CategoryKey(c: Category): string {
    match c
    case Performance => "performance"
    case Accessibility => "accessibility"
    case BestPractices => "best-practices"
    case Seo => "seo"
  }

  /** The nine audits the analyzer inspects, in the order it inspects them. */
  datatype AuditId =
    | LargestContentfulPaint | TotalBlockingTime | CumulativeLayoutShift
    | MetaDescription | DocumentTitle | ColorContrast | ImageAlt | IsOnHttps | Doctype

  const AuditOrder: seq<AuditId> := [
    LargestContentfulPaint, TotalBlockingTime, CumulativeLayoutShift,
    MetaDescription, DocumentTitle, ColorContrast, ImageAlt, IsOnHttps, Doctype
  ]

  function AuditKey(a: AuditId): string {
    match a
    case LargestContentfulPaint => "largest-contentful-paint"
    case TotalBlockingTime => "total-blocking-time"
    case CumulativeLayoutShift => "cumulative-layout-shift"
    case MetaDescription => "meta-description"
    case DocumentTitle => "document-title"
    case ColorContrast => "color-contrast"
    case ImageAlt => "image-alt"
    case IsOnHttps => "is-on-https"
    case Doctype => "doctype"
  }

  /** The `score` entry of a category or an audit: missing, JSON `null`, or
      a number (an exact real here, a double in the source). */
  datatype Score = Absent | Null | Num(value: real)

  datatype Audit = Audit(score: Score, displayValue: Option<string>)

  /** The parsed report. A missing `categories` or `audits` section reads as
      an empty one, as `dict.get(key, {})` makes it. */
  datatype Report = Report(categories: map<string, Score>, audits: map<string, Audit>)

  /** The exceptions a malformed report raises while it is read, with the
      message CPython gives each. */
  datatype Fault =
    | MissingCategoryScore     // `categories[name]['score']` raises KeyError
    | NullCategoryScore        // `None * 100` raises TypeError
    | NullAuditScore           // `None < 0.5` raises TypeError

  function FaultText(f: Fault): string {
    match f
    case MissingCategoryScore => "'score'"
    case NullCategoryScore => "unsupported operand type(s) for *: 'NoneType' and 'int'"
    case NullAuditScore => "'<' not supported between instances of 'NoneType' and 'float'"
  }

  // =====================================================================
  // Issues and the analysis record
  // =====================================================================

  /** One diagnostic. `IssueText` gives the exact string the source appends. */
  datatype Issue =
    | NoUrl
    | NoSsl
    | HttpsAvailable
    | HttpStatus(code: int)
    | Redirects(target: string)
    | NoViewport
    | LargePage(bytes: nat)
    | AccessError(detail: string)
    | BasicAnalysisError(detail: string)
    | AuditFailed(audit: AuditId, display: Option<string>)
    | ReportError(fault: Fault)
    | NoLighthouse
    | LargePageSize
    | MissingTitle
    | MissingDescription
    | MissingAltText
    | MissingHeaders(names: seq<string>)

  /** The marker the priority looks for. */
  const AccessErrorMarker := "Error accessing website"

  /** An f-string's rendering of `dict.get('displayValue')`. */
  function ShowDisplay(d: Option<string>): string {
    match d
    case None => "None"
    case Some(s) => s
  }

  function AuditText(a: AuditId, display: Option<string>): string {
    match a
    case LargestContentfulPaint => "Slow content loading (LCP: " + ShowDisplay(display) + ")"
    case TotalBlockingTime => "Poor interactivity (TBT: " + ShowDisplay(display) + ")"
    case CumulativeLayoutShift => "Layout shifts during loading (CLS: " + ShowDisplay(display) + ")"
    case MetaDescription => "Missing meta description"
    case DocumentTitle => "Missing or poor document title"
    case ColorContrast => "Poor color contrast for text"
    case ImageAlt => "Images missing alt text"
    case IsOnHttps => "Not using HTTPS"
    case Doctype => "Missing doctype"
  }

  /** Python's `f"{n / 1024:.1f}"`: the size in KB rounded to one decimal,
      ties to even (exact, since dividing by 1024 is exact in binary). */
  function KilobytesText(bytes: nat): string {
    var tenths := RoundedTenths(bytes);
    NatToString(tenths / 10) + "." + [DigitChar(tenths % 10)]
  }

  /** `bytes / 1024` in tenths, rounded to nearest with ties to even. */
  function RoundedTenths(bytes: nat): (t: nat)
    ensures -512 <= t * 1024 - bytes * 10 <= 512
    ensures t * 1024 - bytes * 10 == 512 ==> t % 2 == 0
    ensures t * 1024 - bytes * 10 == -512 ==> t % 2 == 0
  {
    var q := (bytes * 10) / 1024;
    var rem := (bytes * 10) % 1024;
    if rem > 512 || (rem == 512 && q % 2 == 1) then q + 1 else q
  }

  function IssueText(i: Issue): string {
    match i
    case NoUrl => "No URL provided"
    case NoSsl => "Website does not use SSL (https)"
    case HttpsAvailable => "HTTPS is available but not used by default"
    case HttpStatus(code) => "Website returns HTTP status " + IntToString(code)
    case Redirects(target) => "Website redirects to " + target
    case NoViewport => "No mobile viewport meta tag found"
    case LargePage(bytes) => "Page size is large (" + KilobytesText(bytes) + " KB)"
    case AccessError(detail) => AccessErrorMarker + ": " + detail
    case BasicAnalysisError(detail) => "Error during basic analysis: " + detail
    case AuditFailed(a, display) => AuditText(a, display)
    case ReportError(f) => "Error processing Lighthouse results: " + FaultText(f)
    case NoLighthouse => "Lighthouse not available for detailed analysis"
    case LargePageSize => "Large page size"
    case MissingTitle => "Missing page title"
    case MissingDescription => "Missing meta description"
    case MissingAltText => "Images may be missing alt text"
    case MissingHeaders(names) => "Missing security headers: " + Join(", ", names)
  }

  /** The `issues` list as the source holds it: strings. */
  function IssueTexts(issues: seq<Issue>): (texts: seq<string>)
    ensures |texts| == |issues|
    ensures forall k :: 0 <= k < |issues| ==> texts[k] == IssueText(issues[k])
  {
    seq(|issues|, k requires 0 <= k < |issues| => IssueText(issues[k]))
  }

  /** The results dictionary. `priority` is `None` while the key is absent. */
  datatype Analysis = Analysis(
    performanceScore: int,
    seoScore: int,
    accessibilityScore: int,
    bestPracticesScore: int,
    hasSsl: bool,
    hasMobileViewport: bool,
    issues: seq<Issue>,
    priority: Option<int>)

  /** The results dictionary before any stage has run. */
  const Fresh := Analysis(0, 0, 0, 0, false, false, [], None)

  function AddIssue(r: Analysis, i: Issue): (r': Analysis)
    ensures r'.issues == r.issues + [i]
    ensures r' == r.(issues := r'.issues)
  {
    r.(issues := r.issues + [i])
  }

  function ScoreOf(r: Analysis, c: Category): int {
    match c
    case Performance => r.performanceScore
    case Accessibility => r.accessibilityScore
    case BestPractices => r.bestPracticesScore
    case Seo => r.seoScore
  }

  function WithScore(r: Analysis, c: Category, v: int): (r': Analysis)
    ensures ScoreOf(r', c) == v
    ensures forall d :: d != c ==> ScoreOf(r', d) == ScoreOf(r, d)
    ensures r'.issues == r.issues && r'.hasSsl == r.hasSsl
    ensures r'.hasMobileViewport == r.hasMobileViewport && r'.priority == r.priority
  {
    match c
    case Performance => r.(performanceScore := v)
    case Accessibility => r.(accessibilityScore := v)
    case BestPractices => r.(bestPracticesScore := v)
    case Seo => r.(seoScore := v)
  }

  /** Records that agree on the four score fields agree on every category. */
  lemma SameScores(r: Analysis, r': Analysis)
    requires r.performanceScore == r'.performanceScore && r.seoScore == r'.seoScore
    requires r.accessibilityScore == r'.accessibilityScore && r.bestPracticesScore == r'.bestPracticesScore
    ensures forall c :: ScoreOf(r, c) == ScoreOf(r', c)
  {
  }

  /** `r'` only appended to the issues of `r`. */
  predicate IssuesGrow(r: Analysis, r': Analysis) {
    |r.issues| <= |r'.issues| && r'.issues[..|r.issues|] == r.issues
  }

  /** The issues `r'` added to those of `r`. */
  function Added(r: Analysis, r': Analysis): seq<Issue>
    requires IssuesGrow(r, r')
  {
    r'.issues[|r.issues|..]
  }

  // =====================================================================
  // The world outside
  // =====================================================================

  /** The outcome of `requests.get(url, timeout=10)`. */
  datatype Fetch =
    | Page(
        status: int,
        finalUrl: string,           // `response.url`, after redirects
        lowerText: string,          // `response.text.lower()`
        contentLength: nat,         // `len(response.content)`
        headerNames: set<string>)   // the response header names
    | RequestFailure(detail: string)  // a `requests.RequestException`, by `str(e)`
    | OtherFailure(detail: string)    // any other exception, by `str(e)`

  /** What the analyzer asks of the world outside, as functions of the URL. */
  datatype World = World(
    head: string -> Option<int>,      // status of `requests.head`; `None` when it raises
    get: string -> Fetch,             // the GET of the basic checks
    refetch: string -> Fetch,         // the second GET, of the fallback analysis
    netloc: string -> string,         // `urlparse(url).netloc`
    lighthouse: string -> Option<Report>)  // the outcome of `_run_lighthouse(url)`

  /** The analyzer object: Lighthouse availability is decided once, at
      construction, from whether a probe for it succeeded. */
  datatype WebsiteAnalyzer = WebsiteAnalyzer(useLighthouse: bool, lighthouseAvailable: bool)

  function NewWebsiteAnalyzer(useLighthouse: bool, lighthouseFound: bool): (a: WebsiteAnalyzer)
    ensures a.useLighthouse == useLighthouse
    ensures a.lighthouseAvailable == (useLighthouse && lighthouseFound)
  {
    WebsiteAnalyzer(useLighthouse, if useLighthouse then lighthouseFound else false)
  }

  // =====================================================================
  // _check_website_basics
  // =====================================================================

  predicate HasScheme(url: string) {
    StartsWith(url, "http://") || StartsWith(url, "https://")
  }

  /** The URL the HEAD probe tries when the site is not on HTTPS. */
  function HttpsVariant(url: string): (v: string)
    ensures StartsWith(v, "https://")
    ensures v[8..] == if StartsWith(url, "http://") then url[7..] else url
  {
    if StartsWith(url, "http://") then "https://" + url[7..] else "https://" + url
  }

  /** Does `len(content) / 1024 > 5000` hold? */
  predicate LargerThan5000Kb(bytes: nat) {
    (bytes as real) / 1024.0 > 5000.0
  }

  /** The SSL check and, without SSL, the best-effort HEAD probe of the
      HTTPS variant, whose failures are swallowed. */
  function CheckSsl(url: string, w: World, r: Analysis): (r': Analysis)
    ensures IssuesGrow(r, r') && |Added(r, r')| <= 2
    ensures r'.hasSsl <==> StartsWith(url, "https://")
    ensures r' == r.(hasSsl := r'.hasSsl, issues := r'.issues)
  {
    var ssl := StartsWith(url, "https://");
    var r1 := r.(hasSsl := ssl);
    if ssl then r1
    else
      var r2 := AddIssue(r1, NoSsl);
      match w.head(HttpsVariant(url))
      case Some(status) => if status < 400 then AddIssue(r2, HttpsAvailable) else r2
      case None => r2
  }

  /** The checks on a page that answered with a status below 400. */
  function CheckPage(url: string, w: World, finalUrl: string, lowerText: string, bytes: nat, r: Analysis): (r': Analysis)
    ensures IssuesGrow(r, r') && |Added(r, r')| <= 3
    ensures r'.hasMobileViewport <==> r.hasMobileViewport || Contains(lowerText, "viewport")
    ensures r' == r.(hasMobileViewport := r'.hasMobileViewport, issues := r'.issues)
  {
    var r1 := if w.netloc(finalUrl) != w.netloc(url) then AddIssue(r, Redirects(finalUrl)) else r;
    var r2 := if Contains(lowerText, "viewport") then r1.(hasMobileViewport := true) else AddIssue(r1, NoViewport);
    if LargerThan5000Kb(bytes) then AddIssue(r2, LargePage(bytes)) else r2
  }

  function CheckWebsiteBasics(url: string, w: World, r: Analysis): (r': Analysis)
    ensures IssuesGrow(r, r') && |Added(r, r')| <= 5
    ensures r'.hasSsl <==> StartsWith(url, "https://")
    ensures r' == r.(hasSsl := r'.hasSsl, hasMobileViewport := r'.hasMobileViewport, issues := r'.issues)
    ensures r'.hasMobileViewport ==> r.hasMobileViewport || (w.get(url).Page? && w.get(url).status < 400)
  {
    var r1 := CheckSsl(url, w, r);
    match w.get(url)
    case RequestFailure(detail) => AddIssue(r1, AccessError(detail))
    case OtherFailure(detail) => AddIssue(r1, BasicAnalysisError(detail))
    case Page(status, finalUrl, lowerText, bytes, _) =>
      if status >= 400 then AddIssue(r1, HttpStatus(status))
      else CheckPage(url, w, finalUrl, lowerText, bytes, r1)
  }

  // =====================================================================
  // _process_lighthouse_results
  // =====================================================================

  /** Reading the report either continues with an updated record or stops
      at an exception, keeping what was done before it. */
  datatype Step = Continue(a: Analysis) | Raised(a: Analysis, fault: Fault)

  /** Python's `int(x)` on a float: truncation toward zero. */
  function Truncate(x: real): (n: int)
    ensures x >= 0.0 ==> n as real <= x < n as real + 1.0
    ensures x < 0.0 ==> n as real - 1.0 < x <= n as real
  {
    if x >= 0.0 then x.Floor else -((-x).Floor)
  }

  /** Sets the score of each category of `order` present in `categories`,
      in order, stopping at the first score that is missing or null. */
  function ApplyCategories(categories: map<string, Score>, order: seq<Category>, r: Analysis): (s: Step)
    ensures s.a.issues == r.issues && s.a.hasSsl == r.hasSsl
    ensures s.a.hasMobileViewport == r.hasMobileViewport && s.a.priority == r.priority
    ensures forall c :: c !in order || CategoryKey(c) !in categories ==> ScoreOf(s.a, c) == ScoreOf(r, c)
    ensures s.Raised? ==> s.fault.MissingCategoryScore? || s.fault.NullCategoryScore?
    decreases |order|
  {
    if |order| == 0 then Continue(r)
    else
      var key := CategoryKey(order[0]);
      if key !in categories then ApplyCategories(categories, order[1..], r)
      else match categories[key]
        case Absent => Raised(r, MissingCategoryScore)
        case Null => Raised(r, NullCategoryScore)
        case Num(x) => ApplyCategories(categories, order[1..], WithScore(r, order[0], Truncate(x * 100.0)))
  }

  /** Appends one issue per audit of `order` present in `audits` whose score
      is below 0.5 (a missing score counts as 1), stopping at a null score. */
  function CheckAudits(audits: map<string, Audit>, order: seq<AuditId>, r: Analysis): (s: Step)
    ensures IssuesGrow(r, s.a) && |Added(r, s.a)| <= |order|
    ensures s.a.hasSsl == r.hasSsl && s.a.hasMobileViewport == r.hasMobileViewport && s.a.priority == r.priority
    ensures s.a.performanceScore == r.performanceScore && s.a.seoScore == r.seoScore
    ensures s.a.accessibilityScore == r.accessibilityScore && s.a.bestPracticesScore == r.bestPracticesScore
    ensures forall k :: 0 <= k < |Added(r, s.a)| ==> Added(r, s.a)[k].AuditFailed?
    ensures s.Raised? ==> s.fault.NullAuditScore? && |Added(r, s.a)| < |order|
    decreases |order|
  {
    if |order| == 0 then Continue(r)
    else
      var key := AuditKey(order[0]);
      if key !in audits then CheckAudits(audits, order[1..], r)
      else
        var audit := audits[key];
        match audit.score
        case Absent => CheckAudits(audits, order[1..], r)
        case Null => Raised(r, NullAuditScore)
        case Num(x) =>
          CheckAudits(audits, order[1..], if x < 0.5 then AddIssue(r, AuditFailed(order[0], audit.displayValue)) else r)
  }

  /** Reads the categories and then, unless that raised, the audits. */
  function ReadReport(report: Report, r: Analysis): (s: Step)
    ensures IssuesGrow(r, s.a) && |Added(r, s.a)| + (if s.Raised? then 1 else 0) <= |AuditOrder|
    ensures s.a.hasSsl == r.hasSsl && s.a.hasMobileViewport == r.hasMobileViewport && s.a.priority == r.priority
    ensures forall c :: CategoryKey(c) !in report.categories ==> ScoreOf(s.a, c) == ScoreOf(r, c)
  {
    var afterCategories := ApplyCategories(report.categories, CategoryOrder, r);
    if afterCategories.Raised? then afterCategories
    else
      var afterAudits := CheckAudits(report.audits, AuditOrder, afterCategories.a);
      SameScores(afterCategories.a, afterAudits.a);
      afterAudits
  }

  function ProcessLighthouseResults(report: Report, r: Analysis): (r': Analysis)
    ensures IssuesGrow(r, r') && |Added(r, r')| <= |AuditOrder|
    ensures r'.hasSsl == r.hasSsl && r'.hasMobileViewport == r.hasMobileViewport && r'.priority == r.priority
    ensures forall c :: CategoryKey(c) !in report.categories ==> ScoreOf(r', c) == ScoreOf(r, c)
  {
    match ReadReport(report, r)
    case Continue(a) => a
    case Raised(a, f) => AddIssue(a, ReportError(f))
  }

  // =====================================================================
  // _perform_basic_analysis
  // =====================================================================

  /** The security headers checked, in the order they are reported. */
  const SecurityHeaders: seq<string> := ["Strict-Transport-Security", "Content-Security-Policy", "X-Content-Type-Options"]

  /** `name in response.headers`: header names compare case-insensitively. */
  predicate HasHeader(headerNames: set<string>, name: string) {
    exists h :: h in headerNames && Lower(h) == Lower(name)
  }

  /** The names of `wanted` that are missing from the headers, in order. */
  function MissingHeaderNames(headerNames: set<string>, wanted: seq<string>): (missing: seq<string>)
    ensures forall k :: 0 <= k < |missing| ==> missing[k] in wanted && !HasHeader(headerNames, missing[k])
    ensures forall k :: 0 <= k < |wanted| && !HasHeader(headerNames, wanted[k]) ==> wanted[k] in missing
    ensures |missing| <= |wanted|
    decreases |wanted|
  {
    if |wanted| == 0 then []
    else (if HasHeader(headerNames, wanted[0]) then [] else [wanted[0]]) + MissingHeaderNames(headerNames, wanted[1..])
  }

  /** The missing names of a concatenation are those of each part, in the
      order of the parts: the filter keeps the order of `wanted`. */
  lemma {:induction false} MissingHeaderNamesAppend(headerNames: set<string>, a: seq<string>, b: seq<string>)
    ensures MissingHeaderNames(headerNames, a + b) == MissingHeaderNames(headerNames, a) + MissingHeaderNames(headerNames, b)
    decreases |a|
  {
    if |a| > 0 {
      assert (a + b)[0] == a[0];
      assert (a + b)[1..] == a[1..] + b;
      MissingHeaderNamesAppend(headerNames, a[1..], b);
    } else {
      assert a + b == b;
    }
  }

  /** One wanted name is reported exactly when the headers lack it. */
  lemma MissingHeaderName(headerNames: set<string>, name: string)
    ensures MissingHeaderNames(headerNames, [name]) == if HasHeader(headerNames, name) then [] else [name]
  {
  }

  predicate TitleMissing(html: string) {
    !Contains(html, "<title>") || Contains(html, "<title></title>")
  }

  predicate DescriptionMissing(html: string) {
    !Contains(html, "meta name=\"description\"") && !Contains(html, "meta content=")
  }

  /** The alt-text test as written: `'<img ' in html and (' alt="' not in
      html or ' alt=' not in html)`. */
  predicate AltTextMissing(html: string) {
    Contains(html, "<img ") && (!Contains(html, " alt=\"") || !Contains(html, " alt="))
  }

  /** Performance: 50 and an issue for a page over 1,000,000 bytes, else 70. */
  function PerformanceHeuristic(bytes: nat, r: Analysis): (r': Analysis)
    ensures IssuesGrow(r, r') && |Added(r, r')| <= 1
    ensures r' == r.(performanceScore := r'.performanceScore, issues := r'.issues)
  {
    if bytes > 1000000 then AddIssue(r, LargePageSize).(performanceScore := 50)
    else r.(performanceScore := 70)
  }

  /** SEO: 60, lowered to 40 by a missing title and again by a missing
      description, each with its own issue. */
  function SeoHeuristic(html: string, r: Analysis): (r': Analysis)
    ensures IssuesGrow(r, r') && |Added(r, r')| <= 2
    ensures r' == r.(seoScore := r'.seoScore, issues := r'.issues)
  {
    var r1 := r.(seoScore := 60);
    var r2 := if TitleMissing(html) then AddIssue(r1, MissingTitle).(seoScore := 40) else r1;
    if DescriptionMissing(html) then AddIssue(r2, MissingDescription).(seoScore := 40) else r2
  }

  /** Accessibility: 50, lowered to 40 with an issue when images may lack alt text. */
  function AccessibilityHeuristic(html: string, r: Analysis): (r': Analysis)
    ensures IssuesGrow(r, r') && |Added(r, r')| <= 1
    ensures r' == r.(accessibilityScore := r'.accessibilityScore, issues := r'.issues)
  {
    var r1 := r.(accessibilityScore := 50);
    if AltTextMissing(html) then AddIssue(r1, MissingAltText).(accessibilityScore := 40) else r1
  }

  /** Best practices: 60, lowered to 40 with one issue naming every missing
      security header. */
  function BestPracticesHeuristic(headerNames: set<string>, r: Analysis): (r': Analysis)
    ensures IssuesGrow(r, r') && |Added(r, r')| <= 1
    ensures r' == r.(bestPracticesScore := r'.bestPracticesScore, issues := r'.issues)
  {
    var r1 := r.(bestPracticesScore := 60);
    var missing := MissingHeaderNames(headerNames, SecurityHeaders);
    if |missing| > 0 then AddIssue(r1, MissingHeaders(missing)).(bestPracticesScore := 40) else r1
  }

  /** The heuristics on a fetched page, in the source's order. */
  function HeuristicScores(html: string, bytes: nat, headerNames: set<string>, r: Analysis): Analysis
  {
    BestPracticesHeuristic(headerNames, AccessibilityHeuristic(html, SeoHeuristic(html, PerformanceHeuristic(bytes, r))))
  }

  function PerformBasicAnalysis(url: string, w: World, r: Analysis): (r': Analysis)
    ensures IssuesGrow(r, r') && |Added(r, r')| <= 5
    ensures r'.hasSsl == r.hasSsl && r'.hasMobileViewport == r.hasMobileViewport && r'.priority == r.priority
    ensures !w.refetch(url).Page? ==> r' == AddIssue(r, BasicAnalysisError(w.refetch(url).detail))
  {
    match w.refetch(url)
    case RequestFailure(detail) => AddIssue(r, BasicAnalysisError(detail))
    case OtherFailure(detail) => AddIssue(r, BasicAnalysisError(detail))
    case Page(_, _, html, bytes, headerNames) => HeuristicScores(html, bytes, headerNames, r)
  }

  // =====================================================================
  // _calculate_priority
  // =====================================================================

  function ScoreSum(r: Analysis): int {
    r.performanceScore + r.seoScore + r.accessibilityScore + r.bestPracticesScore
  }

  /** 1 for a site that could not be reached, 2 for a poor one, 3 for a good one. */
  function CalculatePriority(r: Analysis): (p: int)
    ensures 1 <= p <= 3
    ensures p == 1 <==> Contains(Join(" ", IssueTexts(r.issues)), AccessErrorMarker)
  {
    if Contains(Join(" ", IssueTexts(r.issues)), AccessErrorMarker) then 1
    else
      var average := (ScoreSum(r) as real) / 4.0;
      if average < 60.0 || |r.issues| > 3 then 2 else 3
  }

  // =====================================================================
  // analyze_website
  // =====================================================================

  /** The URL every check uses: `https://` is prepended when neither
      `http://` nor `https://` starts it. */
  function EffectiveUrl(url: string): (u: string)
    ensures HasScheme(u)
    ensures HasScheme(url) ==> u == url
    ensures !HasScheme(url) ==> StartsWith(u, "https://") && u[8..] == url
  {
    if HasScheme(url) then url else "https://" + url
  }

  /** The record after the basic checks and the Lighthouse or fallback
      stage, before the priority is set. */
  function Unprioritised(a: WebsiteAnalyzer, url: string, w: World): Analysis
    requires |url| > 0
  {
    var u := EffectiveUrl(url);
    var basics := CheckWebsiteBasics(u, w, Fresh);
    if a.lighthouseAvailable then
      match w.lighthouse(u)
      case Some(report) => ProcessLighthouseResults(report, basics)
      case None => basics
    else
      PerformBasicAnalysis(u, w, AddIssue(basics, NoLighthouse))
  }

  function AnalyzeWebsite(a: WebsiteAnalyzer, url: string, w: World): (r: Analysis)
    ensures |url| == 0 ==> r == AddIssue(Fresh, NoUrl)
    ensures |url| > 0 ==> r.priority.Some? && 1 <= r.priority.value <= 3
    ensures |url| > 0 ==> r.priority == Some(CalculatePriority(r))
  {
    if |url| == 0 then AddIssue(Fresh, NoUrl)
    else
      var r := Unprioritised(a, url, w);
      r.(priority := Some(CalculatePriority(r)))
  }
}
