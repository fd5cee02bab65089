/** Properties of the analysis pipeline of `src/core/analyzer.py`, each
    stated against an independent description of what a stage appends. */
module AnalyzerProperties {
  import opened Wrappers
  import opened Text
  import opened Analyzer

  // =====================================================================
  // _calculate_priority
  // =====================================================================

  /** The three levels: 1 when the joined issues mention an access error,
      else 2 when the four scores sum below 240 or more than three issues
      were found, else 3. */
  lemma PriorityLevels(r: Analysis)
    ensures CalculatePriority(r) == 2 <==>
      !Contains(Join(" ", IssueTexts(r.issues)), AccessErrorMarker) && (ScoreSum(r) < 240 || |r.issues| > 3)
    ensures CalculatePriority(r) == 3 <==>
      !Contains(Join(" ", IssueTexts(r.issues)), AccessErrorMarker) && ScoreSum(r) >= 240 && |r.issues| <= 3
  {
    assert (ScoreSum(r) as real) / 4.0 < 60.0 <==> ScoreSum(r) < 240;
  }

  /** An access error anywhere in the issues makes the priority 1. */
  lemma AccessErrorIsPriorityOne(r: Analysis, k: nat)
    requires k < |r.issues| && r.issues[k].AccessError?
    ensures CalculatePriority(r) == 1
  {
    var texts := IssueTexts(r.issues);
    var t := texts[k];
    assert t == AccessErrorMarker + (": " + r.issues[k].detail);
    assert t[0..|AccessErrorMarker|] == AccessErrorMarker;
    ContainsAt(t, AccessErrorMarker, 0);
    ContainsInJoin(" ", texts, k, AccessErrorMarker);
  }

  // =====================================================================
  // _check_website_basics
  // =====================================================================

  /** `len(content) / 1024 > 5000` holds exactly for more than 5,120,000 bytes. */
  lemma LargePageThreshold(bytes: nat)
    ensures LargerThan5000Kb(bytes) <==> bytes > 5120000
  {
    if bytes > 5120000 {
      assert (bytes as real) >= 5120001.0;
    } else {
      assert (bytes as real) <= 5120000.0;
    }
  }

  /** What the SSL check appends: nothing on HTTPS; otherwise the missing
      SSL issue, then the availability notice when the HEAD probe of the
      HTTPS variant answered below 400. */
  function SslIssues(url: string, w: World): seq<Issue> {
    if StartsWith(url, "https://") then []
    else
      var probe := w.head(HttpsVariant(url));
      [NoSsl] + (if probe.Some? && probe.value < 400 then [HttpsAvailable] else [])
  }

  /** What the GET of the basic checks appends, with the size threshold in bytes. */
  function FetchIssues(url: string, w: World): seq<Issue> {
    match w.get(url)
    case RequestFailure(detail) => [AccessError(detail)]
    case OtherFailure(detail) => [BasicAnalysisError(detail)]
    case Page(status, finalUrl, lowerText, bytes, _) =>
      if status >= 400 then [HttpStatus(status)]
      else PageIssues(url, w, finalUrl, lowerText, bytes)
  }

  lemma CheckSslAppend(url: string, w: World, r: Analysis)
    ensures CheckSsl(url, w, r).issues == r.issues + SslIssues(url, w)
  {
  }

  /** The issues a page that answered below 400 adds. */
  function PageIssues(url: string, w: World, finalUrl: string, lowerText: string, bytes: nat): seq<Issue> {
    (if w.netloc(finalUrl) != w.netloc(url) then [Redirects(finalUrl)] else [])
    + (if Contains(lowerText, "viewport") then [] else [NoViewport])
    + (if bytes > 5120000 then [LargePage(bytes)] else [])
  }

  lemma CheckPageAppend(url: string, w: World, finalUrl: string, lowerText: string, bytes: nat, r: Analysis)
    ensures CheckPage(url, w, finalUrl, lowerText, bytes, r).issues == r.issues + PageIssues(url, w, finalUrl, lowerText, bytes)
  {
    LargePageThreshold(bytes);
    var r1 := if w.netloc(finalUrl) != w.netloc(url) then AddIssue(r, Redirects(finalUrl)) else r;
    var r2 := if Contains(lowerText, "viewport") then r1.(hasMobileViewport := true) else AddIssue(r1, NoViewport);
    var r3 := if LargerThan5000Kb(bytes) then AddIssue(r2, LargePage(bytes)) else r2;
    assert r1.issues == r.issues + (if w.netloc(finalUrl) != w.netloc(url) then [Redirects(finalUrl)] else []);
    assert r2.issues == r1.issues + (if Contains(lowerText, "viewport") then [] else [NoViewport]);
    assert r3.issues == r2.issues + (if bytes > 5120000 then [LargePage(bytes)] else []);
  }

  /** The basic checks append the SSL issues and then the issues of the GET,
      and find a viewport only on a page that answered below 400 and names one. */
  lemma BasicsAppend(url: string, w: World, r: Analysis)
    ensures CheckWebsiteBasics(url, w, r).issues == r.issues + SslIssues(url, w) + FetchIssues(url, w)
    ensures CheckWebsiteBasics(url, w, r).hasMobileViewport <==>
      r.hasMobileViewport || (w.get(url).Page? && w.get(url).status < 400 && Contains(w.get(url).lowerText, "viewport"))
  {
    var r1 := CheckSsl(url, w, r);
    CheckSslAppend(url, w, r);
    match w.get(url)
    case RequestFailure(_) =>
    case OtherFailure(_) =>
    case Page(status, finalUrl, lowerText, bytes, _) =>
      if status < 400 {
        CheckPageAppend(url, w, finalUrl, lowerText, bytes, r1);
      }
  }

  /** An HTTP error status ends the basic checks: only its own issue follows
      the SSL issues, and no viewport is recorded. */
  lemma ErrorStatusEndsBasics(url: string, w: World, r: Analysis)
    requires w.get(url).Page? && w.get(url).status >= 400
    ensures CheckWebsiteBasics(url, w, r).issues == r.issues + SslIssues(url, w) + [HttpStatus(w.get(url).status)]
    ensures CheckWebsiteBasics(url, w, r).hasMobileViewport == r.hasMobileViewport
  {
    BasicsAppend(url, w, r);
  }

  // =====================================================================
  // _process_lighthouse_results
  // =====================================================================

  /** An audit fails when it is present with a numeric score below 0.5. */
  predicate AuditFails(audits: map<string, Audit>, a: AuditId) {
    AuditKey(a) in audits && audits[AuditKey(a)].score.Num? && audits[AuditKey(a)].score.value < 0.5
  }

  /** The issue audit `a` contributes: one when it fails, none otherwise. */
  function AuditIssues(audits: map<string, Audit>, a: AuditId): seq<Issue> {
    if AuditFails(audits, a) then [AuditFailed(a, audits[AuditKey(a)].displayValue)] else []
  }

  /** One issue per failing audit of `order`, in that order. */
  function FailedAuditIssues(audits: map<string, Audit>, order: seq<AuditId>): (issues: seq<Issue>)
    decreases |order|
  {
    if |order| == 0 then [] else AuditIssues(audits, order[0]) + FailedAuditIssues(audits, order[1..])
  }

  /** Reading one audit that is not null appends exactly its own issue and
      carries on with the rest. */
  lemma CheckAuditsStep(audits: map<string, Audit>, order: seq<AuditId>, r: Analysis)
    requires |order| > 0 && !(AuditKey(order[0]) in audits && audits[AuditKey(order[0])].score.Null?)
    ensures CheckAudits(audits, order, r) ==
      CheckAudits(audits, order[1..], r.(issues := r.issues + AuditIssues(audits, order[0])))
  {
    if AuditFails(audits, order[0]) {
      assert AddIssue(r, AuditFailed(order[0], audits[AuditKey(order[0])].displayValue))
        == r.(issues := r.issues + AuditIssues(audits, order[0]));
    } else {
      assert r == r.(issues := r.issues + []);
    }
  }

  /** The categories of `order` that are present all carry a number. */
  predicate CategoriesReadable(categories: map<string, Score>, order: seq<Category>) {
    forall i :: 0 <= i < |order| && CategoryKey(order[i]) in categories ==> categories[CategoryKey(order[i])].Num?
  }

  /** No audit of `order` that is present has a null score. */
  predicate AuditsReadable(audits: map<string, Audit>, order: seq<AuditId>) {
    forall i :: 0 <= i < |order| && AuditKey(order[i]) in audits ==> !audits[AuditKey(order[i])].score.Null?
  }

  /** The score a category gets from the report, or `previous` when the
      report has none for it. */
  function ReportedScore(categories: map<string, Score>, c: Category, previous: int): int {
    if CategoryKey(c) in categories && categories[CategoryKey(c)].Num? then
      Truncate(categories[CategoryKey(c)].value * 100.0)
    else previous
  }

  lemma {:induction false} ApplyReadableCategories(categories: map<string, Score>, order: seq<Category>, r: Analysis)
    requires CategoriesReadable(categories, order)
    ensures ApplyCategories(categories, order, r).Continue?
    ensures forall c :: c in order && CategoryKey(c) in categories ==>
      ScoreOf(ApplyCategories(categories, order, r).a, c) == Truncate(categories[CategoryKey(c)].value * 100.0)
    decreases |order|
  {
    if |order| > 0 {
      CategoriesReadableTail(categories, order);
      var next := CategoryStep(categories, order[0], r);
      ApplyCategoriesStep(categories, order, r);
      ApplyReadableCategories(categories, order[1..], next);
      forall c | c in order && CategoryKey(c) in categories
        ensures ScoreOf(ApplyCategories(categories, order, r).a, c) == Truncate(categories[CategoryKey(c)].value * 100.0)
      {
        if c !in order[1..] {
          assert c == order[0];
        }
      }
    }
  }

  lemma {:induction false} CheckReadableAudits(audits: map<string, Audit>, order: seq<AuditId>, r: Analysis)
    requires AuditsReadable(audits, order)
    ensures CheckAudits(audits, order, r).Continue?
    ensures CheckAudits(audits, order, r).a.issues == r.issues + FailedAuditIssues(audits, order)
    decreases |order|
  {
    if |order| > 0 {
      var next := r.(issues := r.issues + AuditIssues(audits, order[0]));
      AuditsReadableTail(audits, order);
      CheckAuditsStep(audits, order, r);
      CheckReadableAudits(audits, order[1..], next);
      AppendAssoc(r.issues, AuditIssues(audits, order[0]), FailedAuditIssues(audits, order[1..]));
    }
  }

  /** Every category has its place in the reading order. */
  lemma CategoryPosition(c: Category) returns (i: nat)
    ensures i < |CategoryOrder| && CategoryOrder[i] == c
  {
    i := match c
      case Performance => 0
      case Accessibility => 1
      case BestPractices => 2
      case Seo => 3;
  }

  /** A report whose present scores are all readable appends one issue per
      failing audit, in the audit order. */
  lemma ReadableReportIssues(report: Report, r: Analysis)
    requires CategoriesReadable(report.categories, CategoryOrder)
    requires AuditsReadable(report.audits, AuditOrder)
    ensures ProcessLighthouseResults(report, r).issues == r.issues + FailedAuditIssues(report.audits, AuditOrder)
  {
    ApplyReadableCategories(report.categories, CategoryOrder, r);
    CheckReadableAudits(report.audits, AuditOrder, ApplyCategories(report.categories, CategoryOrder, r).a);
  }

  /** Reading the audits and reporting an exception leave the scores the
      categories produced, whether or not reading them raised. */
  lemma AuditsKeepScores(report: Report, r: Analysis, c: Category)
    ensures ScoreOf(ProcessLighthouseResults(report, r), c) == ScoreOf(ApplyCategories(report.categories, CategoryOrder, r).a, c)
  {
    var s := ApplyCategories(report.categories, CategoryOrder, r);
    if s.Continue? {
      var t := CheckAudits(report.audits, AuditOrder, s.a);
      assert ReadReport(report, r) == t;
      assert ScoreOf(t.a, c) == ScoreOf(s.a, c);
    } else {
      assert ReadReport(report, r) == s;
    }
  }

  /** A report whose category scores are readable sets each category it has
      to its truncated percentage and leaves the others. */
  lemma ReadableReportScores(report: Report, r: Analysis, c: Category)
    requires CategoriesReadable(report.categories, CategoryOrder)
    ensures ScoreOf(ProcessLighthouseResults(report, r), c) == ReportedScore(report.categories, c, ScoreOf(r, c))
  {
    AuditsKeepScores(report, r, c);
    ReadableCategoryScore(report.categories, CategoryOrder, r, c);
    var i := CategoryPosition(c);
  }

  /** Reading readable categories gives each listed category its reported
      score and leaves the unlisted ones. */
  lemma ReadableCategoryScore(categories: map<string, Score>, order: seq<Category>, r: Analysis, c: Category)
    requires CategoriesReadable(categories, order)
    ensures ScoreOf(ApplyCategories(categories, order, r).a, c) ==
      if c in order then ReportedScore(categories, c, ScoreOf(r, c)) else ScoreOf(r, c)
  {
    ApplyReadableCategories(categories, order, r);
    if c in order && CategoryKey(c) in categories {
      var k :| 0 <= k < |order| && order[k] == c;
      assert categories[CategoryKey(order[k])].Num?;
    }
  }

  /** An empty report changes nothing, so skipping a falsy (empty) report,
      as `if lighthouse_results:` does, is the same as processing it. */
  lemma EmptyReportChangesNothing(r: Analysis)
    ensures ProcessLighthouseResults(Report(map[], map[]), r) == r
  {
    var empty := Report(map[], map[]);
    ReadableReportIssues(empty, r);
    assert FailedAuditIssues(empty.audits, AuditOrder) == [] by {
      EmptyAuditsFailNothing(AuditOrder);
    }
    var r' := ProcessLighthouseResults(empty, r);
    ReadableReportScores(empty, r, Performance);
    ReadableReportScores(empty, r, Accessibility);
    ReadableReportScores(empty, r, BestPractices);
    ReadableReportScores(empty, r, Seo);
    assert ScoreOf(r', Performance) == ScoreOf(r, Performance);
    assert ScoreOf(r', Accessibility) == ScoreOf(r, Accessibility);
    assert ScoreOf(r', BestPractices) == ScoreOf(r, BestPractices);
    assert ScoreOf(r', Seo) == ScoreOf(r, Seo);
  }

  lemma {:induction false} EmptyAuditsFailNothing(order: seq<AuditId>)
    ensures FailedAuditIssues(map[], order) == []
    decreases |order|
  {
    if |order| > 0 {
      EmptyAuditsFailNothing(order[1..]);
    }
  }

  /** Reading stops at the first audit with a null score, keeping the
      issues of the failing audits before it. */
  lemma {:induction false} NullAuditStops(audits: map<string, Audit>, order: seq<AuditId>, r: Analysis, j: nat)
    requires j < |order| && AuditKey(order[j]) in audits && audits[AuditKey(order[j])].score.Null?
    requires AuditsReadable(audits, order[..j])
    ensures CheckAudits(audits, order, r).Raised?
    ensures CheckAudits(audits, order, r).fault == NullAuditScore
    ensures CheckAudits(audits, order, r).a.issues == r.issues + FailedAuditIssues(audits, order[..j])
    decreases j
  {
    if j == 0 {
      NullAuditFirst(audits, order, r);
    } else {
      var next := r.(issues := r.issues + AuditIssues(audits, order[0]));
      var head := order[..j];
      var tail := order[1..][..j - 1];
      assert head[0] == order[0] && head[1..] == tail;
      AuditsReadableTail(audits, head);
      CheckAuditsStep(audits, order, r);
      NullAuditStops(audits, order[1..], next, j - 1);
      assert FailedAuditIssues(audits, head) == AuditIssues(audits, order[0]) + FailedAuditIssues(audits, tail);
      AppendAssoc(r.issues, AuditIssues(audits, order[0]), FailedAuditIssues(audits, tail));
    }
  }

  lemma NullAuditFirst(audits: map<string, Audit>, order: seq<AuditId>, r: Analysis)
    requires 0 < |order| && AuditKey(order[0]) in audits && audits[AuditKey(order[0])].score.Null?
    ensures CheckAudits(audits, order, r) == Raised(r, NullAuditScore)
    ensures FailedAuditIssues(audits, order[..0]) == []
  {
  }

  lemma AuditsReadableTail(audits: map<string, Audit>, order: seq<AuditId>)
    requires |order| > 0 && AuditsReadable(audits, order)
    ensures AuditKey(order[0]) in audits ==> !audits[AuditKey(order[0])].score.Null?
    ensures AuditsReadable(audits, order[1..])
  {
    var tail := order[1..];
    forall i | 0 <= i < |tail| && AuditKey(tail[i]) in audits
      ensures !audits[AuditKey(tail[i])].score.Null?
    {
      assert tail[i] == order[i + 1];
    }
  }

  /** A report whose audit `j` is the first with a null score appends the
      issues of the failing audits before it and then the exception's issue. */
  lemma NullAuditReport(report: Report, r: Analysis, j: nat)
    requires CategoriesReadable(report.categories, CategoryOrder)
    requires j < |AuditOrder| && AuditKey(AuditOrder[j]) in report.audits
    requires report.audits[AuditKey(AuditOrder[j])].score.Null?
    requires AuditsReadable(report.audits, AuditOrder[..j])
    ensures ProcessLighthouseResults(report, r).issues ==
      r.issues + FailedAuditIssues(report.audits, AuditOrder[..j]) + [ReportError(NullAuditScore)]
  {
    ApplyReadableCategories(report.categories, CategoryOrder, r);
    NullAuditStops(report.audits, AuditOrder, ApplyCategories(report.categories, CategoryOrder, r).a, j);
  }

  /** The exception an unreadable category score raises. */
  function CategoryFault(score: Score): Fault {
    if score.Absent? then MissingCategoryScore else NullCategoryScore
  }

  /** Reading stops at the first present category whose score is missing or
      null, with no issue added yet. */
  lemma {:induction false} UnreadableCategoryStops(categories: map<string, Score>, order: seq<Category>, r: Analysis, j: nat)
    requires j < |order| && CategoryKey(order[j]) in categories && !categories[CategoryKey(order[j])].Num?
    requires CategoriesReadable(categories, order[..j])
    ensures ApplyCategories(categories, order, r).Raised?
    ensures ApplyCategories(categories, order, r).fault == CategoryFault(categories[CategoryKey(order[j])])
    ensures ApplyCategories(categories, order, r).a == ApplyCategories(categories, order[..j], r).a
    decreases j
  {
    if j > 0 {
      var head := order[..j];
      assert head[0] == order[0] && head[1..] == order[1..][..j - 1];
      CategoriesReadableTail(categories, head);
      var next := CategoryStep(categories, order[0], r);
      ApplyCategoriesStep(categories, order, r);
      ApplyCategoriesStep(categories, head, r);
      UnreadableCategoryStops(categories, order[1..], next, j - 1);
    }
  }

  /** The record after reading one readable category. */
  function CategoryStep(categories: map<string, Score>, c: Category, r: Analysis): Analysis
    requires CategoryKey(c) in categories ==> categories[CategoryKey(c)].Num?
  {
    if CategoryKey(c) in categories then WithScore(r, c, Truncate(categories[CategoryKey(c)].value * 100.0)) else r
  }

  /** Reading a readable first category carries on with the rest. */
  lemma ApplyCategoriesStep(categories: map<string, Score>, order: seq<Category>, r: Analysis)
    requires |order| > 0 && (CategoryKey(order[0]) in categories ==> categories[CategoryKey(order[0])].Num?)
    ensures ApplyCategories(categories, order, r) == ApplyCategories(categories, order[1..], CategoryStep(categories, order[0], r))
  {
  }

  lemma CategoriesReadableTail(categories: map<string, Score>, order: seq<Category>)
    requires |order| > 0 && CategoriesReadable(categories, order)
    ensures CategoryKey(order[0]) in categories ==> categories[CategoryKey(order[0])].Num?
    ensures CategoriesReadable(categories, order[1..])
  {
    var tail := order[1..];
    forall i | 0 <= i < |tail| && CategoryKey(tail[i]) in categories
      ensures categories[CategoryKey(tail[i])].Num?
    {
      assert tail[i] == order[i + 1];
    }
  }

  /** A report whose category `j` is the first unreadable one appends only
      the exception's issue and reads no audit. */
  lemma UnreadableCategoryIssues(report: Report, r: Analysis, j: nat)
    requires j < |CategoryOrder| && CategoryKey(CategoryOrder[j]) in report.categories
    requires !report.categories[CategoryKey(CategoryOrder[j])].Num?
    requires CategoriesReadable(report.categories, CategoryOrder[..j])
    ensures ProcessLighthouseResults(report, r).issues ==
      r.issues + [ReportError(CategoryFault(report.categories[CategoryKey(CategoryOrder[j])]))]
  {
    UnreadableCategoryStops(report.categories, CategoryOrder, r, j);
  }

  /** A report whose category `j` is the first unreadable one keeps the
      scores of the categories before it and leaves the rest. */
  lemma UnreadableCategoryScores(report: Report, r: Analysis, j: nat, c: Category)
    requires j < |CategoryOrder| && CategoryKey(CategoryOrder[j]) in report.categories
    requires !report.categories[CategoryKey(CategoryOrder[j])].Num?
    requires CategoriesReadable(report.categories, CategoryOrder[..j])
    ensures ScoreOf(ProcessLighthouseResults(report, r), c) ==
      if c in CategoryOrder[..j] then ReportedScore(report.categories, c, ScoreOf(r, c)) else ScoreOf(r, c)
  {
    UnreadableCategoryStops(report.categories, CategoryOrder, r, j);
    AuditsKeepScores(report, r, c);
    ReadableCategoryScore(report.categories, CategoryOrder[..j], r, c);
  }

  // =====================================================================
  // _perform_basic_analysis
  // =====================================================================

  /** `' alt="'` contains `' alt='`, so the alt-text test as written reduces
      to an image tag with no ` alt="` anywhere in the page: its second
      disjunct adds nothing. */
  lemma AltTextTestCollapses(html: string)
    ensures AltTextMissing(html) <==> Contains(html, "<img ") && !Contains(html, " alt=\"")
  {
    if Contains(html, " alt=\"") {
      assert " alt=\"" == " alt=" + "\"";
      ContainsPrefixOfPattern(html, " alt=", "\"");
    }
  }

  /** Some security header is absent from the response. */
  predicate SecurityHeaderMissing(headerNames: set<string>) {
    exists k :: 0 <= k < |SecurityHeaders| && !HasHeader(headerNames, SecurityHeaders[k])
  }

  /** The issues each heuristic appends for a fetched page. */
  function SizeIssues(bytes: nat): seq<Issue> {
    if bytes > 1000000 then [LargePageSize] else []
  }

  function SeoIssues(html: string): seq<Issue> {
    (if TitleMissing(html) then [MissingTitle] else []) + (if DescriptionMissing(html) then [MissingDescription] else [])
  }

  function AltTextIssues(html: string): seq<Issue> {
    if Contains(html, "<img ") && !Contains(html, " alt=\"") then [MissingAltText] else []
  }

  function HeaderIssues(headerNames: set<string>): seq<Issue> {
    if SecurityHeaderMissing(headerNames) then [MissingHeaders(MissingHeaderNames(headerNames, SecurityHeaders))] else []
  }

  /** The issues the fallback appends for a fetched page, in the source's order. */
  function FallbackIssues(html: string, bytes: nat, headerNames: set<string>): seq<Issue> {
    SizeIssues(bytes) + SeoIssues(html) + AltTextIssues(html) + HeaderIssues(headerNames)
  }

  lemma PerformanceHeuristicSpec(bytes: nat, r: Analysis)
    ensures PerformanceHeuristic(bytes, r).issues == r.issues + SizeIssues(bytes)
    ensures PerformanceHeuristic(bytes, r).performanceScore == if bytes > 1000000 then 50 else 70
  {
  }

  lemma SeoHeuristicSpec(html: string, r: Analysis)
    ensures SeoHeuristic(html, r).issues == r.issues + SeoIssues(html)
    ensures SeoHeuristic(html, r).seoScore == if TitleMissing(html) || DescriptionMissing(html) then 40 else 60
  {
  }

  lemma AccessibilityHeuristicSpec(html: string, r: Analysis)
    ensures AccessibilityHeuristic(html, r).issues == r.issues + AltTextIssues(html)
    ensures AccessibilityHeuristic(html, r).accessibilityScore ==
      if Contains(html, "<img ") && !Contains(html, " alt=\"") then 40 else 50
  {
    AltTextTestCollapses(html);
  }

  lemma BestPracticesHeuristicSpec(headerNames: set<string>, r: Analysis)
    ensures BestPracticesHeuristic(headerNames, r).issues == r.issues + HeaderIssues(headerNames)
    ensures BestPracticesHeuristic(headerNames, r).bestPracticesScore == if SecurityHeaderMissing(headerNames) then 40 else 60
  {
    var missing := MissingHeaderNames(headerNames, SecurityHeaders);
    if SecurityHeaderMissing(headerNames) {
      var k :| 0 <= k < |SecurityHeaders| && !HasHeader(headerNames, SecurityHeaders[k]);
      assert SecurityHeaders[k] in missing;
    }
  }

  /** On a fetched page the fallback appends exactly the heuristic issues, in order. */
  lemma FallbackIssuesOnPage(url: string, w: World, r: Analysis)
    requires w.refetch(url).Page?
    ensures PerformBasicAnalysis(url, w, r).issues ==
      r.issues + FallbackIssues(w.refetch(url).lowerText, w.refetch(url).contentLength, w.refetch(url).headerNames)
  {
    var p := w.refetch(url);
    var html := p.lowerText;
    var r1 := PerformanceHeuristic(p.contentLength, r);
    var r2 := SeoHeuristic(html, r1);
    var r3 := AccessibilityHeuristic(html, r2);
    PerformanceHeuristicSpec(p.contentLength, r);
    SeoHeuristicSpec(html, r1);
    AccessibilityHeuristicSpec(html, r2);
    BestPracticesHeuristicSpec(p.headerNames, r3);
    var r4 := BestPracticesHeuristic(p.headerNames, r3);
    assert PerformBasicAnalysis(url, w, r) == r4;
    var a, b, c, d := SizeIssues(p.contentLength), SeoIssues(html), AltTextIssues(html), HeaderIssues(p.headerNames);
    assert r4.issues == r.issues + a + b + c + d;
    AppendFour(r.issues, a, b, c, d);
  }

  /** Issues that only grew are the old ones followed by the added ones. */
  lemma GrownIssues(r: Analysis, r': Analysis)
    requires IssuesGrow(r, r')
    ensures r'.issues == r.issues + Added(r, r')
  {
  }

  lemma IssuesGrowTransitive(r1: Analysis, r2: Analysis, r3: Analysis)
    requires IssuesGrow(r1, r2) && IssuesGrow(r2, r3)
    ensures IssuesGrow(r1, r3)
  {
    assert r3.issues[..|r1.issues|] == r3.issues[..|r2.issues|][..|r1.issues|];
  }

  lemma AppendAssoc(x: seq<Issue>, a: seq<Issue>, b: seq<Issue>)
    ensures x + a + b == x + (a + b)
  {
  }

  lemma AppendFour(x: seq<Issue>, a: seq<Issue>, b: seq<Issue>, c: seq<Issue>, d: seq<Issue>)
    ensures x + a + b + c + d == x + (a + b + c + d)
  {
  }

  /** On a fetched page the fallback sets every score from its own test. */
  lemma FallbackScoresOnPage(url: string, w: World, r: Analysis)
    requires w.refetch(url).Page?
    ensures PerformBasicAnalysis(url, w, r).performanceScore == if w.refetch(url).contentLength > 1000000 then 50 else 70
    ensures PerformBasicAnalysis(url, w, r).seoScore ==
      if TitleMissing(w.refetch(url).lowerText) || DescriptionMissing(w.refetch(url).lowerText) then 40 else 60
    ensures PerformBasicAnalysis(url, w, r).accessibilityScore ==
      if Contains(w.refetch(url).lowerText, "<img ") && !Contains(w.refetch(url).lowerText, " alt=\"") then 40 else 50
    ensures PerformBasicAnalysis(url, w, r).bestPracticesScore == if SecurityHeaderMissing(w.refetch(url).headerNames) then 40 else 60
  {
    var p := w.refetch(url);
    var html := p.lowerText;
    var r1 := PerformanceHeuristic(p.contentLength, r);
    var r2 := SeoHeuristic(html, r1);
    var r3 := AccessibilityHeuristic(html, r2);
    PerformanceHeuristicSpec(p.contentLength, r);
    SeoHeuristicSpec(html, r1);
    AccessibilityHeuristicSpec(html, r2);
    BestPracticesHeuristicSpec(p.headerNames, r3);
  }

  // =====================================================================
  // analyze_website
  // =====================================================================

  /** The record after the basic checks, which run on the effective URL. */
  function Basics(url: string, w: World): Analysis {
    CheckWebsiteBasics(EffectiveUrl(url), w, Fresh)
  }

  /** What the fallback stage appends after the notice that Lighthouse is unavailable. */
  function FallbackStageIssues(url: string, w: World): seq<Issue> {
    match w.refetch(url)
    case Page(_, _, html, bytes, headerNames) => FallbackIssues(html, bytes, headerNames)
    case RequestFailure(detail) => [BasicAnalysisError(detail)]
    case OtherFailure(detail) => [BasicAnalysisError(detail)]
  }

  /** The stage after the basic checks only appends. */
  lemma LaterStagesAppend(a: WebsiteAnalyzer, url: string, w: World)
    requires |url| > 0
    ensures IssuesGrow(Basics(url, w), Unprioritised(a, url, w))
  {
    var b := Basics(url, w);
    var u := EffectiveUrl(url);
    if !a.lighthouseAvailable {
      var noted := AddIssue(b, NoLighthouse);
      assert noted.issues[..|b.issues|] == b.issues;
      IssuesGrowTransitive(b, noted, PerformBasicAnalysis(u, w, noted));
    }
  }

  /** The issues of the basic checks come first and are never removed. */
  lemma IssuesOnlyGrow(a: WebsiteAnalyzer, url: string, w: World)
    requires |url| > 0
    ensures Basics(url, w).issues == SslIssues(EffectiveUrl(url), w) + FetchIssues(EffectiveUrl(url), w)
    ensures IssuesGrow(Basics(url, w), AnalyzeWebsite(a, url, w))
  {
    BasicsAppend(EffectiveUrl(url), w, Fresh);
    LaterStagesAppend(a, url, w);
  }

  /** Without Lighthouse the notice follows the basic issues, and the
      fallback's issues follow the notice. */
  lemma FallbackFollowsNotice(a: WebsiteAnalyzer, url: string, w: World)
    requires |url| > 0 && !a.lighthouseAvailable
    ensures AnalyzeWebsite(a, url, w).issues ==
      Basics(url, w).issues + [NoLighthouse] + FallbackStageIssues(EffectiveUrl(url), w)
  {
    var u := EffectiveUrl(url);
    var noted := AddIssue(Basics(url, w), NoLighthouse);
    if w.refetch(u).Page? {
      FallbackIssuesOnPage(u, w, noted);
    }
  }

  /** A readable report appends its failing audits after the basic issues. */
  lemma ReportFollowsBasics(a: WebsiteAnalyzer, url: string, w: World)
    requires |url| > 0 && a.lighthouseAvailable
    requires w.lighthouse(EffectiveUrl(url)).Some?
    requires CategoriesReadable(w.lighthouse(EffectiveUrl(url)).value.categories, CategoryOrder)
    requires AuditsReadable(w.lighthouse(EffectiveUrl(url)).value.audits, AuditOrder)
    ensures AnalyzeWebsite(a, url, w).issues ==
      Basics(url, w).issues + FailedAuditIssues(w.lighthouse(EffectiveUrl(url)).value.audits, AuditOrder)
  {
    ReadableReportIssues(w.lighthouse(EffectiveUrl(url)).value, Basics(url, w));
  }

  /** When Lighthouse is available but yields no report, the result is the
      basic checks with all four scores 0, so the site is never rated good. */
  lemma NoReportKeepsBasics(a: WebsiteAnalyzer, url: string, w: World)
    requires |url| > 0 && a.lighthouseAvailable && w.lighthouse(EffectiveUrl(url)).None?
    ensures AnalyzeWebsite(a, url, w) == Basics(url, w).(priority := AnalyzeWebsite(a, url, w).priority)
    ensures ScoreSum(AnalyzeWebsite(a, url, w)) == 0
    ensures AnalyzeWebsite(a, url, w).priority == Some(1) || AnalyzeWebsite(a, url, w).priority == Some(2)
  {
    PriorityLevels(Basics(url, w));
  }

  /** A site the GET cannot reach gets priority 1, whatever follows. */
  lemma UnreachableSiteIsPriorityOne(a: WebsiteAnalyzer, url: string, w: World)
    requires |url| > 0 && w.get(EffectiveUrl(url)).RequestFailure?
    ensures AnalyzeWebsite(a, url, w).priority == Some(1)
  {
    var u := EffectiveUrl(url);
    IssuesOnlyGrow(a, url, w);
    var b := Basics(url, w);
    var r := Unprioritised(a, url, w);
    var k := |SslIssues(u, w)|;
    assert b.issues[k] == AccessError(w.get(u).detail);
    assert r.issues[..|b.issues|] == b.issues;
    assert r.issues[k] == b.issues[k];
    AccessErrorIsPriorityOne(r, k);
  }

  /** The effective URL is on HTTPS exactly when the given one does not
      start with `http://`. */
  lemma EffectiveUrlHttps(url: string)
    ensures StartsWith(EffectiveUrl(url), "https://") <==> !StartsWith(url, "http://")
  {
    if StartsWith(url, "http://") {
      assert url[4] == ':';
    } else if StartsWith(url, "https://") {
      assert url[4] == 's';
    } else {
      assert ("https://" + url)[..8] == "https://";
    }
  }

  /** An issue the Lighthouse stage can append. */
  predicate FromReport(i: Issue) {
    i.AuditFailed? || i.ReportError?
  }

  /** The Lighthouse stage appends only audit issues and the report error. */
  lemma ReportAddsAuditIssues(report: Report, r: Analysis)
    ensures forall i :: i in Added(r, ProcessLighthouseResults(report, r)) ==> FromReport(i)
  {
    var t := ReadReport(report, r);
    var issues := ProcessLighthouseResults(report, r).issues;
    ReadReportAddsAuditFailures(report, r);
    assert issues == t.a.issues + (if t.Raised? then [ReportError(t.fault)] else []);
    forall k | |r.issues| <= k < |issues| ensures FromReport(issues[k]) {
      if k < |t.a.issues| {
        assert issues[k] == Added(r, t.a)[k - |r.issues|];
      }
    }
  }

  /** Before any exception is turned into an issue, reading a report appends
      only failed audits. */
  lemma ReadReportAddsAuditFailures(report: Report, r: Analysis)
    ensures forall k :: 0 <= k < |Added(r, ReadReport(report, r).a)| ==> Added(r, ReadReport(report, r).a)[k].AuditFailed?
  {
    var s := ApplyCategories(report.categories, CategoryOrder, r);
    if s.Continue? {
      assert ReadReport(report, r) == CheckAudits(report.audits, AuditOrder, s.a);
    }
  }

  /** The basic checks of an HTTPS URL never report missing SSL. */
  lemma NoSslOnHttps(url: string, w: World)
    requires StartsWith(url, "https://")
    ensures NoSsl !in SslIssues(url, w) + FetchIssues(url, w)
  {
    assert SslIssues(url, w) == [];
    match w.get(url)
    case RequestFailure(_) =>
    case OtherFailure(_) =>
    case Page(status, finalUrl, lowerText, bytes, _) =>
  }

  /** The fallback never reports missing SSL. */
  lemma NoSslInFallback(url: string, w: World)
    ensures NoSsl !in [NoLighthouse] + FallbackStageIssues(url, w)
  {
  }

  /** SSL is recorded exactly when the URL does not start with `http://`:
      a URL without a scheme is given `https://`. */
  lemma SslFollowsScheme(a: WebsiteAnalyzer, url: string, w: World)
    requires |url| > 0
    ensures AnalyzeWebsite(a, url, w).hasSsl <==> !StartsWith(url, "http://")
  {
    EffectiveUrlHttps(url);
  }

  /** Reading a report never reports missing SSL. */
  lemma ReportAddsNoSsl(report: Report, r: Analysis)
    ensures NoSsl !in Added(r, ProcessLighthouseResults(report, r))
  {
    ReportAddsAuditIssues(report, r);
  }

  /** The fallback, after its notice, never reports missing SSL. */
  lemma FallbackAddsNoSsl(url: string, w: World, r: Analysis)
    ensures IssuesGrow(r, PerformBasicAnalysis(url, w, AddIssue(r, NoLighthouse)))
    ensures NoSsl !in Added(r, PerformBasicAnalysis(url, w, AddIssue(r, NoLighthouse)))
  {
    var noted := AddIssue(r, NoLighthouse);
    var after := PerformBasicAnalysis(url, w, noted);
    NoSslInFallback(url, w);
    if w.refetch(url).Page? {
      FallbackIssuesOnPage(url, w, noted);
    }
    AppendAssoc(r.issues, [NoLighthouse], FallbackStageIssues(url, w));
    assert after.issues == r.issues + ([NoLighthouse] + FallbackStageIssues(url, w));
  }

  /** The stages after the basic checks never report missing SSL. */
  lemma LaterStagesAddNoSsl(a: WebsiteAnalyzer, url: string, w: World)
    requires |url| > 0
    ensures IssuesGrow(Basics(url, w), Unprioritised(a, url, w))
    ensures NoSsl !in Added(Basics(url, w), Unprioritised(a, url, w))
  {
    var u := EffectiveUrl(url);
    if a.lighthouseAvailable {
      if w.lighthouse(u).Some? {
        ReportAddsNoSsl(w.lighthouse(u).value, Basics(url, w));
      }
    } else {
      FallbackAddsNoSsl(u, w, Basics(url, w));
    }
  }

  /** An `http://` URL keeps the missing-SSL issue of the basic checks. */
  lemma HttpUrlReportsNoSsl(a: WebsiteAnalyzer, url: string, w: World)
    requires |url| > 0 && StartsWith(url, "http://")
    ensures NoSsl in AnalyzeWebsite(a, url, w).issues
  {
    EffectiveUrlHttps(url);
    IssuesOnlyGrow(a, url, w);
    var b := Basics(url, w);
    var r := AnalyzeWebsite(a, url, w);
    assert b.issues[0] == NoSsl;
    assert r.issues[..|b.issues|][0] == NoSsl;
  }

  /** Any other URL is fetched over HTTPS and never reports missing SSL. */
  lemma SecureUrlHasNoSslIssue(a: WebsiteAnalyzer, url: string, w: World)
    requires |url| > 0 && !StartsWith(url, "http://")
    ensures NoSsl !in AnalyzeWebsite(a, url, w).issues
  {
    var u := EffectiveUrl(url);
    EffectiveUrlHttps(url);
    BasicsAppend(u, w, Fresh);
    NoSslOnHttps(u, w);
    LaterStagesAddNoSsl(a, url, w);
    var b := Basics(url, w);
    var r := Unprioritised(a, url, w);
    GrownIssues(b, r);
    assert AnalyzeWebsite(a, url, w).issues == r.issues;
  }

  /** The missing-SSL issue is reported exactly when the URL starts with `http://`. */
  lemma NoSslIssueFollowsScheme(a: WebsiteAnalyzer, url: string, w: World)
    requires |url| > 0
    ensures NoSsl in AnalyzeWebsite(a, url, w).issues <==> StartsWith(url, "http://")
  {
    if StartsWith(url, "http://") {
      HttpUrlReportsNoSsl(a, url, w);
    } else {
      SecureUrlHasNoSslIssue(a, url, w);
    }
  }
}
