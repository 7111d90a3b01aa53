/**
 * The data side of Container/reports.py: the grade filter of generate_report, the
 * one-row-per-url summary table, the ranking of analyze_grades, the latest grade
 * per url behind generate_grade_distribution, and the two fixed HTML tables.
 *
 * A pandas frame is a sequence of rows in frame order. Charts, templating and the
 * report file are not modelled.
 */
module Reports {
  import opened Common
  import opened Store
  import opened Sorting
  import opened Analytics

  /** The 13 grades generate_report and analyze_grades know, best first. */
  const GradeOrder: seq<string> := ["A+", "A", "A-", "B+", "B", "B-", "C+", "C", "C-", "D+", "D", "D-", "F"]

  /** `list.index(x)`: the first position of `x`, or None where Python raises ValueError. */
  function IndexOf(s: seq<string>, x: string): (i: Option<nat>)
    ensures i.None? <==> x !in s
    ensures i.Some? ==> i.value < |s| && s[i.value] == x && forall j :: 0 <= j < i.value ==> s[j] != x
  {
    if s == [] then None
    else if s[0] == x then Some(0)
    else match IndexOf(s[1..], x)
      case None => None
      case Some(k) => Some(k + 1)
  }

  lemma GradeOrderDistinct()
    ensures forall i, j :: 0 <= i < j < |GradeOrder| ==> GradeOrder[i] != GradeOrder[j]
  {
  }

  /** `SELECT ... FROM results ORDER BY score DESC` */
  predicate HigherScore(a: Row, b: Row) { a.score > b.score }

  function FetchSubdomainData(rows: seq<Row>): seq<Row> {
    SortBy(rows, HigherScore)
  }

  /** The report lists every stored row once, best score first. */
  lemma SubdomainDataByScore(rows: seq<Row>)
    ensures SortedBy(FetchSubdomainData(rows), HigherScore)
    ensures multiset(FetchSubdomainData(rows)) == multiset(rows)
  {
    assert StrictOrder(HigherScore);
    SortBySorted(rows, HigherScore);
  }

  // ---------------------------------------------------------------------------
  // Grade filter

  /** The `grade_filter` argument: absent, a grade, or an inclusive (first, last) range. */
  datatype GradeFilter = NoFilter | Exactly(grade: string) | Between(first: string, last: string)

  datatype Filtered = Kept(rows: seq<Row>) | UnknownGrade(grade: string)

  function ApplyGradeFilter(df: seq<Row>, f: GradeFilter): Filtered {
    match f
    case NoFilter => Kept(df)
    case Exactly(g) => if g == "" then Kept(df) else Kept(Filter(df, (r: Row) => r.grade == g))
    case Between(a, b) =>
      match (IndexOf(GradeOrder, a), IndexOf(GradeOrder, b))
      case (None, _) => UnknownGrade(a)
      case (_, None) => UnknownGrade(b)
      case (Some(i), Some(j)) =>
        var selected := GradesBetween(i, j);
        Kept(Filter(df, (r: Row) => r.grade in selected))
  }

  /** A grade keeps exactly its rows; the empty string, like no filter, keeps all. */
  lemma ExactGradeFilter(df: seq<Row>, g: string)
    ensures g == "" ==> ApplyGradeFilter(df, Exactly(g)) == ApplyGradeFilter(df, NoFilter) == Kept(df)
    ensures g != "" ==>
      (ApplyGradeFilter(df, Exactly(g)).Kept? &&
       forall r :: r in ApplyGradeFilter(df, Exactly(g)).rows <==> r in df && r.grade == g)
  {
  }

  /** A range naming a grade outside the grade order is an error, and only such a range. */
  lemma UnknownRangeGrade(df: seq<Row>, a: string, b: string)
    ensures ApplyGradeFilter(df, Between(a, b)).UnknownGrade? <==> a !in GradeOrder || b !in GradeOrder
  {
  }

  /** A range of known grades keeps the rows whose grade lies between its ends in the
      grade order, ends included, so a reversed range keeps nothing. */
  lemma RangeGradeFilter(df: seq<Row>, a: string, b: string)
    ensures a in GradeOrder && b in GradeOrder ==>
      var i, j := IndexOf(GradeOrder, a).value, IndexOf(GradeOrder, b).value;
      forall r :: r in ApplyGradeFilter(df, Between(a, b)).rows <==>
        r in df && r.grade in GradeOrder && i <= IndexOf(GradeOrder, r.grade).value <= j
  {
  }

  /** `GRADE_ORDER[i:j + 1]`: the grades from position i to position j, ends included. */
  function GradesBetween(i: nat, j: nat): (selected: seq<string>)
    requires i < |GradeOrder| && j < |GradeOrder|
    ensures forall g :: g in selected <==> g in GradeOrder && i <= IndexOf(GradeOrder, g).value <= j
  {
    SelectedGrades(i, j);
    if i <= j + 1 then GradeOrder[i..j + 1] else []
  }

  lemma SelectedGrades(i: nat, j: nat)
    requires i < |GradeOrder| && j < |GradeOrder|
    ensures var selected := if i <= j + 1 then GradeOrder[i..j + 1] else [];
      forall g :: g in selected <==> g in GradeOrder && i <= IndexOf(GradeOrder, g).value <= j
  {
    var selected := if i <= j + 1 then GradeOrder[i..j + 1] else [];
    GradeOrderDistinct();
    forall g ensures g in selected <==> g in GradeOrder && i <= IndexOf(GradeOrder, g).value <= j {
      if g in selected {
        var k :| 0 <= k < |selected| && selected[k] == g;
        assert GradeOrder[i + k] == g;
      }
      if g in GradeOrder && i <= IndexOf(GradeOrder, g).value <= j {
        assert selected[IndexOf(GradeOrder, g).value - i] == g;
      }
    }
  }

  // ---------------------------------------------------------------------------
  // summary_df: the first row of each url

  /** `drop_duplicates(subset=['url'])`: the first row of each url, in frame order. */
  function FirstPerUrl(s: seq<Row>): (out: seq<Row>)
    ensures FirstsOf(s, out)
    ensures IsSubsequence(out, s)
  {
    if s == [] then []
    else
      var before := FirstPerUrl(s[..|s| - 1]);
      FirstPerUrlStep(s, before);
      assert (before + [s[|s| - 1]])[..|before|] == before;
      if s[|s| - 1].url in Urls(s[..|s| - 1]) then before else before + [s[|s| - 1]]
  }

  /** `out` holds rows of `s` with distinct urls, among them the first row of each url. */
  ghost predicate FirstsOf(s: seq<Row>, out: seq<Row>) {
    && (forall r :: r in out ==> r in s)
    && (forall i, j :: 0 <= i < j < |out| ==> out[i].url != out[j].url)
    && (forall k :: 0 <= k < |s| && (forall j :: 0 <= j < k ==> s[j].url != s[k].url) ==> s[k] in out)
  }

  /** Adding the last row when its url is new keeps the first rows of every url. */
  lemma FirstPerUrlStep(s: seq<Row>, before: seq<Row>)
    requires s != [] && FirstsOf(s[..|s| - 1], before)
    ensures var last := s[|s| - 1];
      FirstsOf(s, if last.url in Urls(s[..|s| - 1]) then before else before + [last])
  {
    if s[|s| - 1].url in Urls(s[..|s| - 1]) {
      FirstPerUrlSeen(s, before);
    } else {
      FirstPerUrlNew(s, before);
    }
  }

  lemma FirstPerUrlSeen(s: seq<Row>, before: seq<Row>)
    requires s != [] && FirstsOf(s[..|s| - 1], before) && s[|s| - 1].url in Urls(s[..|s| - 1])
    ensures FirstsOf(s, before)
  {
    SeenRowsOf(s, before);
    SeenFirsts(s, before);
  }

  lemma SeenRowsOf(s: seq<Row>, before: seq<Row>)
    requires s != [] && forall r :: r in before ==> r in s[..|s| - 1]
    ensures forall r :: r in before ==> r in s
  {
    forall r | r in before ensures r in s {
      var j :| 0 <= j < |s| - 1 && s[..|s| - 1][j] == r;
      assert s[j] == r;
    }
  }

  lemma SeenFirsts(s: seq<Row>, before: seq<Row>)
    requires s != [] && s[|s| - 1].url in Urls(s[..|s| - 1])
    requires var init := s[..|s| - 1];
      forall k :: 0 <= k < |init| && (forall j :: 0 <= j < k ==> init[j].url != init[k].url) ==> init[k] in before
    ensures forall k :: 0 <= k < |s| && (forall j :: 0 <= j < k ==> s[j].url != s[k].url) ==> s[k] in before
  {
    var n := |s|;
    var init := s[..n - 1];
    assert forall j :: 0 <= j < n - 1 ==> init[j] == s[j];
    var j0 :| 0 <= j0 < n - 1 && Urls(init)[j0] == s[n - 1].url;
    assert s[j0].url == s[n - 1].url;
    forall k | 0 <= k < n && (forall j :: 0 <= j < k ==> s[j].url != s[k].url) ensures s[k] in before {
      assert k < n - 1;
    }
  }

  lemma FirstPerUrlNew(s: seq<Row>, before: seq<Row>)
    requires s != [] && FirstsOf(s[..|s| - 1], before) && s[|s| - 1].url !in Urls(s[..|s| - 1])
    ensures FirstsOf(s, before + [s[|s| - 1]])
  {
    NewUrlRowsOf(s, before);
    NewUrlDistinct(s, before);
    NewUrlCovers(s, before);
  }

  lemma NewUrlRowsOf(s: seq<Row>, before: seq<Row>)
    requires s != [] && forall r :: r in before ==> r in s[..|s| - 1]
    ensures forall r :: r in before + [s[|s| - 1]] ==> r in s
  {
    assert forall j :: 0 <= j < |s| - 1 ==> s[..|s| - 1][j] == s[j];
  }

  lemma NewUrlDistinct(s: seq<Row>, before: seq<Row>)
    requires s != [] && s[|s| - 1].url !in Urls(s[..|s| - 1])
    requires forall r :: r in before ==> r in s[..|s| - 1]
    requires forall i, j :: 0 <= i < j < |before| ==> before[i].url != before[j].url
    ensures var out := before + [s[|s| - 1]];
      forall i, j :: 0 <= i < j < |out| ==> out[i].url != out[j].url
  {
    var init := s[..|s| - 1];
    var out := before + [s[|s| - 1]];
    forall i, j | 0 <= i < j < |out| ensures out[i].url != out[j].url {
      if j == |out| - 1 {
        assert out[i] == before[i] && before[i] in before;
        assert out[i] in init;
        var k :| 0 <= k < |init| && init[k] == out[i];
        assert Urls(init)[k] == out[i].url;
      }
    }
  }

  lemma NewUrlCovers(s: seq<Row>, before: seq<Row>)
    requires s != []
    requires var init := s[..|s| - 1];
      forall k :: 0 <= k < |init| && (forall j :: 0 <= j < k ==> init[j].url != init[k].url) ==> init[k] in before
    ensures var out := before + [s[|s| - 1]];
      forall k :: 0 <= k < |s| && (forall j :: 0 <= j < k ==> s[j].url != s[k].url) ==> s[k] in out
  {
    var n := |s|;
    var init := s[..n - 1];
    var out := before + [s[n - 1]];
    forall k | 0 <= k < n && (forall j :: 0 <= j < k ==> s[j].url != s[k].url) ensures s[k] in out {
      if k < n - 1 {
        assert forall j :: 0 <= j < k ==> init[j] == s[j];
        assert init[k] in before;
      } else {
        assert out[|out| - 1] == s[k];
      }
    }
  }

  datatype UrlScore = UrlScore(url: string, score: real, grade: string)

  function UrlScoreOf(r: Row): UrlScore {
    UrlScore(r.url, r.score, r.grade)
  }

  /** The summary table: one (url, score, grade) per url, from its first row. */
  function SummaryTable(df: seq<Row>): seq<UrlScore> {
    var firsts := FirstPerUrl(df);
    seq(|firsts|, i requires 0 <= i < |firsts| => UrlScoreOf(firsts[i]))
  }

  /** Every url of the frame appears once in the summary, with the values of its first row. */
  lemma SummaryTableOnePerUrl(df: seq<Row>)
    ensures var t := SummaryTable(df);
      && (forall i, j :: 0 <= i < j < |t| ==> t[i].url != t[j].url)
      && (forall k :: 0 <= k < |df| && (forall j :: 0 <= j < k ==> df[j].url != df[k].url) ==> UrlScoreOf(df[k]) in t)
      && (forall e :: e in t ==> exists r :: r in df && UrlScoreOf(r) == e)
  {
    var firsts := FirstPerUrl(df);
    var t := SummaryTable(df);
    forall k | 0 <= k < |df| && (forall j :: 0 <= j < k ==> df[j].url != df[k].url)
      ensures UrlScoreOf(df[k]) in t
    {
      var i :| 0 <= i < |firsts| && firsts[i] == df[k];
      assert t[i] == UrlScoreOf(df[k]);
    }
    forall e | e in t ensures exists r :: r in df && UrlScoreOf(r) == e {
      var i :| 0 <= i < |t| && t[i] == e;
      assert firsts[i] in df;
    }
  }

  // ---------------------------------------------------------------------------
  // Latest row of a url

  /** `idxmax` of the timestamps: the first row holding the newest timestamp. */
  function FirstLatestRow(s: seq<Row>): (r: Row)
    requires s != []
    ensures exists k :: 0 <= k < |s| && s[k] == r && forall j :: 0 <= j < k ==> s[j].timestamp < r.timestamp
    ensures forall x :: x in s ==> x.timestamp <= r.timestamp
  {
    if |s| == 1 then s[0]
    else
      var rest := FirstLatestRow(s[1..]);
      if s[0].timestamp >= rest.timestamp then s[0]
      else
        assert forall x :: x in s[1..] ==> x in s;
        var k :| 0 <= k < |s[1..]| && s[1..][k] == rest && forall j :: 0 <= j < k ==> s[1..][j].timestamp < rest.timestamp;
        assert s[k + 1] == rest;
        rest
  }

  /** The newest (url, score, grade) of one url of the frame. */
  function LatestOf(df: seq<Row>, u: string): (e: UrlScore)
    requires u in Urls(df)
    ensures e.url == u
    ensures exists r :: r in df && UrlScoreOf(r) == e && forall x :: x in df && x.url == u ==> x.timestamp <= r.timestamp
  {
    var i :| 0 <= i < |df| && Urls(df)[i] == u;
    assert df[i] in RowsFor(df, u);
    var r := FirstLatestRow(RowsFor(df, u));
    assert r in RowsFor(df, u);
    UrlScoreOf(r)
  }

  /** The newest (url, score, grade) of each url, in order of first appearance. */
  function LatestScans(df: seq<Row>): (scans: seq<UrlScore>)
    ensures |scans| == |Distinct(Urls(df))|
    ensures forall i :: 0 <= i < |scans| ==> scans[i] == LatestOf(df, Distinct(Urls(df))[i])
  {
    var urls := Distinct(Urls(df));
    seq(|urls|, i requires 0 <= i < |urls| => LatestOf(df, urls[i]))
  }

  // ---------------------------------------------------------------------------
  // analyze_grades

  /** Position of a grade in the order; grades outside it map to NaN (None). */
  function GradeRank(g: string): Option<nat> {
    IndexOf(GradeOrder, g)
  }

  /** Ascending rank, NaN placed last. */
  predicate RankBelow(x: Option<nat>, y: Option<nat>) {
    x.Some? && (y.None? || x.value < y.value)
  }

  /** Descending rank, NaN placed last. */
  predicate RankAbove(x: Option<nat>, y: Option<nat>) {
    x.Some? && (y.None? || x.value > y.value)
  }

  /** Best grade first, then highest score. */
  predicate RanksBefore(a: UrlScore, b: UrlScore) {
    RankBelow(GradeRank(a.grade), GradeRank(b.grade)) ||
    (GradeRank(a.grade) == GradeRank(b.grade) && a.score > b.score)
  }

  /** Worst grade first, then highest score. */
  predicate WorseFirst(a: UrlScore, b: UrlScore) {
    RankAbove(GradeRank(a.grade), GradeRank(b.grade)) ||
    (GradeRank(a.grade) == GradeRank(b.grade) && a.score > b.score)
  }

  lemma RankingsAreStrictOrders()
    ensures StrictOrder(RanksBefore)
    ensures StrictOrder(WorseFirst)
  {
  }

  datatype GradeAnalysis = GradeAnalysis(ranking: seq<UrlScore>, top: seq<UrlScore>, critical: seq<UrlScore>)

  /** analyze_grades: rank the newest scan of each url, keep the first 15 as the top
      list and the last 15, re-sorted worst first, as the critical list. */
  function AnalyzeGrades(df: seq<Row>): GradeAnalysis {
    var ranking := SortBy(LatestScans(df), RanksBefore);
    GradeAnalysis(ranking, Head(ranking, 15), SortBy(Tail(ranking, 15), WorseFirst))
  }

  /** The ranking holds each url's newest scan once, best first; the top list is its
      first 15 and nothing left out ranks before any of them; the critical list is its
      last 15, worst first, and nothing left out ranks after any of them. */
  lemma AnalyzeGradesRanks(df: seq<Row>)
    ensures var a := AnalyzeGrades(df);
      && multiset(a.ranking) == multiset(LatestScans(df))
      && SortedBy(a.ranking, RanksBefore)
      && |a.top| <= 15 && a.top == a.ranking[..|a.top|]
      && (forall x :: x in a.ranking && x !in a.top ==> |a.top| == 15 && forall e :: e in a.top ==> !RanksBefore(x, e))
      && |a.critical| <= 15 && multiset(a.critical) == multiset(Tail(a.ranking, 15))
      && SortedBy(a.critical, WorseFirst)
      && (forall x :: x in a.ranking && x !in a.critical ==>
            |a.critical| == 15 && forall e :: e in a.critical ==> !RanksBefore(e, x))
  {
    var a := AnalyzeGrades(df);
    RankingsAreStrictOrders();
    SortBySorted(LatestScans(df), RanksBefore);
    SortBySorted(Tail(a.ranking, 15), WorseFirst);
    SortByMembers(Tail(a.ranking, 15), WorseFirst);
    forall x | x in a.ranking && x !in a.top
      ensures |a.top| == 15 && forall e :: e in a.top ==> !RanksBefore(x, e)
    {
      HeadDominates(a.ranking, RanksBefore, 15, x);
    }
    forall x | x in a.ranking && x !in a.critical
      ensures |a.critical| == 15 && forall e :: e in a.critical ==> !RanksBefore(e, x)
    {
      TailDominated(a.ranking, RanksBefore, 15, x);
    }
  }

  // ---------------------------------------------------------------------------
  // generate_grade_distribution

  /** `get_latest_grade(url)` for each unique url, in order of first appearance. */
  function LatestGrades(df: seq<Row>): (grades: seq<string>)
    ensures |grades| == |Distinct(Urls(df))|
    ensures forall i :: 0 <= i < |grades| ==> grades[i] == LatestOf(df, Distinct(Urls(df))[i]).grade
  {
    var scans := LatestScans(df);
    seq(|scans|, i requires 0 <= i < |scans| => scans[i].grade)
  }

  datatype GradeCount = GradeCount(grade: string, count: nat)

  /** `value_counts()` of the given grades over the distinct grades `ds`. */
  function CountsOver(ds: seq<string>, grades: seq<string>): (counts: seq<GradeCount>)
    ensures |counts| == |ds|
    ensures forall i :: 0 <= i < |ds| ==> counts[i] == GradeCount(ds[i], Occurrences(grades, ds[i]))
  {
    if ds == [] then [] else [GradeCount(ds[0], Occurrences(grades, ds[0]))] + CountsOver(ds[1..], grades)
  }

  function GradeDistribution(df: seq<Row>): seq<GradeCount> {
    var grades := LatestGrades(df);
    CountsOver(Distinct(grades), grades)
  }

  function TotalCount(counts: seq<GradeCount>): nat {
    if counts == [] then 0 else counts[0].count + TotalCount(counts[1..])
  }

  /** Each url is counted once: the bar heights add up to the number of distinct urls,
      and each bar counts the urls whose newest grade it names. */
  lemma GradeDistributionCountsUrls(df: seq<Row>)
    ensures TotalCount(GradeDistribution(df)) == |Distinct(Urls(df))|
    ensures forall c :: c in GradeDistribution(df) ==> c.count == Occurrences(LatestGrades(df), c.grade) && c.count > 0
  {
    var grades := LatestGrades(df);
    var ds := Distinct(grades);
    assert GradeDistribution(df) == CountsOver(ds, grades);
    TotalCountsOver(ds, grades);
    CountsPositive(grades);
  }

  /** Every bar over the distinct grades counts occurrences, and none is empty. */
  lemma CountsPositive(grades: seq<string>)
    ensures forall c :: c in CountsOver(Distinct(grades), grades) ==>
              c.count == Occurrences(grades, c.grade) && c.count > 0
  {
    var ds := Distinct(grades);
    var counts := CountsOver(ds, grades);
    forall c | c in counts ensures c.count == Occurrences(grades, c.grade) && c.count > 0 {
      var i :| 0 <= i < |counts| && counts[i] == c;
      assert ds[i] in ds;
    }
  }

  lemma {:induction false} TotalCountsOver(ds: seq<string>, grades: seq<string>)
    requires forall i, j :: 0 <= i < j < |ds| ==> ds[i] != ds[j]
    requires forall g :: g in grades ==> g in ds
    ensures TotalCount(CountsOver(ds, grades)) == |grades|
    decreases |grades|
  {
    if grades == [] {
      ZeroCounts(ds, grades);
    } else {
      var t := grades[1..];
      assert forall g :: g in t ==> g in grades;
      TotalCountsOver(ds, t);
      CountsSplit(ds, grades);
      OccursOnce(ds, grades[0]);
    }
  }

  lemma {:induction false} ZeroCounts(ds: seq<string>, grades: seq<string>)
    requires grades == []
    ensures TotalCount(CountsOver(ds, grades)) == 0
  {
    if ds != [] {
      ZeroCounts(ds[1..], grades);
    }
  }

  lemma {:induction false} CountsSplit(ds: seq<string>, grades: seq<string>)
    requires grades != []
    ensures TotalCount(CountsOver(ds, grades)) == Occurrences(ds, grades[0]) + TotalCount(CountsOver(ds, grades[1..]))
  {
    if ds != [] {
      CountsSplit(ds[1..], grades);
    }
  }

  lemma {:induction false} OccursOnce(ds: seq<string>, x: string)
    requires forall i, j :: 0 <= i < j < |ds| ==> ds[i] != ds[j]
    requires x in ds
    ensures Occurrences(ds, x) == 1
  {
    if ds[0] != x {
      OccursOnce(ds[1..], x);
    } else {
      assert x !in ds[1..];
    }
  }

  // ---------------------------------------------------------------------------
  // The two fixed tables

  const ProposalData: seq<(string, string)> := [
    ("Strict-Transport-Security", "max-age=31536000; includeSubDomains"),
    ("X-Frame-Options", "deny"),
    ("X-Content-Type-Options", "nosniff"),
    ("Content-Security-Policy", "default-src 'self'; form-action 'self'; object-src 'none'; frame-ancestors 'none'; upgrade-insecure-requests; block-all-mixed-content"),
    ("X-Permitted-Cross-Domain-Policies", "none"),
    ("Referrer-Policy", "no-referrer"),
    ("Clear-Site-Data", "\"cache\",\"cookies\",\"storage\""),
    ("Cross-Origin-Embedder-Policy", "require-corp"),
    ("Cross-Origin-Opener-Policy", "same-origin"),
    ("Cross-Origin-Resource-Policy", "same-origin"),
    ("Permissions-Policy", "accelerometer=(), autoplay=(), camera=(), cross-origin-isolated=(), display-capture=(), encrypted-media=(), fullscreen=(), geolocation=(), gyroscope=(), keyboard-map=(), magnetometer=(), microphone=(), midi=(), payment=(), picture-in-picture=(), publickey-credentials-get=(), screen-wake-lock=(), sync-xhr=(self), usb=(), web-share=(), xr-spatial-tracking=(), clipboard-read=(), clipboard-write=(), gamepad=(), hid=(), idle-detection=(), interest-cohort=(), serial=(), unload=()"),
    ("Cache-Control", "no-store, max-age=0")
  ]

  const CommentsData: seq<(string, string, string)> := [
    ("Strict-Transport-Security (HSTS)", "Can break non-HTTPS environments or development setups", "Safe in production with HTTPS"),
    ("X-Frame-Options", "Can block legitimate iframe usage", "Safe if your app doesn't use iframes"),
    ("X-Content-Type-Options", "No", "Safe for preventing MIME sniffing"),
    ("Referrer-Policy", "No", "Safe, controls how much referrer info is shared"),
    ("Content-Security-Policy", "Can block legitimate inline scripts or external content", "Requires careful configuration"),
    ("X-Permitted-Cross-Domain-Policies", "No", "Safe, controls cross-domain resource loading"),
    ("Clear-Site-Data", "Can cause data loss (e.g., cache, cookies)", "Needs to be used cautiously (e.g., for logout)"),
    ("Permissions-Policy", "Can interfere with feature access (e.g., geolocation)", "Safe if configured according to app requirements"),
    ("Cache-Control", "No", "Safe, controls caching behavior"),
    ("Cross-Origin-Embedder-Policy", "May break if not configured correctly", "Generally safe, controls embedding of resources"),
    ("Cross-Origin-Opener-Policy", "May break if not configured correctly", "Generally safe, controls opener policy"),
    ("Cross-Origin-Resource-Policy", "May break if not configured correctly", "Generally safe, controls resource policy")
  ]

  const ProposalHeading := "<table><tr><th>Header name</th><th>Proposed value</th></tr>"
  const CommentsHeading := "<table><tr><th>Header</th><th>Can Break the App</th><th>Safe to Implement</th></tr>"

  function ProposalRow(e: (string, string)): string {
    "<tr><td>" + e.0 + "</td><td>" + e.1 + "</td></tr>"
  }

  function CommentsRow(e: (string, string, string)): string {
    "<tr><td>" + e.0 + "</td><td>" + e.1 + "</td><td>" + e.2 + "</td></tr>"
  }

  function ProposalRows(data: seq<(string, string)>): seq<string> {
    seq(|data|, i requires 0 <= i < |data| => ProposalRow(data[i]))
  }

  function CommentsRows(data: seq<(string, string, string)>): seq<string> {
    seq(|data|, i requires 0 <= i < |data| => CommentsRow(data[i]))
  }

  lemma ProposalRowsStep(data: seq<(string, string)>, i: nat)
    requires i < |data|
    ensures Join(ProposalRows(data[..i + 1])) == Join(ProposalRows(data[..i])) + ProposalRow(data[i])
  {
    assert ProposalRows(data[..i + 1]) == ProposalRows(data[..i]) + [ProposalRow(data[i])];
    JoinConcat(ProposalRows(data[..i]), [ProposalRow(data[i])]);
    JoinSingle(ProposalRow(data[i]));
  }

  /** The `+=` loop of generate_configuration_proposal_table over a list of entries. */
  method BuildProposalTable(heading: string, data: seq<(string, string)>) returns (html: string)
    ensures html == heading + Join(ProposalRows(data)) + "</table>"
  {
    html := heading;
    for i := 0 to |data|
      invariant html == heading + Join(ProposalRows(data[..i]))
    {
      ProposalRowsStep(data, i);
      html := html + ProposalRow(data[i]);
    }
    assert data[..|data|] == data;
    html := html + "</table>";
  }

  lemma CommentsRowsStep(data: seq<(string, string, string)>, i: nat)
    requires i < |data|
    ensures Join(CommentsRows(data[..i + 1])) == Join(CommentsRows(data[..i])) + CommentsRow(data[i])
  {
    assert CommentsRows(data[..i + 1]) == CommentsRows(data[..i]) + [CommentsRow(data[i])];
    JoinConcat(CommentsRows(data[..i]), [CommentsRow(data[i])]);
    JoinSingle(CommentsRow(data[i]));
  }

  /** The `+=` loop of generate_comments_table over a list of entries. */
  method BuildCommentsTable(heading: string, data: seq<(string, string, string)>) returns (html: string)
    ensures html == heading + Join(CommentsRows(data)) + "</table>"
  {
    html := heading;
    for i := 0 to |data|
      invariant html == heading + Join(CommentsRows(data[..i]))
    {
      CommentsRowsStep(data, i);
      html := html + CommentsRow(data[i]);
    }
    assert data[..|data|] == data;
    html := html + "</table>";
  }

  method GenerateConfigurationProposalTable() returns (html: string)
    ensures html == ProposalHeading + Join(ProposalRows(ProposalData)) + "</table>"
  {
    html := BuildProposalTable(ProposalHeading, ProposalData);
  }

  method GenerateCommentsTable() returns (html: string)
    ensures html == CommentsHeading + Join(CommentsRows(CommentsData)) + "</table>"
  {
    html := BuildCommentsTable(CommentsHeading, CommentsData);
  }

  /** The rows of a table split at any entry: entries before it, then entries from it on. */
  lemma ProposalRowsInOrder(data: seq<(string, string)>, k: nat)
    requires k <= |data|
    ensures Join(ProposalRows(data)) == Join(ProposalRows(data[..k])) + Join(ProposalRows(data[k..]))
  {
    assert ProposalRows(data) == ProposalRows(data[..k]) + ProposalRows(data[k..]);
    JoinConcat(ProposalRows(data[..k]), ProposalRows(data[k..]));
  }

  /** A one-entry table body is exactly that entry's row. */
  lemma JoinSingle(x: string)
    ensures Join([x]) == x
  {
    assert [x][..0] == [];
  }
}
