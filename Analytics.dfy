/**
 * The read-side queries of Container/analytics.py over the `results` table, as
 * functions over the row sequence (SQLite returns rows of a plain SELECT in table
 * order), and the string built by generate_vulnerability_summary.
 *
 * The `LIKE 'http://<q>%'` patterns of fetch_all_results_for_url are modelled as
 * case-sensitive prefix tests with no wildcards inside <q>; the fixed scheme
 * patterns of the `base_url` column are matched case-insensitively, as SQLite does.
 */
module Analytics {
  import opened Common
  import opened UrlParse
  import opened Checks
  import opened Store
  import opened Sorting
  import opened Grades

  // ---------------------------------------------------------------------------
  // URL matching

  /** `url LIKE p || '%'` for a pattern p without wildcards: SQLite's `LIKE` folds
      ASCII letters, so the prefix is compared case-insensitively. */
  predicate LikePrefix(url: string, p: string) {
    |p| <= |url| && Lower(url[..|p|]) == Lower(p)
  }

  /** The `base_url` column: the url without a leading "http://" or "https://",
      in any letter case. */
  function BaseUrl(url: string): (b: string)
    ensures LikePrefix(url, "http://") ==> b == url[7..]
    ensures LikePrefix(url, "https://") ==> b == url[8..]
    ensures !LikePrefix(url, "http://") && !LikePrefix(url, "https://") ==> b == url
  {
    assert LikePrefix(url, "https://") ==> !LikePrefix(url, "http://") by {
      if LikePrefix(url, "https://") {
        assert Lower(url[..8])[4] == Lower("https://")[4];
        assert Lower(url[..7])[4] == Lower(url[..8])[4];
      }
    }
    if LikePrefix(url, "http://") then url[7..]
    else if LikePrefix(url, "https://") then url[8..]
    else url
  }

  /** Stripping the scheme gives back what follows it, for either scheme and in
      either letter case. */
  lemma BaseUrlStripsScheme(host: string)
    ensures BaseUrl("http://" + host) == host
    ensures BaseUrl("https://" + host) == host
    ensures BaseUrl("HTTP://" + host) == host
    ensures BaseUrl("HTTPS://" + host) == host
  {
    assert ("http://" + host)[..7] == "http://";
    assert ("https://" + host)[..8] == "https://";
    assert ("HTTP://" + host)[..7] == "HTTP://";
    assert ("HTTPS://" + host)[..8] == "HTTPS://";
    assert Lower("HTTP://") == Lower("http://");
    assert Lower("HTTPS://") == Lower("https://");
    assert ("https://" + host)[..7] == "https:/";
    assert ("HTTPS://" + host)[..7] == "HTTPS:/";
    assert Lower("https:/")[4] != Lower("http://")[4];
    assert Lower("HTTPS:/")[4] != Lower("http://")[4];
  }

  /** `url LIKE 'http://<q>%' OR url LIKE 'https://<q>%' OR url = <q>` */
  predicate MatchesQuery(url: string, q: string) {
    url == q || StartsWith(url, "http://" + q) || StartsWith(url, "https://" + q)
  }

  // ---------------------------------------------------------------------------
  // Latest scan of a url

  /** `MAX(timestamp)` over a non-empty set of rows. */
  function MaxTimestamp(rows: seq<Row>): (m: Timestamp)
    requires rows != []
    ensures exists i :: 0 <= i < |rows| && rows[i].timestamp == m
    ensures forall i :: 0 <= i < |rows| ==> rows[i].timestamp <= m
  {
    if |rows| == 1 then rows[0].timestamp
    else
      var rest := MaxTimestamp(rows[1..]);
      if rest <= rows[0].timestamp then rows[0].timestamp else rest
  }

  function Matching(rows: seq<Row>, q: string): seq<Row> {
    Filter(rows, (r: Row) => MatchesQuery(r.url, q))
  }

  /** A matching row that no matching row is newer than. */
  ghost predicate IsLatestMatch(rows: seq<Row>, q: string, r: Row) {
    r in rows && MatchesQuery(r.url, q) &&
    forall s :: s in rows && MatchesQuery(s.url, q) ==> s.timestamp <= r.timestamp
  }

  /** fetch_all_results_for_url: the matching rows of the newest timestamp among the
      matching rows. When nothing matches, `MAX` is NULL and no row is returned. */
  function FetchAllResultsForUrl(rows: seq<Row>, q: string): (scan: seq<Row>)
    ensures forall r :: r in scan <==> IsLatestMatch(rows, q, r)
    ensures forall r, s :: r in scan && s in scan ==> r.timestamp == s.timestamp
    ensures scan == [] <==> forall r :: r in rows ==> !MatchesQuery(r.url, q)
  {
    var matching := Matching(rows, q);
    if matching == [] then []
    else
      var m := MaxTimestamp(matching);
      NewestMatch(rows, q);
      Filter(rows, (r: Row) => MatchesQuery(r.url, q) && r.timestamp == m)
  }

  /** The newest matching timestamp bounds every matching row and is some matching
      row's timestamp. */
  lemma NewestMatch(rows: seq<Row>, q: string)
    requires Matching(rows, q) != []
    ensures forall s :: s in rows && MatchesQuery(s.url, q) ==> s.timestamp <= MaxTimestamp(Matching(rows, q))
    ensures exists r :: r in rows && MatchesQuery(r.url, q) && r.timestamp == MaxTimestamp(Matching(rows, q))
  {
    var matching := Matching(rows, q);
    var m := MaxTimestamp(matching);
    forall s | s in rows && MatchesQuery(s.url, q) ensures s.timestamp <= m {
      assert s in matching;
      var i :| 0 <= i < |matching| && matching[i] == s;
    }
    var i :| 0 <= i < |matching| && matching[i].timestamp == m;
    assert matching[i] in rows;
  }

  /** If a table's newest rows are one batch stored for url `q`, the latest-scan query
      for `q` returns exactly that batch. */
  lemma LatestScanIsNewestBatch(older: seq<Row>, batch: seq<Row>, q: string, now: Timestamp)
    requires batch != []
    requires forall r :: r in older ==> r.timestamp < now
    requires forall r :: r in batch ==> r.url == q && r.timestamp == now
    ensures FetchAllResultsForUrl(older + batch, q) == batch
  {
    var rows := older + batch;
    assert batch[0] in rows;
    var m := MaxTimestamp(Matching(rows, q));
    assert m == now by {
      assert batch[0] in Matching(rows, q);
      var i :| 0 <= i < |Matching(rows, q)| && Matching(rows, q)[i].timestamp == m;
      assert Matching(rows, q)[i] in rows;
    }
    FilterConcat(older, batch, (r: Row) => MatchesQuery(r.url, q) && r.timestamp == m);
    FilterNone(older, (r: Row) => MatchesQuery(r.url, q) && r.timestamp == m);
    FilterAll(batch, (r: Row) => MatchesQuery(r.url, q) && r.timestamp == m);
  }

  /** Storing a scan with Container/evaluator.py's policy and then asking for the url's
      latest results gives back exactly the stored results, in order. */
  lemma StoreThenFetchKeepingHistory(rows: seq<Row>, nextId: nat, url: string, score: real, grade: string,
                                     results: seq<Verdict>, now: Timestamp, cutoff: Timestamp)
    requires results != []
    requires forall r :: r in rows ==> r.timestamp < now
    ensures var scan := FetchAllResultsForUrl(StoredKeepingHistory(rows, nextId, url, score, grade, results, now, cutoff), url);
      && Verdicts(scan) == results
      && (forall r :: r in scan ==> r.url == url && r.score == score && r.grade == grade)
  {
    BatchRowsAreOneScan(nextId, url, score, grade, results, now);
    LatestScanIsNewestBatch(PruneUrlBefore(rows, url, cutoff), BatchRows(nextId, url, score, grade, results, now), url, now);
  }

  /** The same round trip for evaluator.py's replacing policy. */
  lemma StoreThenFetchReplacing(rows: seq<Row>, nextId: nat, url: string, score: real, grade: string,
                                results: seq<Verdict>, now: Timestamp)
    requires results != []
    requires forall r :: r in rows ==> r.timestamp < now
    ensures var scan := FetchAllResultsForUrl(StoredReplacing(rows, nextId, url, score, grade, results, now), url);
      && Verdicts(scan) == results
      && (forall r :: r in scan ==> r.url == url && r.score == score && r.grade == grade)
  {
    BatchRowsAreOneScan(nextId, url, score, grade, results, now);
    LatestScanIsNewestBatch(RowsNotFor(rows, url), BatchRows(nextId, url, score, grade, results, now), url, now);
  }

  // ---------------------------------------------------------------------------
  // top_vulnerabilities

  /** `SELECT MAX(timestamp) FROM results GROUP BY url` */
  function LatestTimestamps(rows: seq<Row>): (ts: set<Timestamp>)
    ensures forall t :: t in ts <==> exists r :: r in rows && t == MaxTimestamp(RowsFor(rows, r.url))
  {
    set r | r in rows :: MaxTimestamp(RowsFor(rows, r.url))
  }

  /** Rows of some url's latest timestamp whose status starts with "FAIL". */
  function FailingLatestRows(rows: seq<Row>): seq<Row> {
    var latest := LatestTimestamps(rows);
    Filter(rows, (r: Row) => r.timestamp in latest && StartsWith(r.status, "FAIL"))
  }

  function HeaderNames(rows: seq<Row>): (names: seq<string>)
    ensures |names| == |rows|
    ensures forall i :: 0 <= i < |rows| ==> names[i] == rows[i].headerName
  {
    seq(|rows|, i requires 0 <= i < |rows| => rows[i].headerName)
  }

  /** `COUNT(*)` of the rows of one header. */
  function RowsOfHeader(rows: seq<Row>, name: string): nat {
    Count(rows, (r: Row) => r.headerName == name)
  }

  datatype HeaderCount = HeaderCount(name: string, count: nat)

  /** `GROUP BY header_name`: one group per distinct header, in order of first appearance. */
  function GroupCounts(rows: seq<Row>): (groups: seq<HeaderCount>)
    ensures forall g :: g in groups ==> g.count == RowsOfHeader(rows, g.name) && g.count > 0
    ensures forall h :: h in HeaderNames(rows) <==> HeaderCount(h, RowsOfHeader(rows, h)) in groups
    ensures forall i, j :: 0 <= i < j < |groups| ==> groups[i].name != groups[j].name
  {
    var names := Distinct(HeaderNames(rows));
    var groups := seq(|names|, i requires 0 <= i < |names| => HeaderCount(names[i], RowsOfHeader(rows, names[i])));
    forall g | g in groups ensures g.count > 0 {
      HeaderCountPositive(rows, g.name);
    }
    assert forall h :: h in names ==> HeaderCount(h, RowsOfHeader(rows, h)) in groups by {
      forall h | h in names ensures HeaderCount(h, RowsOfHeader(rows, h)) in groups {
        var i :| 0 <= i < |names| && names[i] == h;
        assert groups[i] == HeaderCount(h, RowsOfHeader(rows, h));
      }
    }
    groups
  }

  lemma {:induction false} HeaderCountPositive(rows: seq<Row>, name: string)
    requires name in HeaderNames(rows)
    ensures RowsOfHeader(rows, name) > 0
  {
    if rows[0].headerName != name {
      assert HeaderNames(rows[1..]) == HeaderNames(rows)[1..];
      HeaderCountPositive(rows[1..], name);
    }
  }

  predicate MoreRows(a: HeaderCount, b: HeaderCount) {
    a.count > b.count
  }

  /** top_vulnerabilities: failing-header counts, most frequent first, at most ten. */
  function TopVulnerabilities(rows: seq<Row>): (top: seq<HeaderCount>)
    ensures |top| <= 10
  {
    Head(SortBy(GroupCounts(FailingLatestRows(rows)), MoreRows), 10)
  }

  /** Each reported header is counted over the failing rows of the latest scans, the
      report is ordered by count, reports each header once, and a failing header left
      out of a full report has no more failures than any reported one. */
  lemma TopVulnerabilitiesAreTop(rows: seq<Row>)
    ensures var top := TopVulnerabilities(rows);
            var failing := FailingLatestRows(rows);
      && (forall e :: e in top ==> e.count == RowsOfHeader(failing, e.name) && e.count > 0)
      && SortedBy(top, MoreRows)
      && (forall i, j :: 0 <= i < j < |top| ==> top[i].name != top[j].name)
      && (forall h :: h in HeaderNames(failing) && (forall e :: e in top ==> e.name != h) ==>
            |top| == 10 && forall e :: e in top ==> RowsOfHeader(failing, h) <= e.count)
  {
    var failing := FailingLatestRows(rows);
    var groups := GroupCounts(failing);
    TopOfGroups(groups);
    var top := Head(SortBy(groups, MoreRows), 10);
    forall h | h in HeaderNames(failing) && (forall e :: e in top ==> e.name != h)
      ensures |top| == 10 && forall e :: e in top ==> RowsOfHeader(failing, h) <= e.count
    {
      assert HeaderCount(h, RowsOfHeader(failing, h)) in groups;
    }
  }

  /** The rows counted are failing rows of the table, each in some url's latest scan. */
  lemma FailingLatestRowsAreLatestFailures(rows: seq<Row>)
    ensures forall r :: r in FailingLatestRows(rows) <==>
      r in rows && StartsWith(r.status, "FAIL") &&
      exists s :: s in rows && r.timestamp == MaxTimestamp(RowsFor(rows, s.url))
  {
  }

  /** The first ten groups by count: taken from the groups, ordered, one per name, and
      any group left out of a full selection has no larger count than those taken. */
  lemma TopOfGroups(groups: seq<HeaderCount>)
    requires forall i, j :: 0 <= i < j < |groups| ==> groups[i].name != groups[j].name
    ensures var top := Head(SortBy(groups, MoreRows), 10);
      && (forall e :: e in top ==> e in groups)
      && SortedBy(top, MoreRows)
      && (forall i, j :: 0 <= i < j < |top| ==> top[i].name != top[j].name)
      && (forall g :: g in groups && g !in top ==> |top| == 10 && forall e :: e in top ==> g.count <= e.count)
  {
    var sorted := SortBy(groups, MoreRows);
    assert StrictOrder(MoreRows);
    SortBySorted(groups, MoreRows);
    SortByMembers(groups, MoreRows);
    DistinctNamesPermuted(groups, sorted);
    forall g | g in groups && g !in Head(sorted, 10)
      ensures |Head(sorted, 10)| == 10 && forall e :: e in Head(sorted, 10) ==> g.count <= e.count
    {
      HeadDominates(sorted, MoreRows, 10, g);
    }
  }

  lemma DistinctNamesPermuted(a: seq<HeaderCount>, b: seq<HeaderCount>)
    requires multiset(a) == multiset(b)
    requires forall i, j :: 0 <= i < j < |a| ==> a[i].name != a[j].name
    ensures forall i, j :: 0 <= i < j < |b| ==> b[i].name != b[j].name
  {
    forall i, j | 0 <= i < j < |b| ensures b[i].name != b[j].name {
      assert b[i] in multiset(a) && b[j] in multiset(a);
      var p :| 0 <= p < |a| && a[p] == b[i];
      var q :| 0 <= q < |a| && a[q] == b[j];
      if b[i].name == b[j].name {
        assert p == q;
        PairInMultiset(b, i, j);
        SingleInMultiset(a, p);
      }
    }
  }

  /** Two positions holding one value give it multiplicity at least two. */
  lemma PairInMultiset<T>(s: seq<T>, i: nat, j: nat)
    requires i < j < |s| && s[i] == s[j]
    ensures multiset(s)[s[i]] >= 2
  {
    assert s == s[..j] + s[j..];
    assert s[i] in s[..j];
    assert s[j] in s[j..];
  }

  /** In a sequence whose names are distinct, each element occurs once. */
  lemma {:induction false} SingleInMultiset(s: seq<HeaderCount>, p: nat)
    requires p < |s|
    requires forall i, j :: 0 <= i < j < |s| ==> s[i].name != s[j].name
    ensures multiset(s)[s[p]] == 1
  {
    if |s| == 1 {
    } else if p == 0 {
      assert s == [s[0]] + s[1..];
      assert s[0] !in s[1..];
    } else {
      assert s == [s[0]] + s[1..];
      SingleInMultiset(s[1..], p - 1);
    }
  }

  // ---------------------------------------------------------------------------
  // header_adoption_rates

  datatype HeaderRate = HeaderRate(name: string, rate: real)

  function Urls(rows: seq<Row>): (urls: seq<string>)
    ensures |urls| == |rows|
    ensures forall i :: 0 <= i < |rows| ==> urls[i] == rows[i].url
  {
    seq(|rows|, i requires 0 <= i < |rows| => rows[i].url)
  }

  /** `SUM(CASE WHEN status = 'PASS' THEN 1 ELSE 0 END)` for one header. */
  function PassRows(rows: seq<Row>, name: string): nat {
    Count(rows, (r: Row) => r.headerName == name && r.status == "PASS")
  }

  predicate HigherRate(a: HeaderRate, b: HeaderRate) {
    a.rate > b.rate
  }

  /** The rate column before `ORDER BY`: one entry per distinct header. */
  function UnsortedRates(rows: seq<Row>, total: nat): (rates: seq<HeaderRate>)
    requires total > 0
    ensures |rates| == |Distinct(HeaderNames(rows))|
    ensures forall e :: e in rates ==>
              (e.name in HeaderNames(rows) && e.rate == 100.0 * (PassRows(rows, e.name) as real) / (total as real))
    ensures forall h :: h in HeaderNames(rows) ==> HeaderRate(h, 100.0 * (PassRows(rows, h) as real) / (total as real)) in rates
  {
    var names := Distinct(HeaderNames(rows));
    RatesOf(names, (h: string) => 100.0 * (PassRows(rows, h) as real) / (total as real))
  }

  /** One rate per listed header, in order. */
  function RatesOf(names: seq<string>, rateOf: string -> real): (rates: seq<HeaderRate>)
    ensures |rates| == |names|
    ensures forall e :: e in rates ==> e.name in names && e.rate == rateOf(e.name)
    ensures forall h :: h in names ==> HeaderRate(h, rateOf(h)) in rates
  {
    var rates := seq(|names|, i requires 0 <= i < |names| => HeaderRate(names[i], rateOf(names[i])));
    RatesCoverNames(names, rateOf, rates);
    rates
  }

  /** The rate of each listed header, for every header listed. */
  lemma RatesCoverNames(names: seq<string>, rateOf: string -> real, rates: seq<HeaderRate>)
    requires |rates| == |names|
    requires forall i :: 0 <= i < |names| ==> rates[i] == HeaderRate(names[i], rateOf(names[i]))
    ensures forall e :: e in rates ==> e.name in names && e.rate == rateOf(e.name)
    ensures forall h :: h in names ==> HeaderRate(h, rateOf(h)) in rates
  {
    forall h | h in names ensures HeaderRate(h, rateOf(h)) in rates {
      var i :| 0 <= i < |names| && names[i] == h;
      assert rates[i] == HeaderRate(h, rateOf(h));
    }
    forall e | e in rates ensures e.name in names && e.rate == rateOf(e.name) {
      var i :| 0 <= i < |rates| && rates[i] == e;
    }
  }

  /** header_adoption_rates as written: the PASS rows of a header over all stored
      scans, as a percentage of the number of distinct urls. An empty table has no
      groups and gives no rows. */
  function HeaderAdoptionRates(rows: seq<Row>): seq<HeaderRate> {
    var total := |Distinct(Urls(rows))|;
    if total == 0 then [] else SortBy(UnsortedRates(rows, total), HigherRate)
  }

  /** One rate per stored header, highest first, each computed from the PASS rows. */
  lemma AdoptionRatesPerHeader(rows: seq<Row>)
    ensures var rates := HeaderAdoptionRates(rows);
            var total := |Distinct(Urls(rows))|;
      && SortedBy(rates, HigherRate)
      && |rates| == |Distinct(HeaderNames(rows))|
      && (forall e :: e in rates ==>
            e.name in HeaderNames(rows) && e.rate == 100.0 * (PassRows(rows, e.name) as real) / (total as real))
      && (forall h :: h in HeaderNames(rows) ==> exists e :: e in rates && e.name == h)
  {
    var total := |Distinct(Urls(rows))|;
    if rows != [] {
      assert rows[0].url in Distinct(Urls(rows));
      var unsorted := UnsortedRates(rows, total);
      assert StrictOrder(HigherRate);
      SortBySorted(unsorted, HigherRate);
      SortByMembers(unsorted, HigherRate);
      forall h | h in HeaderNames(rows) ensures exists e :: e in HeaderAdoptionRates(rows) && e.name == h {
        assert HeaderRate(h, 100.0 * (PassRows(rows, h) as real) / (total as real)) in unsorted;
      }
    }
  }

  /** As written the rate can exceed 100%: a url scanned twice within the retention
      window contributes two PASS rows but is one url. */
  lemma AdoptionRateCanExceedHundred()
    ensures var rows := [Row(1, "https://a", 100.0, "A+", "X-Frame-Options", "PASS", Some("DENY"), 1),
                         Row(2, "https://a", 100.0, "A+", "X-Frame-Options", "PASS", Some("DENY"), 2)];
            HeaderAdoptionRates(rows) == [HeaderRate("X-Frame-Options", 200.0)]
  {
    var rows := [Row(1, "https://a", 100.0, "A+", "X-Frame-Options", "PASS", Some("DENY"), 1),
                 Row(2, "https://a", 100.0, "A+", "X-Frame-Options", "PASS", Some("DENY"), 2)];
    var h := "X-Frame-Options";
    assert HeaderNames(rows) == [h, h];
    DistinctOfPair(h);
    assert Urls(rows) == ["https://a", "https://a"];
    DistinctOfPair("https://a");
    assert PassRows(rows, h) == 2;
    assert UnsortedRates(rows, 1) == [HeaderRate(h, 200.0)];
  }

  lemma DistinctOfPair(x: string)
    ensures Distinct([x, x]) == [x]
  {
    assert [x, x][1..] == [x];
    assert [] + [x] == [x];
    assert DistinctAfter([x, x], []) == DistinctAfter([x], [x]);
    assert DistinctAfter([x], [x]) == DistinctAfter([], [x]);
  }

  /** Does some row of `url` record a PASS for header `name`? */
  predicate UrlPasses(rows: seq<Row>, url: string, name: string) {
    exists r :: r in rows && r.url == url && r.headerName == name && r.status == "PASS"
  }

  /** The intended rate: the share of distinct urls with a PASS for the header. */
  function AdoptionRate(rows: seq<Row>, name: string): (rate: real)
    requires rows != []
    ensures 0.0 <= rate <= 100.0
  {
    var urls := Distinct(Urls(rows));
    assert rows[0].url in urls;
    var adopters := Count(urls, (u: string) => UrlPasses(rows, u, name));
    PartShare(adopters, |urls|);
    100.0 * (adopters as real) / (|urls| as real)
  }

  /** A header that every url passes is adopted at exactly 100%. */
  lemma AdoptionRateFull(rows: seq<Row>, name: string)
    requires rows != []
    requires forall r :: r in rows ==> UrlPasses(rows, r.url, name)
    ensures AdoptionRate(rows, name) == 100.0
  {
    var urls := Distinct(Urls(rows));
    assert rows[0].url in urls;
    forall u | u in urls ensures UrlPasses(rows, u, name) {
      var i :| 0 <= i < |rows| && Urls(rows)[i] == u;
      assert rows[i] in rows;
    }
    CountAll(urls, (u: string) => UrlPasses(rows, u, name));
    WholeShare(|urls|);
  }

  lemma PartShare(part: nat, n: nat)
    requires part <= n && n > 0
    ensures 0.0 <= 100.0 * (part as real) / (n as real) <= 100.0
  {
  }

  lemma WholeShare(n: nat)
    requires n > 0
    ensures 100.0 * (n as real) / (n as real) == 100.0
  {
  }

  lemma {:induction false} CountAll<T>(s: seq<T>, p: T -> bool)
    requires forall x :: x in s ==> p(x)
    ensures Count(s, p) == |s|
  {
    if s != [] {
      CountAll(s[1..], p);
    }
  }

  /** The intended rate over the example above is 100%. */
  lemma AdoptionRateExample()
    ensures var rows := [Row(1, "https://a", 100.0, "A+", "X-Frame-Options", "PASS", Some("DENY"), 1),
                         Row(2, "https://a", 100.0, "A+", "X-Frame-Options", "PASS", Some("DENY"), 2)];
            AdoptionRate(rows, "X-Frame-Options") == 100.0
  {
    var rows := [Row(1, "https://a", 100.0, "A+", "X-Frame-Options", "PASS", Some("DENY"), 1),
                 Row(2, "https://a", 100.0, "A+", "X-Frame-Options", "PASS", Some("DENY"), 2)];
    assert rows[0] in rows && rows[1] in rows;
    AdoptionRateFull(rows, "X-Frame-Options");
  }

  // ---------------------------------------------------------------------------
  // generate_vulnerability_summary and interpret_score_and_grade

  predicate PlainFail(r: Row) { r.status == "FAIL" }

  /** The headers listed: those with a row whose status is exactly "FAIL", once each. */
  function FailingHeaders(rows: seq<Row>): (names: seq<string>)
    ensures forall h :: h in names <==> exists r :: r in rows && r.headerName == h && r.status == "FAIL"
    ensures forall i, j :: 0 <= i < j < |names| ==> names[i] != names[j]
  {
    var fails := Filter(rows, PlainFail);
    var names := Distinct(HeaderNames(fails));
    assert forall h :: h in HeaderNames(fails) ==> exists r :: r in fails && r.headerName == h by {
      forall h | h in HeaderNames(fails) ensures exists r :: r in fails && r.headerName == h {
        var i :| 0 <= i < |fails| && HeaderNames(fails)[i] == h;
        assert fails[i] in fails;
      }
    }
    names
  }

  const VulnerabilityTitle := "Vulnerabilities (Missing or Failing Headers):\n"

  function Bullets(names: seq<string>): string {
    if names == [] then ""
    else Bullets(names[..|names| - 1]) + "- " + names[|names| - 1] + "\n"
  }

  method GenerateVulnerabilitySummary(rows: seq<Row>) returns (summary: string)
    ensures summary == VulnerabilityTitle + Bullets(FailingHeaders(rows))
  {
    var unique := FailingHeaders(rows);
    summary := AppendBullets(VulnerabilityTitle, unique);
  }

  /** The `+=` loop of generate_vulnerability_summary: one "- name" line per name. */
  method AppendBullets(title: string, names: seq<string>) returns (summary: string)
    ensures summary == title + Bullets(names)
  {
    summary := title;
    for i := 0 to |names|
      invariant summary == title + Bullets(names[..i])
    {
      assert names[..i + 1][..i] == names[..i];
      summary := summary + "- " + names[i] + "\n";
    }
    assert names[..|names|] == names;
  }

  /** The bullet list holds one line per name, in order. */
  lemma {:induction false} BulletsLines(names: seq<string>, k: nat)
    requires k <= |names|
    ensures Bullets(names) == Bullets(names[..k]) + Bullets(names[k..])
    decreases |names|
  {
    if k < |names| {
      var n := |names|;
      BulletsLines(names[..n - 1], k);
      assert names[..n - 1][..k] == names[..k];
      assert names[k..][..|names[k..]| - 1] == names[..n - 1][k..];
    } else {
      assert names[..k] == names;
    }
  }

  datatype Tier = Excellent | VeryGood | Good | Fair | Poor | Critical

  /** The judgement interpret_score_and_grade gives a grade. */
  function GradeTier(grade: string): Tier {
    if grade == "A+" then Excellent
    else if grade == "A" || grade == "A-" then VeryGood
    else if StartsWith(grade, "B") then Good
    else if StartsWith(grade, "C") then Fair
    else if StartsWith(grade, "D") then Poor
    else Critical
  }

  function TierSentence(t: Tier): string {
    match t
    case Excellent => "Excellent! Your site has top-notch security headers."
    case VeryGood => "Very good. Your site has strong security headers, with minor room for improvement."
    case Good => "Good, but there's room for improvement in your security headers."
    case Fair => "Fair. Several important security headers are missing or misconfigured."
    case Poor => "Poor. Many critical security headers are missing. Immediate attention is required."
    case Critical => "Critical. Your site is missing most or all important security headers."
  }

  /** The interpretation text; `scoreText` is the score already formatted to two decimals. */
  function InterpretScoreAndGrade(scoreText: string, grade: string): string {
    "Interpretation:\n" + TierSentence(GradeTier(grade)) +
    "\n\nThe score of " + scoreText + " indicates the overall security posture based on the implemented headers." +
    "\nA higher score indicates better header security."
  }

  /** On the signed scale the judgement follows the score: each range of scores maps to
      one judgement, and every ungraded score is judged critical. */
  lemma SignedScoreTiers(score: real)
    ensures var t := GradeTier(SignedGrade(score));
      && (SignedGrade(score) == NotAvailable ==> t == Critical)
      && (88.88 < score <= 100.0 ==> t == Excellent)
      && (66.66 < score <= 88.88 ==> t == VeryGood)
      && (33.33 < score <= 66.66 ==> t == Good)
      && (0.0 < score <= 33.33 ==> t == Fair)
      && (-33.34 < score <= -0.01 ==> t == Poor)
      && (-100.0 <= score <= -33.34 ==> t == Critical)
  {
    InitialLetters(SignedGrade(score));
  }

  /** On the percentage scale: A+ from 98, A and A- from 90, B from 75, C from 60,
      D from 30, and everything below 30 (E and F) or ungraded is critical. */
  lemma PercentScoreTiers(score: real)
    ensures var t := GradeTier(PercentGrade(score));
      && (98.0 <= score <= 100.0 ==> t == Excellent)
      && (90.0 <= score < 98.0 ==> t == VeryGood)
      && (75.0 <= score < 90.0 ==> t == Good)
      && (60.0 <= score < 75.0 ==> t == Fair)
      && (30.0 <= score < 60.0 ==> t == Poor)
      && (score < 30.0 || 100.0 < score ==> t == Critical)
  {
    InitialLetters(PercentGrade(score));
  }

  lemma InitialLetters(grade: string)
    ensures StartsWith(grade, "B") <==> |grade| > 0 && grade[0] == 'B'
    ensures StartsWith(grade, "C") <==> |grade| > 0 && grade[0] == 'C'
    ensures StartsWith(grade, "D") <==> |grade| > 0 && grade[0] == 'D'
  {
  }
}
