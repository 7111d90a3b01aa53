/**
 * The computations behind interactive_menu.py's reports: the per-header pass/fail
 * tally and best/worst split of best_worst_headers_overall, the best/worst split of
 * best_worst_urls, and the scheme prefix run_evaluator adds. get_grade is
 * Grades.FirstMatchGrade. The menu loop, printing and the subprocess call are not
 * modelled.
 */
module InteractiveMenu {
  import opened Common
  import opened Checks
  import opened Store
  import opened Sorting
  import opened Analytics
  import Reports

  const MaxShown: nat := 15

  /** Statuses tallied as passes. */
  predicate CountedPass(status: string) {
    status == "PASS" || status == "PASS (not present)"
  }

  /** Statuses tallied as failures or warnings, as written: the bare word "WARNING". */
  predicate CountedFail(status: string) {
    status == "FAIL" || status == "FAIL (present)" || status == "WARNING"
  }

  predicate Counted(r: Row) {
    CountedPass(r.status) || CountedFail(r.status)
  }

  /** `SELECT DISTINCT header_name ... WHERE status IN (...)`, in order of first appearance. */
  function AllHeaders(rows: seq<Row>): (names: seq<string>)
    ensures forall i, j :: 0 <= i < j < |names| ==> names[i] != names[j]
  {
    Distinct(HeaderNames(Filter(rows, Counted)))
  }

  /** The listed headers are exactly those with at least one tallied row. */
  lemma AllHeadersMembers(rows: seq<Row>)
    ensures forall h :: h in AllHeaders(rows) <==> exists r :: r in rows && Counted(r) && r.headerName == h
  {
    var counted := Filter(rows, Counted);
    forall h | h in HeaderNames(counted) ensures exists r :: r in counted && r.headerName == h {
      var i :| 0 <= i < |counted| && HeaderNames(counted)[i] == h;
      assert counted[i] in counted;
    }
  }

  /** Rows of header `h` with a pass status. */
  function PassCount(rows: seq<Row>, h: string): nat {
    if rows == [] then 0
    else PassCount(rows[..|rows| - 1], h) + (if rows[|rows| - 1].headerName == h && CountedPass(rows[|rows| - 1].status) then 1 else 0)
  }

  /** Rows of header `h` with a failure status. */
  function FailCount(rows: seq<Row>, h: string): nat {
    if rows == [] then 0
    else FailCount(rows[..|rows| - 1], h) + (if rows[|rows| - 1].headerName == h && CountedFail(rows[|rows| - 1].status) then 1 else 0)
  }

  /** The two dictionaries best_worst_headers_overall fills: every counted row adds one
      to its header's pass or fail count. (The grouped `COUNT(*)` the source adds in
      is the number of those rows.) */
  method TallyStatuses(rows: seq<Row>) returns (passCounts: map<string, nat>, failCounts: map<string, nat>)
    ensures passCounts.Keys == failCounts.Keys == set h | h in AllHeaders(rows)
    ensures forall h :: h in passCounts ==> passCounts[h] == PassCount(rows, h) && failCounts[h] == FailCount(rows, h)
  {
    var all := AllHeaders(rows);
    forall i | 0 <= i < |rows| && Counted(rows[i]) ensures rows[i].headerName in all {
      CountedHeaderListed(rows, i);
    }
    passCounts, failCounts := TallyInto(rows, set h | h in all);
  }

  /** The counting loop, starting from a zero for every listed header. */
  method TallyInto(rows: seq<Row>, keys: set<string>) returns (passCounts: map<string, nat>, failCounts: map<string, nat>)
    requires forall i :: 0 <= i < |rows| && Counted(rows[i]) ==> rows[i].headerName in keys
    ensures passCounts.Keys == failCounts.Keys == keys
    ensures forall h :: h in passCounts ==> passCounts[h] == PassCount(rows, h) && failCounts[h] == FailCount(rows, h)
  {
    passCounts := map h | h in keys :: 0;
    failCounts := map h | h in keys :: 0;
    for i := 0 to |rows|
      invariant passCounts.Keys == failCounts.Keys == keys
      invariant forall h :: h in passCounts ==> passCounts[h] == PassCount(rows[..i], h)
      invariant forall h :: h in failCounts ==> failCounts[h] == FailCount(rows[..i], h)
    {
      passCounts, failCounts := TallyRow(rows, i, passCounts, failCounts);
    }
    assert rows[..|rows|] == rows;
  }

  /** One pass of the counting loop: row i adds one to its header's pass or fail count. */
  method TallyRow(rows: seq<Row>, i: nat, passBefore: map<string, nat>, failBefore: map<string, nat>)
    returns (passCounts: map<string, nat>, failCounts: map<string, nat>)
    requires i < |rows| && (Counted(rows[i]) ==> rows[i].headerName in passBefore)
    requires passBefore.Keys == failBefore.Keys
    requires forall h :: h in passBefore ==> passBefore[h] == PassCount(rows[..i], h)
    requires forall h :: h in failBefore ==> failBefore[h] == FailCount(rows[..i], h)
    ensures passCounts.Keys == failCounts.Keys == passBefore.Keys
    ensures forall h :: h in passCounts ==> passCounts[h] == PassCount(rows[..i + 1], h)
    ensures forall h :: h in failCounts ==> failCounts[h] == FailCount(rows[..i + 1], h)
  {
    var r := rows[i];
    forall h ensures PassCount(rows[..i + 1], h) == PassCount(rows[..i], h) + (if r.headerName == h && CountedPass(r.status) then 1 else 0)
             ensures FailCount(rows[..i + 1], h) == FailCount(rows[..i], h) + (if r.headerName == h && CountedFail(r.status) then 1 else 0)
    {
      TallyStep(rows, i, h);
    }
    passCounts, failCounts := passBefore, failBefore;
    if CountedPass(r.status) {
      passCounts := passCounts[r.headerName := passCounts[r.headerName] + 1];
    } else if CountedFail(r.status) {
      failCounts := failCounts[r.headerName := failCounts[r.headerName] + 1];
    }
  }

  lemma CountedHeaderListed(rows: seq<Row>, i: nat)
    requires i < |rows| && Counted(rows[i])
    ensures rows[i].headerName in AllHeaders(rows)
  {
    AllHeadersMembers(rows);
    assert rows[i] in rows;
  }

  lemma TallyStep(rows: seq<Row>, i: nat, h: string)
    requires i < |rows|
    ensures PassCount(rows[..i + 1], h) == PassCount(rows[..i], h) + (if rows[i].headerName == h && CountedPass(rows[i].status) then 1 else 0)
    ensures FailCount(rows[..i + 1], h) == FailCount(rows[..i], h) + (if rows[i].headerName == h && CountedFail(rows[i].status) then 1 else 0)
  {
    assert rows[..i + 1][..i] == rows[..i];
  }

  /** `pass / (pass + fail)`, or 0 when the header has no counted rows. */
  function Ratio(pass: nat, fail: nat): (ratio: real)
    ensures 0.0 <= ratio <= 1.0
    ensures ratio == 1.0 <==> pass > 0 && fail == 0
    ensures ratio == 0.0 <==> pass == 0
  {
    if pass + fail > 0 then (pass as real) / ((pass + fail) as real) else 0.0
  }

  datatype HeaderRatio = HeaderRatio(header: string, ratio: real, pass: nat, fail: nat)

  predicate HigherRatio(a: HeaderRatio, b: HeaderRatio) {
    a.ratio > b.ratio
  }

  function RatioOf(rows: seq<Row>, h: string): HeaderRatio {
    HeaderRatio(h, Ratio(PassCount(rows, h), FailCount(rows, h)), PassCount(rows, h), FailCount(rows, h))
  }

  /** How many entries each list shows: `min(MAX_N, len // 2)`. */
  function ShownCount(total: nat): (n: nat)
    ensures n <= MaxShown && 2 * n <= total
    ensures n == MaxShown || 2 * n + 1 >= total
  {
    if MaxShown < total / 2 then MaxShown else total / 2
  }

  datatype Split<T> = Split(best: seq<T>, worst: seq<T>)

  /** `s[:n]` and `s[-n:]` with n = ShownCount(|s|). */
  function BestWorst<T>(s: seq<T>): Split<T> {
    var n := ShownCount(|s|);
    Split(Head(s, n), PySliceFrom(s, -(n as int)))
  }

  /** The best list is the first n entries; the worst list is the last n when n > 0,
      which never overlaps the best list, and the whole list when n = 0 (Python reads
      `s[-0:]` as `s[0:]`), which only happens for lists of at most one entry. */
  lemma BestWorstSplit<T>(s: seq<T>)
    ensures var n := ShownCount(|s|);
            var sp := BestWorst(s);
      && sp.best == s[..n]
      && (n > 0 ==> sp.worst == s[|s| - n..] && n <= |s| - n)
      && (n == 0 ==> sp.worst == s && |s| <= 1)
  {
  }

  /** The header list of best_worst_headers_overall: one entry per tallied header in
      order of first appearance, as built by the append loop. */
  function HeaderRatios(rows: seq<Row>): (ratios: seq<HeaderRatio>)
    ensures |ratios| == |AllHeaders(rows)|
    ensures forall i :: 0 <= i < |ratios| ==> ratios[i] == RatioOf(rows, AllHeaders(rows)[i])
  {
    var all := AllHeaders(rows);
    seq(|all|, i requires 0 <= i < |all| => RatioOf(rows, all[i]))
  }

  method BestWorstHeadersOverall(rows: seq<Row>) returns (best: seq<HeaderRatio>, worst: seq<HeaderRatio>)
    ensures Split(best, worst) == BestWorst(SortBy(HeaderRatios(rows), HigherRatio))
  {
    var ratios := TalliedHeaderRatios(rows);
    var sorted := SortBy(ratios, HigherRatio);
    var shown := BestWorst(sorted);
    best, worst := shown.best, shown.worst;
  }

  /** The tallies and the append loop of best_worst_headers_overall: one entry per
      tallied header, in order of first appearance. */
  method TalliedHeaderRatios(rows: seq<Row>) returns (ratios: seq<HeaderRatio>)
    ensures ratios == HeaderRatios(rows)
  {
    var passCounts, failCounts := TallyStatuses(rows);
    ratios := RatiosOf(AllHeaders(rows), passCounts, failCounts);
    TalliedRatios(rows, passCounts, failCounts, ratios);
  }

  /** The entries built from the tallies are the header list of every tallied header. */
  lemma TalliedRatios(rows: seq<Row>, passCounts: map<string, nat>, failCounts: map<string, nat>,
                      ratios: seq<HeaderRatio>)
    requires passCounts.Keys == failCounts.Keys == set h | h in AllHeaders(rows)
    requires forall h :: h in passCounts ==> passCounts[h] == PassCount(rows, h) && failCounts[h] == FailCount(rows, h)
    requires var all := AllHeaders(rows);
      && |ratios| == |all|
      && forall i :: 0 <= i < |all| ==>
           ratios[i] == HeaderRatio(all[i], Ratio(passCounts[all[i]], failCounts[all[i]]),
                                    passCounts[all[i]], failCounts[all[i]])
    ensures ratios == HeaderRatios(rows)
  {
    var all := AllHeaders(rows);
    forall i | 0 <= i < |ratios| ensures ratios[i] == HeaderRatios(rows)[i] {
      assert all[i] in passCounts;
    }
  }

  /** The append loop building `(header, ratio, pass_count, fail_warning_count)` entries. */
  method RatiosOf(headers: seq<string>, passCounts: map<string, nat>, failCounts: map<string, nat>)
    returns (ratios: seq<HeaderRatio>)
    requires forall h :: h in headers ==> h in passCounts && h in failCounts
    ensures |ratios| == |headers|
    ensures forall i :: 0 <= i < |headers| ==>
      ratios[i] == HeaderRatio(headers[i], Ratio(passCounts[headers[i]], failCounts[headers[i]]),
                               passCounts[headers[i]], failCounts[headers[i]])
  {
    ratios := [];
    for i := 0 to |headers|
      invariant |ratios| == i
      invariant forall k :: 0 <= k < i ==>
        ratios[k] == HeaderRatio(headers[k], Ratio(passCounts[headers[k]], failCounts[headers[k]]),
                                 passCounts[headers[k]], failCounts[headers[k]])
    {
      var h := headers[i];
      var total := passCounts[h] + failCounts[h];
      var ratio := if total > 0 then (passCounts[h] as real) / (total as real) else 0.0;
      ratios := ratios + [HeaderRatio(h, ratio, passCounts[h], failCounts[h])];
    }
  }

  /** The best headers have the highest pass ratios: ordered, and none left out of the
      best list has a higher ratio than one in it. */
  lemma BestHeadersHaveHighestRatios(rows: seq<Row>)
    ensures var sorted := SortBy(HeaderRatios(rows), HigherRatio);
            var sp := BestWorst(sorted);
      && multiset(sorted) == multiset(HeaderRatios(rows))
      && SortedBy(sorted, HigherRatio)
      && (forall x, e :: x in sorted && x !in sp.best && e in sp.best ==> x.ratio <= e.ratio)
  {
    var sorted := SortBy(HeaderRatios(rows), HigherRatio);
    assert StrictOrder(HigherRatio);
    SortBySorted(HeaderRatios(rows), HigherRatio);
    forall x, e | x in sorted && x !in BestWorst(sorted).best && e in BestWorst(sorted).best
      ensures x.ratio <= e.ratio
    {
      HeadDominates(sorted, HigherRatio, ShownCount(|sorted|), x);
    }
  }

  /** As written, a warned header's status "WARNING (msg)" is never tallied: such a row
      counts neither as a pass nor as a failure. */
  lemma WarningNotTallied(rule: Rule, warnings: Headers, response: Headers)
    requires rule.name in warnings
    ensures var v := SecurityVerdict(rule.name, ExpectedCondition(rule), warnings, response);
      !CountedPass(v.status) && !CountedFail(v.status)
  {
    var v := SecurityVerdict(rule.name, ExpectedCondition(rule), warnings, response);
    SecurityVerdictMeaning(rule, warnings, response);
    assert v.status[0] == 'W' && |v.status| >= 10;
  }

  /** The evidently intended failure statuses: a warning counts whatever its message. */
  predicate CountedFailIntended(status: string) {
    status == "FAIL" || status == "FAIL (present)" || StartsWith(status, "WARNING")
  }

  /** With the intended statuses every security or unwanted-header verdict is tallied
      exactly once, as a pass or as a failure. */
  lemma EveryVerdictTallied(rule: Rule, warnings: Headers, response: Headers)
    ensures var v := SecurityVerdict(rule.name, ExpectedCondition(rule), warnings, response);
      CountedPass(v.status) != CountedFailIntended(v.status)
    ensures var v := UnwantedVerdict(rule.name, response);
      CountedPass(v.status) != CountedFailIntended(v.status)
  {
    var v := SecurityVerdict(rule.name, ExpectedCondition(rule), warnings, response);
    SecurityVerdictMeaning(rule, warnings, response);
    if rule.name in warnings {
      var m := warnings[rule.name];
      assert ("WARNING (" + m + ")")[..7] == "WARNING";
      assert v.status[0] == 'W';
    }
    var u := UnwantedVerdict(rule.name, response);
    assert u.status[0] != 'W';
  }

  // ---------------------------------------------------------------------------
  // best_worst_urls

  /** `SELECT DISTINCT url, score, grade FROM results ORDER BY score DESC` */
  function DistinctUrlScores(rows: seq<Row>): (scans: seq<Reports.UrlScore>)
    ensures forall e :: e in scans <==> exists r :: r in rows && Reports.UrlScoreOf(r) == e
    ensures forall i, j :: 0 <= i < j < |scans| ==> scans[i] != scans[j]
  {
    var all := seq(|rows|, i requires 0 <= i < |rows| => Reports.UrlScoreOf(rows[i]));
    assert forall e :: e in all <==> exists r :: r in rows && Reports.UrlScoreOf(r) == e by {
      forall e | e in all ensures exists r :: r in rows && Reports.UrlScoreOf(r) == e {
        var i :| 0 <= i < |all| && all[i] == e;
        assert rows[i] in rows;
      }
      forall e | exists r :: r in rows && Reports.UrlScoreOf(r) == e ensures e in all {
        var r :| r in rows && Reports.UrlScoreOf(r) == e;
        var i :| 0 <= i < |rows| && rows[i] == r;
        assert all[i] == e;
      }
    }
    Distinct(all)
  }

  predicate HigherUrlScore(a: Reports.UrlScore, b: Reports.UrlScore) {
    a.score > b.score
  }

  function BestWorstUrls(rows: seq<Row>): Split<Reports.UrlScore> {
    BestWorst(SortBy(DistinctUrlScores(rows), HigherUrlScore))
  }

  /** The best urls have the highest scores among all distinct (url, score, grade)
      triples, and the worst urls (when the list has two or more) the lowest. */
  lemma BestWorstUrlsByScore(rows: seq<Row>)
    ensures var sorted := SortBy(DistinctUrlScores(rows), HigherUrlScore);
            var sp := BestWorstUrls(rows);
      && multiset(sorted) == multiset(DistinctUrlScores(rows))
      && SortedBy(sorted, HigherUrlScore)
      && (forall x, e :: x in sorted && x !in sp.best && e in sp.best ==> x.score <= e.score)
      && (|sorted| >= 2 ==> forall x, e :: x in sorted && x !in sp.worst && e in sp.worst ==> e.score <= x.score)
  {
    var sorted := SortBy(DistinctUrlScores(rows), HigherUrlScore);
    var n := ShownCount(|sorted|);
    assert StrictOrder(HigherUrlScore);
    SortBySorted(DistinctUrlScores(rows), HigherUrlScore);
    forall x, e | x in sorted && x !in BestWorst(sorted).best && e in BestWorst(sorted).best
      ensures x.score <= e.score
    {
      HeadDominates(sorted, HigherUrlScore, n, x);
    }
    if |sorted| >= 2 {
      assert BestWorst(sorted).worst == Tail(sorted, n);
      forall x, e | x in sorted && x !in BestWorst(sorted).worst && e in BestWorst(sorted).worst
        ensures e.score <= x.score
      {
        TailDominated(sorted, HigherUrlScore, n, x);
      }
    }
  }

  // ---------------------------------------------------------------------------
  // run_evaluator

  /** Prefix "https://" unless the url already names http or https. */
  function EnsureScheme(url: string): (u: string)
    ensures StartsWith(u, "http://") || StartsWith(u, "https://")
    ensures StartsWith(url, "http://") || StartsWith(url, "https://") ==> u == url
    ensures !StartsWith(url, "http://") && !StartsWith(url, "https://") ==> u == "https://" + url
  {
    if !StartsWith(url, "http://") && !StartsWith(url, "https://") then
      StartsWithConcat("https://", url);
      "https://" + url
    else url
  }

  lemma EnsureSchemeIdempotent(url: string)
    ensures EnsureScheme(EnsureScheme(url)) == EnsureScheme(url)
  {
  }
}
