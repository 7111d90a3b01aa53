/**
 * evaluate_headers.py: the first version of the evaluator, which keeps the pass and fail
 * totals in module-level counters updated by each check, reads every rule's
 * `condition` without a default, reports unwanted headers as plain "FAIL"/"PASS",
 * and writes one CSV row per result of a bulk run.
 *
 * The module-level state (configuration, counters, the last response's headers) is
 * the state of a `HeaderEvaluator` object. A missing dictionary key raises KeyError,
 * modelled as a None result after the increments made so far. The HEAD request and
 * the scraped warnings are inputs.
 */
module EvaluateHeaders {
  import opened Common
  import opened Checks
  import opened Grades
  import Evaluator

  /** The verdict of one unwanted header in this version: "FAIL" when it has a
      non-empty value, "PASS" otherwise. */
  function PlainUnwantedVerdict(name: string, response: Headers): (v: Verdict)
    ensures v.name == name && v.value == Get(response, name)
    ensures v.status == "FAIL" <==> Found(Get(response, name))
    ensures v.status == "PASS" <==> !Found(Get(response, name))
  {
    var found := Get(response, name);
    if Found(found) then Verdict(name, "FAIL", found) else Verdict(name, "PASS", found)
  }

  function PlainUnwantedResults(rules: seq<Rule>, response: Headers): (r: seq<Verdict>)
    ensures |r| == |rules|
  {
    seq(|rules|, i requires 0 <= i < |rules| => PlainUnwantedVerdict(rules[i].name, response))
  }

  /** The position of the first rule without a condition, or |rules|. */
  function FirstMissing(rules: seq<Rule>): (k: nat)
    ensures k <= |rules|
    ensures k < |rules| ==> rules[k].condition.None?
    ensures forall j :: 0 <= j < k ==> rules[j].condition.Some?
  {
    if rules == [] then 0
    else if rules[0].condition.None? then 0
    else 1 + FirstMissing(rules[1..])
  }

  // ---------------------------------------------------------------------------
  // Specification of one scan

  datatype Scored = Scored(score: real, grade: string, results: seq<Verdict>)

  function PlainPasses(config: Config, warnings: Headers, response: Headers): nat {
    Count(SecurityResults(config.headers, warnings, response), Passed) +
    Count(PlainUnwantedResults(config.unwanted, response), Passed)
  }

  /** What `process_single_url` returns for fetched headers: a KeyError when a security
      rule lacks its condition or the configuration has no upcoming list; otherwise the
      counted passes and fails graded on the signed scale. */
  function HeaderScan(config: Config, warnings: Headers, response: Headers): Option<Scored> {
    if FirstMissing(config.headers) < |config.headers| || config.upcoming.None? then None
    else
      var passes := PlainPasses(config, warnings, response);
      var fails := |config.headers| + |config.unwanted| - passes;
      var graded := Evaluator.CalculateFinalGrade(passes, fails);
      Some(Scored(graded.0, graded.1,
                  SecurityResults(config.headers, warnings, response) +
                  PlainUnwantedResults(config.unwanted, response) +
                  UpcomingResults(config.upcoming.value)))
  }

  /** Where no KeyError is raised, the scan grades its passes against the remaining
      counted rules and lists the three groups of rows in order. */
  lemma HeaderScanGraded(config: Config, warnings: Headers, response: Headers)
    requires FirstMissing(config.headers) == |config.headers| && config.upcoming.Some?
    ensures var passes := PlainPasses(config, warnings, response);
      var graded := Evaluator.CalculateFinalGrade(passes, |config.headers| + |config.unwanted| - passes);
      HeaderScan(config, warnings, response) ==
        Some(Scored(graded.0, graded.1,
                    SecurityResults(config.headers, warnings, response) +
                    PlainUnwantedResults(config.unwanted, response) +
                    UpcomingResults(config.upcoming.value)))
  {
  }

  /** The plain "PASS" count of unwanted headers is the count of absent or empty ones. */
  lemma {:induction false} PlainUnwantedPassesCountAbsent(rules: seq<Rule>, response: Headers)
    ensures Count(PlainUnwantedResults(rules, response), Passed) ==
            Count(rules, (r: Rule) => !Found(Get(response, r.name)))
  {
    if rules != [] {
      PlainUnwantedPassesCountAbsent(rules[1..], response);
      assert PlainUnwantedResults(rules, response)[1..] == PlainUnwantedResults(rules[1..], response);
    }
  }

  /** Where this version raises no KeyError it grades like evaluator.py: the same score
      and letter, and the same rows except that unwanted headers read "FAIL"/"PASS"
      instead of "FAIL (present)"/"PASS (not present)". */
  lemma HeaderScanAgreesWithEvaluator(config: Config, warnings: Headers, response: Headers)
    requires HeaderScan(config, warnings, response).Some?
    ensures var s := HeaderScan(config, warnings, response).value;
      var e := Evaluator.ScanOf(config, warnings, response);
      && s.score == e.score && s.grade == e.grade
      && |s.results| == |e.results|
      && forall i :: 0 <= i < |s.results| ==>
           s.results[i].name == e.results[i].name && s.results[i].value == e.results[i].value &&
           (s.results[i].status == e.results[i].status ||
            (s.results[i].status == "FAIL" && e.results[i].status == "FAIL (present)") ||
            (s.results[i].status == "PASS" && e.results[i].status == "PASS (not present)"))
  {
    PlainUnwantedPassesCountAbsent(config.unwanted, response);
    UnwantedPassesCountAbsent(config.unwanted, response);
    assert PlainPasses(config, warnings, response) == Evaluator.ScanPasses(config, warnings, response);
    var s := HeaderScan(config, warnings, response).value;
    var e := Evaluator.ScanOf(config, warnings, response);
    var security := SecurityResults(config.headers, warnings, response);
    var n := |config.headers|;
    var m := |config.unwanted|;
    forall i | 0 <= i < |s.results|
      ensures s.results[i].name == e.results[i].name && s.results[i].value == e.results[i].value &&
              (s.results[i].status == e.results[i].status ||
               (s.results[i].status == "FAIL" && e.results[i].status == "FAIL (present)") ||
               (s.results[i].status == "PASS" && e.results[i].status == "PASS (not present)"))
    {
      if n <= i < n + m {
        var name := config.unwanted[i - n].name;
        assert s.results[i] == PlainUnwantedVerdict(name, response);
        assert e.results[i] == UnwantedVerdict(name, response);
      }
    }
  }

  /** A CSV line of a bulk run: the title row, or `[url, score, grade] + result`. */
  datatype CsvRow =
    | TitleRow(titles: seq<string>)
    | ResultRow(url: string, score: real, grade: string, header: string, status: string, value: Option<string>)

  const CsvTitles: seq<string> := ["URL", "Score", "Grade", "Header", "Status", "Value"]

  function UrlRows(url: string, s: Scored): (rows: seq<CsvRow>)
    ensures |rows| == |s.results|
  {
    seq(|s.results|, i requires 0 <= i < |s.results| =>
      ResultRow(url, s.score, s.grade, s.results[i].name, s.results[i].status, s.results[i].value))
  }

  /** `process_single_url` of one url of a bulk run. A failed request aborts the run:
      `fetch_headers_report` calls `exit(1)` and `fetch_securityheaders_warnings` lets the
      error propagate. A KeyError aborts it too; otherwise the scan of the fetched headers. */
  function UrlScan(config: Config, fetch: string -> Option<Headers>, warningsOf: string -> Option<Headers>,
                   url: string): Option<Scored>
  {
    match fetch(url)
    case None => None
    case Some(response) =>
      match warningsOf(url)
      case None => None
      case Some(warnings) => HeaderScan(config, warnings, response)
  }

  /** The result rows of a bulk run, URL by URL in input order; a failed request or a
      KeyError on any URL aborts the run before the file is written. */
  function BulkRows(urls: seq<string>, config: Config, fetch: string -> Option<Headers>,
                    warningsOf: string -> Option<Headers>): Option<seq<CsvRow>>
  {
    if urls == [] then Some([])
    else
      var url := urls[|urls| - 1];
      match BulkRows(urls[..|urls| - 1], config, fetch, warningsOf)
      case None => None
      case Some(rows) =>
        match UrlScan(config, fetch, warningsOf, url)
        case None => None
        case Some(s) => Some(rows + UrlRows(url, s))
  }

  /** A bulk run fails exactly when one of its URLs fails; its rows are, URL by URL,
      one row per result carrying that URL's score and grade. */
  lemma BulkRowsShape(urls: seq<string>, config: Config, fetch: string -> Option<Headers>,
                      warningsOf: string -> Option<Headers>)
    ensures BulkRows(urls, config, fetch, warningsOf).None? <==>
              exists i :: 0 <= i < |urls| && UrlScan(config, fetch, warningsOf, urls[i]).None?
    ensures BulkRows(urls, config, fetch, warningsOf).Some? ==>
              forall r :: r in BulkRows(urls, config, fetch, warningsOf).value ==>
                exists i :: 0 <= i < |urls| && r.ResultRow? && r.url == urls[i] &&
                  r.score == UrlScan(config, fetch, warningsOf, urls[i]).value.score &&
                  r.grade == UrlScan(config, fetch, warningsOf, urls[i]).value.grade
  {
    BulkRowsFail(urls, config, fetch, warningsOf);
    BulkRowsFromScans(urls, config, fetch, warningsOf);
  }

  lemma {:induction false} BulkRowsFail(urls: seq<string>, config: Config, fetch: string -> Option<Headers>,
                                        warningsOf: string -> Option<Headers>)
    ensures BulkRows(urls, config, fetch, warningsOf).None? <==>
              exists i :: 0 <= i < |urls| && UrlScan(config, fetch, warningsOf, urls[i]).None?
  {
    if urls != [] {
      var n := |urls| - 1;
      BulkRowsFail(urls[..n], config, fetch, warningsOf);
      assert forall i :: 0 <= i < n ==> urls[..n][i] == urls[i];
    }
  }

  lemma {:induction false} BulkRowsFromScans(urls: seq<string>, config: Config, fetch: string -> Option<Headers>,
                                             warningsOf: string -> Option<Headers>)
    ensures BulkRows(urls, config, fetch, warningsOf).Some? ==>
              forall r :: r in BulkRows(urls, config, fetch, warningsOf).value ==>
                exists i :: 0 <= i < |urls| && r.ResultRow? && r.url == urls[i] && UrlScan(config, fetch, warningsOf, urls[i]).Some? &&
                  r.score == UrlScan(config, fetch, warningsOf, urls[i]).value.score &&
                  r.grade == UrlScan(config, fetch, warningsOf, urls[i]).value.grade
  {
    if urls != [] {
      var n := |urls| - 1;
      BulkRowsFromScans(urls[..n], config, fetch, warningsOf);
      if BulkRows(urls, config, fetch, warningsOf).Some? {
        var before := BulkRows(urls[..n], config, fetch, warningsOf).value;
        var s := UrlScan(config, fetch, warningsOf, urls[n]).value;
        forall r | r in before + UrlRows(urls[n], s)
          ensures exists i :: 0 <= i < |urls| && r.ResultRow? && r.url == urls[i] && UrlScan(config, fetch, warningsOf, urls[i]).Some? &&
                    r.score == UrlScan(config, fetch, warningsOf, urls[i]).value.score &&
                    r.grade == UrlScan(config, fetch, warningsOf, urls[i]).value.grade
        {
          if r in before {
            var i :| 0 <= i < n && r.ResultRow? && r.url == urls[..n][i] && UrlScan(config, fetch, warningsOf, urls[..n][i]).Some? &&
                     r.score == UrlScan(config, fetch, warningsOf, urls[..n][i]).value.score &&
                     r.grade == UrlScan(config, fetch, warningsOf, urls[..n][i]).value.grade;
            assert urls[..n][i] == urls[i];
          } else {
            assert r.url == urls[n];
          }
        }
      }
    }
  }

  /** One step of `check_headers`: a warned header fails, otherwise the header passes
      when its presence is the expected condition. */
  method CheckRule(name: string, expected: string, warnings: Headers, response: Headers)
    returns (v: Verdict, passed: bool)
    ensures v == SecurityVerdict(name, expected, warnings, response)
    ensures passed <==> Passed(v)
  {
    var found := Get(response, name);
    var condition := if Found(found) then "present" else "not_present";
    if name in warnings {
      v, passed := Verdict(name, "WARNING (" + warnings[name] + ")", found), false;
    } else if condition == expected {
      v, passed := Verdict(name, "PASS", found), true;
    } else {
      v, passed := Verdict(name, "FAIL", found), false;
    }
  }

  /** One pass of the loop of `check_headers` over a rule with a condition: its verdict
      is appended and one of the two counters raised. */
  method CountRule(rules: seq<Rule>, i: nat, warnings: Headers, response: Headers,
                   acc: seq<Verdict>, passes: nat, fails: nat)
    returns (acc': seq<Verdict>, passes': nat, fails': nat)
    requires i < |rules| && rules[i].condition.Some?
    requires acc == SecurityResults(rules[..i], warnings, response)
    requires passes == Count(acc, Passed) && passes + fails == i
    ensures acc' == SecurityResults(rules[..i + 1], warnings, response)
    ensures passes' == Count(acc', Passed) && passes' + fails' == i + 1
  {
    var v, passed := CheckRule(rules[i].name, rules[i].condition.value, warnings, response);
    passes', fails' := passes, fails;
    if passed {
      passes' := passes' + 1;
    } else {
      fails' := fails' + 1;
    }
    SecurityResultsStep(rules, i, warnings, response);
    CountConcat(acc, [v], Passed);
    acc' := acc + [v];
  }

  /** The loop of `check_headers`: the verdicts and the passes and fails counted until
      the end of the rules or the first rule without a condition. */
  method CheckRules(rules: seq<Rule>, warnings: Headers, response: Headers)
    returns (results: Option<seq<Verdict>>, passes: nat, fails: nat)
    ensures results.None? <==> FirstMissing(rules) < |rules|
    ensures passes == Count(SecurityResults(rules[..FirstMissing(rules)], warnings, response), Passed)
    ensures passes + fails == FirstMissing(rules)
    ensures results.Some? ==> results.value == SecurityResults(rules, warnings, response)
  {
    var acc: seq<Verdict> := [];
    passes, fails := 0, 0;
    for i := 0 to |rules|
      invariant forall k :: 0 <= k < i ==> rules[k].condition.Some?
      invariant acc == SecurityResults(rules[..i], warnings, response)
      invariant passes == Count(acc, Passed) && passes + fails == i
    {
      if rules[i].condition.None? {
        FirstMissingAt(rules, i);
        return None, passes, fails;
      }
      acc, passes, fails := CountRule(rules, i, warnings, response, acc, passes, fails);
    }
    FirstMissingAt(rules, |rules|);
    assert rules[..|rules|] == rules;
    results := Some(acc);
  }

  /** The first rule without a condition is the one after a run of rules that all have one. */
  lemma {:induction false} FirstMissingAt(rules: seq<Rule>, i: nat)
    requires i <= |rules|
    requires forall k :: 0 <= k < i ==> rules[k].condition.Some?
    requires i < |rules| ==> rules[i].condition.None?
    ensures FirstMissing(rules) == i
  {
    if i > 0 {
      FirstMissingAt(rules[1..], i - 1);
    }
  }

  // ---------------------------------------------------------------------------
  // The module's state

  class HeaderEvaluator {
    /** The configuration loaded when the module is imported. */
    const config: Config
    var totalPasses: nat
    var totalFails: nat
    /** The headers of the last fetched response. */
    var responseHeaders: Headers

    constructor(config: Config)
      ensures this.config == config
      ensures totalPasses == 0 && totalFails == 0 && responseHeaders == map[]
    {
      this.config := config;
      totalPasses, totalFails := 0, 0;
      responseHeaders := map[];
    }

    /** `check_headers`: one verdict per rule, each raising one counter; a rule
        without a condition raises KeyError, after the rules before it are counted. */
    method CheckHeaders(rules: seq<Rule>, warnings: Headers) returns (results: Option<seq<Verdict>>)
      modifies this
      ensures responseHeaders == old(responseHeaders)
      ensures results.None? <==> FirstMissing(rules) < |rules|
      ensures var done := FirstMissing(rules);
        && totalPasses == old(totalPasses) + Count(SecurityResults(rules[..done], warnings, responseHeaders), Passed)
        && totalPasses + totalFails == old(totalPasses) + old(totalFails) + done
      ensures results.Some? ==> results.value == SecurityResults(rules, warnings, responseHeaders)
    {
      var checked, passes, fails := CheckRules(rules, warnings, responseHeaders);
      totalPasses, totalFails := totalPasses + passes, totalFails + fails;
      results := checked;
    }

    /** `check_unwanted_headers`: one plain verdict per header, each raising one
        counter. */
    method CheckUnwantedHeaders(rules: seq<Rule>) returns (results: seq<Verdict>)
      modifies this
      ensures responseHeaders == old(responseHeaders)
      ensures results == PlainUnwantedResults(rules, responseHeaders)
      ensures totalPasses == old(totalPasses) + Count(results, Passed)
      ensures totalPasses + totalFails == old(totalPasses) + old(totalFails) + |rules|
    {
      results := [];
      for i := 0 to |rules|
        invariant responseHeaders == old(responseHeaders)
        invariant results == PlainUnwantedResults(rules[..i], responseHeaders)
        invariant totalPasses == old(totalPasses) + Count(results, Passed)
        invariant totalPasses + totalFails == old(totalPasses) + old(totalFails) + i
      {
        var name := rules[i].name;
        var found := Get(responseHeaders, name);
        var v;
        if Found(found) {
          v := Verdict(name, "FAIL", found);
          totalFails := totalFails + 1;
        } else {
          v := Verdict(name, "PASS", found);
          totalPasses := totalPasses + 1;
        }
        CountConcat(results, [v], Passed);
        results := results + [v];
      }
      assert rules[..|rules|] == rules;
    }

    /** `mention_upcoming_headers`: one informational row per configured upcoming
        header, no counter touched; a configuration without the list raises KeyError. */
    method MentionUpcomingHeaders() returns (results: Option<seq<Verdict>>)
      ensures results.None? <==> config.upcoming.None?
      ensures results.Some? ==> results.value == UpcomingResults(config.upcoming.value)
    {
      if config.upcoming.None? {
        return None;
      }
      var rows := Checks.MentionUpcomingHeaders(config.upcoming.value);
      results := Some(rows);
    }

    /** `calculate_final_grade` on the current totals. */
    method CalculateFinalGrade() returns (score: real, grade: string)
      ensures (score, grade) == Evaluator.CalculateFinalGrade(totalPasses, totalFails)
    {
      score := Evaluator.SignedScore(totalPasses, totalFails);
      grade := SignedGrade(score);
    }

    /** `process_single_url`: the totals are reset first, so the result depends only
        on this response and its warnings, and the totals end as this scan's counts. */
    method ProcessSingleUrl(response: Headers, warnings: Headers) returns (r: Option<Scored>)
      modifies this
      ensures responseHeaders == response
      ensures r == HeaderScan(config, warnings, response)
      ensures r.Some? ==> totalPasses == PlainPasses(config, warnings, response) &&
                          totalPasses + totalFails == |config.headers| + |config.unwanted|
    {
      totalPasses, totalFails := 0, 0;
      responseHeaders := response;
      var results := CheckAllLists(warnings);
      if results.None? {
        return None;
      }
      var score, grade := CalculateFinalGrade();
      HeaderScanGraded(config, warnings, response);
      r := Some(Scored(score, grade, results.value));
    }

    /** The three checks of `process_single_url` from zero totals: the rows of the
        security, unwanted and upcoming lists in order, or the KeyError of a missing
        condition or a missing upcoming list. */
    method CheckAllLists(warnings: Headers) returns (results: Option<seq<Verdict>>)
      requires totalPasses == 0 && totalFails == 0
      modifies this
      ensures responseHeaders == old(responseHeaders)
      ensures results.None? <==> FirstMissing(config.headers) < |config.headers| || config.upcoming.None?
      ensures results.Some? ==>
                results.value == SecurityResults(config.headers, warnings, responseHeaders) +
                                 PlainUnwantedResults(config.unwanted, responseHeaders) +
                                 UpcomingResults(config.upcoming.value)
      ensures results.Some? ==> totalPasses == PlainPasses(config, warnings, responseHeaders) &&
                                totalPasses + totalFails == |config.headers| + |config.unwanted|
    {
      var security := CheckHeaders(config.headers, warnings);
      if security.None? {
        return None;
      }
      assert config.headers[..|config.headers|] == config.headers;
      var unwanted := CheckUnwantedHeaders(config.unwanted);
      var upcoming := MentionUpcomingHeaders();
      if upcoming.None? {
        return None;
      }
      results := Some(security.value + unwanted + upcoming.value);
    }

    /** `process_bulk_urls`: every URL processed in input order, then the title row and
        one row per result. */
    method ProcessBulkUrls(urls: seq<string>, fetch: string -> Option<Headers>, warningsOf: string -> Option<Headers>)
      returns (csv: Option<seq<CsvRow>>)
      modifies this
      ensures csv.None? <==> BulkRows(urls, config, fetch, warningsOf).None?
      ensures csv.Some? ==> csv.value == [TitleRow(CsvTitles)] + BulkRows(urls, config, fetch, warningsOf).value
    {
      var rows: seq<CsvRow> := [];
      for i := 0 to |urls|
        invariant BulkRows(urls[..i], config, fetch, warningsOf) == Some(rows)
      {
        assert urls[..i + 1][..i] == urls[..i];
        var response := fetch(urls[i]);
        var warnings := warningsOf(urls[i]);
        if response.None? || warnings.None? {
          BulkRowsFailed(urls, i, config, fetch, warningsOf);
          return None;
        }
        var scan := ProcessSingleUrl(response.value, warnings.value);
        if scan.None? {
          BulkRowsFailed(urls, i, config, fetch, warningsOf);
          return None;
        }
        rows := rows + UrlRows(urls[i], scan.value);
      }
      assert urls[..|urls|] == urls;
      csv := Some([TitleRow(CsvTitles)] + rows);
    }
  }

  /** A URL that fails makes every longer run fail. */
  lemma {:induction false} BulkRowsFailed(urls: seq<string>, i: nat, config: Config, fetch: string -> Option<Headers>,
                                          warningsOf: string -> Option<Headers>)
    requires i < |urls| && UrlScan(config, fetch, warningsOf, urls[i]).None?
    ensures BulkRows(urls, config, fetch, warningsOf).None?
  {
    BulkRowsFail(urls, config, fetch, warningsOf);
  }
}
