/**
 * Container/evaluator.py: the percentage score and grade of one scan, the decision
 * logic of processing one URL (fetch failed, zero rules, graded and stored), the
 * scheme probe of a bulk run and the metrics tallied over a bulk run.
 *
 * The fetched response headers and the scraped warnings are inputs; the HEAD probe
 * and the per-URL fetch of a bulk run are oracles. The clock readings (the scan time
 * and the 90-days-ago cutoff) are parameters.
 */
module ContainerEvaluator {
  import opened Common
  import opened Checks
  import opened Grades
  import opened Store
  import opened UrlParse

  // ---------------------------------------------------------------------------
  // Score and grade

  /** `calculate_final_grade`: the percentage of passing rules and its letter; a zero
      denominator raises ZeroDivisionError, modelled as None. */
  function CalculateFinalGrade(passes: nat, total: nat): (r: Option<(real, string)>)
    ensures r.None? <==> total == 0
    ensures r.Some? ==> r.value.0 * (total as real) == 100.0 * (passes as real)
    ensures r.Some? ==> r.value.1 == PercentGrade(r.value.0)
    ensures r.Some? && passes <= total ==>
              0.0 <= r.value.0 <= 100.0 && r.value.1 != NotAvailable
  {
    if total == 0 then None
    else
      var score := (passes as real) / (total as real) * 100.0;
      assert passes <= total ==> (passes as real) / (total as real) <= 1.0;
      PercentBandsPartition(score);
      Some((score, PercentGrade(score)))
  }

  // ---------------------------------------------------------------------------
  // One URL

  /** What processing one URL comes to: skipped after a failed fetch, the division by
      zero of a configuration without rules, or a graded scan with its result rows. */
  datatype ScanOutcome = Skipped | ZeroDivision | Graded(score: real, grade: string, results: seq<Verdict>)

  predicate IsGraded(o: ScanOutcome) { o.Graded? }

  /** `not response_headers`: no response, or one without headers. */
  predicate FetchFailed(response: Option<Headers>) {
    response.None? || response.value == map[]
  }

  /** The total number of rules of a configuration, the grade's denominator. */
  function RuleCount(config: Config): nat {
    |config.headers| + |config.unwanted| + |UpcomingRules(config)|
  }

  /** The passes of a scan: security and upcoming rules reported "PASS", unwanted rules
      reported "PASS (not present)". */
  function ScanPasses(config: Config, warnings: Headers, response: Headers): (n: nat)
    ensures n <= RuleCount(config)
  {
    Count(SecurityResults(config.headers, warnings, response), Passed) +
    Count(UnwantedResults(config.unwanted, response), PassedAbsent) +
    Count(SecurityResults(UpcomingRules(config), warnings, response), Passed)
  }

  /** The result rows of a scan: security, unwanted and upcoming, in that order. */
  function ScanResults(config: Config, warnings: Headers, response: Headers): (r: seq<Verdict>)
    ensures |r| == RuleCount(config)
  {
    SecurityResults(config.headers, warnings, response) +
    UnwantedResults(config.unwanted, response) +
    SecurityResults(UpcomingRules(config), warnings, response)
  }

  /** The specification of a scan of fetched headers: security, unwanted and upcoming
      rules checked in that order, their passes over all their rules graded. */
  function ScanOf(config: Config, warnings: Headers, response: Headers): ScanOutcome {
    var graded := CalculateFinalGrade(ScanPasses(config, warnings, response), RuleCount(config));
    if graded.None? then ZeroDivision
    else Graded(graded.value.0, graded.value.1, ScanResults(config, warnings, response))
  }

  function ProcessOutcome(config: Config, response: Option<Headers>, warnings: Headers): ScanOutcome {
    if FetchFailed(response) then Skipped else ScanOf(config, warnings, response.value)
  }

  /** A scan of a configuration with rules is graded in [0, 100] with a letter, has one
      result row per rule, and scores the share of passes among all rules; with no rules
      it is the division by zero. */
  lemma ScanOfGraded(config: Config, warnings: Headers, response: Headers)
    ensures var o := ScanOf(config, warnings, response);
      && (o.ZeroDivision? <==> RuleCount(config) == 0)
      && (o.Graded? ==> 0.0 <= o.score <= 100.0 && o.grade == PercentGrade(o.score) &&
                        o.grade != NotAvailable && |o.results| == RuleCount(config) &&
                        Some((o.score, o.grade)) ==
                          CalculateFinalGrade(ScanPasses(config, warnings, response), RuleCount(config)))
  {
    var passes := ScanPasses(config, warnings, response);
    var total := RuleCount(config);
    var graded := CalculateFinalGrade(passes, total);
    assert passes <= total;
  }

  /** The passes of a scan are the security and upcoming rules met without a warning and
      the unwanted headers absent or empty. */
  lemma ScanPassesMeaning(config: Config, warnings: Headers, response: Headers)
    ensures ScanPasses(config, warnings, response) ==
              Count(config.headers, (r: Rule) => RulePasses(r, warnings, response)) +
              Count(config.unwanted, (r: Rule) => !Found(Get(response, r.name))) +
              Count(UpcomingRules(config), (r: Rule) => RulePasses(r, warnings, response))
  {
    SecurityPassesCountRules(config.headers, warnings, response);
    UnwantedPassesCountAbsent(config.unwanted, response);
    SecurityPassesCountRules(UpcomingRules(config), warnings, response);
  }

  /** `process_single_url` once the response headers and warnings are known: a failed
      fetch is skipped and stores nothing; otherwise the three lists are checked, graded
      over all their rules, and the results stored after the URL's rows older than the
      cutoff are pruned. */
  method ProcessSingleUrl(table: ResultTable, url: string, config: Config, response: Option<Headers>,
                          warnings: Headers, now: Timestamp, cutoff: Timestamp)
    returns (outcome: ScanOutcome)
    requires table.Valid()
    modifies table
    ensures table.Valid()
    ensures outcome == ProcessOutcome(config, response, warnings)
    ensures !outcome.Graded? ==> table.rows == old(table.rows) && table.nextId == old(table.nextId)
    ensures outcome.Graded? ==>
              table.rows == StoredKeepingHistory(old(table.rows), old(table.nextId), url, outcome.score,
                                                 outcome.grade, outcome.results, now, cutoff)
  {
    if FetchFailed(response) {
      return Skipped;
    }
    var results, passes, total := CheckAllLists(config, warnings, response.value);
    var graded := CalculateFinalGrade(passes, total);
    if graded.None? {
      return ZeroDivision;
    }
    var (score, grade) := graded.value;
    table.StoreKeepingHistory(url, score, grade, results, now, cutoff);
    outcome := Graded(score, grade, results);
  }

  /** The three checks of `process_single_url` with their running totals. */
  method CheckAllLists(config: Config, warnings: Headers, headers: Headers)
    returns (results: seq<Verdict>, passes: nat, total: nat)
    ensures results == ScanResults(config, warnings, headers)
    ensures passes == ScanPasses(config, warnings, headers)
    ensures total == RuleCount(config)
  {
    var security, securityPasses, _ := CheckHeaders(config.headers, warnings, headers);
    total := |config.headers|;
    passes := securityPasses;
    var unwanted, unwantedPasses, _ := CheckUnwantedHeaders(config.unwanted, headers);
    total := total + |config.unwanted|;
    passes := passes + unwantedPasses;
    var upcomingRules := UpcomingRules(config);
    var upcoming, upcomingPasses, _ := CheckHeaders(upcomingRules, warnings, headers);
    total := total + |upcomingRules|;
    passes := passes + upcomingPasses;
    results := security + unwanted + upcoming;
  }

  // ---------------------------------------------------------------------------
  // Protocol probe

  /** What `determine_protocol` yields: a URL string, None, or a raised exception. */
  datatype Probed = Reached(url: string) | Unreached | Raised

  /** The host the probe tries: the network location, else the path. */
  function ProbeHost(p: ParsedUrl): string {
    if p.netloc != "" then p.netloc else p.path
  }

  /** The specification of the probe: a URL that parses with a scheme is kept as it
      is; otherwise the host is tried over https, then http. */
  function Probe(url: string, head: string -> Option<string>): Probed {
    match Urlparse(url)
    case None => Raised
    case Some(p) => if p.scheme != "" then Reached(url) else TryHost(ProbeHost(p), head)
  }

  /** "https://" then "http://" put before the host; the first HEAD request that
      answers gives the final URL. */
  function TryHost(host: string, head: string -> Option<string>): Probed {
    var secure := head("https://" + host);
    var plain := head("http://" + host);
    if secure.Some? then Reached(secure.value)
    else if plain.Some? then Reached(plain.value)
    else Unreached
  }

  /** A URL that already has a scheme is returned unchanged, whatever the network does;
      a URL without one is tried on its host; one that does not parse raises. */
  lemma ProbeCases(url: string, head: string -> Option<string>)
    ensures Urlparse(url).None? <==> Probe(url, head) == Raised
    ensures Urlparse(url).Some? && Urlparse(url).value.scheme != "" ==> Probe(url, head) == Reached(url)
    ensures Urlparse(url).Some? && Urlparse(url).value.scheme == "" ==>
              Probe(url, head) == TryHost(ProbeHost(Urlparse(url).value), head)
  {
    match Urlparse(url)
    case None =>
    case Some(p) =>
      assert TryHost(ProbeHost(p), head) != Raised;
  }

  /** https is tried before http, and the probe is unreached only when both fail. */
  lemma TryHostOrder(host: string, head: string -> Option<string>)
    ensures head("https://" + host).Some? ==> TryHost(host, head) == Reached(head("https://" + host).value)
    ensures head("https://" + host).None? && head("http://" + host).Some? ==>
              TryHost(host, head) == Reached(head("http://" + host).value)
    ensures TryHost(host, head) == Unreached <==>
              head("https://" + host).None? && head("http://" + host).None?
    ensures TryHost(host, head) != Raised
  {
  }

  /** `determine_protocol`: the scheme check, then the host tried scheme by scheme. */
  method DetermineProtocol(url: string, head: string -> Option<string>) returns (r: Probed)
    ensures r == Probe(url, head)
  {
    var parsed := Urlparse(url);
    if parsed.None? {
      return Raised;
    }
    if parsed.value.scheme != "" {
      return Reached(url);
    }
    r := TrySchemes(ProbeHost(parsed.value), head);
  }

  /** The loop over "https" and "http" with its early return. */
  method TrySchemes(host: string, head: string -> Option<string>) returns (r: Probed)
    ensures r == TryHost(host, head)
  {
    var schemes := ["https", "http"];
    assert schemes[0] + "://" + host == "https://" + host;
    assert schemes[1] + "://" + host == "http://" + host;
    for i := 0 to |schemes|
      invariant forall k :: 0 <= k < i ==> head(schemes[k] + "://" + host).None?
    {
      var response := head(schemes[i] + "://" + host);
      if response.Some? {
        return Reached(response.value);
      }
    }
    r := Unreached;
  }

  // ---------------------------------------------------------------------------
  // Bulk run metrics

  datatype Metrics = Metrics(totalUrls: nat, successfulFetches: nat, unsuccessfulFetches: nat,
                             httpUrls: nat, httpsUrls: nat, unreachableUrls: nat)

  datatype Detail = Detail(url: string, score: real, grade: string)

  predicate IsHttps(url: string) { StartsWith(url, "https://") }

  /** Counted as http only when it is not already counted as https. */
  predicate IsPlainHttp(url: string) { !IsHttps(url) && StartsWith(url, "http://") }

  /** The probe of every URL, in order. */
  function Probes(urls: seq<string>, head: string -> Option<string>): (r: seq<Probed>)
    ensures |r| == |urls|
  {
    if urls == [] then [] else Probes(urls[..|urls| - 1], head) + [Probe(urls[|urls| - 1], head)]
  }

  /** The URLs the probes reached, in order. */
  function ValidUrls(probes: seq<Probed>): (r: seq<string>)
    ensures |r| <= |probes|
    ensures forall u :: u in r <==> Reached(u) in probes
  {
    if probes == [] then []
    else
      var last := probes[|probes| - 1];
      ValidUrls(probes[..|probes| - 1]) + (if last.Reached? then [last.url] else [])
  }

  function Outcomes(valid: seq<string>, config: Config, fetch: string -> Option<Headers>,
                    warningsOf: string -> Headers): (r: seq<ScanOutcome>)
    ensures |r| == |valid|
  {
    seq(|valid|, i requires 0 <= i < |valid| => ProcessOutcome(config, fetch(valid[i]), warningsOf(valid[i])))
  }

  /** One detail per graded URL, in order. */
  function Details(valid: seq<string>, outcomes: seq<ScanOutcome>): (r: seq<Detail>)
    requires |valid| == |outcomes|
    ensures |r| == Count(outcomes, IsGraded)
    ensures forall d :: d in r ==>
              exists i :: (0 <= i < |valid| && valid[i] == d.url && outcomes[i].Graded? &&
                           outcomes[i].score == d.score && outcomes[i].grade == d.grade)
  {
    if valid == [] then []
    else
      var n := |valid| - 1;
      CountConcat(outcomes[..n], [outcomes[n]], IsGraded);
      assert outcomes[..n] + [outcomes[n]] == outcomes;
      var o := outcomes[n];
      Details(valid[..n], outcomes[..n]) + (if o.Graded? then [Detail(valid[n], o.score, o.grade)] else [])
  }

  /** The metric tallies and graded details of `process_bulk_urls`, run sequentially
      over the URLs. */
  method ProcessBulkUrls(urls: seq<string>, config: Config, head: string -> Option<string>,
                         fetch: string -> Option<Headers>, warningsOf: string -> Headers)
    returns (metrics: Metrics, detailed: seq<Detail>)
    ensures var valid := ValidUrls(Probes(urls, head));
      && metrics.totalUrls == |urls|
      && |valid| + metrics.unreachableUrls == metrics.totalUrls
      && metrics.httpsUrls == Count(valid, IsHttps)
      && metrics.httpUrls == Count(valid, IsPlainHttp)
      && metrics.httpsUrls + metrics.httpUrls <= |valid|
    ensures var valid := ValidUrls(Probes(urls, head));
      var outcomes := Outcomes(valid, config, fetch, warningsOf);
      && metrics.successfulFetches == Count(outcomes, IsGraded)
      && metrics.successfulFetches + metrics.unsuccessfulFetches == |valid|
      && detailed == Details(valid, outcomes)
  {
    var probes := ProbeAll(urls, head);
    var valid, https, http, unreachable := TallyProbes(probes);
    var outcomes := Outcomes(valid, config, fetch, warningsOf);
    var successful, unsuccessful;
    successful, unsuccessful, detailed := TallyOutcomes(valid, outcomes);
    metrics := Metrics(|urls|, successful, unsuccessful, http, https, unreachable);
  }

  /** The probe of every URL, in order (the gathered `determine_protocol` tasks). */
  method ProbeAll(urls: seq<string>, head: string -> Option<string>) returns (probes: seq<Probed>)
    ensures probes == Probes(urls, head)
  {
    probes := [];
    for i := 0 to |urls|
      invariant probes == Probes(urls[..i], head)
    {
      var p := DetermineProtocol(urls[i], head);
      assert urls[..i + 1][..i] == urls[..i];
      probes := probes + [p];
    }
    assert urls[..|urls|] == urls;
  }

  /** The first tally loop: reached URLs are kept and counted by scheme, the others
      are unreachable. */
  method TallyProbes(probes: seq<Probed>) returns (valid: seq<string>, https: nat, http: nat, unreachable: nat)
    ensures valid == ValidUrls(probes)
    ensures https == Count(valid, IsHttps) && http == Count(valid, IsPlainHttp)
    ensures https + http <= |valid|
    ensures |valid| + unreachable == |probes|
  {
    valid, https, http, unreachable := [], 0, 0, 0;
    for i := 0 to |probes|
      invariant valid == ValidUrls(probes[..i])
      invariant https == Count(valid, IsHttps) && http == Count(valid, IsPlainHttp)
      invariant https + http <= |valid|
      invariant |valid| + unreachable == i
    {
      assert probes[..i + 1][..i] == probes[..i];
      var p := probes[i];
      if p.Reached? {
        CountConcat(valid, [p.url], IsHttps);
        CountConcat(valid, [p.url], IsPlainHttp);
        valid := valid + [p.url];
        if IsHttps(p.url) {
          https := https + 1;
        } else if IsPlainHttp(p.url) {
          http := http + 1;
        }
      } else {
        unreachable := unreachable + 1;
      }
    }
    assert probes[..|probes|] == probes;
  }

  /** The second tally loop: a graded URL is a successful fetch with a detail row; a
      skipped one or one that raised is unsuccessful. */
  method TallyOutcomes(valid: seq<string>, outcomes: seq<ScanOutcome>)
    returns (successful: nat, unsuccessful: nat, detailed: seq<Detail>)
    requires |valid| == |outcomes|
    ensures successful == Count(outcomes, IsGraded)
    ensures successful + unsuccessful == |valid|
    ensures detailed == Details(valid, outcomes)
  {
    successful, unsuccessful, detailed := 0, 0, [];
    for i := 0 to |valid|
      invariant successful == Count(outcomes[..i], IsGraded)
      invariant successful + unsuccessful == i
      invariant detailed == Details(valid[..i], outcomes[..i])
    {
      assert valid[..i + 1][..i] == valid[..i];
      assert outcomes[..i + 1][..i] == outcomes[..i];
      CountConcat(outcomes[..i], [outcomes[i]], IsGraded);
      assert outcomes[..i] + [outcomes[i]] == outcomes[..i + 1];
      var result := outcomes[i];
      if result.Graded? {
        detailed := detailed + [Detail(valid[i], result.score, result.grade)];
        successful := successful + 1;
      } else {
        unsuccessful := unsuccessful + 1;
      }
    }
    assert valid[..|valid|] == valid;
    assert outcomes[..|outcomes|] == outcomes;
  }
}
