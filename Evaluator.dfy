/**
 * evaluator.py: the signed score over a fixed denominator of 17, and the processing of
 * one URL, which checks the security and unwanted rules, only mentions the upcoming
 * ones, and replaces every stored row of the URL with the new results.
 *
 * The response headers and the scraped warnings are inputs; the clock reading is a
 * parameter.
 */
module Evaluator {
  import opened Common
  import opened Checks
  import opened Grades
  import opened Store

  /** The number of rules the score is divided by, whatever the configuration holds. */
  const Denominator: nat := 17

  /** `(100 / 17) * (total_passes - total_fails)` */
  function SignedScore(passes: nat, fails: nat): (score: real)
    ensures score * (Denominator as real) == 100.0 * ((passes as int - fails as int) as real)
  {
    (100.0 / (Denominator as real)) * ((passes as int - fails as int) as real)
  }

  /** `calculate_final_grade`: the signed score and its letter in the 18-band table. */
  function CalculateFinalGrade(passes: nat, fails: nat): (r: (real, string))
    ensures r.0 == SignedScore(passes, fails)
    ensures r.1 == SignedGrade(r.0)
  {
    var score := SignedScore(passes, fails);
    (score, SignedGrade(score))
  }

  /** With at most 17 passes and fails between them the score lies in [-100, 100], and
      it is graded "Not available" exactly when passes equal fails (score 0, inside the
      table's gap); a surplus of more than 17 passes is not graded either. */
  lemma SignedScoreGraded(passes: nat, fails: nat)
    ensures passes == fails ==> SignedScore(passes, fails) == 0.0
    ensures passes + fails <= Denominator ==>
              -100.0 <= SignedScore(passes, fails) <= 100.0 &&
              (CalculateFinalGrade(passes, fails).1 == NotAvailable <==> passes == fails)
    ensures passes > fails + Denominator ==> CalculateFinalGrade(passes, fails).1 == NotAvailable
  {
    var d := passes as int - fails as int;
    var score := SignedScore(passes, fails);
    SignedBandsPartition(score);
    if d >= 1 {
      assert score >= 100.0 / 17.0;
    } else if d <= -1 {
      assert score <= -100.0 / 17.0;
    }
  }

  // ---------------------------------------------------------------------------
  // One URL

  datatype Scan = Skipped | Scanned(score: real, grade: string, results: seq<Verdict>)

  /** The rules that count towards passes and fails: security and unwanted. */
  function CountedRules(config: Config): nat {
    |config.headers| + |config.unwanted|
  }

  function ScanPasses(config: Config, warnings: Headers, response: Headers): (n: nat)
    ensures n <= CountedRules(config)
  {
    Count(SecurityResults(config.headers, warnings, response), Passed) +
    Count(UnwantedResults(config.unwanted, response), PassedAbsent)
  }

  /** The specification of a scan of fetched headers: security and unwanted rules
      checked and counted, upcoming rules listed, the counts graded on the signed
      scale. */
  function ScanOf(config: Config, warnings: Headers, response: Headers): Scan {
    var passes := ScanPasses(config, warnings, response);
    var graded := CalculateFinalGrade(passes, CountedRules(config) - passes);
    Scanned(graded.0, graded.1,
            SecurityResults(config.headers, warnings, response) +
            UnwantedResults(config.unwanted, response) +
            UpcomingResults(UpcomingRules(config)))
  }

  function ProcessOutcome(config: Config, response: Option<Headers>, warnings: Headers): Scan {
    if response.None? || response.value == map[] then Skipped else ScanOf(config, warnings, response.value)
  }

  /** A scan has one result row per rule, upcoming ones included; its score depends
      on the security and unwanted rules only, and with at most 17 of them it is in
      [-100, 100] and ungraded exactly when passes equal fails. */
  lemma ScanOfMeaning(config: Config, warnings: Headers, response: Headers)
    ensures var s := ScanOf(config, warnings, response);
      var passes := ScanPasses(config, warnings, response);
      var fails := CountedRules(config) - passes;
      && |s.results| == CountedRules(config) + |UpcomingRules(config)|
      && s.score == SignedScore(passes, fails)
      && (CountedRules(config) <= Denominator ==>
            -100.0 <= s.score <= 100.0 && (s.grade == NotAvailable <==> passes == fails))
  {
    var passes := ScanPasses(config, warnings, response);
    SignedScoreGraded(passes, CountedRules(config) - passes);
  }

  /** Upcoming rules change the listed results but never the score or the grade. */
  lemma UpcomingNotCounted(config: Config, upcoming: Option<seq<Rule>>, warnings: Headers, response: Headers)
    ensures var other := Config(config.headers, config.unwanted, upcoming);
      && ScanOf(other, warnings, response).score == ScanOf(config, warnings, response).score
      && ScanOf(other, warnings, response).grade == ScanOf(config, warnings, response).grade
  {
    var other := Config(config.headers, config.unwanted, upcoming);
    assert ScanPasses(other, warnings, response) == ScanPasses(config, warnings, response);
  }

  /** `process_single_url`: a failed fetch is skipped and stores nothing; otherwise the
      results are graded and replace every row stored for the URL. */
  method ProcessSingleUrl(table: ResultTable, url: string, config: Config, response: Option<Headers>,
                          warnings: Headers, now: Timestamp)
    returns (outcome: Scan)
    requires table.Valid()
    modifies table
    ensures table.Valid()
    ensures outcome == ProcessOutcome(config, response, warnings)
    ensures outcome.Skipped? ==> table.rows == old(table.rows) && table.nextId == old(table.nextId)
    ensures outcome.Scanned? ==>
              table.rows == StoredReplacing(old(table.rows), old(table.nextId), url, outcome.score,
                                            outcome.grade, outcome.results, now)
  {
    if response.None? || response.value == map[] {
      return Skipped;
    }
    var results, passes, fails := CheckAllLists(config, warnings, response.value);
    var (score, grade) := CalculateFinalGrade(passes, fails);
    table.StoreReplacing(url, score, grade, results, now);
    outcome := Scanned(score, grade, results);
  }

  /** The checks and the mention of `process_single_url`, with the pass and fail totals. */
  method CheckAllLists(config: Config, warnings: Headers, headers: Headers)
    returns (results: seq<Verdict>, passes: nat, fails: nat)
    ensures results == ScanOf(config, warnings, headers).results
    ensures passes == ScanPasses(config, warnings, headers)
    ensures passes + fails == CountedRules(config)
  {
    var security, securityPasses, securityFails := CheckHeaders(config.headers, warnings, headers);
    passes, fails := securityPasses, securityFails;
    var unwanted, unwantedPasses, unwantedFails := CheckUnwantedHeaders(config.unwanted, headers);
    passes, fails := passes + unwantedPasses, fails + unwantedFails;
    var upcoming := MentionUpcomingHeaders(UpcomingRules(config));
    assert upcoming == UpcomingResults(UpcomingRules(config));
    results := security + unwanted + upcoming;
  }
}
