/**
 * Per-rule verdicts of the grading engine, as written in Container/evaluator.py
 * (check_headers, check_unwanted_headers) and, identically, in evaluator.py
 * (the same two functions plus mention_upcoming_headers).
 *
 * A rule names a header and, for the security and upcoming lists, the condition
 * the header is expected to meet ("present" or "not_present"). The fetched
 * response headers and the warnings scraped from the external grading site are
 * plain maps from header name to text.
 */
module Checks {
  import opened Common

  type Headers = map<string, string>

  datatype Rule = Rule(name: string, condition: Option<string>)

  /** The configuration read from the YAML file: the security rules, the unwanted
      headers and the upcoming rules, which may be missing. */
  datatype Config = Config(headers: seq<Rule>, unwanted: seq<Rule>, upcoming: Option<seq<Rule>>)

  /** `config.get('upcoming_headers', [])` */
  function UpcomingRules(config: Config): seq<Rule> {
    config.upcoming.GetOr([])
  }

  /** One `[header_name, status, header_found]` result row. */
  datatype Verdict = Verdict(name: string, status: string, value: Option<string>)

  /** `response_headers.get(name)` */
  function Get(h: Headers, name: string): Option<string> {
    if name in h then Some(h[name]) else None
  }

  /** Python truthiness of a looked-up value: absent and empty both count as false. */
  predicate Found(v: Option<string>) {
    v.Some? && v.value != ""
  }

  function Presence(response: Headers, name: string): (c: string)
    ensures c == "present" <==> Found(Get(response, name))
    ensures c != "present" ==> c == "not_present"
  {
    if Found(Get(response, name)) then "present" else "not_present"
  }

  /** `header.get('condition', 'present')` */
  function ExpectedCondition(rule: Rule): string {
    rule.condition.GetOr("present")
  }

  /** The verdict of one security (or upcoming) rule whose expected condition is `expected`. */
  function SecurityVerdict(name: string, expected: string, warnings: Headers, response: Headers): Verdict {
    var found := Get(response, name);
    if name in warnings then Verdict(name, "WARNING (" + warnings[name] + ")", found)
    else if Presence(response, name) == expected then Verdict(name, "PASS", found)
    else Verdict(name, "FAIL", found)
  }

  /** The verdict of one unwanted-header rule. */
  function UnwantedVerdict(name: string, response: Headers): Verdict {
    var found := Get(response, name);
    if Found(found) then Verdict(name, "FAIL (present)", found)
    else Verdict(name, "PASS (not present)", found)
  }

  function SecurityResults(rules: seq<Rule>, warnings: Headers, response: Headers): seq<Verdict> {
    seq(|rules|, i requires 0 <= i < |rules| =>
      SecurityVerdict(rules[i].name, ExpectedCondition(rules[i]), warnings, response))
  }

  /** The verdicts of a prefix of the rules grow by the next rule's verdict. */
  lemma SecurityResultsStep(rules: seq<Rule>, i: nat, warnings: Headers, response: Headers)
    requires i < |rules|
    ensures SecurityResults(rules[..i + 1], warnings, response) ==
            SecurityResults(rules[..i], warnings, response) +
            [SecurityVerdict(rules[i].name, ExpectedCondition(rules[i]), warnings, response)]
  {
  }

  function UnwantedResults(rules: seq<Rule>, response: Headers): seq<Verdict> {
    seq(|rules|, i requires 0 <= i < |rules| => UnwantedVerdict(rules[i].name, response))
  }

  function UpcomingResults(rules: seq<Rule>): seq<Verdict> {
    seq(|rules|, i requires 0 <= i < |rules| => Verdict(rules[i].name, "PASS (Upcoming header)", Some("N/A")))
  }

  predicate Passed(v: Verdict) { v.status == "PASS" }
  predicate PassedAbsent(v: Verdict) { v.status == "PASS (not present)" }

  /** A rule passes exactly when no warning names its header and the header's presence
      is the expected one. */
  predicate RulePasses(rule: Rule, warnings: Headers, response: Headers) {
    rule.name !in warnings && Presence(response, rule.name) == ExpectedCondition(rule)
  }

  // ---------------------------------------------------------------------------
  // The two checking loops

  method CheckHeaders(rules: seq<Rule>, warnings: Headers, response: Headers)
    returns (results: seq<Verdict>, passes: nat, fails: nat)
    ensures results == SecurityResults(rules, warnings, response)
    ensures passes == Count(results, Passed)
    ensures passes + fails == |rules|
  {
    results, passes, fails := [], 0, 0;
    for i := 0 to |rules|
      invariant results == SecurityResults(rules[..i], warnings, response)
      invariant passes == Count(results, Passed)
      invariant passes + fails == i
    {
      var name := rules[i].name;
      var expected := ExpectedCondition(rules[i]);
      var found := Get(response, name);
      var condition := if Found(found) then "present" else "not_present";
      var v;
      if name in warnings {
        v := Verdict(name, "WARNING (" + warnings[name] + ")", found);
        fails := fails + 1;
      } else if condition == expected {
        v := Verdict(name, "PASS", found);
        passes := passes + 1;
      } else {
        v := Verdict(name, "FAIL", found);
        fails := fails + 1;
      }
      SecurityResultsStep(rules, i, warnings, response);
      CountConcat(results, [v], Passed);
      results := results + [v];
    }
    assert rules[..|rules|] == rules;
  }

  method CheckUnwantedHeaders(rules: seq<Rule>, response: Headers)
    returns (results: seq<Verdict>, passes: nat, fails: nat)
    ensures results == UnwantedResults(rules, response)
    ensures passes == Count(results, PassedAbsent)
    ensures passes + fails == |rules|
  {
    results, passes, fails := [], 0, 0;
    for i := 0 to |rules|
      invariant results == UnwantedResults(rules[..i], response)
      invariant passes == Count(results, PassedAbsent)
      invariant passes + fails == i
    {
      var name := rules[i].name;
      var found := Get(response, name);
      var v;
      if Found(found) {
        v := Verdict(name, "FAIL (present)", found);
        fails := fails + 1;
      } else {
        v := Verdict(name, "PASS (not present)", found);
        passes := passes + 1;
      }
      CountConcat(results, [v], PassedAbsent);
      results := results + [v];
    }
    assert rules[..|rules|] == rules;
  }

  /** evaluator.py's mention_upcoming_headers: one informational row per rule. */
  method MentionUpcomingHeaders(rules: seq<Rule>) returns (results: seq<Verdict>)
    ensures |results| == |rules|
    ensures forall i :: 0 <= i < |rules| ==>
              results[i] == Verdict(rules[i].name, "PASS (Upcoming header)", Some("N/A"))
  {
    results := [];
    for i := 0 to |rules|
      invariant results == UpcomingResults(rules[..i])
    {
      results := results + [Verdict(rules[i].name, "PASS (Upcoming header)", Some("N/A"))];
    }
  }

  // ---------------------------------------------------------------------------
  // What a verdict means

  /** Each result row names the header of the rule at the same position. */
  lemma ResultsFollowRules(rules: seq<Rule>, warnings: Headers, response: Headers)
    ensures |SecurityResults(rules, warnings, response)| == |rules|
    ensures forall i :: 0 <= i < |rules| ==> SecurityResults(rules, warnings, response)[i].name == rules[i].name
    ensures |UnwantedResults(rules, response)| == |rules|
    ensures forall i :: 0 <= i < |rules| ==> UnwantedResults(rules, response)[i].name == rules[i].name
  {
  }

  /** A warned header is a failure (status "WARNING (msg)") even when its presence
      matches the expected condition; otherwise the status is "PASS" or "FAIL"
      according to presence. */
  lemma SecurityVerdictMeaning(rule: Rule, warnings: Headers, response: Headers)
    ensures var v := SecurityVerdict(rule.name, ExpectedCondition(rule), warnings, response);
      && v.name == rule.name
      && v.value == Get(response, rule.name)
      && (rule.name in warnings ==> v.status == "WARNING (" + warnings[rule.name] + ")" && !Passed(v))
      && (Passed(v) <==> RulePasses(rule, warnings, response))
      && (rule.name !in warnings && !Passed(v) ==> v.status == "FAIL")
  {
    var v := SecurityVerdict(rule.name, ExpectedCondition(rule), warnings, response);
    if rule.name in warnings {
      assert v.status[0] == 'W';
    }
  }

  /** A rule without a condition expects the header to be present; an empty value
      counts as absent. */
  lemma DefaultConditionIsPresent(name: string, warnings: Headers, response: Headers)
    requires name !in warnings
    ensures RulePasses(Rule(name, None), warnings, response) <==>
              (name in response && response[name] != "")
  {
  }

  /** The security pass count is the number of rules that pass. */
  lemma {:induction false} SecurityPassesCountRules(rules: seq<Rule>, warnings: Headers, response: Headers)
    ensures Count(SecurityResults(rules, warnings, response), Passed) ==
            Count(rules, (r: Rule) => RulePasses(r, warnings, response))
  {
    if rules != [] {
      SecurityPassesCountRules(rules[1..], warnings, response);
      SecurityVerdictMeaning(rules[0], warnings, response);
      assert SecurityResults(rules, warnings, response)[1..] == SecurityResults(rules[1..], warnings, response);
    }
  }

  /** "FAIL (present)" exactly when the header has a non-empty value; the unwanted
      pass count is the number of unwanted headers that are absent or empty. */
  lemma {:induction false} UnwantedPassesCountAbsent(rules: seq<Rule>, response: Headers)
    ensures forall i :: 0 <= i < |rules| ==>
              (UnwantedResults(rules, response)[i].status == "FAIL (present)" <==>
               Found(Get(response, rules[i].name)))
    ensures Count(UnwantedResults(rules, response), PassedAbsent) ==
            Count(rules, (r: Rule) => !Found(Get(response, r.name)))
  {
    if rules != [] {
      UnwantedPassesCountAbsent(rules[1..], response);
      assert UnwantedResults(rules, response)[1..] == UnwantedResults(rules[1..], response);
    }
  }
}
