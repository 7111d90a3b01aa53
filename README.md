# HTTP security-header evaluator — grading engine and result store

This project models the core of an HTTP security-header evaluator. The evaluator fetches
the response headers of a site and checks them against a configured rule list:
- security headers that should be present, or absent;
- unwanted headers that should not be set;
- upcoming headers that are listed for information only.

Each rule gives one result row `[name, status, value]`. The evaluator counts passes and
fails, turns the counts into a score, and turns the score into a letter grade. The rows
are stored in a `results` table. The analytics, report and menu code query that table.

Three grade tables coexist in the source, and each is modelled as written (module `Grades`):
- `PercentGrade`: the 14-band percentage table of the container evaluator.
- `SignedGrade`: the 18-band signed table of `evaluator.py`, `evaluate_headers.py` and
  `analytics.calculate_grade`. It has a gap at (-0.01, 0].
- `FirstMatchGrade`: the closed-interval table of the interactive menu, where the first
  matching range wins.

Modules follow the program's files:
- `Checks`: the per-rule verdicts shared by every evaluator version, with the
  counting loops as methods proved against them.
- `ContainerEvaluator`, `Evaluator`, `EvaluateHeaders`: the three evaluator scripts.
  `EvaluateHeaders` is a class whose `totalPasses`/`totalFails` fields are the
  module-level counters of that script.
- `Store`: the `results` table as a class `ResultTable`, holding a sequence of rows
  `(id, url, score, grade, header_name, status, header_value, timestamp)` and the next id.
  It offers batch insert, the two pruning policies, the age clean-up and delete-by-url.
- `Analytics`, `Reports`, `InteractiveMenu`: the selection, counting, ranking and
  string-building queries over the row sequence.
- `Scanner` and `UrlParse`: the newer scanner's URL clean-up and its https-then-http
  fallback. `UrlParse` models the parts of Python's `urlparse` that the clean-up relies on.
- `Common` and `Sorting`: sequence helpers. `SortBy` is one insertion sort proved sorted
  and a permutation, and it stands for the source's `sorted`, `ORDER BY` and `sort_values`.

Modelling choices:
- Scores are exact `real`s.
- Timestamps are `int`s standing for the ISO-8601 strings, which the source compares
  lexicographically.
- Fetched headers and the warnings scraped from the report site are input maps.
- HTTP requests are oracle functions from a url to an `Option`: `None` stands for a request that raises.
- "Now" and the "now minus N days" cutoff are parameters.
- A missing dictionary key, which raises `KeyError` in the source, is an `Option` result.
- SQL results without `ORDER BY` come back in table order. `DISTINCT` keeps first appearances.

## Model

| member | source | states |
|---|---|---|
| Grades.PercentGradeIsBand | Container/evaluator.py:265-303 | the percentage table gives the i-th letter exactly when the score lies in the i-th band [lower_i, lower_{i+1}) (the last band closed at 100) |
| Grades.PercentBandsPartition | Container/evaluator.py:269-298 | a score gets a letter exactly when it lies in [0, 100]; each such score lies in one band, and in only one |
| Grades.PercentBandMonotone | Container/evaluator.py:269-298 | the bands are ordered: a higher score never falls in a lower band |
| Grades.SignedGradeIsBand | evaluator.py:257-303 | the signed table gives the i-th of the 18 letters exactly when the score lies in the i-th band; the same chain appears in evaluate_headers.py:125-173 and Container/analytics.py:157-195 |
| Grades.SignedBandsPartition | Container/analytics.py:157-195 | "Not available" exactly for scores outside [-100, 100] and for scores in the gap (-0.01, 0], 0 included; every other score lies in exactly one band |
| Grades.SignedGradeOfBand | evaluator.py:264-298 | a score inside band i is graded with the i-th letter |
| Grades.SignedBandMonotone | evaluator.py:264-298 | the signed bands are ordered by score |
| Grades.SignedLettersDistinct | evaluator.py:264-298 | the 18 letters are pairwise distinct and none is "Not available" |
| Grades.FirstMatchFirstHit | interactive_menu.py:207-209 | the scan returns the letter of the first range containing the score, even when later ranges also contain it |
| Grades.FirstMatchNoHit | interactive_menu.py:210 | when no range contains the score the scan returns "Not available" |
| Grades.FirstMatchAgreesWithSigned | interactive_menu.py:197-210 | the first-match table agrees with the signed table at every score except 0, which it grades "C-" where the signed table says "Not available" |
| Grades.FirstMatchOutside | interactive_menu.py:198-210 | scores outside [-100, 100] and scores in (-0.01, 0) match no range |
| Grades.FirstMatchAtZero | interactive_menu.py:202 | 0 is caught by the closed range [0, 11.11] and graded "C-" |
| Grades.FirstMatchInBand | interactive_menu.py:198-209 | inside the signed bands the first matching closed range is the signed band, so a shared edge such as 11.11 takes the earlier letter |
| Grades.RangesAreBands | interactive_menu.py:198-205 | the 18 closed ranges carry the signed table's letters in order; each range runs from the previous band's upper edge (-100 for the first, 0 for "C-") to its own band's upper edge |
| Checks.Presence | Container/evaluator.py:221-222 | a header is "present" exactly when it has a non-empty value, otherwise "not_present" |
| Checks.CheckHeaders | Container/evaluator.py:213-239 | the loop returns one verdict per rule in rule order, with passes the number of "PASS" rows and passes + fails the number of rules; evaluator.py:196-222 is the same loop |
| Checks.CheckUnwantedHeaders | Container/evaluator.py:242-262 | one verdict per unwanted rule, with passes the number of "PASS (not present)" rows and passes + fails the number of rules; evaluator.py:225-245 is the same loop |
| Checks.MentionUpcomingHeaders | evaluator.py:248-254 | exactly one row [name, "PASS (Upcoming header)", "N/A"] per upcoming rule, in order |
| Checks.ResultsFollowRules | Container/evaluator.py:213-262 | the i-th result row names the i-th rule's header, for both check loops |
| Checks.SecurityVerdictMeaning | Container/evaluator.py:225-234 | a warned header gets "WARNING (msg)" whatever its presence; otherwise "PASS" exactly when its presence equals the expected condition, else "FAIL" |
| Checks.DefaultConditionIsPresent | Container/evaluator.py:220-223 | a rule without a condition passes exactly when the header has a non-empty value |
| Checks.SecurityPassesCountRules | Container/evaluator.py:213-239 | the pass count is the number of rules that are unwarned and meet their condition |
| Checks.UnwantedPassesCountAbsent | Container/evaluator.py:242-262 | "FAIL (present)" exactly when the header has a non-empty value, and the pass count is the number of absent or empty unwanted headers |
| ContainerEvaluator.CalculateFinalGrade | Container/evaluator.py:265-303 | no grade when the total is 0 (the division raises); otherwise score * total = 100 * passes, graded on the percentage table, and with passes <= total the score is in [0, 100] and never "Not available" |
| ContainerEvaluator.ScanPasses | Container/evaluator.py:326-340 | the passes of a scan never exceed the number of rules |
| ContainerEvaluator.ScanResults | Container/evaluator.py:326-340 | one result row per rule, upcoming rules included |
| ContainerEvaluator.ScanOfGraded | Container/evaluator.py:326-348 | a scan of a configuration with rules is graded in [0, 100] with a letter; its rows are security ++ unwanted ++ upcoming; the denominator counts the upcoming rules |
| ContainerEvaluator.ScanPassesMeaning | Container/evaluator.py:326-340 | the passes are the security and upcoming rules met without a warning plus the absent unwanted headers |
| ContainerEvaluator.ProcessSingleUrl | Container/evaluator.py:306-348 | a failed fetch gives (None, None, []) and leaves the table untouched; otherwise the rows are stored after pruning the url's rows older than the cutoff, and the table stays well formed |
| ContainerEvaluator.CheckAllLists | Container/evaluator.py:326-340 | the three check calls give the scan's rows, its passes and the rule count |
| ContainerEvaluator.ProbeCases | Container/evaluator.py:396-412 | a url that does not parse raises; a url with a scheme is returned unchanged whatever the network does; otherwise its host is probed |
| ContainerEvaluator.TryHostOrder | Container/evaluator.py:403-410 | "https://" is tried before "http://"; the first answering request gives the url; the probe is unreached only when both fail |
| ContainerEvaluator.DetermineProtocol | Container/evaluator.py:396-412 | the scheme check and the loop compute the probe specification |
| ContainerEvaluator.TrySchemes | Container/evaluator.py:403-410 | the loop with its early return computes the https-then-http probe |
| ContainerEvaluator.ValidUrls | Container/evaluator.py:440-449 | at most one valid url per probe, and a url is valid exactly when some probe reached it |
| ContainerEvaluator.Details | Container/evaluator.py:456-468 | one detail per graded outcome, each carrying its url's score and grade |
| ContainerEvaluator.ProcessBulkUrls | Container/evaluator.py:415-485 | the metrics satisfy valid + unreachable = total, https + http <= valid and successful + unsuccessful = valid, with each count defined over the probes and outcomes |
| ContainerEvaluator.TallyProbes | Container/evaluator.py:431-449 | the first tally keeps the reached urls in order and counts https, plain http and unreachable ones, an https url never counted as http |
| ContainerEvaluator.TallyOutcomes | Container/evaluator.py:456-468 | the second tally counts graded outcomes as successful and the rest as unsuccessful, and collects their details in order |
| Evaluator.SignedScore | evaluator.py:258 | score * 17 = 100 * (passes - fails), with the fixed denominator 17 whatever the rule counts |
| Evaluator.CalculateFinalGrade | evaluator.py:257-303 | the signed score and its letter from the signed table |
| Evaluator.SignedScoreGraded | evaluator.py:257-303 | equal passes and fails give score 0 and "Not available"; at most 17 counted rules keep the score in [-100, 100]; more than 17 net passes give "Not available" |
| Evaluator.ScanPasses | evaluator.py:326-334 | the passes never exceed the counted (security and unwanted) rules |
| Evaluator.ScanOfMeaning | evaluator.py:306-345 | one row per rule, upcoming included, in the order security ++ unwanted ++ upcoming; the score depends only on the counted rules |
| Evaluator.UpcomingNotCounted | evaluator.py:335-340 | changing the upcoming list changes the rows but never the score or the grade |
| Evaluator.ProcessSingleUrl | evaluator.py:306-345 | a failed fetch is skipped and stores nothing; otherwise every prior row of the url is replaced by the new batch |
| Evaluator.CheckAllLists | evaluator.py:326-340 | the checks and the mention give the scan's rows, its passes, and passes + fails equal to the counted rules |
| EvaluateHeaders.PlainUnwantedVerdict | evaluate_headers.py:93-113 | plain "FAIL" exactly when the header has a non-empty value, plain "PASS" otherwise |
| EvaluateHeaders.FirstMissing | evaluate_headers.py:70 | the first rule without a condition, the point where the loop raises KeyError |
| EvaluateHeaders.HeaderScanGraded | evaluate_headers.py:176-206 | without a KeyError the scan grades the counted passes on the signed table and lists security, unwanted and upcoming rows in order |
| EvaluateHeaders.PlainUnwantedPassesCountAbsent | evaluate_headers.py:93-113 | the plain "PASS" count is the number of absent or empty unwanted headers |
| EvaluateHeaders.HeaderScanAgreesWithEvaluator | evaluate_headers.py:125-206 | where it raises no KeyError this version gives the same score and letter as evaluator.py, and the same rows except the plain "FAIL"/"PASS" of unwanted headers |
| EvaluateHeaders.BulkRowsShape | evaluate_headers.py:209-224 | the bulk run aborts exactly when one url aborts, by a failed header or warnings request or by a KeyError; every row carries a url of the input with that url's score and grade |
| EvaluateHeaders.BulkRowsFail | evaluate_headers.py:27-40 | the abort half of BulkRowsShape: no CSV rows exactly when some url's requests fail or its scan raises |
| EvaluateHeaders.BulkRowsFromScans | evaluate_headers.py:213-216 | the rows half of BulkRowsShape: every row is a result row of an input url whose scan succeeded, with that scan's score and grade |
| EvaluateHeaders.BulkRowsFailed | evaluate_headers.py:213-215 | a failed request or a KeyError on any url aborts the whole run |
| EvaluateHeaders.CheckRule | evaluate_headers.py:68-88 | one step of the loop gives the rule's verdict, and counts it as a pass exactly when its status is "PASS" |
| EvaluateHeaders.CountRule | evaluate_headers.py:68-88 | one pass of the loop over a rule with a condition appends its verdict and raises exactly one counter |
| EvaluateHeaders.CheckRules | evaluate_headers.py:64-90 | the loop stops with KeyError at the first rule without a condition, after counting the rules before it; otherwise it returns every verdict |
| EvaluateHeaders.HeaderEvaluator.CheckHeaders | evaluate_headers.py:64-90 | the counters rise by the verdicts of the rules checked before any KeyError, so passes + fails rise by the number of rules on success, and a warning counts as a fail |
| EvaluateHeaders.HeaderEvaluator.CheckUnwantedHeaders | evaluate_headers.py:93-113 | plain verdicts, and the counters rise by exactly the number of rules |
| EvaluateHeaders.HeaderEvaluator.MentionUpcomingHeaders | evaluate_headers.py:116-122 | one row per configured upcoming header, counters untouched, KeyError without the list |
| EvaluateHeaders.HeaderEvaluator.CalculateFinalGrade | evaluate_headers.py:125-173 | the signed score and letter of the current counters |
| EvaluateHeaders.HeaderEvaluator.ProcessSingleUrl | evaluate_headers.py:176-206 | the counters are reset first, so the result is the scan of this response alone and the counters end as its counts |
| EvaluateHeaders.HeaderEvaluator.CheckAllLists | evaluate_headers.py:180-193 | from zero counters, the three lists' rows in order, or the KeyError of a missing condition or upcoming list |
| EvaluateHeaders.HeaderEvaluator.ProcessBulkUrls | evaluate_headers.py:209-224 | no file when any url's requests fail or its scan raises; otherwise one title row, then one [url, score, grade] + result row per result, url by url in input order |
| Store.ResultTable.InsertBatch | Container/evaluator.py:95-98 | appends one row per result, all with the url, score, grade and one timestamp, with fresh increasing ids |
| Store.ResultTable.StoreKeepingHistory | Container/evaluator.py:79-104 | deletes the url's rows older than the cutoff, then inserts the batch |
| Store.ResultTable.StoreReplacing | evaluator.py:76-98 | deletes every row of the url, then inserts the batch |
| Store.ResultTable.CleanupOldEntries | Container/analytics.py:335-341 | removes exactly the rows older than the cutoff across all urls and returns how many |
| Store.ResultTable.DeleteUrl | Container/analytics.py:343-349 | removes exactly the rows of that url and returns how many |
| Store.FilterKeepsIdsIncreasing | Container/evaluator.py:91 | deleting rows keeps the ids increasing |
| Store.PruneBeforeCounts | Container/analytics.py:338-339 | the deleted count is the number of old rows, and the rows left are exactly the rows not older than the cutoff |
| Store.RowsNotForCounts | Container/analytics.py:346-347 | the deleted count is the number of the url's rows, and the rows left are exactly the other urls' rows |
| Store.BatchRowsAreOneScan | Container/evaluator.py:95-98 | every inserted row carries the url, score, grade and timestamp, and the rows list the results in order |
| Store.StoredKeepingHistoryEffect | Container/evaluator.py:84-98 | other urls' rows are unchanged; the url's remaining old rows are exactly those not older than the cutoff, followed by the new batch |
| Store.PrunedRowsFor | Container/evaluator.py:91 | pruning the url keeps exactly its rows not older than the cutoff |
| Store.StoredReplacingEffect | evaluator.py:84-92 | afterwards the url's rows are exactly the new batch, with one shared timestamp, and other urls' rows are unchanged |
| Analytics.BaseUrl | Container/analytics.py:113-117 | strips a leading "http://" (7 characters) or "https://" (8 characters), matched in any letter case as SQLite's `LIKE` does, otherwise leaves the url unchanged |
| Analytics.BaseUrlStripsScheme | Container/analytics.py:113-117 | "http://" + host, "https://" + host and their upper-case forms all give back the host |
| Analytics.MaxTimestamp | Container/analytics.py:21 | the maximum is the timestamp of some row and no row is newer |
| Analytics.FetchAllResultsForUrl | Container/analytics.py:17-33 | exactly the matching rows that carry the newest matching timestamp; all share one timestamp; empty exactly when nothing matches |
| Analytics.NewestMatch | Container/analytics.py:20-24 | the selected timestamp is that of a matching row, and no matching row is newer |
| Analytics.LatestScanIsNewestBatch | Container/analytics.py:17-33 | after a newer batch for the url is stored, the latest scan is exactly that batch |
| Analytics.StoreThenFetchKeepingHistory | Container/analytics.py:17-33 | storing with the history policy and then fetching gives back the batch just stored |
| Analytics.StoreThenFetchReplacing | Container/analytics.py:17-33 | storing with the replace policy and then fetching gives back the batch just stored |
| Analytics.LatestTimestamps | Container/analytics.py:215-219 | the timestamps that are the newest of some url |
| Analytics.GroupCounts | Container/analytics.py:211-222 | one group per distinct header, each counting that header's rows, none empty |
| Analytics.TopVulnerabilities | Container/analytics.py:208-226 | at most 10 groups |
| Analytics.TopVulnerabilitiesAreTop | Container/analytics.py:208-226 | the groups count rows whose status starts with "FAIL" among rows at some url's newest timestamp; sorted by count, distinct names; a header left out has no more failures than any listed one, and then 10 are listed |
| Analytics.FailingLatestRowsAreLatestFailures | Container/analytics.py:213-221 | a row is counted exactly when its status starts with "FAIL" and its timestamp is some url's newest |
| Analytics.UnsortedRates | Container/analytics.py:244-248 | one rate per distinct header, 100 * PASS rows / total urls |
| Analytics.AdoptionRatesPerHeader | Container/analytics.py:241-251 | rates sorted highest first, one per stored header, each from the PASS rows of all stored scans over the distinct urls |
| Analytics.AdoptionRateCanExceedHundred | Container/analytics.py:241-251 | one url scanned twice with a PASS gets an adoption rate of 200% |
| Analytics.AdoptionRate | Container/analytics.py:241-251 | the intended rate, the share of distinct urls with a PASS for the header, lies in [0, 100] |
| Analytics.AdoptionRateFull | Container/analytics.py:241-251 | a header passed by every url has the intended rate of exactly 100% |
| Analytics.AdoptionRateExample | Container/analytics.py:241-251 | on the example above the intended rate is 100% |
| Analytics.FailingHeaders | Container/analytics.py:83-85 | each header with a row of status exactly "FAIL", once; "FAIL (present)" and warnings are not listed |
| Analytics.GenerateVulnerabilitySummary | Container/analytics.py:82-91 | the title, then one "- header" line per failing header, built by the loop |
| Analytics.AppendBullets | Container/analytics.py:87-89 | the `+=` loop appends exactly one "- name" line per name, in order, after the title |
| Analytics.BulletsLines | Container/analytics.py:88-89 | the lines follow the headers in order |
| Analytics.SignedScoreTiers | Container/analytics.py:57-70 | on the signed table: excellent above 88.88, very good above 66.66, good above 33.33, fair above 0, poor down to -33.34 exclusive, and critical below that or when ungraded |
| Analytics.PercentScoreTiers | Container/analytics.py:57-70 | on the percentage table: excellent from 98, very good from 90, good from 75, fair from 60, poor from 30, and critical below 30 or above 100 |
| Reports.IndexOf | Container/reports.py:159-160 | list.index: the first position of the grade, or an error when it is absent |
| Reports.GradeOrderDistinct | Container/reports.py:158 | the 13 grades of the order are distinct |
| Reports.SubdomainDataByScore | Container/reports.py:14-23 | the rows sorted by score descending, a permutation of the table |
| Reports.ExactGradeFilter | Container/reports.py:154-156 | an empty filter keeps everything; a string keeps exactly the rows of that grade |
| Reports.UnknownRangeGrade | Container/reports.py:157-160 | a pair naming a grade outside the order raises |
| Reports.RangeGradeFilter | Container/reports.py:157-162 | a pair keeps exactly the rows whose grade lies between the two positions inclusive, none when start comes after end |
| Reports.GradesBetween | Container/reports.py:161 | the selected grades are exactly those whose position lies between the two |
| Reports.SelectedGrades | Container/reports.py:161 | the slice grade_order[start:end+1] selects the same grades, and none when start > end + 1 |
| Reports.FirstPerUrl | Container/reports.py:165 | drop_duplicates keeps, for each url, its first row, one row per url, as a subsequence of the frame (so in frame order) |
| Reports.SummaryTableOnePerUrl | Container/reports.py:165 | the summary has exactly one (url, score, grade) per distinct url, taken from that url's first row |
| Reports.FirstLatestRow | Container/reports.py:76 | the first row carrying the newest timestamp of the url |
| Reports.LatestOf | Container/reports.py:76 | a url's latest scan comes from one of its rows with no newer row |
| Reports.LatestScans | Container/reports.py:76 | one latest scan per distinct url: a row of that url with no newer row. The source's `groupby('url')` orders the urls by key, the model by first appearance; the only caller re-sorts. `.last()` takes each column's last non-null value, which is the newest row's because score and grade are never NULL |
| Reports.RankingsAreStrictOrders | Container/reports.py:83-99 | both orders (grade rank then score, and worst grade first then score) are strict orders |
| Reports.AnalyzeGradesRanks | Container/reports.py:72-102 | top is sorted best first and a url left out ranks no higher than any listed one; critical is sorted worst first and drawn from the bottom 15 |
| Reports.LatestGrades | Container/reports.py:30-35 | one grade per distinct url, in `unique()` order, each the grade of that url's newest row (the first such row, as `idxmax` picks) |
| Reports.CountsOver | Container/reports.py:38 | one count per distinct grade, each its number of occurrences |
| Reports.GradeDistributionCountsUrls | Container/reports.py:25-38 | the counts sum to the number of distinct urls and each is positive |
| Reports.BuildProposalTable | Container/reports.py:120-123 | the loop builds heading + one row per entry in list order + "</table>" |
| Reports.BuildCommentsTable | Container/reports.py:143-146 | the loop builds heading + one row per entry in list order + "</table>" |
| Reports.GenerateConfigurationProposalTable | Container/reports.py:104-125 | the proposal table over the 12 fixed entries |
| Reports.GenerateCommentsTable | Container/reports.py:127-148 | the comments table over the 12 fixed entries |
| Reports.ProposalRowsInOrder | Container/reports.py:121-122 | the rows of a prefix come first, then the rest |
| InteractiveMenu.AllHeaders | interactive_menu.py:95-96 | distinct header names |
| InteractiveMenu.AllHeadersMembers | interactive_menu.py:95-96 | exactly the headers with a row whose status is one of the five tallied strings |
| InteractiveMenu.TallyStatuses | interactive_menu.py:99-113 | both dictionaries have one key per listed header; pass counts sum "PASS" and "PASS (not present)", fail counts "FAIL", "FAIL (present)" and "WARNING" |
| InteractiveMenu.TallyStep | interactive_menu.py:109-113 | one more row raises only its header's pass or fail count, and only for a tallied status |
| InteractiveMenu.Ratio | interactive_menu.py:117-125 | pass / (pass + fail), or 0 with no rows; in [0, 1], 1 exactly without failures, 0 exactly without passes |
| InteractiveMenu.ShownCount | interactive_menu.py:131 | n = min(15, len // 2) |
| InteractiveMenu.BestWorstSplit | interactive_menu.py:134-135 | best is the first n; worst is the last n, disjoint from best when n > 0, and the whole list when n = 0 |
| InteractiveMenu.HeaderRatios | interactive_menu.py:116-125 | one ratio per listed header, in listing order |
| InteractiveMenu.TalliedHeaderRatios | interactive_menu.py:94-125 | the dictionary tally and the ratio loop give the header ratios |
| InteractiveMenu.RatiosOf | interactive_menu.py:116-125 | the loop gives each header's ratio from its tallied counts |
| InteractiveMenu.BestWorstHeadersOverall | interactive_menu.py:88-135 | the split of the header ratios sorted by ratio descending |
| InteractiveMenu.BestHeadersHaveHighestRatios | interactive_menu.py:128-135 | the ratios are sorted; a header not among the best has no higher ratio than any best one |
| InteractiveMenu.WarningNotTallied | interactive_menu.py:103-113 | a warned verdict, stored as "WARNING (msg)", is tallied neither as a pass nor as a fail |
| InteractiveMenu.EveryVerdictTallied | interactive_menu.py:103-113 | with any "WARNING..." status counted as a fail, every verdict is tallied exactly once |
| InteractiveMenu.DistinctUrlScores | interactive_menu.py:163-167 | the distinct (url, score, grade) triples of the table |
| InteractiveMenu.BestWorstUrlsByScore | interactive_menu.py:156-177 | the triples sorted by score; a url not among the best scores no higher than any best one, and the worst score no higher than any other |
| InteractiveMenu.EnsureScheme | interactive_menu.py:276-277 | "https://" is prepended unless the input already names http or https; the result always does |
| InteractiveMenu.EnsureSchemeIdempotent | interactive_menu.py:276-277 | prefixing twice is prefixing once |
| Scanner.InputUrls | new_version/scanner.py:17-24 | a list is used as is, a ".txt" name is read line by line, and any other string is a one-element list |
| Scanner.FirstSegment | new_version/scanner.py:29 | path.split('/')[0]: a prefix of the path without '/', up to the first '/' |
| Scanner.CleanUrl | new_version/scanner.py:28-30 | the cleaned entry contains no '/'; an error exactly when urlparse raises |
| Scanner.CleanUrls | new_version/scanner.py:7-32 | one cleaned entry per input url, in order, or an error |
| Scanner.CleanEach | new_version/scanner.py:26-32 | the loop appends each url's clean-up in order, and fails exactly when one url fails |
| Scanner.CleanSchemeUrl | new_version/scanner.py:28-30 | an http(s) url cleans to its host |
| Scanner.CleanBareUrl | new_version/scanner.py:28-30 | a url without a scheme cleans to the text before its first '/' |
| Scanner.CleanSchemeUrlExample | new_version/scanner.py:28-30 | "https://a.b/c" cleans to "a.b" |
| Scanner.CleanBareUrlExample | new_version/scanner.py:28-30 | "a.b/c" cleans to "a.b" |
| Scanner.RStrip | new_version/scanner.py:74 | rstrip removes the longest suffix of characters drawn from the set |
| Scanner.ProtocolNames | new_version/scanner.py:74 | "https://" and "http://" strip to "https" and "http" |
| Scanner.FetchSingleUrl | new_version/scanner.py:56-87 | https is tried first; the first request that answers gives its url, status, protocol and headers; if both fail, the input url, status 0, protocol '' and no headers |
| Scanner.FetchHeaders | new_version/scanner.py:34-54 | fails exactly when some url's clean-up raises; otherwise one result per input url, in order, each the https-then-http fetch of that url's cleaned entry, stamped with the clock reading of its own fetch |
| Scanner.FetchEach | new_version/scanner.py:43-44 | the loop fetches every cleaned url in order |
| UrlParse.Find | new_version/scanner.py:28 | the first position of a character, or the length |
| UrlParse.SplitScheme | new_version/scanner.py:28 | the text before the first ':' is the scheme only when it is a valid scheme name, lower-cased |
| UrlParse.SplitNetloc | new_version/scanner.py:28 | after "//" the network location runs to the first '/', '?' or '#' |
| UrlParse.Urlparse | new_version/scanner.py:28 | the network location never contains '/', '?' or '#' |
| UrlParse.ParseHostUrl | new_version/scanner.py:28-29 | an http(s) url with a plain host parses to that scheme and host |
| UrlParse.ParseBareUrl | new_version/scanner.py:28-29 | a url without ':', '?', '#' or ';' that does not start with '/' is all path |
| Sorting.SortBySorted | interactive_menu.py:128 | the sort gives a sorted permutation of its input for any strict order |
| Sorting.PySliceFrom | interactive_menu.py:135 | Python's s[start:] is a suffix of s: of length min(-start, len) for a negative start, and max(len - start, 0) otherwise |
| Sorting.Head | Container/reports.py:93 | head(n): the first min(n, len) items |
| Sorting.Tail | Container/reports.py:96 | tail(n): the last min(n, len) items |

## Left out

- Network access is not modelled: `requests`/`aiohttp`, redirects, timeouts and the SSL toggle. The fetched headers, the warnings map and each request's answer are inputs or oracle functions.
- `extract_warnings` is not modelled. It scrapes HTML through BeautifulSoup, a foreign library, so the warnings map is an input.
- The concurrency of `process_bulk_urls` (`asyncio.gather`, `as_completed`) is not modelled. The model runs the probes and scans in input order, so tallies whose order the source leaves to task completion come out in input order.
- YAML loading is not modelled: `load_config` does file I/O and calls `sys.exit`. A missing `condition` or `upcoming_headers` key is modelled as an `Option` where the source raises.
- Output is not modelled: logging, coloured printing, `print_headers_list` truncation, `tabulate` grids, matplotlib and plotly charts, jinja2 templating, base64 images and writing the report file.
- Both `streamlit_app.py` files are UI only.
- The interactive menu's `input()` loop, its `subprocess` call and its cursor handling are not modelled. `search_by_grade` and `list_all_results` are raw SQL display with `AVG`.
- Float averaging is not modelled: `generate_overall_summary` (defined twice), `analyze_trends`, `AVG(score)` and `df['score'].mean()`.
- Scores are exact reals. Float rounding near band edges (for example 100/17 * 17) is not modelled.
- `find_subdomains_with_same_headers` is not modelled. It hashes a `frozenset` string with MD5 and uses pandas regex extraction.
- `recent_changes` and `urls_requiring_attention` are not modelled. SQLite's choice of row inside `GROUP BY ... HAVING` leaves their results unspecified.
- Clock reads (`datetime.now()`, `date('now', ...)`) are parameters. Timestamps are integers ordered as the ISO-8601 strings compare.
- File reading is not modelled. The `.txt` branch of `clean_urls` and the url file of `process_bulk_urls` read through a `readLines` function parameter, or take the url list directly.
- Analytics.FetchAllResultsForUrl: the `LIKE` patterns are matched as case-sensitive prefixes. SQLite's case-insensitive ASCII matching and the `%`/`_` wildcards inside the query are not modelled.
- Checks.Presence: header lookup is exact-key. The case-insensitive dictionary that `requests` returns is not modelled.
- Sorting.SortBy: stability and pandas' choice among equal keys are not modelled. Ties may come out in either order, so the contracts state sortedness and permutation only.
- Reports.GradeDistribution: the bar order of `sort_index` is not modelled; only the counts are.
- UrlParse.Urlparse: it covers scheme, network location, path, params, query and fragment as Python 3.9+ splits them. Stripping of control characters and whitespace, and validation of IPv6 and port text beyond bracket balance, are not modelled.
- EvaluateHeaders.HeaderEvaluator.ProcessSingleUrl: it takes the fetched headers and warnings as inputs. A failed request ends the program (`exit(1)` in `fetch_headers_report`, an uncaught error in `fetch_securityheaders_warnings`); that abort is modelled for the bulk run, where `UrlScan` and `BulkRows` return no rows, and the single-url run of `main` is not modelled.
- Analytics.InterpretScoreAndGrade: the `{score:.2f}` formatting is an input text.
- ContainerEvaluator.ProcessBulkUrls: the url list is a parameter standing for the file's stripped non-blank lines. The HEAD requests and header fetches are oracle functions. The table writes that each graded url makes (Container/evaluator.py:391) are not modelled in the bulk run; the single-url write is ContainerEvaluator.ProcessSingleUrl. The printed summary and the list of unreachable urls are not modelled.

## Findings

| source | as written | input that shows it | evidently intended | confidence | as-written member | corrected member |
|---|---|---|---|---|---|---|
| Container/analytics.py:241-251 | the adoption rate divides the number of PASS rows of a header, over every stored scan, by the number of distinct urls | one url scanned twice, with X-Frame-Options passing both times: 2 PASS rows over 1 url gives 200% | the share of distinct urls whose scans pass the header, between 0% and 100% | not executed | Analytics.AdoptionRateCanExceedHundred | Analytics.AdoptionRate (bounds in its contract; Analytics.AdoptionRateFull, Analytics.AdoptionRateExample) |
| interactive_menu.py:103-113 | the failure tally matches the status string "WARNING" exactly, but warned headers are stored as "WARNING (msg)" | a security header named in the warnings map gets "WARNING (msg)", which is counted neither as a pass nor as a fail | every warning counted as a failure, so every verdict is tallied once | not executed | InteractiveMenu.WarningNotTallied | InteractiveMenu.EveryVerdictTallied (with CountedFailIntended) |
