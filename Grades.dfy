/**
 * The three score-to-letter tables of the repository.
 *
 *  - PercentGrade: the 14-band table over a 0..100 percentage
 *    (Container/evaluator.py, calculate_final_grade).
 *  - SignedGrade: the 18-band table over a signed -100..100 score
 *    (evaluator.py and evaluate_headers.py, calculate_final_grade;
 *    Container/analytics.py, calculate_grade). The three copies are identical.
 *  - FirstMatchGrade: the same 18 bands written as closed ranges scanned in
 *    order, first match wins (interactive_menu.py, get_grade).
 */
module Grades {

  const NotAvailable := "Not available"

  // ---------------------------------------------------------------------------
  // Percentage table

  function PercentGrade(score: real): string {
    if 0.0 <= score < 20.0 then "F"
    else if 20.0 <= score < 30.0 then "E"
    else if 30.0 <= score < 40.0 then "D-"
    else if 40.0 <= score < 50.0 then "D"
    else if 50.0 <= score < 60.0 then "D+"
    else if 60.0 <= score < 65.0 then "C-"
    else if 65.0 <= score < 70.0 then "C"
    else if 70.0 <= score < 75.0 then "C+"
    else if 75.0 <= score < 80.0 then "B-"
    else if 80.0 <= score < 85.0 then "B"
    else if 85.0 <= score < 90.0 then "B+"
    else if 90.0 <= score < 95.0 then "A-"
    else if 95.0 <= score < 98.0 then "A"
    else if 98.0 <= score <= 100.0 then "A+"
    else NotAvailable
  }

  /** Reference description of the percentage table: band i starts at
      PercentLower[i] (inclusive) and ends where band i + 1 starts (exclusive);
      the last band ends at 100 (inclusive). */
  const PercentLetters: seq<string> :=
    ["F", "E", "D-", "D", "D+", "C-", "C", "C+", "B-", "B", "B+", "A-", "A", "A+"]
  const PercentLower: seq<real> :=
    [0.0, 20.0, 30.0, 40.0, 50.0, 60.0, 65.0, 70.0, 75.0, 80.0, 85.0, 90.0, 95.0, 98.0]

  predicate InPercentBand(score: real, i: nat)
    requires i < |PercentLower|
  {
    PercentLower[i] <= score &&
    (if i + 1 < |PercentLower| then score < PercentLower[i + 1] else score <= 100.0)
  }

  /** The table grades a score with the letter of band i exactly when the score lies in band i. */
  lemma PercentGradeIsBand(score: real, i: nat)
    requires i < |PercentLower|
    ensures PercentGrade(score) == PercentLetters[i] <==> InPercentBand(score, i)
  {
  }

  /** Every score in [0, 100] lies in exactly one band, and only those scores get a letter. */
  lemma PercentBandsPartition(score: real)
    ensures PercentGrade(score) != NotAvailable <==> 0.0 <= score <= 100.0
    ensures 0.0 <= score <= 100.0 ==> exists i :: 0 <= i < |PercentLower| && InPercentBand(score, i)
    ensures forall i, j :: (0 <= i < |PercentLower| && 0 <= j < |PercentLower| &&
              InPercentBand(score, i) && InPercentBand(score, j)) ==> i == j
  {
    PercentGradeAvailable(score);
    if 0.0 <= score <= 100.0 {
      var i := PercentBand(score);
    }
    forall i, j | 0 <= i < |PercentLower| && 0 <= j < |PercentLower| &&
                  InPercentBand(score, i) && InPercentBand(score, j)
      ensures i == j
    {
      PercentBandMonotone(score, score, i, j);
      PercentBandMonotone(score, score, j, i);
    }
  }

  lemma PercentGradeAvailable(score: real)
    ensures PercentGrade(score) != NotAvailable <==> 0.0 <= score <= 100.0
  {
  }

  /** The band holding a score in [0, 100]: the last band starting at or below it. */
  function PercentBand(score: real): (i: nat)
    requires 0.0 <= score <= 100.0
    ensures i < |PercentLower| && InPercentBand(score, i)
  {
    LastPercentBandFrom(score, |PercentLower| - 1)
  }

  function LastPercentBandFrom(score: real, k: nat): (i: nat)
    requires k < |PercentLower| && 0.0 <= score <= 100.0
    requires k + 1 < |PercentLower| ==> score < PercentLower[k + 1]
    ensures i <= k && InPercentBand(score, i)
  {
    if PercentLower[k] <= score || k == 0 then k else LastPercentBandFrom(score, k - 1)
  }

  /** A higher score never lands in a lower band. */
  lemma PercentBandMonotone(s: real, t: real, i: nat, j: nat)
    requires s <= t && i < |PercentLower| && j < |PercentLower|
    requires InPercentBand(s, i) && InPercentBand(t, j)
    ensures i <= j
  {
  }

  // ---------------------------------------------------------------------------
  // Signed table

  function SignedGrade(score: real): string {
    if -100.0 <= score <= -88.89 then "F-"
    else if -88.89 < score <= -77.78 then "F"
    else if -77.78 < score <= -66.67 then "F+"
    else if -66.67 < score <= -55.56 then "E-"
    else if -55.56 < score <= -44.45 then "E"
    else if -44.45 < score <= -33.34 then "E+"
    else if -33.34 < score <= -22.23 then "D-"
    else if -22.23 < score <= -11.12 then "D"
    else if -11.12 < score <= -0.01 then "D+"
    else if 0.0 < score <= 11.11 then "C-"
    else if 11.11 < score <= 22.22 then "C"
    else if 22.22 < score <= 33.33 then "C+"
    else if 33.33 < score <= 44.44 then "B-"
    else if 44.44 < score <= 55.55 then "B"
    else if 55.55 < score <= 66.66 then "B+"
    else if 66.66 < score <= 77.77 then "A-"
    else if 77.77 < score <= 88.88 then "A"
    else if 88.88 < score <= 100.0 then "A+"
    else NotAvailable
  }

  /** Reference description of the signed table: band i ends at SignedUpper[i]
      (inclusive) and starts after the end of band i - 1; band 0 starts at -100
      (inclusive) and band 9 ("C-") starts after 0, which leaves (-0.01, 0] uncovered. */
  const SignedLetters: seq<string> :=
    ["F-", "F", "F+", "E-", "E", "E+", "D-", "D", "D+",
     "C-", "C", "C+", "B-", "B", "B+", "A-", "A", "A+"]
  const SignedUpper: seq<real> :=
    [-88.89, -77.78, -66.67, -55.56, -44.45, -33.34, -22.23, -11.12, -0.01,
     11.11, 22.22, 33.33, 44.44, 55.55, 66.66, 77.77, 88.88, 100.0]

  predicate InSignedBand(score: real, i: nat)
    requires i < |SignedUpper|
  {
    (if i == 0 then -100.0 <= score else if i == 9 then 0.0 < score else SignedUpper[i - 1] < score) &&
    score <= SignedUpper[i]
  }

  lemma SignedGradeIsBand(score: real, i: nat)
    requires i < |SignedUpper|
    ensures SignedGrade(score) == SignedLetters[i] <==> InSignedBand(score, i)
  {
    SignedLettersDistinct();
    if InSignedBand(score, i) {
      SignedGradeOfBand(score, i);
    } else if SignedGrade(score) != NotAvailable {
      SignedBandsPartition(score);
      var j := SignedBand(score);
      SignedGradeOfBand(score, j);
    }
  }

  /** A score in band i gets the band's letter. */
  lemma SignedGradeOfBand(score: real, i: nat)
    requires i < |SignedUpper| && InSignedBand(score, i)
    ensures SignedGrade(score) == SignedLetters[i]
  {
    if i < 5 {
    } else if i < 9 {
    } else if i < 14 {
    } else {
    }
  }

  /** The letters of the signed table are pairwise different and none is "Not available". */
  lemma SignedLettersDistinct()
    ensures forall a, b :: 0 <= a < b < |SignedLetters| ==> SignedLetters[a] != SignedLetters[b]
    ensures NotAvailable !in SignedLetters
  {
  }

  /** "Not available" exactly outside [-100, 100] and in the gap (-0.01, 0];
      every other score lies in exactly one band. */
  lemma SignedBandsPartition(score: real)
    ensures SignedGrade(score) == NotAvailable <==>
              score < -100.0 || 100.0 < score || (-0.01 < score <= 0.0)
    ensures SignedGrade(score) != NotAvailable ==>
              exists i :: 0 <= i < |SignedUpper| && InSignedBand(score, i)
    ensures forall i, j :: (0 <= i < |SignedUpper| && 0 <= j < |SignedUpper| &&
              InSignedBand(score, i) && InSignedBand(score, j)) ==> i == j
  {
    SignedGradeAvailable(score);
    if SignedGrade(score) != NotAvailable {
      var i := SignedBand(score);
    }
    forall i, j | 0 <= i < |SignedUpper| && 0 <= j < |SignedUpper| &&
                  InSignedBand(score, i) && InSignedBand(score, j)
      ensures i == j
    {
      SignedBandMonotone(score, score, i, j);
      SignedBandMonotone(score, score, j, i);
    }
  }

  lemma SignedGradeAvailable(score: real)
    ensures SignedGrade(score) == NotAvailable <==>
              score < -100.0 || 100.0 < score || (-0.01 < score <= 0.0)
  {
  }

  /** The band holding a score that the signed table grades. */
  function SignedBand(score: real): (i: nat)
    requires -100.0 <= score <= 100.0 && !(-0.01 < score <= 0.0)
    ensures i < |SignedUpper| && InSignedBand(score, i)
  {
    FirstSignedBandFrom(score, 0)
  }

  function FirstSignedBandFrom(score: real, k: nat): (i: nat)
    requires k < |SignedUpper| && -100.0 <= score <= 100.0 && !(-0.01 < score <= 0.0)
    requires k > 0 ==> SignedUpper[k - 1] < score
    ensures k <= i < |SignedUpper| && InSignedBand(score, i)
    decreases |SignedUpper| - k
  {
    if score <= SignedUpper[k] || k + 1 == |SignedUpper| then k else FirstSignedBandFrom(score, k + 1)
  }

  lemma SignedBandMonotone(s: real, t: real, i: nat, j: nat)
    requires s <= t && i < |SignedUpper| && j < |SignedUpper|
    requires InSignedBand(s, i) && InSignedBand(t, j)
    ensures i <= j
  {
  }

  // ---------------------------------------------------------------------------
  // First-match table of interactive_menu.py

  const GradeRanges: seq<(real, real, string)> := [
    (-100.0, -88.89, "F-"), (-88.89, -77.78, "F"), (-77.78, -66.67, "F+"),
    (-66.67, -55.56, "E-"), (-55.56, -44.45, "E"), (-44.45, -33.34, "E+"),
    (-33.34, -22.23, "D-"), (-22.23, -11.12, "D"), (-11.12, -0.01, "D+"),
    (0.0, 11.11, "C-"), (11.11, 22.22, "C"), (22.22, 33.33, "C+"),
    (33.33, 44.44, "B-"), (44.44, 55.55, "B"), (55.55, 66.66, "B+"),
    (66.66, 77.77, "A-"), (77.77, 88.88, "A"), (88.88, 100.0, "A+")
  ]

  /** The grade of the first closed range holding the score. */
  function FirstMatch(ranges: seq<(real, real, string)>, score: real): string {
    if ranges == [] then NotAvailable
    else if ranges[0].0 <= score <= ranges[0].1 then ranges[0].2
    else FirstMatch(ranges[1..], score)
  }

  predicate Hit(range: (real, real, string), score: real) {
    range.0 <= score <= range.1
  }

  lemma {:induction false} FirstMatchFirstHit(ranges: seq<(real, real, string)>, score: real, k: nat)
    requires k < |ranges| && Hit(ranges[k], score)
    requires forall j :: 0 <= j < k ==> !Hit(ranges[j], score)
    ensures FirstMatch(ranges, score) == ranges[k].2
  {
    if k > 0 {
      FirstMatchFirstHit(ranges[1..], score, k - 1);
    }
  }

  lemma {:induction false} FirstMatchNoHit(ranges: seq<(real, real, string)>, score: real)
    requires forall j :: 0 <= j < |ranges| ==> !Hit(ranges[j], score)
    ensures FirstMatch(ranges, score) == NotAvailable
  {
    if ranges != [] {
      FirstMatchNoHit(ranges[1..], score);
    }
  }

  function FirstMatchGrade(score: real): string {
    FirstMatch(GradeRanges, score)
  }

  /** The first-match scan agrees with the signed table everywhere except at 0,
      where its closed range [0, 11.11] gives "C-" and the signed table gives
      "Not available". A shared boundary such as -88.89 goes to the earlier band
      in both. */
  lemma FirstMatchAgreesWithSigned(score: real)
    ensures score != 0.0 ==> FirstMatchGrade(score) == SignedGrade(score)
    ensures FirstMatchGrade(0.0) == "C-" && SignedGrade(0.0) == NotAvailable
  {
    if -100.0 <= score <= 100.0 && !(-0.01 < score <= 0.0) {
      FirstMatchInBand(score);
      SignedGradeOfBand(score, SignedBand(score));
    } else if score != 0.0 {
      FirstMatchOutside(score);
      SignedBandsPartition(score);
    }
    FirstMatchAtZero();
  }

  /** Outside [-100, 100] and in the gap (-0.01, 0) no range matches. */
  lemma FirstMatchOutside(score: real)
    requires score < -100.0 || 100.0 < score || (-0.01 < score < 0.0)
    ensures FirstMatchGrade(score) == NotAvailable
  {
    RangesOutline();
    FirstMatchNoHit(GradeRanges, score);
  }

  /** Every range lies in [-100, 100]; the first nine end at or below -0.01 and the
      others start at or above 0. */
  lemma RangesOutline()
    ensures forall j :: 0 <= j < |GradeRanges| ==>
      -100.0 <= GradeRanges[j].0 && GradeRanges[j].1 <= 100.0 &&
      (j < 9 ==> GradeRanges[j].1 <= -0.01) && (j >= 9 ==> 0.0 <= GradeRanges[j].0)
  {
  }

  /** 0 falls in the closed range of "C-" and in no earlier range. */
  lemma FirstMatchAtZero()
    ensures FirstMatchGrade(0.0) == "C-" && SignedGrade(0.0) == NotAvailable
  {
    RangesOutline();
    assert GradeRanges[9] == (0.0, 11.11, "C-");
    FirstMatchFirstHit(GradeRanges, 0.0, 9);
  }

  lemma RangesAreBands()
    ensures |GradeRanges| == |SignedUpper|
    ensures forall j :: 0 <= j < |GradeRanges| ==>
      GradeRanges[j].1 == SignedUpper[j] && GradeRanges[j].2 == SignedLetters[j] &&
      GradeRanges[j].0 == (if j == 0 then -100.0 else if j == 9 then 0.0 else SignedUpper[j - 1])
  {
  }

  lemma SignedUpperIncreasing()
    ensures forall a, b :: 0 <= a < b < |SignedUpper| ==> SignedUpper[a] < SignedUpper[b]
  {
  }

  lemma FirstMatchInBand(score: real)
    requires -100.0 <= score <= 100.0 && !(-0.01 < score <= 0.0)
    ensures FirstMatchGrade(score) == SignedLetters[SignedBand(score)]
  {
    RangesAreBands();
    SignedUpperIncreasing();
    var i := SignedBand(score);
    assert forall j :: 0 <= j < i ==> GradeRanges[j].1 < score;
    FirstMatchFirstHit(GradeRanges, score, i);
  }
}
