/**
 * `getATSBreakdown` and `scoreResume`: the four analyzers combined. The total is the clamped
 * and rounded sum of the four sub-scores; the improvement areas are the analyzers' findings
 * turned into call-outs, in analyzer order, capped at eight.
 */
module AtsBreakdown {
  import opened Sequences
  import opened ResumeSchema
  import opened AtsText
  import opened KeywordCoverage
  import opened SectionCompleteness
  import opened ExperienceQuality
  import opened FormattingSignals

  /** Each sub-score, rounded on its own. */
  datatype Categories = Categories(keywords: int, completeness: int, experience: int, formatting: int)

  datatype Breakdown = Breakdown(
    totalScore: int,
    categories: Categories,
    keywordCoverage: Coverage,
    sectionCompleteness: Completeness,
    experienceQuality: Quality,
    formattingSignals: Signals,
    improvementAreas: seq<string>)

  /** At most this many improvement areas are reported. */
  const MaxImprovementAreas: nat := 8

  function SkillCallout(skill: string): string {
    "Use skill \"" + skill + "\" in your bullets."
  }

  function KeywordCallout(keyword: string): string {
    "Work in keyword \"" + keyword + "\" for ATS relevance."
  }

  function SectionCallout(key: string): string {
    "Complete the " + key + " section."
  }

  function SkillCallouts(skills: seq<string>): seq<string> {
    seq(|skills|, i requires 0 <= i < |skills| => SkillCallout(skills[i]))
  }

  function KeywordCallouts(keywords: seq<string>): seq<string> {
    seq(|keywords|, i requires 0 <= i < |keywords| => KeywordCallout(keywords[i]))
  }

  function SectionCallouts(keys: seq<string>): seq<string> {
    seq(|keys|, i requires 0 <= i < |keys| => SectionCallout(keys[i]))
  }

  /** The unfiltered suggestion list: skill, keyword and section call-outs, issues, warnings. */
  function Suggestions(kc: Coverage, sc: Completeness, eq: Quality, fs: Signals): seq<string> {
    SkillCallouts(kc.missingSkills) + KeywordCallouts(kc.missingKeywords)
    + SectionCallouts(sc.missingSections) + eq.issues + fs.warnings
  }

  /** `[...].filter(Boolean)` then `.slice(0, 8)` */
  function ImprovementAreas(suggestions: seq<string>): (areas: seq<string>)
    ensures |areas| <= MaxImprovementAreas
    ensures forall a :: a in areas ==> a in suggestions && a != ""
  {
    Take(NonEmptyStrings(suggestions), MaxImprovementAreas)
  }

  /** The sum of the four sub-scores before clamping and rounding. */
  function RawTotal(kc: Coverage, sc: Completeness, eq: Quality, fs: Signals): real {
    kc.score + sc.score + eq.score + fs.score
  }

  /** The breakdown assembled from the four analyzers' reports. */
  function Combine(kc: Coverage, sc: Completeness, eq: Quality, fs: Signals): Breakdown {
    Breakdown(
      Round(Clamp(RawTotal(kc, sc, eq, fs), 0.0, 100.0)),
      Categories(Round(kc.score), Round(sc.score), Round(eq.score), Round(fs.score)),
      kc, sc, eq, fs,
      ImprovementAreas(Suggestions(kc, sc, eq, fs)))
  }

  /** `getATSBreakdown(resume)` */
  function GetATSBreakdown(r: Resume): (b: Breakdown)
    ensures 0 <= b.totalScore <= 100
    ensures 0 <= b.categories.keywords <= 35 && 0 <= b.categories.completeness <= 25
    ensures 0 <= b.categories.experience <= 20 && 0 <= b.categories.formatting <= 20
    ensures |b.improvementAreas| <= MaxImprovementAreas
  {
    var kc := GetKeywordCoverage(r);
    var sc := SectionCompletenessOf(r);
    var eq := ExperienceQualityOf(r);
    var fs := FormattingSignalsOf(r);
    CompletenessScore(r);
    ExperienceScoreParts(r);
    FormattingScoreShape(r);
    RoundWithin(Clamp(RawTotal(kc, sc, eq, fs), 0.0, 100.0), 100);
    RoundWithin(kc.score, 35);
    RoundWithin(sc.score, 25);
    RoundWithin(eq.score, 20);
    RoundWithin(fs.score, 20);
    Combine(kc, sc, eq, fs)
  }

  /** `scoreResume(resume)`: the total of the breakdown. */
  function ScoreResume(r: Resume): (score: int)
    ensures 0 <= score <= 100
  {
    GetATSBreakdown(r).totalScore
  }

  // ---------------------------------------------------------------------------
  // Properties
  // ---------------------------------------------------------------------------

  /**
   * The four sub-scores are bounded by their weights 35 + 25 + 20 + 20 = 100, so the clamp
   * never changes the sum: the total is the rounded sum of the four sub-scores.
   */
  lemma TotalIsRoundedSum(r: Resume)
    ensures var b := GetATSBreakdown(r);
      && 0.0 <= RawTotal(b.keywordCoverage, b.sectionCompleteness, b.experienceQuality, b.formattingSignals) <= 100.0
      && b.totalScore == Round(RawTotal(b.keywordCoverage, b.sectionCompleteness, b.experienceQuality, b.formattingSignals))
      && ScoreResume(r) == b.totalScore
  {
    CompletenessScore(r);
    ExperienceScoreParts(r);
    FormattingScoreShape(r);
  }

  /**
   * Rounding each part separately moves the sum of the parts by at most two from the
   * rounded sum: the categories add up to the total give or take two points.
   */
  lemma RoundedPartsNearTotal(a: real, b: real, c: real, d: real)
    ensures -2 <= Round(a + b + c + d) - (Round(a) + Round(b) + Round(c) + Round(d)) <= 2
  {
    RoundNearest(a);
    RoundNearest(b);
    RoundNearest(c);
    RoundNearest(d);
    RoundNearest(a + b + c + d);
  }

  lemma CategoriesNearTotal(r: Resume)
    ensures var b := GetATSBreakdown(r);
      -2 <= b.totalScore - (b.categories.keywords + b.categories.completeness
                            + b.categories.experience + b.categories.formatting) <= 2
  {
    var b := GetATSBreakdown(r);
    TotalIsRoundedSum(r);
    RoundedPartsNearTotal(b.keywordCoverage.score, b.sectionCompleteness.score,
      b.experienceQuality.score, b.formattingSignals.score);
  }

  /** Every call-out, issue and warning is a non-empty message. */
  lemma {:induction false} SuggestionsNonEmpty(kc: Coverage, sc: Completeness, eq: Quality, fs: Signals)
    requires forall x :: x in eq.issues ==> x in QualityIssues || x == NoExperienceIssue
    requires forall x :: x in fs.warnings ==> x in Warnings
    ensures forall i :: 0 <= i < |Suggestions(kc, sc, eq, fs)| ==> Suggestions(kc, sc, eq, fs)[i] != ""
  {
    var s := Suggestions(kc, sc, eq, fs);
    var prefix := SkillCallouts(kc.missingSkills) + KeywordCallouts(kc.missingKeywords)
      + SectionCallouts(sc.missingSections);
    forall i | 0 <= i < |s| ensures s[i] != "" {
      if i < |prefix| {
        assert |s[i]| > 0;
      } else {
        assert s[i] in eq.issues + fs.warnings by {
          assert s[i] == (eq.issues + fs.warnings)[i - |prefix|];
        }
      }
    }
  }

  /**
   * Filtering out empty strings removes nothing, so the improvement areas are exactly the
   * first eight suggestions: skill call-outs, then keyword call-outs, then section call-outs,
   * then experience issues, then formatting warnings.
   */
  lemma ImprovementAreasInOrder(r: Resume)
    ensures var b := GetATSBreakdown(r);
      b.improvementAreas == Take(Suggestions(b.keywordCoverage, b.sectionCompleteness,
        b.experienceQuality, b.formattingSignals), MaxImprovementAreas)
  {
    var b := GetATSBreakdown(r);
    var eq := b.experienceQuality;
    var fs := b.formattingSignals;
    assert forall x :: x in eq.issues ==> x in QualityIssues || x == NoExperienceIssue by {
      if |r.experience| > 0 {
        IssuesInTable(r);
      }
    }
    SelectOnlyFrom(Warnings, WarningFlags(r));
    SuggestionsNonEmpty(b.keywordCoverage, b.sectionCompleteness, eq, fs);
    NonEmptyStringsKeepsAll(Suggestions(b.keywordCoverage, b.sectionCompleteness, eq, fs));
  }

  lemma IssuesInTable(r: Resume)
    requires |r.experience| > 0
    ensures forall x :: x in ExperienceQualityOf(r).issues ==> x in QualityIssues
  {
    var es := r.experience;
    var bullets := AllBullets(es);
    var total := |bullets|;
    var verbRatio := Ratio(CountActionLed(bullets), total);
    var metricRatio := Ratio(CountWithDigit(bullets), total);
    var dateCoverage := Ratio(CountDated(es), |es|);
    SelectOnlyFrom(QualityIssues, [total < 6, verbRatio < 0.6, metricRatio < 0.5, dateCoverage < 1.0]);
  }

  /**
   * The all-empty document scores 16: nothing for keywords, sections and experience, and
   * 20 - 4 for formatting (the contact deduction). Its eight improvement areas are the
   * keyword call-outs for the seven impact words and "shipped".
   */
  lemma EmptyResumeBreakdown()
    ensures GetATSBreakdown(EmptyResume).totalScore == 16
    ensures ScoreResume(EmptyResume) == 16
    ensures GetATSBreakdown(EmptyResume).categories == Categories(0, 0, 0, 16)
    ensures GetATSBreakdown(EmptyResume).improvementAreas == KeywordCallouts(
      ["improved", "reduced", "increased", "accelerated", "boosted", "cut", "optimized", "shipped"])
  {
    EmptyResumeCoverage();
    EmptyResumeCompleteness();
    ExperienceScoreParts(EmptyResume);
    EmptyResumeSignals();
    CombineEmptyReports(GetKeywordCoverage(EmptyResume), SectionCompletenessOf(EmptyResume),
      ExperienceQualityOf(EmptyResume), FormattingSignalsOf(EmptyResume));
  }

  /** The combination of the empty document's four reports. */
  lemma CombineEmptyReports(kc: Coverage, sc: Completeness, eq: Quality, fs: Signals)
    requires kc.score == 0.0 && kc.missingSkills == []
    requires kc.missingKeywords == ["improved", "reduced", "increased", "accelerated", "boosted",
      "cut", "optimized", "shipped", "launched", "deployed"]
    requires sc.score == 0.0 && sc.missingSections == SectionKeys
    requires eq.score == 0.0 && eq.issues == [NoExperienceIssue]
    requires fs == Signals(16.0, [], [ContactWarning])
    ensures Combine(kc, sc, eq, fs).totalScore == 16
    ensures Combine(kc, sc, eq, fs).categories == Categories(0, 0, 0, 16)
    ensures Combine(kc, sc, eq, fs).improvementAreas == KeywordCallouts(
      ["improved", "reduced", "increased", "accelerated", "boosted", "cut", "optimized", "shipped"])
  {
    RoundNearest(16.0);
    RoundNearest(0.0);
    var keywords := KeywordCallouts(kc.missingKeywords);
    var s := Suggestions(kc, sc, eq, fs);
    assert SkillCallouts([]) == [];
    assert s == keywords + SectionCallouts(SectionKeys) + [NoExperienceIssue] + [ContactWarning];
    SuggestionsNonEmpty(kc, sc, eq, fs);
    NonEmptyStringsKeepsAll(s);
    assert s[..8] == keywords[..8];
  }
}
