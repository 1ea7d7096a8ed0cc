/**
 * `getResumeReadiness` and `isResumeReadyForExport`: the export checklist. Four checks
 * (name and headline, summary of 60+ characters, a role with 2+ bullets, 5+ skills) give a
 * score of 25 points each, and every failing item is listed, the name and the headline
 * separately.
 */
module ExportReadiness {
  import opened JsStrings
  import opened Sequences
  import opened ResumeSchema
  import opened AtsText

  const NameMissing: string := "Full name"
  const HeadlineMissing: string := "Headline"
  const SummaryMissing: string := "Summary (min 60 characters)"
  const ExperienceMissing: string := "Experience with at least 2 bullets"
  const SkillsMissing: string := "Add at least 5 skills"

  /** The checklist entries, in the order they are pushed. */
  const ChecklistItems: seq<string> := [NameMissing, HeadlineMissing, SummaryMissing, ExperienceMissing, SkillsMissing]

  datatype Readiness = Readiness(completenessScore: real, missingSections: seq<string>)

  predicate NamePresent(r: Resume) {
    Trim(r.basics.fullName) != ""
  }

  predicate HeadlinePresent(r: Resume) {
    Trim(r.basics.headline) != ""
  }

  predicate SummaryReady(r: Resume) {
    |Trim(r.summary)| >= 60
  }

  /** `(exp?.bullets || []).filter((b) => b && b.trim().length).length` */
  function NonBlankBullets(bullets: seq<string>): (n: nat)
    ensures n <= |bullets|
    decreases |bullets|
  {
    if bullets == [] then 0
    else (if Trim(bullets[0]) != "" then 1 else 0) + NonBlankBullets(bullets[1..])
  }

  /** `experiences.some(...)`: some role has at least two non-blank bullets. */
  predicate HasStrongExperience(es: seq<ExperienceEntry>) {
    exists i :: 0 <= i < |es| && NonBlankBullets(es[i].bullets) >= 2
  }

  predicate ExperienceReady(r: Resume) {
    |r.experience| > 0 && HasStrongExperience(r.experience)
  }

  /** `(resume?.skills || []).filter(Boolean).length >= 5` */
  predicate SkillsReady(r: Resume) {
    |NonEmptyStrings(r.skills)| >= 5
  }

  function CountTrue(bs: seq<bool>): (n: nat)
    ensures n <= |bs|
    decreases |bs|
  {
    if bs == [] then 0 else (if bs[0] then 1 else 0) + CountTrue(bs[1..])
  }

  /** `clamp(Math.round((passed / 4) * 100), 0, 100)` */
  function ReadinessScore(passed: nat): real {
    Clamp(Round(passed as real / 4.0 * 100.0) as real, 0.0, 100.0)
  }

  /**
   * The checklist outcome for the five conditions: the four scored checks (name and headline
   * count as one) and the entries whose condition fails.
   */
  function ReadinessFrom(name: bool, headline: bool, summary: bool, experience: bool, skills: bool): Readiness {
    Readiness(
      ReadinessScore(CountTrue([name && headline, summary, experience, skills])),
      Select(ChecklistItems, [!name, !headline, !summary, !experience, !skills]))
  }

  function ReadinessOf(r: Resume): Readiness {
    ReadinessFrom(NamePresent(r), HeadlinePresent(r), SummaryReady(r), ExperienceReady(r), SkillsReady(r))
  }

  /** `isResumeReadyForExport(resume)`: ready exactly when the readiness score is 100. */
  function IsResumeReadyForExport(r: Resume): (ready: bool)
    ensures ready <==> ReadinessOf(r).completenessScore == 100.0
  {
    ReadinessFromIff(NamePresent(r), HeadlinePresent(r), SummaryReady(r), ExperienceReady(r), SkillsReady(r));
    |ReadinessOf(r).missingSections| == 0
  }

  /** `getResumeReadiness(resume)`: a `passed` counter and a list of missing entries, built step by step. */
  method GetResumeReadiness(r: Resume) returns (res: Readiness)
    ensures res == ReadinessOf(r)
  {
    var missingSections: seq<string> := [];
    var passed: nat := 0;

    var hasName, hasHeadline := NamePresent(r), HeadlinePresent(r);
    if !hasName {
      missingSections := missingSections + [NameMissing];
    }
    if !hasHeadline {
      missingSections := missingSections + [HeadlineMissing];
    }
    if hasName && hasHeadline {
      passed := passed + 1;
    }
    ghost var m0, n0 := missingSections, passed;
    assert m0 == (if !hasName then [NameMissing] else []) + (if !hasHeadline then [HeadlineMissing] else []);

    var summaryOk := SummaryReady(r);
    if summaryOk {
      passed := passed + 1;
    } else {
      missingSections := missingSections + [SummaryMissing];
    }
    ghost var m1, n1 := missingSections, passed;
    assert m1 == m0 + (if !summaryOk then [SummaryMissing] else []);

    var experienceOk := |r.experience| > 0 && HasStrongExperience(r.experience);
    if experienceOk {
      passed := passed + 1;
    } else {
      missingSections := missingSections + [ExperienceMissing];
    }
    ghost var m2, n2 := missingSections, passed;
    assert m2 == m1 + (if !experienceOk then [ExperienceMissing] else []);

    var skillsOk := SkillsReady(r);
    if skillsOk {
      passed := passed + 1;
    } else {
      missingSections := missingSections + [SkillsMissing];
    }
    assert missingSections == m2 + (if !skillsOk then [SkillsMissing] else []);

    PushedReadiness(hasName, hasHeadline, summaryOk, experienceOk, skillsOk, passed);
    res := Readiness(ReadinessScore(passed), missingSections);
  }

  /** The conditional pushes and the counter produce the checklist outcome. */
  lemma PushedReadiness(name: bool, headline: bool, summary: bool, experience: bool, skills: bool, passed: nat)
    requires passed == (if name && headline then 1 else 0) + (if summary then 1 else 0)
      + (if experience then 1 else 0) + (if skills then 1 else 0)
    ensures ReadinessFrom(name, headline, summary, experience, skills) == Readiness(ReadinessScore(passed),
      (if !name then [NameMissing] else []) + (if !headline then [HeadlineMissing] else [])
      + (if !summary then [SummaryMissing] else []) + (if !experience then [ExperienceMissing] else [])
      + (if !skills then [SkillsMissing] else []))
  {
    SelectFive(ChecklistItems, [!name, !headline, !summary, !experience, !skills]);
    CountTrueFour([name && headline, summary, experience, skills]);
  }

  lemma CountTrueFour(bs: seq<bool>)
    requires |bs| == 4
    ensures CountTrue(bs) == (if bs[0] then 1 else 0) + (if bs[1] then 1 else 0)
      + (if bs[2] then 1 else 0) + (if bs[3] then 1 else 0)
  {
    assert CountTrue(bs[4..]) == 0;
    assert CountTrue(bs[3..]) == (if bs[3] then 1 else 0) + CountTrue(bs[4..]);
    assert CountTrue(bs[2..]) == (if bs[2] then 1 else 0) + CountTrue(bs[3..]);
    assert CountTrue(bs[1..]) == (if bs[1] then 1 else 0) + CountTrue(bs[2..]);
  }

  // ---------------------------------------------------------------------------
  // Properties
  // ---------------------------------------------------------------------------

  /** The score is 25 points per passed check. */
  lemma ReadinessScoreSteps(passed: nat)
    requires passed <= 4
    ensures ReadinessScore(passed) == 25.0 * passed as real
  {
    assert passed as real / 4.0 * 100.0 == 25.0 * passed as real;
    RoundNearest(25.0 * passed as real);
  }

  /** The score is 25 points per passed check: always one of 0, 25, 50, 75, 100. */
  lemma ReadinessScoreValues(r: Resume)
    ensures ReadinessOf(r).completenessScore in {0.0, 25.0, 50.0, 75.0, 100.0}
  {
    ReadinessFromScore(NamePresent(r), HeadlinePresent(r), SummaryReady(r), ExperienceReady(r), SkillsReady(r));
  }

  lemma ReadinessFromScore(name: bool, headline: bool, summary: bool, experience: bool, skills: bool)
    ensures ReadinessFrom(name, headline, summary, experience, skills).completenessScore in {0.0, 25.0, 50.0, 75.0, 100.0}
  {
    var passed := (if name && headline then 1 else 0) + (if summary then 1 else 0)
      + (if experience then 1 else 0) + (if skills then 1 else 0);
    PushedReadiness(name, headline, summary, experience, skills, passed);
    ReadinessScoreSteps(passed);
  }

  /** All four checks pass exactly when the count reaches four. */
  lemma {:induction false} CountTrueAll(bs: seq<bool>)
    ensures CountTrue(bs) == |bs| <==> forall i :: 0 <= i < |bs| ==> bs[i]
    decreases |bs|
  {
    if bs != [] {
      CountTrueAll(bs[1..]);
      if forall i :: 0 <= i < |bs[1..]| ==> bs[1..][i] {
        if bs[0] {
          forall i | 0 <= i < |bs| ensures bs[i] {
            if i > 0 { assert bs[i] == bs[1..][i - 1]; }
          }
        }
      } else {
        var j :| 0 <= j < |bs[1..]| && !bs[1..][j];
        assert !bs[j + 1];
      }
    }
  }

  /**
   * Nothing is missing exactly when all four checks pass, exactly when the score is 100,
   * exactly when the resume is ready for export.
   */
  lemma ReadinessIff(r: Resume)
    ensures ReadinessOf(r).missingSections == [] <==>
      NamePresent(r) && HeadlinePresent(r) && SummaryReady(r) && ExperienceReady(r) && SkillsReady(r)
    ensures ReadinessOf(r).missingSections == [] <==> ReadinessOf(r).completenessScore == 100.0
    ensures ReadinessOf(r).missingSections == [] <==> IsResumeReadyForExport(r)
  {
    ReadinessFromIff(NamePresent(r), HeadlinePresent(r), SummaryReady(r), ExperienceReady(r), SkillsReady(r));
  }

  lemma ReadinessFromIff(name: bool, headline: bool, summary: bool, experience: bool, skills: bool)
    ensures var res := ReadinessFrom(name, headline, summary, experience, skills);
      && (res.missingSections == [] <==> name && headline && summary && experience && skills)
      && (res.missingSections == [] <==> res.completenessScore == 100.0)
  {
    var passed := (if name && headline then 1 else 0) + (if summary then 1 else 0)
      + (if experience then 1 else 0) + (if skills then 1 else 0);
    PushedReadiness(name, headline, summary, experience, skills, passed);
    ReadinessScoreSteps(passed);
  }

  /**
   * Each checklist entry is listed exactly when its own condition fails, the name and the
   * headline separately; the entries keep their fixed order, so there are at most five.
   */
  lemma MissingEntriesIff(r: Resume)
    ensures var m := ReadinessOf(r).missingSections;
      && (NameMissing in m <==> !NamePresent(r))
      && (HeadlineMissing in m <==> !HeadlinePresent(r))
      && (SummaryMissing in m <==> !SummaryReady(r))
      && (ExperienceMissing in m <==> !ExperienceReady(r))
      && (SkillsMissing in m <==> !SkillsReady(r))
    ensures IsSubsequence(ReadinessOf(r).missingSections, ChecklistItems)
    ensures |ReadinessOf(r).missingSections| <= 5
  {
    var flags := [!NamePresent(r), !HeadlinePresent(r), !SummaryReady(r), !ExperienceReady(r), !SkillsReady(r)];
    ItemsDistinct();
    SelectMembers(ChecklistItems, flags, 0);
    SelectMembers(ChecklistItems, flags, 1);
    SelectMembers(ChecklistItems, flags, 2);
    SelectMembers(ChecklistItems, flags, 3);
    SelectMembers(ChecklistItems, flags, 4);
    SelectSubsequence(ChecklistItems, flags);
  }

  lemma ItemsDistinct()
    ensures Distinct(ChecklistItems)
  {
  }

  /** The all-empty document fails every check: all five entries and a score of 0. */
  lemma EmptyResumeReadiness()
    ensures ReadinessOf(EmptyResume).missingSections == ChecklistItems
    ensures ReadinessOf(EmptyResume).completenessScore == 0.0
  {
    EmptyResumeFailsChecks();
    AllChecksFailing();
  }

  lemma EmptyResumeFailsChecks()
    ensures !NamePresent(EmptyResume) && !HeadlinePresent(EmptyResume) && !SummaryReady(EmptyResume)
    ensures !ExperienceReady(EmptyResume) && !SkillsReady(EmptyResume)
  {
    var r := EmptyResume;
    assert r.basics.fullName == "" && r.basics.headline == "" && r.summary == "";
    assert |r.experience| == 0 && r.skills == [];
    assert Trim("") == "";
    assert NonEmptyStrings([]) == [];
  }

  /** When every check fails, all five entries are listed and the score is 0. */
  lemma AllChecksFailing()
    ensures ReadinessFrom(false, false, false, false, false) == Readiness(0.0, ChecklistItems)
  {
    PushedReadiness(false, false, false, false, false, 0);
    ReadinessScoreSteps(0);
  }
}
