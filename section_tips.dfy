/**
 * The `sectionTips` derivation of `ResumeContext.jsx`: per-section guidance pushed from the
 * resume's own lengths and from the ATS breakdown.
 */
module SectionTips {
  import opened JsStrings
  import opened Sequences
  import opened ResumeSchema
  import opened KeywordCoverage
  import opened ExperienceQuality
  import opened AtsBreakdown

  datatype Tips = Tips(
    summary: seq<string>, experience: seq<string>, education: seq<string>,
    skills: seq<string>, projects: seq<string>)

  // Written in two pieces: the solver reads the characters of a short literal, but not of
  // a literal this long.
  const SummaryLengthTip: string := "Write 2-3 sentences (80-200 chars) " + "with role, scope, and impact."
  const RoleTip: string := "Add at least one role with dates and 3+ bullets."
  const EducationTip: string := "Add your latest degree or certification."
  const SkillsCountTip: string := "List 5-10 relevant skills on separate lines."
  const ProjectsTip: string := "Add 1-2 projects with outcomes and tech stack."

  /** The keyword tip names the first three missing keywords. */
  function KeywordTip(missingKeywords: seq<string>): string {
    "Work in impact keywords like " + Join(Take(missingKeywords, 3), ", ") + "."
  }

  /** The skills tip names the first three missing skills. */
  function MissingSkillsTip(missingSkills: seq<string>): string {
    "Mention skills in your bullets: " + Join(Take(missingSkills, 3), ", ") + "."
  }

  /**
   * The tips for a resume, its keyword coverage and its experience issues, section by
   * section: at most two tips for the summary and the skills, at most one for education and
   * projects, and the experience issues, in order, ahead of at most one role tip.
   */
  function TipsFor(r: Resume, kc: Coverage, issues: seq<string>): (t: Tips)
    ensures |t.summary| <= 2 && |t.skills| <= 2 && |t.education| <= 1 && |t.projects| <= 1
    ensures |issues| <= |t.experience| <= |issues| + 1 && t.experience[..|issues|] == issues
  {
    Tips(
      (if |r.summary| < 80 then [SummaryLengthTip] else [])
        + (if |kc.missingKeywords| > 0 then [KeywordTip(kc.missingKeywords)] else []),
      issues + (if |r.experience| == 0 then [RoleTip] else []),
      if |r.education| == 0 then [EducationTip] else [],
      (if |r.skills| < 5 then [SkillsCountTip] else [])
        + (if |kc.missingSkills| > 0 then [MissingSkillsTip(kc.missingSkills)] else []),
      if |r.projects| == 0 then [ProjectsTip] else [])
  }

  /** `sectionTips`: five empty lists, then one push per condition. */
  method ComputeSectionTips(r: Resume, atsInsights: Breakdown) returns (tips: Tips)
    ensures tips == TipsFor(r, atsInsights.keywordCoverage, atsInsights.experienceQuality.issues)
  {
    ghost var spec := TipsFor(r, atsInsights.keywordCoverage, atsInsights.experienceQuality.issues);
    var summary, experience, education, skills, projects := [], [], [], [], [];

    if |r.summary| < 80 {
      summary := summary + [SummaryLengthTip];
    }
    var missingKeywords := atsInsights.keywordCoverage.missingKeywords;
    if |missingKeywords| > 0 {
      summary := summary + [KeywordTip(missingKeywords)];
    }
    assert summary == spec.summary;

    experience := experience + atsInsights.experienceQuality.issues;
    if |r.experience| == 0 {
      experience := experience + [RoleTip];
    }
    assert experience == spec.experience;

    if |r.education| == 0 {
      education := education + [EducationTip];
    }
    assert education == spec.education;

    if |r.skills| < 5 {
      skills := skills + [SkillsCountTip];
    }
    var missingSkills := atsInsights.keywordCoverage.missingSkills;
    if |missingSkills| > 0 {
      skills := skills + [MissingSkillsTip(missingSkills)];
    }
    assert skills == spec.skills;

    if |r.projects| == 0 {
      projects := projects + [ProjectsTip];
    }
    assert projects == spec.projects;
    tips := Tips(summary, experience, education, skills, projects);
  }

  // ---------------------------------------------------------------------------
  // Properties
  // ---------------------------------------------------------------------------

  /**
   * The summary opens with the length tip exactly when the summary is shorter than 80
   * characters, and carries the keyword tip exactly when some bucket keyword is missing.
   */
  lemma SummaryTips(r: Resume)
    ensures var t := TipsFor(r, GetKeywordCoverage(r), ExperienceQualityOf(r).issues);
      var missing := GetKeywordCoverage(r).missingKeywords;
      && (SummaryLengthTip in t.summary <==> |r.summary| < 80)
      && (|r.summary| < 80 ==> t.summary[0] == SummaryLengthTip)
      && (KeywordTip(missing) in t.summary <==> |missing| > 0)
      && |t.summary| <= 2
  {
    SummaryTipsFor(r.summary, GetKeywordCoverage(r).missingKeywords);
  }

  lemma SummaryTipsFor(summary: string, missing: seq<string>)
    ensures var t := (if |summary| < 80 then [SummaryLengthTip] else [])
        + (if |missing| > 0 then [KeywordTip(missing)] else []);
      && (SummaryLengthTip in t <==> |summary| < 80)
      && (|summary| < 80 ==> t[0] == SummaryLengthTip)
      && (KeywordTip(missing) in t <==> |missing| > 0)
      && |t| <= 2
  {
    var prefix := "Work in impact keywords like ";
    assert KeywordTip(missing) == prefix + (Join(Take(missing, 3), ", ") + ".");
    assert KeywordTip(missing)[1] == prefix[1] == 'o';
    assert SummaryLengthTip[1] == 'r';
  }

  /**
   * Every declared skill occurs in the collected text, so the missing-skills tip never
   * appears: the skills tips are the count tip alone, exactly when fewer than 5 skills are
   * declared.
   */
  lemma SkillsTips(r: Resume)
    ensures TipsFor(r, GetKeywordCoverage(r), ExperienceQualityOf(r).issues).skills == if |r.skills| < 5 then [SkillsCountTip] else []
  {
    MissingSkillsAlwaysEmpty(r);
  }

  /**
   * The experience tips start with the experience issues, in their order; the role tip
   * follows exactly when there is no experience entry, after the single "add an entry" issue.
   */
  lemma ExperienceTips(r: Resume)
    ensures var t := TipsFor(r, GetKeywordCoverage(r), ExperienceQualityOf(r).issues);
      && t.experience[..|ExperienceQualityOf(r).issues|] == ExperienceQualityOf(r).issues
      && (|r.experience| == 0 ==> t.experience == [NoExperienceIssue, RoleTip])
      && (|r.experience| > 0 ==> t.experience == ExperienceQualityOf(r).issues)
  {
    ExperienceScoreParts(r);
  }

  /** The education and project tips appear exactly when the section is empty. */
  lemma EmptySectionTips(r: Resume)
    ensures var t := TipsFor(r, GetKeywordCoverage(r), ExperienceQualityOf(r).issues);
      && (t.education != [] <==> |r.education| == 0)
      && (t.projects != [] <==> |r.projects| == 0)
  {
  }
}
