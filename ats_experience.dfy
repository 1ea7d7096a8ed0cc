/**
 * `getExperienceQuality`: bullet volume, action-verb openings, quantified bullets and dated
 * roles, weighted 6 + 6 + 4 + 4 into a score out of 20, with one issue per weak signal.
 */
module ExperienceQuality {
  import opened JsStrings
  import opened Sequences
  import opened ResumeSchema
  import opened AtsText

  /** `ACTION_VERBS` */
  const ActionVerbs: seq<string> := [
    "led", "managed", "architected", "built", "created", "developed", "designed", "implemented",
    "launched", "shipped", "optimized", "improved", "reduced", "increased", "accelerated",
    "automated", "modernized", "migrated", "scaled", "mentored", "collaborated", "delivered"]

  const NoExperienceIssue: string := "Add at least one experience entry with dates and bullets."
  const BulletCountIssue: string := "Add more accomplishment bullets (aim for 6+ across roles)."
  const ActionVerbIssue: string := "Start bullets with strong action verbs."
  const MetricIssue: string := "Quantify impact with numbers or percentages."
  const DateIssue: string := "Ensure each role has a start date and optional end date."

  /** The four issues of a non-empty experience section, in the order they are appended. */
  const QualityIssues: seq<string> := [BulletCountIssue, ActionVerbIssue, MetricIssue, DateIssue]

  datatype Details = Details(totalBullets: nat, actionVerbRatio: real, dateCoverage: real, metricBullets: nat)

  datatype Quality = Quality(score: real, details: Details, issues: seq<string>)

  /** `experiences.flatMap((exp) => exp.bullets || [])` */
  function AllBullets(es: seq<ExperienceEntry>): seq<string>
    decreases |es|
  {
    if es == [] then [] else es[0].bullets + AllBullets(es[1..])
  }

  /** `ACTION_VERBS.includes(normalizeText(b).split(/\s+/)[0])` */
  predicate ActionLed(b: string) {
    FirstWord(NormalizeText(b)) in ActionVerbs
  }

  /** `/\d/.test(b)` */
  predicate HasDigit(b: string) {
    exists i :: 0 <= i < |b| && IsDigit(b[i])
  }

  function CountActionLed(bs: seq<string>): (n: nat)
    ensures n <= |bs|
    decreases |bs|
  {
    if bs == [] then 0 else (if ActionLed(bs[0]) then 1 else 0) + CountActionLed(bs[1..])
  }

  function CountWithDigit(bs: seq<string>): (n: nat)
    ensures n <= |bs|
    decreases |bs|
  {
    if bs == [] then 0 else (if HasDigit(bs[0]) then 1 else 0) + CountWithDigit(bs[1..])
  }

  /** `experiences.filter((exp) => exp.startDate).length` */
  function CountDated(es: seq<ExperienceEntry>): (n: nat)
    ensures n <= |es|
    decreases |es|
  {
    if es == [] then 0 else (if es[0].startDate != "" then 1 else 0) + CountDated(es[1..])
  }

  /** `clamp(Math.min(totalBullets / 8, 1) * 6, 0, 6)` */
  function BulletVolumeScore(total: nat): real {
    Clamp(Min(total as real / 8.0, 1.0) * 6.0, 0.0, 6.0)
  }

  /** The issues of a non-empty experience section, each appended on its own condition. */
  function IssuesFor(totalBullets: nat, verbRatio: real, metricRatio: real, dateCoverage: real): seq<string> {
    Select(QualityIssues, [totalBullets < 6, verbRatio < 0.6, metricRatio < 0.5, dateCoverage < 1.0])
  }

  function ExperienceQualityOf(r: Resume): Quality {
    var es := r.experience;
    if |es| == 0 then
      Quality(0.0, Details(0, 0.0, 0.0, 0), [NoExperienceIssue])
    else
      var bullets := AllBullets(es);
      var total := |bullets|;
      var verbRatio := Ratio(CountActionLed(bullets), total);
      var metricBullets := CountWithDigit(bullets);
      var metricRatio := Ratio(metricBullets, total);
      var dateCoverage := Ratio(CountDated(es), |es|);
      var score := Clamp(BulletVolumeScore(total) + verbRatio * 6.0 + metricRatio * 4.0 + dateCoverage * 4.0, 0.0, 20.0);
      Quality(score, Details(total, verbRatio, dateCoverage, metricBullets),
        IssuesFor(total, verbRatio, metricRatio, dateCoverage))
  }

  /** `getExperienceQuality(resume)`: the issues are pushed one condition at a time. */
  method GetExperienceQuality(r: Resume) returns (q: Quality)
    ensures q == ExperienceQualityOf(r)
  {
    var es := r.experience;
    if |es| == 0 {
      return Quality(0.0, Details(0, 0.0, 0.0, 0), [NoExperienceIssue]);
    }
    var bullets := AllBullets(es);
    var total := |bullets|;
    var actionVerbRatio := Ratio(CountActionLed(bullets), total);
    var metricBullets := CountWithDigit(bullets);
    var metricRatio := Ratio(metricBullets, total);
    var dateCoverage := Ratio(CountDated(es), |es|);
    var bulletScore := BulletVolumeScore(total);
    var score := Clamp(bulletScore + actionVerbRatio * 6.0 + metricRatio * 4.0 + dateCoverage * 4.0, 0.0, 20.0);

    var issues := CollectIssues(total, actionVerbRatio, metricRatio, dateCoverage);
    q := Quality(score, Details(total, actionVerbRatio, dateCoverage, metricBullets), issues);
  }

  /** The four issue checks of `getExperienceQuality`, each pushing its message when it fails. */
  method CollectIssues(total: nat, actionVerbRatio: real, metricRatio: real, dateCoverage: real)
    returns (issues: seq<string>)
    ensures issues == IssuesFor(total, actionVerbRatio, metricRatio, dateCoverage)
  {
    issues := [];
    if total < 6 {
      issues := issues + [BulletCountIssue];
    }
    ghost var i0 := issues;
    if actionVerbRatio < 0.6 {
      issues := issues + [ActionVerbIssue];
    }
    ghost var i1 := issues;
    assert i1 == i0 + (if actionVerbRatio < 0.6 then [ActionVerbIssue] else []);
    if metricRatio < 0.5 {
      issues := issues + [MetricIssue];
    }
    ghost var i2 := issues;
    assert i2 == i1 + (if metricRatio < 0.5 then [MetricIssue] else []);
    if dateCoverage < 1.0 {
      issues := issues + [DateIssue];
    }
    assert issues == i2 + (if dateCoverage < 1.0 then [DateIssue] else []);
    IssuesForPushed(total, actionVerbRatio, metricRatio, dateCoverage);
  }

  // ---------------------------------------------------------------------------
  // Properties
  // ---------------------------------------------------------------------------

  /** The bullet-volume part is `6 * min(n, 8) / 8`: at most 6, and 6 from the eighth bullet on. */
  lemma BulletVolumeFormula(n: nat)
    ensures BulletVolumeScore(n) == 6.0 * (if n <= 8 then n else 8) as real / 8.0
    ensures 0.0 <= BulletVolumeScore(n) <= 6.0
    ensures BulletVolumeScore(n) == 6.0 <==> n >= 8
  {
  }

  /**
   * With no experience entry the score is 0 with the single "add an entry" issue; otherwise
   * the score is the unclamped sum of its four parts, which never exceeds 20.
   */
  lemma ExperienceScoreParts(r: Resume)
    ensures 0.0 <= ExperienceQualityOf(r).score <= 20.0
    ensures |r.experience| == 0 ==>
      ExperienceQualityOf(r).score == 0.0 && ExperienceQualityOf(r).issues == [NoExperienceIssue]
    ensures |r.experience| > 0 ==>
      var q := ExperienceQualityOf(r);
      var metricRatio := Ratio(q.details.metricBullets, q.details.totalBullets);
      q.score == BulletVolumeScore(q.details.totalBullets) + q.details.actionVerbRatio * 6.0
                 + metricRatio * 4.0 + q.details.dateCoverage * 4.0
  {
    if |r.experience| > 0 {
      BulletVolumeFormula(|AllBullets(r.experience)|);
    }
  }

  /** Every action verb is a single word of lower-case letters. */
  lemma ActionVerbsAreWords()
    ensures forall k, i :: 0 <= k < |ActionVerbs| && 0 <= i < |ActionVerbs[k]| ==> 'a' <= ActionVerbs[k][i] <= 'z'
  {
  }

  /**
   * A bullet is action-led exactly when its lower-cased text is an action verb, or starts with
   * one that is followed by white space.
   */
  lemma ActionLedIff(b: string)
    ensures ActionLed(b) <==>
      exists k :: 0 <= k < |ActionVerbs| && ActionVerbs[k] <= Lower(b)
        && (|ActionVerbs[k]| == |b| || IsWhitespace(Lower(b)[|ActionVerbs[k]|]))
  {
    ActionVerbsAreWords();
    assert NormalizeText(b) == Lower(b) && |Lower(b)| == |b|;
    FirstWordInListIff(Lower(b), ActionVerbs);
  }

  /** The first word of `s` is one of `verbs`, words without white space, exactly when one of them leads `s`. */
  lemma FirstWordInListIff(s: string, verbs: seq<string>)
    requires forall k, i :: 0 <= k < |verbs| && 0 <= i < |verbs[k]| ==> !IsWhitespace(verbs[k][i])
    ensures FirstWord(s) in verbs <==>
      exists k :: 0 <= k < |verbs| && verbs[k] <= s && (|verbs[k]| == |s| || IsWhitespace(s[|verbs[k]|]))
  {
    if FirstWord(s) in verbs {
      var k :| 0 <= k < |verbs| && verbs[k] == FirstWord(s);
      FirstWordIff(s, verbs[k]);
    }
    if exists k :: 0 <= k < |verbs| && verbs[k] <= s && (|verbs[k]| == |s| || IsWhitespace(s[|verbs[k]|])) {
      var k :| 0 <= k < |verbs| && verbs[k] <= s && (|verbs[k]| == |s| || IsWhitespace(s[|verbs[k]|]));
      FirstWordIff(s, verbs[k]);
    }
  }

  /** The dated count reaches the number of roles exactly when every role has a start date. */
  lemma {:induction false} CountDatedAll(es: seq<ExperienceEntry>)
    ensures CountDated(es) == |es| <==> forall i :: 0 <= i < |es| ==> es[i].startDate != ""
    decreases |es|
  {
    if es != [] {
      CountDatedAll(es[1..]);
      if forall i :: 0 <= i < |es[1..]| ==> es[1..][i].startDate != "" {
        if es[0].startDate != "" {
          forall i | 0 <= i < |es| ensures es[i].startDate != "" {
            if i > 0 { assert es[i] == es[1..][i - 1]; }
          }
        }
      } else {
        var j :| 0 <= j < |es[1..]| && es[1..][j].startDate == "";
        assert es[j + 1].startDate == "";
      }
    }
  }

  /**
   * For a non-empty experience section each issue is appended on its own condition: fewer
   * than 6 bullets; fewer than 60% action-led bullets; fewer than half the bullets
   * quantified; some role without a start date.
   */
  lemma ExperienceIssuesIff(r: Resume)
    requires |r.experience| > 0
    ensures var q := ExperienceQualityOf(r);
      && (BulletCountIssue in q.issues <==> q.details.totalBullets < 6)
      && (ActionVerbIssue in q.issues <==>
            q.details.totalBullets == 0
            || CountActionLed(AllBullets(r.experience)) as real < 0.6 * q.details.totalBullets as real)
      && (MetricIssue in q.issues <==>
            q.details.totalBullets == 0 || 2 * q.details.metricBullets < q.details.totalBullets)
      && (DateIssue in q.issues <==> exists i :: 0 <= i < |r.experience| && r.experience[i].startDate == "")
  {
    var es := r.experience;
    var bullets := AllBullets(es);
    IssuesFromCounts(|bullets|, CountActionLed(bullets), CountWithDigit(bullets), CountDated(es), |es|);
    CountDatedAll(es);
  }

  /** The issue conditions, stated on the counts behind the ratios. */
  lemma IssuesFromCounts(total: nat, led: nat, metric: nat, dated: nat, roles: nat)
    requires led <= total && metric <= total && dated <= roles && 0 < roles
    ensures var issues := IssuesFor(total, Ratio(led, total), Ratio(metric, total), Ratio(dated, roles));
      && (BulletCountIssue in issues <==> total < 6)
      && (ActionVerbIssue in issues <==> total == 0 || led as real < 0.6 * total as real)
      && (MetricIssue in issues <==> total == 0 || 2 * metric < total)
      && (DateIssue in issues <==> dated < roles)
  {
    IssuesForIff(total, Ratio(led, total), Ratio(metric, total), Ratio(dated, roles));
    if total > 0 {
      FractionBelow(led, total, 0.6);
      FractionBelow(metric, total, 0.5);
    }
  }

  /** Each issue is listed exactly when its own condition holds. */
  lemma IssuesForIff(totalBullets: nat, verbRatio: real, metricRatio: real, dateCoverage: real)
    ensures var issues := IssuesFor(totalBullets, verbRatio, metricRatio, dateCoverage);
      && (BulletCountIssue in issues <==> totalBullets < 6)
      && (ActionVerbIssue in issues <==> verbRatio < 0.6)
      && (MetricIssue in issues <==> metricRatio < 0.5)
      && (DateIssue in issues <==> dateCoverage < 1.0)
  {
    var keep := [totalBullets < 6, verbRatio < 0.6, metricRatio < 0.5, dateCoverage < 1.0];
    IssuesDistinct();
    SelectMembers(QualityIssues, keep, 0);
    SelectMembers(QualityIssues, keep, 1);
    SelectMembers(QualityIssues, keep, 2);
    SelectMembers(QualityIssues, keep, 3);
  }

  /** The selection of issues equals the four conditional pushes in source order. */
  lemma IssuesForPushed(totalBullets: nat, verbRatio: real, metricRatio: real, dateCoverage: real)
    ensures IssuesFor(totalBullets, verbRatio, metricRatio, dateCoverage)
      == (if totalBullets < 6 then [BulletCountIssue] else [])
         + (if verbRatio < 0.6 then [ActionVerbIssue] else [])
         + (if metricRatio < 0.5 then [MetricIssue] else [])
         + (if dateCoverage < 1.0 then [DateIssue] else [])
  {
    SelectFour(QualityIssues, [totalBullets < 6, verbRatio < 0.6, metricRatio < 0.5, dateCoverage < 1.0]);
  }

  lemma IssuesDistinct()
    ensures Distinct(QualityIssues)
  {
  }
}
