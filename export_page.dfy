/**
 * The export page's rules: the initials shown on the preview, the date ranges of the
 * experience entries, the export gate (`canExport` with its threshold of 70), the list of
 * reasons shown while the gate is closed, and the guard of the export button.
 */
module ExportPage {
  import opened JsStrings
  import opened Sequences
  import opened ResumeSchema
  import opened AtsText
  import opened ExportReadiness
  import opened AtsBreakdown

  // ---------------------------------------------------------------------------
  // getInitials
  // ---------------------------------------------------------------------------

  /** `name.split(' ').filter(Boolean)`: the non-empty space-separated words, in order. */
  function Words(name: string): (words: seq<string>)
    ensures forall i :: 0 <= i < |words| ==> words[i] != ""
  {
    var words := NonEmptyStrings(SplitOn(name, ' '));
    assert forall i :: 0 <= i < |words| ==> words[i] in words;
    words
  }

  /** `.map((part) => part[0].toUpperCase()).join('')` over non-empty words. */
  function FirstLetters(words: seq<string>): string
    requires forall i :: 0 <= i < |words| ==> words[i] != ""
  {
    seq(|words|, i requires 0 <= i < |words| => UpperChar(words[i][0]))
  }

  /** The placeholder shown when the name has no word at all. */
  const PlaceholderInitials: string := "YN"

  /**
   * `getInitials(name)`: the upper-cased first letters of the first two words, the single
   * letter of a one-word name, and the placeholder when there is no word.
   */
  function GetInitials(name: string): (initials: string)
    ensures 1 <= |initials| <= 2
    ensures |Words(name)| == 0 ==> initials == PlaceholderInitials
    ensures |Words(name)| == 1 ==> initials == [UpperChar(Words(name)[0][0])]
    ensures |Words(name)| >= 2 ==> initials == [UpperChar(Words(name)[0][0]), UpperChar(Words(name)[1][0])]
  {
    var w := Words(name);
    assert |w| >= 2 ==> Take(w, 2) == [w[0], w[1]];
    assert |w| < 2 ==> Take(w, 2) == w;
    var letters := FirstLetters(Take(w, 2));
    if letters != "" then letters else PlaceholderInitials
  }

  // ---------------------------------------------------------------------------
  // formatDateRange
  // ---------------------------------------------------------------------------

  const Present: string := "Present"

  /** `formatDateRange(start, end)`; an empty string is falsy. */
  function FormatDateRange(start: string, end: string): (range: string)
    ensures range != ""
    ensures start != "" ==> start + " - " <= range
    ensures end != "" ==> |range| >= |end| && range[|range| - |end|..] == end
    ensures end == "" ==> |range| >= |Present| && range[|range| - |Present|..] == Present
    ensures start == "" ==> range == (if end == "" then Present else end)
  {
    if start == "" && end == "" then Present
    else if start != "" && end == "" then start + " - " + Present
    else if start == "" && end != "" then end
    else start + " - " + end
  }

  // ---------------------------------------------------------------------------
  // The export gate
  // ---------------------------------------------------------------------------

  /** `minExportScore` */
  const MinExportScore: int := 70

  /**
   * `canExport = resumeReadyForExport && atsScore >= minExportScore`: a resume that is not
   * ready, or scores below 70, cannot be exported.
   */
  function CanExport(ready: bool, atsScore: int): (ok: bool)
    ensures !ready ==> !ok
    ensures atsScore < MinExportScore ==> !ok
    ensures ready && atsScore >= MinExportScore ==> ok
  {
    ready && atsScore >= MinExportScore
  }

  const ScoreReason: string := "ATS score needs 70+ to export"
  // The two longer messages are written in two pieces: the solver reads the characters of a
  // short literal, but not of a literal this long.
  const ReadinessReason: string := "Complete required fields " + "to reach 100% readiness"
  const DefaultReason: string := "Complete your resume " + "to enable export"

  function SectionReason(section: string): string {
    "Add " + section + " section"
  }

  /** `missing.forEach((section) => reasons.push(`Add ${section} section`))` */
  function SectionReasons(missing: seq<string>): seq<string> {
    seq(|missing|, i requires 0 <= i < |missing| => SectionReason(missing[i]))
  }

  /** The reasons pushed for a resume that is not ready. */
  function ReadinessReasons(readiness: Readiness): seq<string> {
    SectionReasons(readiness.missingSections)
    + (if readiness.completenessScore < 100.0 then [ReadinessReason] else [])
  }

  /** The reasons pushed before the fallback is considered. */
  function PushedReasons(atsScore: int, readiness: Readiness, ready: bool): seq<string> {
    (if atsScore < MinExportScore then [ScoreReason] else [])
    + (if ready then [] else ReadinessReasons(readiness))
  }

  /** The `blockerReasons` list: the pushed reasons, or the single fallback when there is none. */
  function BlockerReasonsFor(atsScore: int, readiness: Readiness, ready: bool): seq<string> {
    var reasons := PushedReasons(atsScore, readiness, ready);
    if |reasons| > 0 then reasons else [DefaultReason]
  }

  /** `blockerReasons`: conditional pushes and a loop over the missing sections. */
  method BlockerReasons(atsScore: int, readiness: Readiness, ready: bool) returns (reasons: seq<string>)
    ensures reasons == BlockerReasonsFor(atsScore, readiness, ready)
  {
    reasons := [];
    if atsScore < MinExportScore {
      reasons := reasons + [ScoreReason];
    }
    ghost var first := reasons;
    if !ready {
      var missing := readiness.missingSections;
      var i := 0;
      while i < |missing|
        invariant 0 <= i <= |missing|
        invariant reasons == first + SectionReasons(missing[..i])
      {
        assert SectionReasons(missing[..i + 1]) == SectionReasons(missing[..i]) + [SectionReason(missing[i])];
        reasons := reasons + [SectionReason(missing[i])];
        i := i + 1;
      }
      assert missing[..i] == missing;
      if readiness.completenessScore < 100.0 {
        reasons := reasons + [ReadinessReason];
      }
    }
    assert reasons == PushedReasons(atsScore, readiness, ready);
    if |reasons| == 0 {
      reasons := [DefaultReason];
    }
  }

  // ---------------------------------------------------------------------------
  // handleExport
  // ---------------------------------------------------------------------------

  /** The page's export state: the exporting flag and the upgrade modal. */
  class ExportPageState {
    var isExporting: bool
    var showUpgradeModal: bool

    constructor ()
      ensures !isExporting && !showUpgradeModal
    {
      isExporting := false;
      showUpgradeModal := false;
    }

    /**
     * `handleExport`: a closed gate only opens the upgrade modal and starts no export; an
     * open gate starts the export and leaves the modal as it was.
     */
    method HandleExport(canExport: bool)
      modifies this
      ensures !canExport ==> showUpgradeModal && isExporting == old(isExporting)
      ensures canExport ==> isExporting && showUpgradeModal == old(showUpgradeModal)
    {
      if !canExport {
        showUpgradeModal := true;
        return;
      }
      isExporting := true;
    }
  }

  // ---------------------------------------------------------------------------
  // Properties
  // ---------------------------------------------------------------------------

  /** A name made of spaces only (the empty name included) has no word. */
  lemma {:induction false} BlankNameHasNoWords(name: string)
    requires forall i :: 0 <= i < |name| ==> name[i] == ' '
    ensures Words(name) == []
    decreases |name|
  {
    if name != [] {
      BlankNameHasNoWords(name[1..]);
      var rest := SplitOn(name[1..], ' ');
      assert SplitOn(name, ' ') == [""] + rest;
      assert ([""] + rest)[1..] == rest;
    }
  }

  /** `k` is the position of the first character of `name` that is not a space. */
  predicate FirstNonSpace(name: string, k: nat) {
    k < |name| && name[k] != ' ' && forall j :: 0 <= j < k ==> name[j] == ' '
  }

  /** The first word starts at the first character that is not a space. */
  lemma {:induction false} FirstWordStart(name: string, k: nat)
    requires k < |name| && name[k] != ' '
    requires forall j :: 0 <= j < k ==> name[j] == ' '
    ensures Words(name) != [] && Words(name)[0] != "" && Words(name)[0][0] == name[k]
    decreases k
  {
    var rest := SplitOn(name[1..], ' ');
    if k == 0 {
      var head := [name[0]] + rest[0];
      assert SplitOn(name, ' ') == [head] + rest[1..];
      assert ([head] + rest[1..])[1..] == rest[1..];
      assert Words(name) == [head] + NonEmptyStrings(rest[1..]);
    } else {
      FirstWordStart(name[1..], k - 1);
      assert SplitOn(name, ' ') == [""] + rest;
      assert ([""] + rest)[1..] == rest;
      assert Words(name) == Words(name[1..]);
    }
  }

  /**
   * A name with no word shows the placeholder "YN"; otherwise the first initial is the
   * upper-cased first character that is not a space. (A name such as "Yara Nunes" also shows
   * "YN", so the placeholder alone does not tell that the name was blank.)
   */
  lemma InitialsOfName(name: string)
    ensures (forall i :: 0 <= i < |name| ==> name[i] == ' ') ==> GetInitials(name) == PlaceholderInitials
    ensures forall k: nat :: FirstNonSpace(name, k) ==> GetInitials(name)[0] == UpperChar(name[k])
  {
    if forall i :: 0 <= i < |name| ==> name[i] == ' ' {
      BlankNameHasNoWords(name);
    }
    forall k: nat | FirstNonSpace(name, k)
      ensures GetInitials(name)[0] == UpperChar(name[k])
    {
      FirstWordStart(name, k);
      assert Take(Words(name), 2)[0] == Words(name)[0];
    }
  }

  /** With two words or more, the initials are the upper-cased first letters of the first two. */

  /** The four cases of a date range. */
  lemma DateRangeCases(start: string, end: string)
    ensures start == "" && end == "" ==> FormatDateRange(start, end) == "Present"
    ensures start != "" && end == "" ==> FormatDateRange(start, end) == start + " - Present"
    ensures start == "" && end != "" ==> FormatDateRange(start, end) == end
    ensures start != "" && end != "" ==> FormatDateRange(start, end) == start + " - " + end
  {
    if start != "" && end == "" {
      assert start + " - " + Present == start + " - Present";
    }
  }

  lemma MessagesDiffer(section: string)
    ensures ScoreReason != SectionReason(section) && ReadinessReason != SectionReason(section)
    ensures DefaultReason != SectionReason(section)
    ensures ScoreReason != ReadinessReason && ScoreReason != DefaultReason && ReadinessReason != DefaultReason
  {
    assert SectionReason(section)[0] == 'A' && SectionReason(section)[1] == 'd';
    assert ScoreReason[1] == 'T';
    assert ReadinessReason[0] == 'C' && DefaultReason[0] == 'C';
  }

  /**
   * The list is never empty. The threshold reason comes first exactly when the score is below
   * 70; the "Add … section" reasons follow, one per missing entry in order, when the resume is
   * not ready; the readiness reason closes the list exactly when the resume is not ready and
   * its completeness is below 100.
   */
  lemma BlockerReasonsOrder(atsScore: int, readiness: Readiness, ready: bool)
    ensures var b := BlockerReasonsFor(atsScore, readiness, ready);
      var offset := if atsScore < MinExportScore then 1 else 0;
      && |b| >= 1
      && (b[0] == ScoreReason <==> atsScore < MinExportScore)
      && (!ready ==>
            |b| >= offset + |readiness.missingSections|
            && b[offset..offset + |readiness.missingSections|] == SectionReasons(readiness.missingSections))
      && (b[|b| - 1] == ReadinessReason <==> !ready && readiness.completenessScore < 100.0)
  {
    var b := BlockerReasonsFor(atsScore, readiness, ready);
    var p := PushedReasons(atsScore, readiness, ready);
    var missing := readiness.missingSections;
    if |p| > 0 {
      assert b == p;
      if atsScore >= MinExportScore && !ready && |missing| > 0 {
        MessagesDiffer(missing[0]);
        assert b[0] == SectionReason(missing[0]);
      }
      if |missing| > 0 && !ready && !(readiness.completenessScore < 100.0) {
        MessagesDiffer(missing[|missing| - 1]);
        assert b[|b| - 1] == SectionReason(missing[|missing| - 1]);
      }
    }
    MessagesDiffer("");
  }

  /**
   * For a consistent readiness report (nothing missing exactly when ready, exactly when
   * the score is 100, never above 100), the list is the lone fallback message exactly when
   * the gate is open.
   */
  lemma FallbackIffCanExport(atsScore: int, readiness: Readiness, ready: bool)
    requires ready <==> readiness.missingSections == []
    requires readiness.missingSections == [] <==> readiness.completenessScore == 100.0
    requires readiness.completenessScore <= 100.0
    ensures BlockerReasonsFor(atsScore, readiness, ready) == [DefaultReason] <==> CanExport(ready, atsScore)
  {
    var p := PushedReasons(atsScore, readiness, ready);
    if !CanExport(ready, atsScore) {
      if atsScore < MinExportScore {
        assert p[0] == ScoreReason;
      } else {
        assert |p| >= 2;
      }
      MessagesDiffer("");
    }
  }

  /** On the resume's own score and readiness, the fallback shows exactly when export is allowed. */
  lemma ResumeBlockers(r: Resume)
    ensures var b := BlockerReasonsFor(ScoreResume(r), ReadinessOf(r), IsResumeReadyForExport(r));
      b == [DefaultReason] <==> CanExport(IsResumeReadyForExport(r), ScoreResume(r))
  {
    ReadinessIff(r);
    ReadinessScoreValues(r);
    FallbackIffCanExport(ScoreResume(r), ReadinessOf(r), IsResumeReadyForExport(r));
  }

  /**
   * The all-empty document (score 16, every checklist entry missing, readiness 0) is blocked:
   * the threshold reason, one "Add … section" reason per checklist entry, then the readiness
   * reason.
   */
  lemma EmptyResumeBlocked()
    ensures !CanExport(IsResumeReadyForExport(EmptyResume), ScoreResume(EmptyResume))
    ensures BlockerReasonsFor(ScoreResume(EmptyResume), ReadinessOf(EmptyResume), IsResumeReadyForExport(EmptyResume))
      == [ScoreReason] + SectionReasons(ChecklistItems) + [ReadinessReason]
  {
    EmptyResumeBreakdown();
    EmptyResumeReadiness();
    BlockersWhenNothingPasses(ScoreResume(EmptyResume), ReadinessOf(EmptyResume), IsResumeReadyForExport(EmptyResume));
  }

  lemma BlockersWhenNothingPasses(atsScore: int, readiness: Readiness, ready: bool)
    requires atsScore == 16 && !ready
    requires readiness == Readiness(0.0, ChecklistItems)
    ensures !CanExport(ready, atsScore)
    ensures BlockerReasonsFor(atsScore, readiness, ready) == [ScoreReason] + SectionReasons(ChecklistItems) + [ReadinessReason]
  {
  }
}
