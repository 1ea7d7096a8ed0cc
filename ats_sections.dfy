/**
 * `getSectionCompleteness`: six weighted sections (basics 6, summary 5, experience 6,
 * education 4, skills 2, projects 2) and a score out of 25 proportional to the filled weight.
 */
module SectionCompleteness {
  import opened JsStrings
  import opened Sequences
  import opened ResumeSchema
  import opened AtsText

  datatype SectionStatus = SectionStatus(key: string, weight: int, filled: bool)

  datatype Completeness = Completeness(score: real, sections: seq<SectionStatus>, missingSections: seq<string>)

  /** The section keys, in the order the analyzer pushes them. */
  const SectionKeys: seq<string> := ["basics", "summary", "experience", "education", "skills", "projects"]

  /** The business-tuned weight of each key of `SectionKeys`. */
  const SectionWeights: seq<int> := [6, 5, 6, 4, 2, 2]

  /** `basicsFields.filter((field) => basics[field]).length === basicsFields.length` */
  predicate BasicsFilled(b: Basics) {
    b.fullName != "" && b.email != "" && b.phone != "" && b.location != ""
  }

  predicate SummaryFilled(summary: string) {
    |Trim(summary)| >= 50
  }

  predicate RoleDescribed(e: ExperienceEntry) {
    e.role != "" && e.company != "" && e.startDate != ""
  }

  predicate ExperienceFilled(es: seq<ExperienceEntry>) {
    |es| > 0 && forall i :: 0 <= i < |es| ==> RoleDescribed(es[i])
  }

  predicate DegreeDescribed(e: EducationEntry) {
    e.institution != "" && e.degree != ""
  }

  predicate EducationFilled(es: seq<EducationEntry>) {
    |es| > 0 && forall i :: 0 <= i < |es| ==> DegreeDescribed(es[i])
  }

  /** `sections.reduce((acc, s) => acc + s.weight, 0)` */
  function SumWeights(ss: seq<SectionStatus>): int
    decreases |ss|
  {
    if ss == [] then 0 else ss[0].weight + SumWeights(ss[1..])
  }

  /** `sections.filter((s) => s.filled)` */
  function FilledOnly(ss: seq<SectionStatus>): (r: seq<SectionStatus>)
    ensures |r| <= |ss|
    decreases |ss|
  {
    if ss == [] then []
    else
      var head := if ss[0].filled then [ss[0]] else [];
      head + FilledOnly(ss[1..])
  }

  /** `sections.filter((s) => !s.filled).map((s) => s.key)` */
  function UnfilledKeys(ss: seq<SectionStatus>): (r: seq<string>)
    ensures |r| <= |ss|
    decreases |ss|
  {
    if ss == [] then []
    else
      var head := if ss[0].filled then [] else [ss[0].key];
      head + UnfilledKeys(ss[1..])
  }

  /** The six section records of a resume, in push order. */
  function SectionsOf(r: Resume): seq<SectionStatus> {
    [ SectionStatus("basics", 6, BasicsFilled(r.basics)),
      SectionStatus("summary", 5, SummaryFilled(r.summary)),
      SectionStatus("experience", 6, ExperienceFilled(r.experience)),
      SectionStatus("education", 4, EducationFilled(r.education)),
      SectionStatus("skills", 2, |r.skills| >= 5),
      SectionStatus("projects", 2, |r.projects| > 0) ]
  }

  /** The completeness report of a list of sections: the filled share of 25 points. */
  function CompletenessOf(sections: seq<SectionStatus>): Completeness {
    var total := SumWeights(sections);
    var totalWeight := if total != 0 then total else 1;
    var filledWeight := SumWeights(FilledOnly(sections));
    Completeness(
      Clamp(filledWeight as real / totalWeight as real * 25.0, 0.0, 25.0),
      sections,
      UnfilledKeys(sections))
  }

  function SectionCompletenessOf(r: Resume): Completeness {
    CompletenessOf(SectionsOf(r))
  }

  /** `getSectionCompleteness(resume)`: the section records are pushed one by one. */
  method GetSectionCompleteness(r: Resume) returns (c: Completeness)
    ensures c == SectionCompletenessOf(r)
  {
    var sections: seq<SectionStatus> := [];
    sections := sections + [SectionStatus("basics", 6, BasicsFilled(r.basics))];
    sections := sections + [SectionStatus("summary", 5, SummaryFilled(r.summary))];
    sections := sections + [SectionStatus("experience", 6, ExperienceFilled(r.experience))];
    sections := sections + [SectionStatus("education", 4, EducationFilled(r.education))];
    sections := sections + [SectionStatus("skills", 2, |r.skills| >= 5)];
    sections := sections + [SectionStatus("projects", 2, |r.projects| > 0)];
    assert sections == SectionsOf(r);
    c := CompletenessOf(sections);
  }

  // ---------------------------------------------------------------------------
  // Properties
  // ---------------------------------------------------------------------------

  /** With positive weights, the filled weight reaches the total exactly when nothing is unfilled. */
  lemma {:induction false} FilledWeightFull(ss: seq<SectionStatus>)
    requires forall i :: 0 <= i < |ss| ==> ss[i].weight > 0
    ensures 0 <= SumWeights(FilledOnly(ss)) <= SumWeights(ss)
    ensures SumWeights(FilledOnly(ss)) == SumWeights(ss) <==> UnfilledKeys(ss) == []
    decreases |ss|
  {
    if ss != [] {
      FilledWeightFull(ss[1..]);
      if ss[0].filled {
        assert FilledOnly(ss) == [ss[0]] + FilledOnly(ss[1..]);
        assert ([ss[0]] + FilledOnly(ss[1..]))[1..] == FilledOnly(ss[1..]);
      } else {
        assert FilledOnly(ss) == FilledOnly(ss[1..]);
        assert UnfilledKeys(ss) != [];
      }
    }
  }

  /** A key is reported missing exactly when one of its section records is unfilled. */
  lemma {:induction false} UnfilledKeysMembers(ss: seq<SectionStatus>, k: string)
    ensures k in UnfilledKeys(ss) <==> exists i :: 0 <= i < |ss| && ss[i].key == k && !ss[i].filled
    decreases |ss|
  {
    if ss != [] {
      UnfilledKeysMembers(ss[1..], k);
      if k in UnfilledKeys(ss[1..]) {
        var i :| 0 <= i < |ss[1..]| && ss[1..][i].key == k && !ss[1..][i].filled;
        assert ss[i + 1].key == k && !ss[i + 1].filled;
      }
      if exists i :: 0 <= i < |ss| && ss[i].key == k && !ss[i].filled {
        var i :| 0 <= i < |ss| && ss[i].key == k && !ss[i].filled;
        if i > 0 {
          assert ss[1..][i - 1] == ss[i];
        }
      }
    }
  }

  /** The unfilled keys keep the order of the sections. */
  lemma {:induction false} UnfilledKeysOrdered(ss: seq<SectionStatus>, keys: seq<string>)
    requires |ss| == |keys| && forall i :: 0 <= i < |ss| ==> ss[i].key == keys[i]
    ensures IsSubsequence(UnfilledKeys(ss), keys)
    decreases |ss|
  {
    if ss != [] {
      UnfilledKeysOrdered(ss[1..], keys[1..]);
      if !ss[0].filled {
        assert UnfilledKeys(ss) == [keys[0]] + UnfilledKeys(ss[1..]);
        assert ([keys[0]] + UnfilledKeys(ss[1..]))[1..] == UnfilledKeys(ss[1..]);
      } else {
        assert UnfilledKeys(ss) == UnfilledKeys(ss[1..]);
        if UnfilledKeys(ss[1..]) != [] {
          SubsequenceOfTail(UnfilledKeys(ss[1..]), keys);
        }
      }
    }
  }

  /**
   * The weights sum to 25, so the score is exactly the sum of the filled sections' weights;
   * it is 25 exactly when no section is missing.
   */
  lemma CompletenessScore(r: Resume)
    ensures SumWeights(SectionCompletenessOf(r).sections) == 25
    ensures SectionCompletenessOf(r).score == SumWeights(FilledOnly(SectionsOf(r))) as real
    ensures 0.0 <= SectionCompletenessOf(r).score <= 25.0
    ensures SectionCompletenessOf(r).score == 25.0 <==> SectionCompletenessOf(r).missingSections == []
  {
    SectionsKeyed(r);
    WeightedScore(SectionsOf(r));
  }

  /** Over records whose positive weights total 25, the score is the filled weight itself. */
  lemma WeightedScore(ss: seq<SectionStatus>)
    requires SumWeights(ss) == 25
    requires forall i :: 0 <= i < |ss| ==> ss[i].weight > 0
    ensures CompletenessOf(ss).score == SumWeights(FilledOnly(ss)) as real
    ensures 0.0 <= CompletenessOf(ss).score <= 25.0
    ensures CompletenessOf(ss).score == 25.0 <==> UnfilledKeys(ss) == []
  {
    FilledWeightFull(ss);
    var filled := SumWeights(FilledOnly(ss));
    var f := filled as real;
    assert 0.0 <= f <= 25.0;
    var total := SumWeights(ss);
    var totalWeight := if total != 0 then total else 1;
    ShareOfTotal(f, totalWeight);
    assert CompletenessOf(ss).score == Clamp(f / totalWeight as real * 25.0, 0.0, 25.0);
    assert f == 25.0 <==> filled == 25;
  }

  lemma ShareOfTotal(f: real, totalWeight: int)
    requires totalWeight == 25
    ensures f / totalWeight as real * 25.0 == f
  {
  }

  /** The six records carry the keys of `SectionKeys` with the weights of `SectionWeights`, totalling 25. */
  lemma SectionsKeyed(r: Resume)
    ensures |SectionsOf(r)| == |SectionKeys| == |SectionWeights|
    ensures forall i :: 0 <= i < |SectionKeys| ==>
      SectionsOf(r)[i].key == SectionKeys[i] && SectionsOf(r)[i].weight == SectionWeights[i]
    ensures forall i :: 0 <= i < |SectionsOf(r)| ==> SectionsOf(r)[i].weight > 0
    ensures SumWeights(SectionsOf(r)) == 25
  {
    var ss := SectionsOf(r);
    assert ss[5..] == [ss[5]];
    assert SumWeights(ss[5..]) == 2;
    assert ss[4..] == [ss[4]] + ss[5..];
    assert SumWeights(ss[4..]) == 4;
    assert ss[3..] == [ss[3]] + ss[4..];
    assert SumWeights(ss[3..]) == 8;
    assert ss[2..] == [ss[2]] + ss[3..];
    assert SumWeights(ss[2..]) == 14;
    assert ss[1..] == [ss[1]] + ss[2..];
    assert SumWeights(ss[1..]) == 19;
    forall i | 0 <= i < |SectionKeys|
      ensures ss[i].key == SectionKeys[i] && ss[i].weight == SectionWeights[i] && ss[i].weight > 0
    {
      assert SectionKeys == ["basics", "summary", "experience", "education", "skills", "projects"];
      assert SectionWeights == [6, 5, 6, 4, 2, 2];
    }
  }

  /** In sections whose keys are distinct, a key is reported missing exactly when its section is unfilled. */
  lemma UnfilledKeysIff(ss: seq<SectionStatus>, keys: seq<string>, i: nat)
    requires |ss| == |keys| && Distinct(keys) && i < |keys|
    requires forall k :: 0 <= k < |ss| ==> ss[k].key == keys[k]
    ensures keys[i] in UnfilledKeys(ss) <==> !ss[i].filled
  {
    UnfilledKeysMembers(ss, keys[i]);
  }

  lemma SectionKeysDistinct()
    ensures Distinct(SectionKeys)
  {
  }

  /**
   * `missingSections` lists the unfilled keys in the order basics, summary, experience,
   * education, skills, projects; each key is listed exactly when its section is unfilled.
   */
  lemma MissingSectionsInOrder(r: Resume)
    ensures IsSubsequence(SectionCompletenessOf(r).missingSections, SectionKeys)
    ensures forall i :: 0 <= i < |SectionKeys| ==>
      (SectionKeys[i] in SectionCompletenessOf(r).missingSections <==> !SectionsOf(r)[i].filled)
  {
    var ss := SectionsOf(r);
    SectionsKeyed(r);
    SectionKeysDistinct();
    UnfilledKeysOrdered(ss, SectionKeys);
    forall i | 0 <= i < |SectionKeys|
      ensures SectionKeys[i] in UnfilledKeys(ss) <==> !ss[i].filled
    {
      UnfilledKeysIff(ss, SectionKeys, i);
    }
  }

  /** With no section filled, the filled weight is 0 and every key is missing, in order. */
  lemma {:induction false} NothingFilled(ss: seq<SectionStatus>)
    requires forall i :: 0 <= i < |ss| ==> !ss[i].filled
    ensures FilledOnly(ss) == []
    ensures |UnfilledKeys(ss)| == |ss| && forall i :: 0 <= i < |ss| ==> UnfilledKeys(ss)[i] == ss[i].key
    decreases |ss|
  {
    if ss != [] {
      NothingFilled(ss[1..]);
      assert UnfilledKeys(ss) == [ss[0].key] + UnfilledKeys(ss[1..]);
    }
  }

  /** The empty document fills no section. */
  lemma EmptyResumeFillsNothing()
    ensures forall i :: 0 <= i < |SectionsOf(EmptyResume)| ==> !SectionsOf(EmptyResume)[i].filled
  {
    BlankFillsNothing(EmptyResume);
  }

  lemma {:induction false} BlankFillsNothing(r: Resume)
    requires r.basics.fullName == "" && r.summary == ""
    requires r.experience == [] && r.education == [] && r.skills == [] && r.projects == []
    ensures forall i :: 0 <= i < |SectionsOf(r)| ==> !SectionsOf(r)[i].filled
  {
    BlankSummaryUnfilled();
    var ss := SectionsOf(r);
    assert !ss[0].filled && !ss[1].filled && !ss[2].filled;
    assert !ss[3].filled && !ss[4].filled && !ss[5].filled;
    SixUnfilled(ss);
  }

  lemma SixUnfilled(ss: seq<SectionStatus>)
    requires |ss| == 6
    requires !ss[0].filled && !ss[1].filled && !ss[2].filled && !ss[3].filled && !ss[4].filled && !ss[5].filled
    ensures forall i :: 0 <= i < |ss| ==> !ss[i].filled
  {
  }

  lemma BlankSummaryUnfilled()
    ensures !SummaryFilled("")
  {
    assert Trim("") == "";
  }

  /** The empty document scores 0 and misses all six keys, in order. */
  lemma EmptyResumeCompleteness()
    ensures SectionCompletenessOf(EmptyResume).score == 0.0
    ensures SectionCompletenessOf(EmptyResume).missingSections == SectionKeys
  {
    var ss := SectionsOf(EmptyResume);
    EmptyResumeFillsNothing();
    SectionsKeyed(EmptyResume);
    NothingFilledCompleteness(ss, SectionKeys);
  }

  lemma NothingFilledCompleteness(ss: seq<SectionStatus>, keys: seq<string>)
    requires forall i :: 0 <= i < |ss| ==> !ss[i].filled
    requires |ss| == |keys| && forall i :: 0 <= i < |ss| ==> ss[i].key == keys[i]
    ensures CompletenessOf(ss).score == 0.0
    ensures CompletenessOf(ss).missingSections == keys
  {
    NothingFilled(ss);
    assert SumWeights(FilledOnly(ss)) == 0;
  }
}
