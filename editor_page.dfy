/**
 * The free-text editor: one text per section, the change handler that replaces one
 * section's text, and the completion percentage shown above the editors.
 */
module EditorPage {
  import opened AtsText

  /** The editor's state: section key to its text. */
  type Sections = map<string, string>

  const SectionKeys: set<string> := {"summary", "experience", "education", "skills"}

  /** `initialSections`: the four sections, all empty. */
  const InitialSections: Sections := map["summary" := "", "experience" := "", "education" := "", "skills" := ""]

  /** `handleSectionChange(sectionKey, value)`: `{ ...prev, [sectionKey]: value }`. */
  function HandleSectionChange(sections: Sections, sectionKey: string, value: string): (next: Sections)
    ensures next.Keys == sections.Keys + {sectionKey}
    ensures next[sectionKey] == value
    ensures forall k :: k in sections && k != sectionKey ==> next[k] == sections[k]
  {
    sections[sectionKey := value]
  }

  /** A section counts as completed when its text is longer than 20 characters. */
  predicate Completed(text: string) {
    |text| > 20
  }

  /** The keys of the completed sections. */
  function CompletedKeys(sections: Sections): (ks: set<string>)
    ensures ks <= sections.Keys
    ensures forall k :: k in ks <==> k in sections && Completed(sections[k])
  {
    set k | k in sections && Completed(sections[k])
  }

  /**
   * `completionPercentage`: `Math.round(completed / total * 100)`. The state always holds
   * the four initial keys, so the total is never zero.
   */
  function CompletionPercentage(sections: Sections): (percent: int)
    requires |sections| > 0
    ensures 0 <= percent <= 100
  {
    SubsetCardinality(CompletedKeys(sections), sections.Keys);
    FractionBounds(|CompletedKeys(sections)|, |sections|);
    Round(|CompletedKeys(sections)| as real / |sections| as real * 100.0)
  }

  // ---------------------------------------------------------------------------
  // Properties
  // ---------------------------------------------------------------------------

  lemma SubsetCardinality(a: set<string>, b: set<string>)
    requires a <= b
    ensures |a| <= |b|
  {
    assert b == a + (b - a);
  }

  /** With the four sections, the percentage is 25 per completed section: 0, 25, 50, 75 or 100. */
  lemma PercentageSteps(sections: Sections)
    requires sections.Keys == SectionKeys
    ensures CompletionPercentage(sections) == 25 * |CompletedKeys(sections)|
    ensures CompletionPercentage(sections) in {0, 25, 50, 75, 100}
  {
    var c := |CompletedKeys(sections)|;
    SubsetCardinality(CompletedKeys(sections), SectionKeys);
    assert |SectionKeys| == 4;
    assert c as real / 4.0 * 100.0 == (25 * c) as real;
    RoundNearest((25 * c) as real);
  }

  /** The percentage is 100 exactly when every section is completed, and 0 exactly when none is. */
  lemma PercentageExtremes(sections: Sections)
    requires sections.Keys == SectionKeys
    ensures CompletionPercentage(sections) == 100 <==> forall k :: k in sections ==> Completed(sections[k])
    ensures CompletionPercentage(sections) == 0 <==> forall k :: k in sections ==> !Completed(sections[k])
  {
    PercentageSteps(sections);
    var ks := CompletedKeys(sections);
    assert |SectionKeys| == 4;
    if forall k :: k in sections ==> Completed(sections[k]) {
      assert ks == SectionKeys;
    }
    if |ks| == 4 {
      if ks != SectionKeys {
        SubsetCardinality(ks, SectionKeys);
        var k :| k in SectionKeys && k !in ks;
        SubsetCardinality(ks + {k}, SectionKeys);
      }
    }
    if |ks| > 0 {
      var k :| k in ks;
      assert Completed(sections[k]);
    }
  }

  /** The initial, all-empty sections give 0%. */
  lemma InitialIsZero()
    ensures InitialSections.Keys == SectionKeys
    ensures CompletionPercentage(InitialSections) == 0
  {
    assert CompletedKeys(InitialSections) == {};
    PercentageSteps(InitialSections);
  }

  /**
   * Editing one of the four sections keeps the four keys and moves the percentage by 25
   * exactly when the edit changes whether that section is completed, and not at all otherwise.
   */
  lemma EditMovesByOneStep(sections: Sections, sectionKey: string, value: string)
    requires sections.Keys == SectionKeys && sectionKey in SectionKeys
    ensures HandleSectionChange(sections, sectionKey, value).Keys == SectionKeys
    ensures var before := CompletionPercentage(sections);
      var after := CompletionPercentage(HandleSectionChange(sections, sectionKey, value));
      && (Completed(sections[sectionKey]) == Completed(value) ==> after == before)
      && (!Completed(sections[sectionKey]) && Completed(value) ==> after == before + 25)
      && (Completed(sections[sectionKey]) && !Completed(value) ==> after == before - 25)
  {
    PercentageSteps(sections);
    PercentageSteps(HandleSectionChange(sections, sectionKey, value));
    CompletedAfterEdit(sections, sectionKey, value);
  }

  /** Editing a section adds it to, or removes it from, the completed sections, or neither. */
  lemma CompletedAfterEdit(sections: Sections, sectionKey: string, value: string)
    requires sectionKey in sections
    ensures var ks, ks' := CompletedKeys(sections), CompletedKeys(HandleSectionChange(sections, sectionKey, value));
      |ks'| == |ks| + (if Completed(value) then 1 else 0) - (if Completed(sections[sectionKey]) then 1 else 0)
  {
    var ks, ks' := CompletedKeys(sections), CompletedKeys(HandleSectionChange(sections, sectionKey, value));
    var others := ks - {sectionKey};
    assert ks' - {sectionKey} == others;
    if Completed(sections[sectionKey]) {
      assert ks == others + {sectionKey};
    } else {
      assert ks == others;
    }
    if Completed(value) {
      assert ks' == others + {sectionKey};
    } else {
      assert ks' == others;
    }
  }
}
