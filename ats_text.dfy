/**
 * Numeric and text helpers of the scoring engine: `clamp`, `Math.round`, `normalizeText`
 * and `collectResumeText`, the lower-cased narrative the keyword analyzer searches.
 */
module AtsText {
  import opened JsStrings
  import opened ResumeSchema

  function Min(a: real, b: real): real { if a <= b then a else b }
  function Max(a: real, b: real): real { if a >= b then a else b }

  /** `clamp(value, min, max)` = `Math.min(Math.max(value, min), max)`. */
  function Clamp(value: real, lo: real, hi: real): (r: real)
    ensures r <= hi
    ensures lo <= hi ==> lo <= r
    ensures lo <= value <= hi ==> r == value
    ensures value < lo <= hi ==> r == lo
    ensures hi < value ==> r == hi
  {
    Min(Max(value, lo), hi)
  }

  /** `Math.round`: the nearest integer, halves rounded up. */
  function Round(x: real): int {
    (x + 0.5).Floor
  }

  /** Rounding moves a value by at most one half, and keeps an integer as it is. */
  lemma RoundNearest(x: real)
    ensures x - 0.5 < Round(x) as real <= x + 0.5
    ensures x == x.Floor as real ==> Round(x) == x.Floor
  {
  }

  /** Rounding a value of [0, hi] for an integer bound `hi` stays in [0, hi]. */
  lemma RoundWithin(x: real, hi: int)
    requires 0.0 <= x <= hi as real
    ensures 0 <= Round(x) <= hi
  {
  }

  /** `total ? part / total : 0`: a share in [0, 1], equal to 1 exactly when every item counts. */
  function Ratio(part: nat, total: nat): (r: real)
    requires part <= total
    ensures 0.0 <= r <= 1.0
    ensures r == 1.0 <==> 0 < total && part == total
  {
    if total > 0 then
      FractionBounds(part, total);
      part as real / total as real
    else 0.0
  }

  /** A fraction a/b of naturals with a <= b lies in [0, 1] and is 1 exactly when a == b. */
  lemma FractionBounds(a: nat, b: nat)
    requires 0 < b && a <= b
    ensures 0.0 <= a as real / b as real <= 1.0
    ensures a as real / b as real == 1.0 <==> a == b
  {
    var q := a as real / b as real;
    assert q * b as real == a as real;
  }

  /** A share of a positive total is below `c` exactly when `part < c * total`. */
  lemma FractionBelow(part: nat, total: nat, c: real)
    requires 0 < total && part <= total
    ensures Ratio(part, total) < c <==> part as real < c * total as real
  {
    var q := Ratio(part, total);
    var t := total as real;
    assert q * t == part as real;
    if q < c {
      assert q * t < c * t;
    } else {
      assert q * t >= c * t;
    }
  }

  /** `normalizeText(value)`: the lower-cased string (an absent value is already ""). */
  function NormalizeText(value: string): (text: string)
    ensures |text| == |value|
    ensures forall i :: 0 <= i < |text| ==> !('A' <= text[i] <= 'Z')
    ensures Lower(text) == text
  {
    Lower(value)
  }

  /** `xs.filter(Boolean)` on strings: the non-empty ones, in order. */
  function NonEmptyStrings(xs: seq<string>): (r: seq<string>)
    ensures |r| <= |xs|
    ensures forall x :: x in r ==> x in xs && x != ""
    decreases |xs|
  {
    if xs == [] then []
    else
      var head := if xs[0] != "" then [xs[0]] else [];
      head + NonEmptyStrings(xs[1..])
  }

  /** Filtering out empty strings keeps a list whose members are all non-empty. */
  lemma {:induction false} NonEmptyStringsKeepsAll(xs: seq<string>)
    requires forall i :: 0 <= i < |xs| ==> xs[i] != ""
    ensures NonEmptyStrings(xs) == xs
    decreases |xs|
  {
    if xs != [] {
      NonEmptyStringsKeepsAll(xs[1..]);
      assert [xs[0]] + xs[1..] == xs;
    }
  }

  lemma {:induction false} NonEmptySnoc(xs: seq<string>, s: string)
    ensures |NonEmptyStrings(xs + [s])| == |NonEmptyStrings(xs)| + (if s != "" then 1 else 0)
    decreases |xs|
  {
    if xs == [] {
      assert xs + [s] == [s];
    } else {
      NonEmptySnoc(xs[1..], s);
      assert (xs + [s])[1..] == xs[1..] + [s];
    }
  }

  /** `${exp.role} ${exp.company} ${exp.bullets.join(' ')}` */
  function ExperienceText(e: ExperienceEntry): string {
    e.role + " " + e.company + " " + Join(e.bullets, " ")
  }

  /** `${proj.name} ${proj.description} ${proj.bullets.join(' ')}` */
  function ProjectText(p: ProjectEntry): string {
    p.name + " " + p.description + " " + Join(p.bullets, " ")
  }

  function ExperienceTexts(es: seq<ExperienceEntry>): seq<string> {
    seq(|es|, i requires 0 <= i < |es| => ExperienceText(es[i]))
  }

  function ProjectTexts(ps: seq<ProjectEntry>): seq<string> {
    seq(|ps|, i requires 0 <= i < |ps| => ProjectText(ps[i]))
  }

  /** The text before the skills list: summary, experience and projects, each followed by a space. */
  function NarrativeText(r: Resume): string {
    NormalizeText(r.summary) + " " + Join(ExperienceTexts(r.experience), " ") + " "
    + Join(ProjectTexts(r.projects), " ") + " "
  }

  /**
   * `collectResumeText`: the lower-cased summary, experience, project and skills text,
   * space-joined; it opens with the lower-cased summary and ends with the lower-cased skills.
   */
  function CollectResumeText(r: Resume): (text: string)
    ensures forall i :: 0 <= i < |text| ==> !('A' <= text[i] <= 'Z')
    ensures NormalizeText(r.summary) + " " <= text
    ensures |text| == |NarrativeText(r)| + |Join(r.skills, " ")|
    ensures text[|text| - |Join(r.skills, " ")|..] == NormalizeText(Join(r.skills, " "))
  {
    LowerAppend(NarrativeText(r), Join(r.skills, " "));
    LowerIdempotent(r.summary);
    LowerAppend(Lower(r.summary) + " ", Join(ExperienceTexts(r.experience), " ") + " "
      + Join(ProjectTexts(r.projects), " ") + " ");
    NormalizeText(NarrativeText(r) + Join(r.skills, " "))
  }

  /**
   * The collected text embeds the skills list, so every declared skill, lower-cased, occurs
   * in it.
   */
  lemma SkillsOccurInText(r: Resume, k: nat)
    requires k < |r.skills|
    ensures Contains(CollectResumeText(r), NormalizeText(r.skills[k]))
  {
    JoinContainsPart(r.skills, " ", k);
    ContainsAppendRight(NarrativeText(r), Join(r.skills, " "), r.skills[k]);
    LowerContains(NarrativeText(r) + Join(r.skills, " "), r.skills[k]);
  }

  /** Declaring one more skill only extends the collected text. */
  lemma CollectedTextGrows(r: Resume, skill: string)
    ensures CollectResumeText(r) <= CollectResumeText(r.(skills := r.skills + [skill]))
  {
    var r' := r.(skills := r.skills + [skill]);
    assert NarrativeText(r') == NarrativeText(r);
    JoinAppendPrefix(r.skills, " ", skill);
    var a := NarrativeText(r) + Join(r.skills, " ");
    var b := NarrativeText(r) + Join(r'.skills, " ");
    assert a <= b;
    assert Lower(a) <= Lower(b) by {
      assert |Lower(a)| <= |Lower(b)|;
      forall i | 0 <= i < |a| ensures Lower(a)[i] == Lower(b)[i] {
        assert a[i] == b[i];
      }
    }
  }

  /** A word found in a prefix of a text is found in the text. */
  lemma ContainsInExtension(t: string, t': string, w: string)
    requires t <= t' && Contains(t, w)
    ensures Contains(t', w)
  {
    assert t' == t + t'[|t|..];
    ContainsAppendLeft(t, t'[|t|..], w);
  }

  /** The all-empty document collects three blank separators and nothing else. */
  lemma EmptyResumeText()
    ensures CollectResumeText(EmptyResume) == "   "
    ensures AllWhitespace(CollectResumeText(EmptyResume))
  {
    assert ExperienceTexts([]) == [] && ProjectTexts([]) == [];
    assert NarrativeText(EmptyResume) == "   ";
    assert Lower("   ") == "   ";
  }
}
