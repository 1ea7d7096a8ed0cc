/**
 * Keyword coverage analyzer (35 of the 100 points): how many declared skills occur in the
 * collected text (20 points) and how much of each fixed keyword bucket does (15 points).
 */
module KeywordCoverage {
  import opened JsStrings
  import opened Sequences
  import opened ResumeSchema
  import opened AtsText

  /** A named bucket of impact language. */
  datatype Bucket = Bucket(name: string, keywords: seq<string>)

  /** `KEYWORD_BUCKETS`, in the insertion order `Object.entries` yields. */
  const KeywordBuckets: seq<Bucket> := [
    Bucket("impact", ["improved", "reduced", "increased", "accelerated", "boosted", "cut", "optimized"]),
    Bucket("delivery", ["shipped", "launched", "deployed", "released", "delivered"]),
    Bucket("leadership", ["led", "managed", "mentored", "coached", "owned"]),
    Bucket("collaboration", ["collaborated", "partnered", "cross-functional", "stakeholder"]),
    Bucket("quality", ["reliability", "availability", "performance", "scalability", "security", "quality"])
  ]

  /** What `scoreKeywordBucket` returns: the keywords found, those not found, and the found fraction. */
  datatype KeywordMatch = KeywordMatch(matches: seq<string>, missing: seq<string>, ratio: real)

  /** One entry of `bucketResults`: the bucket's name spread with its score. */
  datatype BucketResult = BucketResult(bucket: string, matches: seq<string>, missing: seq<string>, ratio: real)

  /** What `getKeywordCoverage` returns. */
  datatype Coverage = Coverage(
    score: real, matchedSkills: seq<string>, missingSkills: seq<string>,
    bucketResults: seq<BucketResult>, coverageRatio: real, missingKeywords: seq<string>)

  /** `keywords.filter((kw) => text.includes(kw))` */
  function Matches(text: string, keywords: seq<string>): (r: seq<string>)
    ensures |r| <= |keywords|
    ensures forall w :: w in r ==> w in keywords && Contains(text, w)
    ensures IsSubsequence(r, keywords)
    decreases |keywords|
  {
    if keywords == [] then []
    else
      var rest := Matches(text, keywords[1..]);
      SubsequenceOfTail(rest, keywords);
      if Contains(text, keywords[0]) then [keywords[0]] + rest else rest
  }

  /** `keywords.filter((kw) => !text.includes(kw))` */
  function Misses(text: string, keywords: seq<string>): (r: seq<string>)
    ensures |r| <= |keywords|
    ensures forall w :: w in r ==> w in keywords && !Contains(text, w)
    ensures IsSubsequence(r, keywords)
    decreases |keywords|
  {
    if keywords == [] then []
    else
      var rest := Misses(text, keywords[1..]);
      SubsequenceOfTail(rest, keywords);
      if Contains(text, keywords[0]) then rest else [keywords[0]] + rest
  }

  /** `scoreKeywordBucket(text, keywords)` */
  function ScoreKeywordBucket(text: string, keywords: seq<string>): (k: KeywordMatch)
    ensures |k.matches| + |k.missing| == |keywords|
    ensures 0.0 <= k.ratio <= 1.0
  {
    PartitionCounts(text, keywords);
    var matches := Matches(text, keywords);
    var ratio :=
      if |keywords| > 0 then FractionBounds(|matches|, |keywords|); |matches| as real / |keywords| as real
      else 0.0;
    KeywordMatch(matches, Misses(text, keywords), ratio)
  }

  /** `Object.entries(KEYWORD_BUCKETS).map(([bucket, keywords]) => ({ bucket, ...scoreKeywordBucket(text, keywords) }))` */
  function ScoreBuckets(text: string, buckets: seq<Bucket>): (rs: seq<BucketResult>)
    ensures |rs| == |buckets|
  {
    seq(|buckets|, i requires 0 <= i < |buckets| =>
      var s := ScoreKeywordBucket(text, buckets[i].keywords);
      BucketResult(buckets[i].name, s.matches, s.missing, s.ratio))
  }

  /** `bucketResults.reduce((acc, b) => acc + b.ratio, 0)` */
  function SumRatios(rs: seq<BucketResult>): real
    decreases |rs|
  {
    if rs == [] then 0.0 else rs[0].ratio + SumRatios(rs[1..])
  }

  /** `bucketResults.flatMap((b) => b.missing)` */
  function FlattenMissing(rs: seq<BucketResult>): seq<string>
    decreases |rs|
  {
    if rs == [] then [] else rs[0].missing + FlattenMissing(rs[1..])
  }

  /** `(resume.skills || []).map(normalizeText)` */
  function NormalizedSkills(r: Resume): (skills: seq<string>)
    ensures |skills| == |r.skills|
  {
    seq(|r.skills|, i requires 0 <= i < |r.skills| => NormalizeText(r.skills[i]))
  }

  /** `skills.filter((skill) => skill && text.includes(skill))` */
  function MatchedSkills(text: string, skills: seq<string>): (r: seq<string>)
    ensures |r| <= |skills|
    decreases |skills|
  {
    if skills == [] then []
    else
      var head := if skills[0] != "" && Contains(text, skills[0]) then [skills[0]] else [];
      head + MatchedSkills(text, skills[1..])
  }

  /** `skills.filter((skill) => skill && !text.includes(skill))` */
  function MissingSkills(text: string, skills: seq<string>): seq<string>
    decreases |skills|
  {
    if skills == [] then []
    else
      var head := if skills[0] != "" && !Contains(text, skills[0]) then [skills[0]] else [];
      head + MissingSkills(text, skills[1..])
  }

  /** `skillCoverageRatio` */
  function SkillCoverageRatio(r: Resume): real {
    var skills := NormalizedSkills(r);
    var matched := MatchedSkills(CollectResumeText(r), skills);
    if |skills| > 0 then |matched| as real / |skills| as real else 0.0
  }

  /** `skillScore`, out of 20. */
  function SkillScore(r: Resume): real {
    SkillCoverageRatio(r) * 20.0
  }

  /** The average ratio of the bucket results, 0 when there are none. */
  function AverageRatio(results: seq<BucketResult>): real {
    if |results| > 0 then SumRatios(results) / |results| as real else 0.0
  }

  /** `bucketRatio`: the average of the five bucket ratios. */
  function BucketRatio(r: Resume): real {
    AverageRatio(ScoreBuckets(CollectResumeText(r), KeywordBuckets))
  }

  /** `bucketScore`, out of 15. */
  function BucketScore(r: Resume): real {
    BucketRatio(r) * 15.0
  }

  /** `getKeywordCoverage(resume)` */
  function GetKeywordCoverage(r: Resume): (c: Coverage)
    ensures 0.0 <= c.score <= 35.0
    ensures |c.missingSkills| <= 10 && |c.missingKeywords| <= 10
    ensures |c.bucketResults| == |KeywordBuckets|
  {
    var text := CollectResumeText(r);
    var skills := NormalizedSkills(r);
    var results := ScoreBuckets(text, KeywordBuckets);
    Coverage(
      Clamp(SkillScore(r) + BucketScore(r), 0.0, 35.0),
      MatchedSkills(text, skills),
      Take(MissingSkills(text, skills), 10),
      results,
      if |skills| > 0 then SkillCoverageRatio(r) else BucketRatio(r),
      Take(FlattenMissing(results), 10))
  }

  // ---------------------------------------------------------------------------
  // Properties
  // ---------------------------------------------------------------------------

  /**
   * `scoreKeywordBucket` splits the bucket into the keywords found and the keywords not
   * found, each in bucket order, and its ratio is the found fraction, in [0, 1]; the ratio
   * is 1 exactly when nothing is missing.
   */
  lemma BucketPartition(text: string, keywords: seq<string>)
    ensures |ScoreKeywordBucket(text, keywords).matches| + |ScoreKeywordBucket(text, keywords).missing| == |keywords|
    ensures forall w :: w in keywords ==> (w in ScoreKeywordBucket(text, keywords).matches <==> Contains(text, w))
    ensures forall w :: w in keywords ==> (w in ScoreKeywordBucket(text, keywords).missing <==> !Contains(text, w))
    ensures IsSubsequence(ScoreKeywordBucket(text, keywords).matches, keywords)
    ensures IsSubsequence(ScoreKeywordBucket(text, keywords).missing, keywords)
    ensures 0.0 <= ScoreKeywordBucket(text, keywords).ratio <= 1.0
    ensures keywords != [] ==> (ScoreKeywordBucket(text, keywords).ratio == 1.0 <==> ScoreKeywordBucket(text, keywords).missing == [])
  {
    PartitionCounts(text, keywords);
    PartitionMembers(text, keywords);
    if keywords != [] {
      FractionBounds(|Matches(text, keywords)|, |keywords|);
    }
  }

  lemma {:induction false} PartitionCounts(text: string, keywords: seq<string>)
    ensures |Matches(text, keywords)| + |Misses(text, keywords)| == |keywords|
    decreases |keywords|
  {
    if keywords != [] {
      PartitionCounts(text, keywords[1..]);
    }
  }

  lemma {:induction false} PartitionMembers(text: string, keywords: seq<string>)
    ensures forall w :: w in keywords && Contains(text, w) ==> w in Matches(text, keywords)
    ensures forall w :: w in keywords && !Contains(text, w) ==> w in Misses(text, keywords)
    decreases |keywords|
  {
    if keywords != [] {
      PartitionMembers(text, keywords[1..]);
      forall w | w in keywords
        ensures Contains(text, w) ==> w in Matches(text, keywords)
        ensures !Contains(text, w) ==> w in Misses(text, keywords)
      {
        if w != keywords[0] {
          assert w in keywords[1..];
        }
      }
    }
  }

  lemma {:induction false} SumRatiosBounds(rs: seq<BucketResult>)
    requires forall i :: 0 <= i < |rs| ==> 0.0 <= rs[i].ratio <= 1.0
    ensures 0.0 <= SumRatios(rs) <= |rs| as real
    decreases |rs|
  {
    if rs != [] {
      SumRatiosBounds(rs[1..]);
    }
  }

  lemma BucketRatiosInRange(text: string, buckets: seq<Bucket>)
    ensures forall i :: 0 <= i < |buckets| ==> 0.0 <= ScoreBuckets(text, buckets)[i].ratio <= 1.0
  {
    forall i | 0 <= i < |buckets|
      ensures 0.0 <= ScoreBuckets(text, buckets)[i].ratio <= 1.0
    {
      BucketPartition(text, buckets[i].keywords);
    }
  }

  /**
   * The two parts stay within their caps (skills 20, buckets 15), so the keyword score is
   * their plain sum and the clamp to [0, 35] never cuts anything off.
   */
  lemma KeywordScoreParts(r: Resume)
    ensures 0.0 <= SkillScore(r) <= 20.0
    ensures 0.0 <= BucketScore(r) <= 15.0
    ensures GetKeywordCoverage(r).score == SkillScore(r) + BucketScore(r)
  {
    SkillRatioBounds(r);
    BucketRatioBounds(r);
  }

  lemma SkillRatioBounds(r: Resume)
    ensures 0.0 <= SkillCoverageRatio(r) <= 1.0
  {
    var skills := NormalizedSkills(r);
    if |skills| > 0 {
      FractionBounds(|MatchedSkills(CollectResumeText(r), skills)|, |skills|);
    }
  }

  lemma BucketRatioBounds(r: Resume)
    ensures 0.0 <= BucketRatio(r) <= 1.0
  {
    AverageRatioBounds(CollectResumeText(r), KeywordBuckets);
  }

  lemma AverageRatioBounds(text: string, buckets: seq<Bucket>)
    ensures 0.0 <= AverageRatio(ScoreBuckets(text, buckets)) <= 1.0
  {
    var results := ScoreBuckets(text, buckets);
    BucketRatiosInRange(text, buckets);
    SumRatiosBounds(results);
  }

  lemma {:induction false} AllContainedMissesNothing(text: string, skills: seq<string>)
    requires forall i :: 0 <= i < |skills| ==> Contains(text, skills[i])
    ensures MissingSkills(text, skills) == []
    ensures MatchedSkills(text, skills) == NonEmptyStrings(skills)
    decreases |skills|
  {
    if skills != [] {
      AllContainedMissesNothing(text, skills[1..]);
    }
  }

  lemma {:induction false} NormalizedNonEmpty(skills: seq<string>, normalized: seq<string>)
    requires |normalized| == |skills|
    requires forall i :: 0 <= i < |skills| ==> normalized[i] == Lower(skills[i])
    ensures |NonEmptyStrings(normalized)| == |NonEmptyStrings(skills)|
    decreases |skills|
  {
    if skills != [] {
      LowerEmpty(skills[0]);
      NormalizedNonEmpty(skills[1..], normalized[1..]);
    }
  }

  /**
   * Because the collected text embeds the skills list, no skill is ever reported missing,
   * and the matched skills are exactly the non-empty ones.
   */
  lemma MissingSkillsAlwaysEmpty(r: Resume)
    ensures GetKeywordCoverage(r).missingSkills == []
    ensures GetKeywordCoverage(r).matchedSkills == NonEmptyStrings(NormalizedSkills(r))
  {
    AllSkillsFound(r);
  }

  lemma AllSkillsFound(r: Resume)
    ensures MissingSkills(CollectResumeText(r), NormalizedSkills(r)) == []
    ensures MatchedSkills(CollectResumeText(r), NormalizedSkills(r)) == NonEmptyStrings(NormalizedSkills(r))
  {
    var text := CollectResumeText(r);
    var skills := NormalizedSkills(r);
    forall i | 0 <= i < |skills| ensures Contains(text, skills[i]) {
      SkillsOccurInText(r, i);
    }
    AllContainedMissesNothing(text, skills);
  }

  /** Hence the skill ratio is the number of non-empty skills over the number of declared skills. */
  lemma SkillRatioFormula(r: Resume)
    ensures SkillCoverageRatio(r) ==
      if r.skills == [] then 0.0 else |NonEmptyStrings(r.skills)| as real / |r.skills| as real
  {
    AllSkillsFound(r);
    NormalizedNonEmpty(r.skills, NormalizedSkills(r));
  }

  lemma {:induction false} MatchesGrow(t: string, t': string, keywords: seq<string>)
    requires t <= t'
    ensures |Matches(t, keywords)| <= |Matches(t', keywords)|
    decreases |keywords|
  {
    if keywords != [] {
      MatchesGrow(t, t', keywords[1..]);
      if Contains(t, keywords[0]) {
        ContainsInExtension(t, t', keywords[0]);
      }
    }
  }

  lemma {:induction false} SumRatiosGrow(rs: seq<BucketResult>, rs': seq<BucketResult>)
    requires |rs| == |rs'|
    requires forall i :: 0 <= i < |rs| ==> rs[i].ratio <= rs'[i].ratio
    ensures SumRatios(rs) <= SumRatios(rs')
    decreases |rs|
  {
    if rs != [] {
      SumRatiosGrow(rs[1..], rs'[1..]);
    }
  }

  /**
   * Declaring one more non-empty skill never lowers the keyword score: the skill ratio
   * cannot fall, and the collected text only grows, so no bucket loses a match.
   */
  lemma KeywordScoreMonotone(r: Resume, skill: string)
    requires skill != ""
    ensures GetKeywordCoverage(r).score <= GetKeywordCoverage(r.(skills := r.skills + [skill])).score
  {
    var r' := r.(skills := r.skills + [skill]);
    KeywordScoreParts(r);
    KeywordScoreParts(r');
    SkillRatioGrows(r, skill);
    BucketRatioGrows(r, skill);
  }

  lemma SkillRatioGrows(r: Resume, skill: string)
    requires skill != ""
    ensures SkillCoverageRatio(r) <= SkillCoverageRatio(r.(skills := r.skills + [skill]))
  {
    var r' := r.(skills := r.skills + [skill]);
    SkillRatioFormula(r);
    SkillRatioFormula(r');
    NonEmptySnoc(r.skills, skill);
    if r.skills != [] {
      SkillRatioStep(|NonEmptyStrings(r.skills)|, |r.skills|);
    }
  }

  lemma BucketRatioGrows(r: Resume, skill: string)
    ensures BucketRatio(r) <= BucketRatio(r.(skills := r.skills + [skill]))
  {
    var t, t' := CollectResumeText(r), CollectResumeText(r.(skills := r.skills + [skill]));
    CollectedTextGrows(r, skill);
    BucketsGrow(t, t', KeywordBuckets);
    AverageGrows(ScoreBuckets(t, KeywordBuckets), ScoreBuckets(t', KeywordBuckets));
  }

  /** A longer text gives every bucket a ratio at least as high. */
  lemma BucketsGrow(t: string, t': string, buckets: seq<Bucket>)
    requires t <= t'
    ensures forall i :: 0 <= i < |buckets| ==> ScoreBuckets(t, buckets)[i].ratio <= ScoreBuckets(t', buckets)[i].ratio
  {
    forall i | 0 <= i < |buckets|
      ensures ScoreBuckets(t, buckets)[i].ratio <= ScoreBuckets(t', buckets)[i].ratio
    {
      KeywordRatioGrows(t, t', buckets[i].keywords);
    }
  }

  lemma KeywordRatioGrows(t: string, t': string, keywords: seq<string>)
    requires t <= t'
    ensures ScoreKeywordBucket(t, keywords).ratio <= ScoreKeywordBucket(t', keywords).ratio
  {
    MatchesGrow(t, t', keywords);
    if keywords != [] {
      DivideGrows(|Matches(t, keywords)| as real, |Matches(t', keywords)| as real, |keywords|);
    }
  }

  lemma AverageGrows(rs: seq<BucketResult>, rs': seq<BucketResult>)
    requires |rs| == |rs'|
    requires forall i :: 0 <= i < |rs| ==> rs[i].ratio <= rs'[i].ratio
    ensures AverageRatio(rs) <= AverageRatio(rs')
  {
    SumRatiosGrow(rs, rs');
    if |rs| > 0 {
      DivideGrows(SumRatios(rs), SumRatios(rs'), |rs|);
    }
  }

  lemma DivideGrows(a: real, c: real, n: nat)
    requires a <= c && 0 < n
    ensures a / n as real <= c / n as real
  {
    var x, y := a / n as real, c / n as real;
    assert x * n as real == a;
    assert y * n as real == c;
    assert (y - x) * n as real == c - a;
  }

  lemma SkillRatioStep(m: nat, n: nat)
    requires 0 < n && m <= n
    ensures m as real / n as real <= (m + 1) as real / (n + 1) as real
  {
    var a, b := m as real, n as real;
    var x, y := a / b, (a + 1.0) / (b + 1.0);
    assert x * b == a;
    assert y * (b + 1.0) == a + 1.0;
    FractionBounds(m, n);
  }

  /** Every reported missing keyword is a bucket keyword that the collected text lacks. */
  lemma {:induction false} MissingKeywordsAbsent(rs: seq<BucketResult>, text: string, buckets: seq<Bucket>)
    requires rs == ScoreBuckets(text, buckets)
    ensures forall w :: w in FlattenMissing(rs) ==> !Contains(text, w)
    decreases |buckets|
  {
    if buckets != [] {
      assert rs[1..] == ScoreBuckets(text, buckets[1..]);
      MissingKeywordsAbsent(rs[1..], text, buckets[1..]);
    }
  }

  /** A word that starts with a character other than white space. */
  predicate WordLike(w: string) {
    |w| > 0 && !IsWhitespace(w[0])
  }

  /** Every bucket's keywords, bucket after bucket: the order `flatMap` visits them in. */
  function AllKeywords(buckets: seq<Bucket>): seq<string>
    decreases |buckets|
  {
    if buckets == [] then [] else buckets[0].keywords + AllKeywords(buckets[1..])
  }

  /** Text made of white space only matches no word: every keyword is missing. */
  lemma {:induction false} BlankMatchesNothing(text: string, keywords: seq<string>)
    requires AllWhitespace(text)
    requires forall i :: 0 <= i < |keywords| ==> WordLike(keywords[i])
    ensures Matches(text, keywords) == []
    ensures Misses(text, keywords) == keywords
    decreases |keywords|
  {
    if keywords != [] {
      NotContainedInBlank(text, keywords[0], 0);
      BlankMatchesNothing(text, keywords[1..]);
    }
  }

  /** Against blank text every bucket scores 0 and all keywords are reported missing, in bucket order. */
  lemma {:induction false} BlankBuckets(text: string, buckets: seq<Bucket>)
    requires AllWhitespace(text)
    requires forall b, i :: b in buckets && 0 <= i < |b.keywords| ==> WordLike(b.keywords[i])
    ensures FlattenMissing(ScoreBuckets(text, buckets)) == AllKeywords(buckets)
    ensures SumRatios(ScoreBuckets(text, buckets)) == 0.0
    decreases |buckets|
  {
    if buckets != [] {
      ScoreBucketsSplit(text, buckets);
      assert buckets[0] in buckets;
      BlankBucket(text, buckets[0].keywords);
      BlankBuckets(text, buckets[1..]);
    }
  }

  lemma ScoreBucketsSplit(text: string, buckets: seq<Bucket>)
    requires buckets != []
    ensures ScoreBuckets(text, buckets)[1..] == ScoreBuckets(text, buckets[1..])
    ensures ScoreBuckets(text, buckets)[0].missing == ScoreKeywordBucket(text, buckets[0].keywords).missing
    ensures ScoreBuckets(text, buckets)[0].ratio == ScoreKeywordBucket(text, buckets[0].keywords).ratio
  {
  }

  /** Against blank text one bucket misses all its keywords and has ratio 0. */
  lemma BlankBucket(text: string, keywords: seq<string>)
    requires AllWhitespace(text)
    requires forall i :: 0 <= i < |keywords| ==> WordLike(keywords[i])
    ensures ScoreKeywordBucket(text, keywords).missing == keywords
    ensures ScoreKeywordBucket(text, keywords).ratio == 0.0
  {
    BlankMatchesNothing(text, keywords);
  }

  lemma BucketKeywordsWordLike()
    ensures forall b, i :: b in KeywordBuckets && 0 <= i < |b.keywords| ==> WordLike(b.keywords[i])
  {
  }

  /**
   * A resume without skills whose collected text is blank scores 0, and its missing
   * keywords are the first ten bucket keywords.
   */
  lemma BlankCoverage(r: Resume)
    requires r.skills == [] && AllWhitespace(CollectResumeText(r))
    ensures GetKeywordCoverage(r).score == 0.0
    ensures GetKeywordCoverage(r).matchedSkills == [] && GetKeywordCoverage(r).missingSkills == []
    ensures GetKeywordCoverage(r).missingKeywords == Take(AllKeywords(KeywordBuckets), 10)
  {
    BlankKeywordResults(CollectResumeText(r));
    assert NormalizedSkills(r) == [];
    assert SkillCoverageRatio(r) == 0.0;
    assert BucketRatio(r) == 0.0;
  }

  lemma BlankKeywordResults(text: string)
    requires AllWhitespace(text)
    ensures FlattenMissing(ScoreBuckets(text, KeywordBuckets)) == AllKeywords(KeywordBuckets)
    ensures AverageRatio(ScoreBuckets(text, KeywordBuckets)) == 0.0
  {
    BucketKeywordsWordLike();
    BlankAverage(text, KeywordBuckets);
  }

  lemma BlankAverage(text: string, buckets: seq<Bucket>)
    requires AllWhitespace(text)
    requires forall b, i :: b in buckets && 0 <= i < |b.keywords| ==> WordLike(b.keywords[i])
    ensures FlattenMissing(ScoreBuckets(text, buckets)) == AllKeywords(buckets)
    ensures AverageRatio(ScoreBuckets(text, buckets)) == 0.0
  {
    BlankBuckets(text, buckets);
  }

  /**
   * The all-empty document has blank collected text: no skill, no keyword found, a score of
   * 0, and the first ten bucket keywords reported missing.
   */
  lemma EmptyResumeCoverage()
    ensures GetKeywordCoverage(EmptyResume).score == 0.0
    ensures GetKeywordCoverage(EmptyResume).matchedSkills == []
    ensures GetKeywordCoverage(EmptyResume).missingSkills == []
    ensures GetKeywordCoverage(EmptyResume).missingKeywords == [
      "improved", "reduced", "increased", "accelerated", "boosted", "cut", "optimized",
      "shipped", "launched", "deployed"]
  {
    EmptyResumeText();
    BlankCoverage(EmptyResume);
    FirstTenKeywords();
  }

  /** The first ten keywords: the whole impact bucket, then the first three of delivery. */
  lemma FirstTenKeywords()
    ensures Take(AllKeywords(KeywordBuckets), 10) == [
      "improved", "reduced", "increased", "accelerated", "boosted", "cut", "optimized",
      "shipped", "launched", "deployed"]
  {
    var all := AllKeywords(KeywordBuckets);
    assert all == KeywordBuckets[0].keywords + AllKeywords(KeywordBuckets[1..]);
    assert AllKeywords(KeywordBuckets[1..]) == KeywordBuckets[1].keywords + AllKeywords(KeywordBuckets[2..]);
    assert all[..10] == KeywordBuckets[0].keywords + KeywordBuckets[1].keywords[..3];
  }
}
