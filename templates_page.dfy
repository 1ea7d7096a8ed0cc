/**
 * The template gallery: the six templates with their tags, the category tabs, and the filter
 * that combines the active category with the search query.
 */
module TemplatesPage {
  import opened JsStrings
  import opened Sequences

  datatype Template = Template(id: nat, name: string, description: string, tags: seq<string>)

  const Templates: seq<Template> := [
    Template(1, "Professional Classic", "Clean, timeless design for any industry", ["popular", "Corporate", "ATS-Friendly"]),
    Template(2, "Modern Minimal", "Sleek and contemporary look", ["Tech", "Startup"]),
    Template(3, "Creative Bold", "Stand out with a unique design", ["Design", "Marketing"]),
    Template(4, "Executive Elite", "Premium template for senior roles", ["popular", "Executive", "Leadership"]),
    Template(5, "Tech Innovator", "Perfect for software & tech roles", ["Tech", "Engineering"]),
    Template(6, "Academic Scholar", "Ideal for research & education", ["Academic", "Research"])
  ]

  const Categories: seq<string> := ["All", "Popular", "Corporate", "Tech", "Creative", "Academic"]

  /** Some tag equals the category, ignoring case. */
  predicate HasTag(t: Template, category: string) {
    exists i :: 0 <= i < |t.tags| && Lower(t.tags[i]) == Lower(category)
  }

  /**
   * `matchesCategory`: "All", a tag equal up to case, or the explicit "Popular" rule. Apart
   * from "All", the category matches by tag alone: the "Popular" rule adds nothing, since
   * the tag "popular" already equals "Popular" up to case.
   */
  function MatchesCategory(t: Template, category: string): (m: bool)
    ensures category == "All" ==> m
    ensures category != "All" ==> (m <==> HasTag(t, category))
  {
    PopularTagMatches(t);
    category == "All" || HasTag(t, category) || (category == "Popular" && "popular" in t.tags)
  }

  /** A template tagged "popular" has a tag equal to "Popular" up to case. */
  lemma PopularTagMatches(t: Template)
    ensures "popular" in t.tags ==> HasTag(t, "Popular")
  {
    if "popular" in t.tags {
      var i :| 0 <= i < |t.tags| && t.tags[i] == "popular";
      assert Lower("popular") == "popular";
      assert Lower("Popular") == "popular";
      assert Lower(t.tags[i]) == Lower("Popular");
    }
  }

  /**
   * `matchesSearch`: the query, lower-cased, occurs in the lower-cased name or description;
   * the empty query matches every template.
   */
  function MatchesSearch(t: Template, query: string): (m: bool)
    ensures query == "" ==> m
  {
    ContainsEmpty(Lower(t.name));
    Contains(Lower(t.name), Lower(query)) || Contains(Lower(t.description), Lower(query))
  }

  predicate Matches(t: Template, category: string, query: string) {
    MatchesCategory(t, category) && MatchesSearch(t, query)
  }

  /** `templates.filter(...)` over any list of templates. */
  function FilterTemplates(ts: seq<Template>, category: string, query: string): seq<Template>
    decreases |ts|
  {
    if ts == [] then []
    else
      var head := if Matches(ts[0], category, query) then [ts[0]] else [];
      head + FilterTemplates(ts[1..], category, query)
  }

  /**
   * `filteredTemplates`: an order-preserving sub-list of the six templates, holding exactly
   * those that match both the category and the query.
   */
  function FilteredTemplates(category: string, query: string): (ts: seq<Template>)
    ensures IsSubsequence(ts, Templates)
    ensures |ts| <= 6
    ensures forall t :: t in ts <==> t in Templates && Matches(t, category, query)
  {
    var ts := FilterTemplates(Templates, category, query);
    FilterIsSubsequence(Templates, category, query);
    SubsequenceLength(ts, Templates);
    ts
  }

  // ---------------------------------------------------------------------------
  // Properties
  // ---------------------------------------------------------------------------

  /**
   * The filter keeps an order-preserving sub-list, and a template is kept exactly when it is
   * in the list and matches both the category and the query.
   */
  lemma {:induction false} FilterIsSubsequence(ts: seq<Template>, category: string, query: string)
    ensures IsSubsequence(FilterTemplates(ts, category, query), ts)
    ensures forall t :: t in FilterTemplates(ts, category, query) <==> t in ts && Matches(t, category, query)
    decreases |ts|
  {
    if ts != [] {
      var rest := FilterTemplates(ts[1..], category, query);
      FilterIsSubsequence(ts[1..], category, query);
      if Matches(ts[0], category, query) {
        assert FilterTemplates(ts, category, query) == [ts[0]] + rest;
        assert ([ts[0]] + rest)[1..] == rest;
      } else {
        assert FilterTemplates(ts, category, query) == rest;
        SubsequenceOfTail(rest, ts);
      }
      assert ts == [ts[0]] + ts[1..];
    }
  }

  lemma {:induction false} SubsequenceLength<T>(sub: seq<T>, xs: seq<T>)
    requires IsSubsequence(sub, xs)
    ensures |sub| <= |xs|
    decreases |xs|
  {
    if sub != [] {
      if sub[0] == xs[0] {
        SubsequenceLength(sub[1..], xs[1..]);
      } else {
        SubsequenceLength(sub, xs[1..]);
      }
    }
  }

  /** A filter every template passes keeps the whole list. */
  lemma {:induction false} FilterKeepsAll(ts: seq<Template>, category: string, query: string)
    requires forall i :: 0 <= i < |ts| ==> Matches(ts[i], category, query)
    ensures FilterTemplates(ts, category, query) == ts
    decreases |ts|
  {
    if ts != [] {
      FilterKeepsAll(ts[1..], category, query);
      assert [ts[0]] + ts[1..] == ts;
    }
  }

  /** A filter no template passes keeps nothing. */
  lemma {:induction false} FilterKeepsNone(ts: seq<Template>, category: string, query: string)
    requires forall i :: 0 <= i < |ts| ==> !Matches(ts[i], category, query)
    ensures FilterTemplates(ts, category, query) == []
    decreases |ts|
  {
    if ts != [] {
      FilterKeepsNone(ts[1..], category, query);
    }
  }

  /** Category "All" with the empty query shows all six templates, in order. */
  lemma AllCategoryEmptyQuery()
    ensures FilteredTemplates("All", "") == Templates
  {
    assert forall i :: 0 <= i < |Templates| ==> Matches(Templates[i], "All", "");
    FilterKeepsAll(Templates, "All", "");
  }

  /** "Popular" selects exactly templates 1 and 4 when the query is empty. */
  lemma PopularTemplates()
    ensures FilteredTemplates("Popular", "") == [Templates[0], Templates[3]]
  {
    forall i | 0 <= i < |Templates|
      ensures Matches(Templates[i], "Popular", "") <==> i == 0 || i == 3
    {
      PopularCategory(i);
    }
    var ts := Templates;
    assert FilterTemplates(ts[4..], "Popular", "") == [] by {
      FilterKeepsNone(ts[4..], "Popular", "");
    }
    assert FilterTemplates(ts[3..], "Popular", "") == [ts[3]];
    assert FilterTemplates(ts[1..], "Popular", "") == [ts[3]];
  }

  /** Among the six templates, exactly the first and the fourth carry a tag equal to "Popular". */
  lemma PopularCategory(i: nat)
    requires i < |Templates|
    ensures MatchesCategory(Templates[i], "Popular") <==> i == 0 || i == 3
  {
    var lowered := "popular";
    assert Lower("Popular") == lowered;
    var tags := Templates[i].tags;
    if i == 0 || i == 3 {
      assert "popular" in tags;
    } else {
      forall k | 0 <= k < |tags| ensures Lower(tags[k]) != lowered {
        if tags[k] == "Startup" {
          assert Lower(tags[k])[0] == 's';
        } else {
          assert |Lower(tags[k])| == |tags[k]| != 7;
        }
      }
    }
  }

  /** No template carries the tag "creative", so the "Creative" tab is always empty. */
  lemma CreativeIsEmpty(query: string)
    ensures FilteredTemplates("Creative", query) == []
  {
    var lowered := Lower("Creative");
    assert lowered[0] == 'c' && |lowered| == 8;
    assert Lower("Academic")[0] == 'a' && Lower("Research")[0] == 'r';
    forall i | 0 <= i < |Templates| ensures !Matches(Templates[i], "Creative", query) {
      assert !HasTag(Templates[i], "Creative");
    }
    FilterKeepsNone(Templates, "Creative", query);
  }

  /** Search ignores case: a query and its lower-cased form select the same templates. */
  lemma SearchIgnoresCase(ts: seq<Template>, category: string, query: string)
    ensures FilterTemplates(ts, category, query) == FilterTemplates(ts, category, Lower(query))
  {
    LowerIdempotent(query);
    assert forall t :: MatchesSearch(t, query) == MatchesSearch(t, Lower(query));
    FilterSameMatches(ts, category, query, Lower(query));
  }

  lemma {:induction false} FilterSameMatches(ts: seq<Template>, category: string, q1: string, q2: string)
    requires forall t :: MatchesSearch(t, q1) == MatchesSearch(t, q2)
    ensures FilterTemplates(ts, category, q1) == FilterTemplates(ts, category, q2)
    decreases |ts|
  {
    if ts != [] {
      FilterSameMatches(ts[1..], category, q1, q2);
    }
  }
}
