/** Generic sequence helpers: `Array.prototype.slice(0, n)` and the order-preserving sub-list relation. */
module Sequences {

  /** `xs.slice(0, n)`: the first `n` elements, or all of them when there are fewer. */
  function Take<T>(xs: seq<T>, n: nat): (r: seq<T>)
    ensures |r| <= n && |r| <= |xs|
    ensures |r| == if |xs| <= n then |xs| else n
    ensures r <= xs
  {
    if |xs| <= n then xs else xs[..n]
  }

  /** `sub` is obtained from `xs` by deleting elements, keeping the order of the rest. */
  predicate IsSubsequence<T(==)>(sub: seq<T>, xs: seq<T>)
    decreases |xs|
  {
    if sub == [] then true
    else if xs == [] then false
    else if sub[0] == xs[0] then IsSubsequence(sub[1..], xs[1..])
    else IsSubsequence(sub, xs[1..])
  }

  lemma {:induction false} SubsequenceOfTail<T>(sub: seq<T>, xs: seq<T>)
    requires xs != [] && IsSubsequence(sub, xs[1..])
    ensures IsSubsequence(sub, xs)
    decreases |xs|, |sub|
  {
    if sub != [] && sub[0] == xs[0] {
      SubsequenceDropHead(sub, xs[1..]);
    }
  }

  lemma {:induction false} SubsequenceDropHead<T>(sub: seq<T>, xs: seq<T>)
    requires sub != [] && IsSubsequence(sub, xs)
    ensures IsSubsequence(sub[1..], xs)
    decreases |xs|, |sub|
  {
    if sub[0] == xs[0] {
      if sub[1..] != [] {
        SubsequenceOfTail(sub[1..], xs);
      }
    } else {
      SubsequenceDropHead(sub, xs[1..]);
      if sub[1..] != [] {
        SubsequenceOfTail(sub[1..], xs);
      }
    }
  }

  /** Every element of a sub-list occurs in the list. */
  lemma {:induction false} SubsequenceMembers<T>(sub: seq<T>, xs: seq<T>)
    requires IsSubsequence(sub, xs)
    ensures forall x :: x in sub ==> x in xs
    decreases |xs|
  {
    if sub != [] {
      if sub[0] == xs[0] {
        SubsequenceMembers(sub[1..], xs[1..]);
        assert sub == [sub[0]] + sub[1..];
      } else {
        SubsequenceMembers(sub, xs[1..]);
      }
    }
  }

  /** The elements of `xs` whose flag in `keep` is set, in order: a list built by conditional pushes. */
  function Select<T>(xs: seq<T>, keep: seq<bool>): (r: seq<T>)
    requires |keep| == |xs|
    ensures |r| <= |xs|
    decreases |xs|
  {
    if xs == [] then []
    else
      var head := if keep[0] then [xs[0]] else [];
      head + Select(xs[1..], keep[1..])
  }

  predicate Distinct<T(==)>(xs: seq<T>) {
    forall i, j :: 0 <= i < j < |xs| ==> xs[i] != xs[j]
  }

  /** A selection keeps the order of the list. */
  lemma {:induction false} SelectSubsequence<T>(xs: seq<T>, keep: seq<bool>)
    requires |keep| == |xs|
    ensures IsSubsequence(Select(xs, keep), xs)
    decreases |xs|
  {
    if xs != [] {
      SelectSubsequence(xs[1..], keep[1..]);
      var rest := Select(xs[1..], keep[1..]);
      if keep[0] {
        assert Select(xs, keep) == [xs[0]] + rest;
        assert ([xs[0]] + rest)[1..] == rest;
      } else {
        assert Select(xs, keep) == rest;
        if rest != [] {
          SubsequenceOfTail(rest, xs);
        }
      }
    }
  }

  /** In a list without repetitions, an element is selected exactly when its flag is set. */
  lemma {:induction false} SelectMembers<T>(xs: seq<T>, keep: seq<bool>, i: nat)
    requires |keep| == |xs| && Distinct(xs) && i < |xs|
    ensures xs[i] in Select(xs, keep) <==> keep[i]
    decreases |xs|
  {
    var rest := Select(xs[1..], keep[1..]);
    assert Select(xs, keep) == (if keep[0] then [xs[0]] else []) + rest;
    if i == 0 {
      SelectOnlyFrom(xs[1..], keep[1..]);
      assert xs[0] !in xs[1..];
    } else {
      SelectMembers(xs[1..], keep[1..], i - 1);
      assert xs[1..][i - 1] == xs[i];
      assert xs[i] != xs[0];
    }
  }

  /** Every selected element comes from the list. */
  lemma SelectOnlyFrom<T>(xs: seq<T>, keep: seq<bool>)
    requires |keep| == |xs|
    ensures forall x :: x in Select(xs, keep) ==> x in xs
  {
    SelectSubsequence(xs, keep);
    SubsequenceMembers(Select(xs, keep), xs);
  }

  /** Nothing is selected exactly when no flag is set. */
  lemma {:induction false} SelectEmpty<T>(xs: seq<T>, keep: seq<bool>)
    requires |keep| == |xs|
    ensures Select(xs, keep) == [] <==> forall i :: 0 <= i < |keep| ==> !keep[i]
    decreases |xs|
  {
    if xs != [] {
      SelectEmpty(xs[1..], keep[1..]);
      if forall i :: 0 <= i < |keep[1..]| ==> !keep[1..][i] {
        if !keep[0] {
          forall i | 0 <= i < |keep| ensures !keep[i] {
            if i > 0 { assert keep[i] == keep[1..][i - 1]; }
          }
        }
      } else {
        var j :| 0 <= j < |keep[1..]| && keep[1..][j];
        assert keep[j + 1];
      }
    }
  }

  /** Four conditional pushes, one per element, build the selection. */
  lemma SelectFour<T>(xs: seq<T>, keep: seq<bool>)
    requires |xs| == 4 && |keep| == 4
    ensures Select(xs, keep) ==
      (if keep[0] then [xs[0]] else []) + (if keep[1] then [xs[1]] else [])
      + (if keep[2] then [xs[2]] else []) + (if keep[3] then [xs[3]] else [])
  {
    assert Select(xs[4..], keep[4..]) == [];
    assert Select(xs[3..], keep[3..]) == (if keep[3] then [xs[3]] else []) + Select(xs[4..], keep[4..]);
    assert Select(xs[2..], keep[2..]) == (if keep[2] then [xs[2]] else []) + Select(xs[3..], keep[3..]);
    assert Select(xs[1..], keep[1..]) == (if keep[1] then [xs[1]] else []) + Select(xs[2..], keep[2..]);
  }

  /** Five conditional pushes, one per element, build the selection. */
  lemma SelectFive<T>(xs: seq<T>, keep: seq<bool>)
    requires |xs| == 5 && |keep| == 5
    ensures Select(xs, keep) ==
      (if keep[0] then [xs[0]] else []) + (if keep[1] then [xs[1]] else [])
      + (if keep[2] then [xs[2]] else []) + (if keep[3] then [xs[3]] else [])
      + (if keep[4] then [xs[4]] else [])
  {
    SelectFour(xs[1..], keep[1..]);
    assert Select(xs, keep) == (if keep[0] then [xs[0]] else []) + Select(xs[1..], keep[1..]);
  }
}
