/** Sequence helpers shared by the grouping code: concatenating a list of groups
    back into one sequence. */
module Sequences {

  /** The concatenation of all groups, in order (JavaScript's `groups.flat()`). */
  function Flatten<T>(groups: seq<seq<T>>): (s: seq<T>)
    ensures groups == [] ==> s == []
  {
    if groups == [] then [] else Flatten(groups[..|groups| - 1]) + groups[|groups| - 1]
  }

  /** A non-empty sequence is its front followed by its last element. */
  lemma SplitLast<T>(s: seq<T>)
    requires |s| > 0
    ensures s == s[..|s| - 1] + [s[|s| - 1]]
  {
  }

  /** Moving an empty tail, or appending after it: `a` is `b` then `x`, and one of
      `x`, `y` is empty, so `a + y` is `b + y` then `x`. */
  lemma SwapPastEmpty<T>(a: seq<T>, b: seq<T>, x: seq<T>, y: seq<T>)
    requires a == b + x && (x == [] || y == [])
    ensures a + y == b + y + x
  {
  }

  lemma FlattenAppend<T>(groups: seq<seq<T>>, g: seq<T>)
    ensures Flatten(groups + [g]) == Flatten(groups) + g
  {
    assert (groups + [g])[..|groups|] == groups;
  }

  lemma FlattenConcat<T>(a: seq<seq<T>>, b: seq<seq<T>>)
    ensures Flatten(a + b) == Flatten(a) + Flatten(b)
    decreases |b|
  {
    if b == [] {
      assert a + b == a;
    } else {
      var b' := b[..|b| - 1];
      assert a + b == (a + b') + [b[|b| - 1]];
      FlattenAppend(a + b', b[|b| - 1]);
      FlattenConcat(a, b');
      FlattenAppend(b', b[|b| - 1]);
      assert b == b' + [b[|b| - 1]];
    }
  }

  /** Every element of every group is an element of the concatenation. */
  lemma {:induction false} FlattenContains<T>(groups: seq<seq<T>>, j: int, x: T)
    requires 0 <= j < |groups| && x in groups[j]
    ensures x in Flatten(groups)
    decreases |groups|
  {
    var init := groups[..|groups| - 1];
    SplitLast(groups);
    FlattenAppend(init, groups[|groups| - 1]);
    if j < |groups| - 1 {
      FlattenContains(init, j, x);
    }
  }
}
