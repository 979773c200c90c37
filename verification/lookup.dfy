/**
 The list scan shared by the client's three lookups: walk the list in order
 (JavaScript `forEach`) and, at every element that matches, overwrite the
 selected value. The module also gives an independent description of what
 that scan yields, the index of the LAST matching element, and proves the
 two agree.
 */
module Lookup {
  import opened Optional

  /** `i` is a match and nothing after it matches. */
  predicate IsLastMatch<T>(xs: seq<T>, matches: T -> bool, i: int) {
    0 <= i < |xs| && matches(xs[i]) && forall j :: i < j < |xs| ==> !matches(xs[j])
  }

  predicate NoMatch<T>(xs: seq<T>, matches: T -> bool) {
    forall i :: 0 <= i < |xs| ==> !matches(xs[i])
  }

  /** The reference: search from the back for the last matching index. */
  function LastMatchIndex<T>(xs: seq<T>, matches: T -> bool): (r: Option<nat>)
    ensures r.None? <==> NoMatch(xs, matches)
    ensures r.Some? ==> IsLastMatch(xs, matches, r.value)
  {
    if |xs| == 0 then None
    else if matches(xs[|xs| - 1]) then Some(|xs| - 1)
    else LastMatchIndex(xs[..|xs| - 1], matches)
  }

  lemma LastMatchIsUnique<T>(xs: seq<T>, matches: T -> bool, i: int)
    requires IsLastMatch(xs, matches, i)
    ensures LastMatchIndex(xs, matches) == Some(i)
  {
  }

  /** The scan as the source writes it: `acc` is the variable the loop body
      assigns, `pick` what it assigns from a matching element. */
  function ForEachOverwrite<T, U>(xs: seq<T>, matches: T -> bool, pick: T -> U, acc: Option<U>): (r: Option<U>)
    ensures r == acc || exists i :: 0 <= i < |xs| && matches(xs[i]) && r == Some(pick(xs[i]))
  {
    if |xs| == 0 then acc
    else
      var acc' := if matches(xs[0]) then Some(pick(xs[0])) else acc;
      var r := ForEachOverwrite(xs[1..], matches, pick, acc');
      assert r != acc' ==> exists i :: 0 <= i < |xs[1..]| && matches(xs[1..][i]) && r == Some(pick(xs[1..][i]));
      assert forall i :: 0 <= i < |xs[1..]| ==> xs[1..][i] == xs[i + 1];
      r
  }

  /** The scan keeps the initial value when nothing matches and otherwise
      ends holding the pick of the LAST matching element. */
  lemma {:induction false} ForEachOverwriteKeepsLastMatch<T, U>(xs: seq<T>, matches: T -> bool, pick: T -> U, acc: Option<U>)
    ensures LastMatchIndex(xs, matches).None? ==> ForEachOverwrite(xs, matches, pick, acc) == acc
    ensures LastMatchIndex(xs, matches).Some? ==>
      ForEachOverwrite(xs, matches, pick, acc) == Some(pick(xs[LastMatchIndex(xs, matches).value]))
  {
    if |xs| > 0 {
      var rest := xs[1..];
      var acc' := if matches(xs[0]) then Some(pick(xs[0])) else acc;
      ForEachOverwriteKeepsLastMatch(rest, matches, pick, acc');
      match LastMatchIndex(rest, matches)
      case Some(k) =>
        assert IsLastMatch(xs, matches, k + 1);
        LastMatchIsUnique(xs, matches, k + 1);
      case None =>
        if matches(xs[0]) {
          assert IsLastMatch(xs, matches, 0);
          LastMatchIsUnique(xs, matches, 0);
        } else {
          assert NoMatch(xs, matches);
        }
    }
  }

  /** Among several matches, the earlier ones never win. */
  lemma EarlierMatchLoses<T>(xs: seq<T>, matches: T -> bool, i: int, j: int)
    requires 0 <= i < j < |xs| && matches(xs[i]) && matches(xs[j])
    ensures LastMatchIndex(xs, matches).Some?
    ensures j <= LastMatchIndex(xs, matches).value
  {
  }
}
