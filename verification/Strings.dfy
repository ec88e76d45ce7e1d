/** Searching in strings, as the C++ and Go libraries do it. */
module Strings {
  import opened Common

  predicate At(s: string, pat: string, i: nat) {
    i + |pat| <= |s| && s[i..i + |pat|] == pat
  }

  /** The first occurrence at or after `i`. */
  function FindFrom(s: string, pat: string, i: nat): (r: Option<nat>)
    requires i <= |s|
    ensures r.Some? ==> i <= r.value && At(s, pat, r.value) && forall j :: i <= j < r.value ==> !At(s, pat, j)
    ensures r.None? ==> forall j :: i <= j ==> !At(s, pat, j)
    decreases |s| - i
  {
    if At(s, pat, i) then Some(i) else if i == |s| then None else FindFrom(s, pat, i + 1)
  }

  function Find(s: string, pat: string): (r: Option<nat>)
    ensures r.Some? ==> At(s, pat, r.value) && forall j: nat :: j < r.value ==> !At(s, pat, j)
    ensures r.None? ==> forall j: nat :: !At(s, pat, j)
  {
    FindFrom(s, pat, 0)
  }

  lemma FirstIs(s: string, pat: string, i: nat)
    requires At(s, pat, i) && forall j: nat :: j < i ==> !At(s, pat, j)
    ensures Find(s, pat) == Some(i)
  {
  }
}
