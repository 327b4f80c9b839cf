/** First-match search, the shape of every `next((x for x in xs if p(x)), None)`
    in the resolvers. */
module Seqs {
  import opened Results

  /** Index of the first element satisfying `p`, if any. */
  function FirstIndex<T>(s: seq<T>, p: T -> bool): (r: Option<nat>)
    ensures r.Some? ==> r.value < |s| && p(s[r.value])
    ensures r.Some? ==> forall j :: 0 <= j < r.value ==> !p(s[j])
    ensures r.None? <==> forall j :: 0 <= j < |s| ==> !p(s[j])
  {
    FirstIndexFrom(s, p, 0)
  }

  function FirstIndexFrom<T>(s: seq<T>, p: T -> bool, i: nat): (r: Option<nat>)
    requires i <= |s|
    decreases |s| - i
    ensures r.Some? ==> i <= r.value < |s| && p(s[r.value])
    ensures r.Some? ==> forall j :: i <= j < r.value ==> !p(s[j])
    ensures r.None? <==> forall j :: i <= j < |s| ==> !p(s[j])
  {
    if i == |s| then None
    else if p(s[i]) then Some(i)
    else FirstIndexFrom(s, p, i + 1)
  }
}
