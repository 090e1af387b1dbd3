/** First occurrence of one sequence in another, as `indexOf` finds it. */
module Search {
  import opened Wrappers

  predicate OccursAt<T(==)>(s: seq<T>, m: seq<T>, i: int) {
    0 <= i <= |s| - |m| && s[i..i + |m|] == m
  }

  lemma OccursShift<T>(s: seq<T>, m: seq<T>, j: nat)
    requires 0 < j && s != []
    ensures OccursAt(s, m, j) <==> OccursAt(s[1..], m, j - 1)
  {
    if j <= |s| - |m| {
      assert s[j..j + |m|] == s[1..][j - 1..j - 1 + |m|];
    }
  }

  function IndexOf<T(==)>(s: seq<T>, m: seq<T>): (r: Option<nat>)
    ensures r.Some? ==> OccursAt(s, m, r.value) && forall j | 0 <= j < r.value :: !OccursAt(s, m, j)
    ensures r.None? ==> forall j :: !OccursAt(s, m, j)
    decreases |s|
  {
    if |s| < |m| then None
    else if s[..|m|] == m then
      assert s[0..0 + |m|] == s[..|m|];
      Some(0)
    else
      var t := IndexOf(s[1..], m);
      assert forall j | 0 < j :: OccursAt(s, m, j) <==> OccursAt(s[1..], m, j - 1) by {
        forall j | 0 < j ensures OccursAt(s, m, j) <==> OccursAt(s[1..], m, j - 1) { OccursShift(s, m, j); }
      }
      assert !OccursAt(s, m, 0) by { assert s[0..0 + |m|] == s[..|m|]; }
      if t.None? then None else Some(t.value + 1)
  }

  lemma IndexOfIs<T>(s: seq<T>, m: seq<T>, i: nat)
    requires OccursAt(s, m, i) && forall j | 0 <= j < i :: !OccursAt(s, m, j)
    ensures IndexOf(s, m) == Some(i)
  {
    var r := IndexOf(s, m);
    assert r.Some? && r.value >= i;
  }
}
