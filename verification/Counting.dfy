/** How many elements of a sequence satisfy a predicate. */
module Counting {

  function Count<T>(s: seq<T>, f: T -> bool): nat {
    if s == [] then 0 else Count(s[..|s| - 1], f) + if f(s[|s| - 1]) then 1 else 0
  }

  lemma {:induction false} CountUpdate<T>(s: seq<T>, f: T -> bool, i: nat, x: T)
    requires i < |s|
    ensures Count(s[i := x], f) == Count(s, f) - (if f(s[i]) then 1 else 0) + (if f(x) then 1 else 0)
  {
    var p := s[..|s| - 1];
    if i < |p| {
      assert s[i := x][..|s| - 1] == p[i := x];
      CountUpdate(p, f, i, x);
    } else {
      assert s[i := x][..|s| - 1] == p;
    }
  }

  lemma {:induction false} CountExtremes<T>(s: seq<T>, f: T -> bool)
    ensures Count(s, f) <= |s|
    ensures Count(s, f) == |s| <==> forall i :: 0 <= i < |s| ==> f(s[i])
    ensures Count(s, f) == 0 <==> forall i :: 0 <= i < |s| ==> !f(s[i])
  {
    if s != [] {
      var p := s[..|s| - 1];
      CountExtremes(p, f);
      assert forall i :: 0 <= i < |p| ==> p[i] == s[i];
      CountExtremes(p, f);
      assert f(s[|s| - 1]) || !f(s[|s| - 1]);
      assert (forall i :: 0 <= i < |s| ==> f(s[i])) <==> (forall i :: 0 <= i < |p| ==> f(p[i])) && f(s[|s| - 1]);
      assert (forall i :: 0 <= i < |s| ==> !f(s[i])) <==> (forall i :: 0 <= i < |p| ==> !f(p[i])) && !f(s[|s| - 1]);
    }
  }

  /** How many of the first `i` steps have changed something. */
  function Changes<T(==)>(states: seq<T>, i: nat): nat
    requires i < |states|
  {
    if i == 0 then 0 else Changes(states, i - 1) + if states[i] != states[i - 1] then 1 else 0
  }
}
