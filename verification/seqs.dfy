/** The array operations the client and gateway apply to lists of runs and
    workflows: `slice(0, n)`, `reverse()` and counting with `filter`. */
module Seqs {

  function Min(a: nat, b: nat): nat
  {
    if a <= b then a else b
  }

  /** `s.slice(0, n)`: the first `n` elements, or all of `s` if it is shorter. */
  function Take<T>(s: seq<T>, n: nat): (r: seq<T>)
    ensures |r| == Min(n, |s|)
    ensures forall i :: 0 <= i < |r| ==> r[i] == s[i]
  {
    if |s| <= n then s else s[..n]
  }

  /** `s.reverse()`: the same elements, last first. */
  function Reverse<T>(s: seq<T>): (r: seq<T>)
    ensures |r| == |s|
    ensures forall i :: 0 <= i < |s| ==> r[i] == s[|s| - 1 - i]
  {
    if s == [] then [] else Reverse(s[1..]) + [s[0]]
  }

  /** `s.filter(p).length`: how many elements satisfy `p`. */
  function CountIf<T>(s: seq<T>, p: T -> bool): (n: nat)
    ensures n <= |s|
  {
    if s == [] then 0 else CountIf(s[..|s| - 1], p) + (if p(s[|s| - 1]) then 1 else 0)
  }

  /** The positions of `s` whose element satisfies `p`: a reference
      definition of the count that does not walk the list. */
  function Matching<T>(s: seq<T>, p: T -> bool): set<nat>
  {
    set i: nat | i < |s| && p(s[i])
  }

  /** The count equals the number of matching positions. */
  lemma {:induction false} CountIfIsMatchingSize<T>(s: seq<T>, p: T -> bool)
    ensures CountIf(s, p) == |Matching(s, p)|
    decreases |s|
  {
    if s != [] {
      var init := s[..|s| - 1];
      CountIfIsMatchingSize(init, p);
      var last: nat := |s| - 1;
      if p(s[last]) {
        assert Matching(s, p) == Matching(init, p) + {last};
        assert last !in Matching(init, p);
      } else {
        assert Matching(s, p) == Matching(init, p);
      }
    }
  }

  /** The count reaches the length exactly when every element satisfies `p`. */
  lemma {:induction false} CountIfAll<T>(s: seq<T>, p: T -> bool)
    ensures CountIf(s, p) == |s| <==> forall i :: 0 <= i < |s| ==> p(s[i])
    decreases |s|
  {
    if s != [] {
      var init := s[..|s| - 1];
      CountIfAll(init, p);
      assert forall i :: 0 <= i < |init| ==> init[i] == s[i];
    }
  }

  /** The count is zero exactly when no element satisfies `p`. */
  lemma {:induction false} CountIfNone<T>(s: seq<T>, p: T -> bool)
    ensures CountIf(s, p) == 0 <==> forall i :: 0 <= i < |s| ==> !p(s[i])
    decreases |s|
  {
    if s != [] {
      var init := s[..|s| - 1];
      CountIfNone(init, p);
      assert forall i :: 0 <= i < |init| ==> init[i] == s[i];
    }
  }
}
