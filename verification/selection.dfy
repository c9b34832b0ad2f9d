/** Order-preserving selection: keep, in input order, the transformed
    elements for which a per-element step yields a value. Both the market
    comprehension and the per-symbol loop of the filter have this shape. */
module Selection {
  import opened Wrappers

  function Emit<B>(o: Option<B>): seq<B> {
    match o
    case Some(b) => [b]
    case None => []
  }

  /** Defined from the end, so that a left-to-right loop extends it one
      element at a time. */
  function FilterMap<A, B>(s: seq<A>, f: A -> Option<B>): (r: seq<B>)
    ensures |r| <= |s|
  {
    if s == [] then [] else FilterMap(s[..|s| - 1], f) + Emit(f(s[|s| - 1]))
  }

  /** Strictly increasing positions below n. */
  ghost predicate Increasing(idx: seq<nat>, n: nat) {
    (forall k :: 0 <= k < |idx| ==> idx[k] < n) &&
    (forall k, l :: 0 <= k < l < |idx| ==> idx[k] < idx[l])
  }

  /** The selection is exactly the elements whose step yields a value, in
      input order, each taken once: the returned positions witness it. */
  lemma {:induction false} FilterMapPositions<A, B>(s: seq<A>, f: A -> Option<B>) returns (idx: seq<nat>)
    ensures |idx| == |FilterMap(s, f)|
    ensures Increasing(idx, |s|)
    ensures forall k :: 0 <= k < |idx| ==> f(s[idx[k]]) == Some(FilterMap(s, f)[k])
    ensures forall i :: 0 <= i < |s| && f(s[i]).Some? ==> i in idx
  {
    if s == [] {
      idx := [];
    } else {
      var n := |s| - 1;
      var init := s[..n];
      var prev := FilterMapPositions(init, f);
      var r0 := FilterMap(init, f);
      var r := FilterMap(s, f);
      assert r == r0 + Emit(f(s[n]));
      forall k | 0 <= k < |prev|
        ensures prev[k] < n && f(s[prev[k]]) == Some(r[k])
      {
        assert init[prev[k]] == s[prev[k]];
      }
      forall i | 0 <= i < n && f(s[i]).Some?
        ensures i in prev
      {
        assert init[i] == s[i];
      }
      if f(s[n]).Some? {
        idx := prev + [n];
        assert r[|r0|] == f(s[n]).value;
      } else {
        idx := prev;
      }
    }
  }
}
