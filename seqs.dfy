/** Generic sequence operations that the scripts use through the JavaScript
    array library: `filter`, `find`/`findIndex`, `some`. */
module Seqs {

  datatype Option<+T> = None | Some(value: T) {
    function GetOr(default: T): T {
      match this
      case Some(v) => v
      case None => default
    }
  }

  /** `s.filter(p)`: built from the back, so that a loop that pushes the
      elements it keeps extends it one element at a time. */
  function Filter<T>(p: T -> bool, s: seq<T>): (r: seq<T>)
    ensures |r| <= |s|
  {
    if s == [] then [] else Filter(p, s[..|s| - 1]) + (if p(s[|s| - 1]) then [s[|s| - 1]] else [])
  }

  lemma {:induction false} FilterAppend<T>(p: T -> bool, a: seq<T>, b: seq<T>)
    ensures Filter(p, a + b) == Filter(p, a) + Filter(p, b)
    decreases |b|
  {
    if b == [] {
      assert a + b == a;
    } else {
      var b' := b[..|b| - 1];
      assert (a + b)[..|a + b| - 1] == a + b';
      FilterAppend(p, a, b');
    }
  }

  /** Filter over a prefix that grows by one element. */
  lemma FilterSnoc<T>(p: T -> bool, s: seq<T>, k: nat)
    requires k < |s|
    ensures Filter(p, s[..k + 1]) == Filter(p, s[..k]) + (if p(s[k]) then [s[k]] else [])
  {
    assert s[..k + 1][..k] == s[..k];
  }

  /** Filter of a sequence all of whose elements pass (or all fail). */
  lemma {:induction false} FilterKeepsAll<T>(p: T -> bool, s: seq<T>)
    requires forall j :: 0 <= j < |s| ==> p(s[j])
    ensures Filter(p, s) == s
  {
    if s != [] {
      var s' := s[..|s| - 1];
      FilterKeepsAll(p, s');
      assert s == s' + [s[|s| - 1]];
    }
  }

  lemma {:induction false} FilterKeepsNone<T>(p: T -> bool, s: seq<T>)
    requires forall j :: 0 <= j < |s| ==> !p(s[j])
    ensures Filter(p, s) == []
  {
    if s != [] {
      FilterKeepsNone(p, s[..|s| - 1]);
    }
  }

  /** Filter keeps exactly the elements that satisfy `p`. */
  lemma {:induction false} FilterMembers<T>(p: T -> bool, s: seq<T>)
    ensures forall x :: x in Filter(p, s) <==> x in s && p(x)
  {
    if s != [] {
      var s' := s[..|s| - 1];
      FilterMembers(p, s');
      assert s == s' + [s[|s| - 1]];
    }
  }

  /** Filter never reorders: the kept element that comes from position `j`
      of `s` lands at position |Filter(p, s[..j])|. */
  lemma {:induction false} FilterPosition<T>(p: T -> bool, s: seq<T>, j: nat)
    requires j < |s| && p(s[j])
    ensures |Filter(p, s[..j])| < |Filter(p, s)|
    ensures Filter(p, s)[|Filter(p, s[..j])|] == s[j]
  {
    assert s == s[..j] + [s[j]] + s[j + 1..];
    FilterAppend(p, s[..j] + [s[j]], s[j + 1..]);
    FilterAppend(p, s[..j], [s[j]]);
    assert Filter(p, [s[j]]) == [s[j]] by {
      assert [s[j]][..0] == [];
    }
  }

  /** Filter keeps the passing elements in order, each once: `idx` lists,
      increasing, the positions of `s` that pass, and the i-th kept element
      is the one at position idx[i]. */
  lemma {:induction false} FilterIndices<T>(p: T -> bool, s: seq<T>) returns (idx: seq<nat>)
    ensures |idx| == |Filter(p, s)|
    ensures forall i :: 0 <= i < |idx| ==> idx[i] < |s| && p(s[idx[i]]) && Filter(p, s)[i] == s[idx[i]]
    ensures forall i, j :: 0 <= i < j < |idx| ==> idx[i] < idx[j]
    ensures forall k :: 0 <= k < |s| && p(s[k]) ==> k in idx
  {
    if s == [] {
      idx := [];
    } else {
      var n := |s| - 1;
      var s' := s[..n];
      var idx' := FilterIndices(p, s');
      var f' := Filter(p, s');
      if p(s[n]) {
        assert Filter(p, s) == f' + [s[n]];
        idx := idx' + [n];
        FilterIndicesStep(p, s, idx', idx, true);
      } else {
        assert Filter(p, s) == f';
        idx := idx';
        FilterIndicesStep(p, s, idx', idx, false);
      }
    }
  }

  /** One step of FilterIndices: the indices of the prefix without the last
      element, extended by that element's position when it passes. */
  lemma FilterIndicesStep<T>(p: T -> bool, s: seq<T>, idx': seq<nat>, idx: seq<nat>, last: bool)
    requires |s| > 0 && last == p(s[|s| - 1])
    requires idx == idx' + (if last then [|s| - 1] else [])
    requires forall i :: 0 <= i < |idx'| ==> idx'[i] < |s| - 1 && p(s[idx'[i]])
    requires forall i, j :: 0 <= i < j < |idx'| ==> idx'[i] < idx'[j]
    requires forall k :: 0 <= k < |s| - 1 && p(s[k]) ==> k in idx'
    ensures forall i :: 0 <= i < |idx| ==> idx[i] < |s| && p(s[idx[i]])
    ensures forall i, j :: 0 <= i < j < |idx| ==> idx[i] < idx[j]
    ensures forall k :: 0 <= k < |s| && p(s[k]) ==> k in idx
  {
  }

  /** `s.findIndex(p)` as an Option: the first position whose element satisfies `p`. */
  function FirstWhere<T>(p: T -> bool, s: seq<T>): (r: Option<nat>)
    ensures r.Some? ==> r.value < |s| && p(s[r.value]) && forall k :: 0 <= k < r.value ==> !p(s[k])
    ensures r.None? <==> forall k :: 0 <= k < |s| ==> !p(s[k])
  {
    if s == [] then None
    else if p(s[0]) then Some(0)
    else match FirstWhere(p, s[1..])
      case None => None
      case Some(k) => Some(k + 1)
  }

  /** `s.some(p)`. */
  predicate Any<T>(p: T -> bool, s: seq<T>) {
    FirstWhere(p, s).Some?
  }
}
