/**
 * First-seen de-duplication by a string key, in encounter order, skipping
 * records whose key is empty: the loop shared by `get_gauging_stations`,
 * `get_rivers` and `get_river_basins` (app/services/github_data.py).
 */
module Dedup {

  /** Record `i` is kept: its key is non-empty and no earlier record has that key. */
  predicate IsFirst<T>(xs: seq<T>, key: T -> string, i: nat)
    requires i < |xs|
  {
    key(xs[i]) != "" && forall j :: 0 <= j < i ==> key(xs[j]) != key(xs[i])
  }

  /** The kept records, in input order. */
  function FirstByKey<T>(xs: seq<T>, key: T -> string): (kept: seq<T>)
    ensures |kept| <= |xs|
  {
    if xs == [] then []
    else
      var n := |xs| - 1;
      FirstByKey(xs[..n], key) + (if IsFirst(xs, key, n) then [xs[n]] else [])
  }

  /** The input positions of the kept records. */
  ghost function FirstIndices<T>(xs: seq<T>, key: T -> string): seq<nat> {
    if xs == [] then []
    else
      var n := |xs| - 1;
      FirstIndices(xs[..n], key) + (if IsFirst(xs, key, n) then [n] else [])
  }

  lemma IsFirstInPrefix<T>(xs: seq<T>, key: T -> string, m: nat, i: nat)
    requires i < m <= |xs|
    ensures IsFirst(xs[..m], key, i) <==> IsFirst(xs, key, i)
  {
    assert forall j :: 0 <= j <= i ==> xs[..m][j] == xs[j];
  }

  /**
   * The kept records are exactly the records at the first occurrence of each
   * non-empty key, in increasing input position.
   */
  lemma FirstByKeyPositions<T>(xs: seq<T>, key: T -> string)
    ensures var idx := FirstIndices(xs, key);
      && |idx| == |FirstByKey(xs, key)|
      && (forall k :: 0 <= k < |idx| ==> idx[k] < |xs| && FirstByKey(xs, key)[k] == xs[idx[k]])
      && (forall k, l :: 0 <= k < l < |idx| ==> idx[k] < idx[l])
      && (forall i :: 0 <= i < |xs| ==> (IsFirst(xs, key, i) <==> i in idx))
  {
    FirstIndicesShape(xs, key);
    FirstIndicesMembers(xs, key);
  }

  lemma {:induction false} FirstIndicesShape<T>(xs: seq<T>, key: T -> string)
    ensures var idx := FirstIndices(xs, key);
      && |idx| == |FirstByKey(xs, key)|
      && (forall k :: 0 <= k < |idx| ==> idx[k] < |xs| && FirstByKey(xs, key)[k] == xs[idx[k]])
      && (forall k, l :: 0 <= k < l < |idx| ==> idx[k] < idx[l])
  {
    if xs != [] {
      var n := |xs| - 1;
      var pre := xs[..n];
      FirstIndicesShape(pre, key);
      var idxPre, keptPre := FirstIndices(pre, key), FirstByKey(pre, key);
      var idx, kept := FirstIndices(xs, key), FirstByKey(xs, key);
      assert idx == idxPre + (if IsFirst(xs, key, n) then [n] else []);
      assert kept == keptPre + (if IsFirst(xs, key, n) then [xs[n]] else []);
      forall k | 0 <= k < |idxPre| ensures idx[k] == idxPre[k] < n && kept[k] == xs[idx[k]] {
        assert pre[idxPre[k]] == xs[idxPre[k]];
      }
    }
  }

  lemma {:induction false} FirstIndicesMembers<T>(xs: seq<T>, key: T -> string)
    ensures forall i :: 0 <= i < |xs| ==> (IsFirst(xs, key, i) <==> i in FirstIndices(xs, key))
  {
    if xs != [] {
      var n := |xs| - 1;
      var pre := xs[..n];
      FirstIndicesMembers(pre, key);
      FirstIndicesShape(pre, key);
      var idxPre := FirstIndices(pre, key);
      var idx := FirstIndices(xs, key);
      var last := if IsFirst(xs, key, n) then [n] else [];
      assert idx == idxPre + last;
      assert n !in idxPre;
      forall i | 0 <= i < |xs| ensures IsFirst(xs, key, i) <==> i in idx {
        assert i in idx <==> i in idxPre || i in last;
        if i < n {
          IsFirstInPrefix(xs, key, n, i);
        }
      }
    }
  }

  /** Kept keys are non-empty and pairwise distinct. */
  lemma FirstByKeyDistinct<T>(xs: seq<T>, key: T -> string)
    ensures forall k :: 0 <= k < |FirstByKey(xs, key)| ==> key(FirstByKey(xs, key)[k]) != ""
    ensures forall k, l :: 0 <= k < l < |FirstByKey(xs, key)| ==>
      key(FirstByKey(xs, key)[k]) != key(FirstByKey(xs, key)[l])
  {
    FirstByKeyPositions(xs, key);
    var idx := FirstIndices(xs, key);
    var kept := FirstByKey(xs, key);
    forall k, l | 0 <= k < l < |kept| ensures key(kept[k]) != key(kept[l]) {
      assert idx[l] in idx;
      assert IsFirst(xs, key, idx[l]);
    }
    forall k | 0 <= k < |kept| ensures key(kept[k]) != "" {
      assert idx[k] in idx;
    }
  }

  /** Every non-empty input key is kept, with the record of its first occurrence. */
  lemma FirstByKeyComplete<T>(xs: seq<T>, key: T -> string, i: nat)
    requires i < |xs| && key(xs[i]) != ""
    ensures exists k :: 0 <= k < |FirstByKey(xs, key)| && key(FirstByKey(xs, key)[k]) == key(xs[i])
    ensures forall k :: 0 <= k < |FirstByKey(xs, key)| && key(FirstByKey(xs, key)[k]) == key(xs[i]) ==>
      exists f :: 0 <= f <= i && IsFirst(xs, key, f) && FirstByKey(xs, key)[k] == xs[f]
  {
    FirstByKeyPositions(xs, key);
    var idx := FirstIndices(xs, key);
    var kept := FirstByKey(xs, key);
    var f := FirstWithKey(xs, key, i);
    assert f in idx;
    var k :| 0 <= k < |idx| && idx[k] == f;
    assert key(kept[k]) == key(xs[i]);
    forall k' | 0 <= k' < |kept| && key(kept[k']) == key(xs[i])
      ensures exists f' :: 0 <= f' <= i && IsFirst(xs, key, f') && kept[k'] == xs[f']
    {
      assert idx[k'] in idx;
      assert IsFirst(xs, key, idx[k']);
    }
  }

  /** The first position at or before `i` that carries the key of record `i`. */
  lemma FirstWithKey<T>(xs: seq<T>, key: T -> string, i: nat) returns (f: nat)
    requires i < |xs| && key(xs[i]) != ""
    ensures f <= i && key(xs[f]) == key(xs[i]) && IsFirst(xs, key, f)
  {
    f := i;
    while exists j :: 0 <= j < f && key(xs[j]) == key(xs[i])
      invariant f <= i && key(xs[f]) == key(xs[i])
      decreases f
    {
      var g :| 0 <= g < f && key(xs[g]) == key(xs[i]);
      f := g;
    }
  }
}
