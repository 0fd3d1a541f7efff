/** The first-occurrence filter of fetch_all_hackathons: keep a record
    exactly when no earlier record of the merged list has its key. */
module Dedupe {
  import opened Records

  /** The set of keys occurring in xs. */
  function KeysOf(xs: seq<Record>): (keys: set<string>)
  {
    set r | r in xs :: Key(r)
  }

  lemma KeysOfAppend(xs: seq<Record>, ys: seq<Record>)
    ensures KeysOf(xs + ys) == KeysOf(xs) + KeysOf(ys)
  {
    assert forall r :: r in xs + ys <==> r in xs || r in ys;
  }

  /** A key that no position of xs carries is not among its keys. */
  lemma NotInKeysOf(xs: seq<Record>, k: string)
    requires forall i :: 0 <= i < |xs| ==> Key(xs[i]) != k
    ensures k !in KeysOf(xs)
  {
    forall r | r in xs
      ensures Key(r) != k
    {
      var i :| 0 <= i < |xs| && xs[i] == r;
    }
  }

  /** No two positions of xs carry the same key. */
  predicate DistinctKeys(xs: seq<Record>)
  {
    forall i, j :: 0 <= i < j < |xs| ==> Key(xs[i]) != Key(xs[j])
  }

  /** Position i holds the first record of xs with its key. */
  predicate IsFirstOccurrence(xs: seq<Record>, i: nat)
    requires i < |xs|
  {
    Key(xs[i]) !in KeysOf(xs[..i])
  }

  /** The filter, read off the loop one record at a time: the result for
      a list is the result for all but its last record, plus that record
      when its key was not yet seen. */
  function KeepFirst(xs: seq<Record>): (unique: seq<Record>)
    ensures |unique| <= |xs|
    decreases |xs|
  {
    if xs == [] then []
    else
      var rest := xs[..|xs| - 1];
      var h := xs[|xs| - 1];
      KeepFirst(rest) + (if Key(h) in KeysOf(rest) then [] else [h])
  }

  /** Every key of the input survives the filter, and no other key. */
  lemma {:induction false} KeepFirstKeys(xs: seq<Record>)
    ensures KeysOf(KeepFirst(xs)) == KeysOf(xs)
    decreases |xs|
  {
    if xs != [] {
      var rest := xs[..|xs| - 1];
      var h := xs[|xs| - 1];
      KeepFirstKeys(rest);
      assert xs == rest + [h];
      KeysOfAppend(rest, [h]);
      var kept := if Key(h) in KeysOf(rest) then [] else [h];
      KeysOfAppend(KeepFirst(rest), kept);
    }
  }

  /** One more round of the loop: how the kept list and the seen keys
      grow when record i is handled. */
  lemma KeepFirstExtend(xs: seq<Record>, i: nat)
    requires i < |xs|
    ensures KeepFirst(xs[..i + 1]) == KeepFirst(xs[..i]) + (if Key(xs[i]) in KeysOf(xs[..i]) then [] else [xs[i]])
    ensures KeysOf(xs[..i + 1]) == KeysOf(xs[..i]) + {Key(xs[i])}
    ensures Key(xs[i]) in KeysOf(xs[..i]) ==> KeysOf(xs[..i + 1]) == KeysOf(xs[..i])
  {
    assert xs[..i + 1][..i] == xs[..i];
    assert xs[..i + 1] == xs[..i] + [xs[i]];
    KeysOfAppend(xs[..i], [xs[i]]);
  }

  /** Dropping the last record does not change which earlier positions
      are first occurrences. */
  lemma FirstOccurrenceInPrefix(xs: seq<Record>, i: nat)
    requires i < |xs| - 1
    ensures IsFirstOccurrence(xs, i) == IsFirstOccurrence(xs[..|xs| - 1], i)
  {
    assert xs[..|xs| - 1][..i] == xs[..i];
  }

  /** The positions of xs that the filter keeps, in increasing order. */
  ghost function FirstIndices(xs: seq<Record>): (ix: seq<nat>)
    ensures forall k :: 0 <= k < |ix| ==> ix[k] < |xs| && IsFirstOccurrence(xs, ix[k])
    ensures forall k, l :: 0 <= k < l < |ix| ==> ix[k] < ix[l]
    decreases |xs|
  {
    if xs == [] then []
    else
      var rest := xs[..|xs| - 1];
      var n := |xs| - 1;
      assert xs[..n] == rest;
      var ix := FirstIndices(rest);
      assert forall k :: 0 <= k < |ix| ==> IsFirstOccurrence(xs, ix[k]) by {
        forall k | 0 <= k < |ix| ensures IsFirstOccurrence(xs, ix[k]) {
          FirstOccurrenceInPrefix(xs, ix[k]);
        }
      }
      ix + (if Key(xs[n]) in KeysOf(rest) then [] else [n])
  }

  /** Every first occurrence is among the kept positions. */
  lemma {:induction false} FirstIndicesComplete(xs: seq<Record>, i: nat)
    requires i < |xs| && IsFirstOccurrence(xs, i)
    ensures i in FirstIndices(xs)
    decreases |xs|
  {
    var n := |xs| - 1;
    var rest := xs[..n];
    if i < n {
      FirstOccurrenceInPrefix(xs, i);
      FirstIndicesComplete(rest, i);
    } else {
      assert xs[..n] == rest;
    }
  }

  /** The output is the subsequence of the input at its first occurrences:
      order is kept and, for each key, the earliest record wins. */
  lemma {:induction false} KeepFirstIsFirstOccurrences(xs: seq<Record>)
    ensures |KeepFirst(xs)| == |FirstIndices(xs)|
    ensures forall k :: 0 <= k < |KeepFirst(xs)| ==> KeepFirst(xs)[k] == xs[FirstIndices(xs)[k]]
    decreases |xs|
  {
    if xs != [] {
      var n := |xs| - 1;
      var rest := xs[..n];
      var u, ix := KeepFirst(rest), FirstIndices(rest);
      KeepFirstIsFirstOccurrences(rest);
      var isNew := Key(xs[n]) !in KeysOf(rest);
      assert KeepFirst(xs) == u + (if isNew then [xs[n]] else []);
      assert FirstIndices(xs) == ix + (if isNew then [n] else []);
      forall k | 0 <= k < |u|
        ensures KeepFirst(xs)[k] == xs[FirstIndices(xs)[k]]
      {
        assert u[k] == rest[ix[k]] == xs[ix[k]];
      }
    }
  }

  /** Every record kept is a record of the input. */
  lemma KeepFirstSubset(xs: seq<Record>, r: Record)
    requires r in KeepFirst(xs)
    ensures r in xs
  {
    KeepFirstIsFirstOccurrences(xs);
    var k :| 0 <= k < |KeepFirst(xs)| && KeepFirst(xs)[k] == r;
    assert xs[FirstIndices(xs)[k]] == r;
  }

  /** The filter never keeps two records with the same key. */
  lemma {:induction false} KeepFirstDistinct(xs: seq<Record>)
    ensures DistinctKeys(KeepFirst(xs))
    decreases |xs|
  {
    if xs != [] {
      var rest := xs[..|xs| - 1];
      var h := xs[|xs| - 1];
      var u := KeepFirst(rest);
      KeepFirstDistinct(rest);
      if Key(h) !in KeysOf(rest) {
        KeepFirstKeys(rest);
        forall i | 0 <= i < |u|
          ensures Key(u[i]) != Key(h)
        {
          assert u[i] in u;
        }
        assert KeepFirst(xs) == u + [h];
      } else {
        assert KeepFirst(xs) == u;
      }
    }
  }

  /** A list whose keys are already distinct passes through unchanged. */
  lemma {:induction false} KeepFirstOfDistinct(xs: seq<Record>)
    requires DistinctKeys(xs)
    ensures KeepFirst(xs) == xs
    decreases |xs|
  {
    if xs != [] {
      var n := |xs| - 1;
      DistinctSplit(xs);
      KeepFirstOfDistinct(xs[..n]);
      KeepFirstExtend(xs, n);
      assert xs[..n + 1] == xs;
      assert xs[..n] + [xs[n]] == xs;
    }
  }

  /** Dropping the last record of a distinct list leaves a distinct list
      that does not hold the last record's key. */
  lemma DistinctSplit(xs: seq<Record>)
    requires xs != [] && DistinctKeys(xs)
    ensures DistinctKeys(xs[..|xs| - 1])
    ensures Key(xs[|xs| - 1]) !in KeysOf(xs[..|xs| - 1])
  {
    var rest := xs[..|xs| - 1];
    assert forall i :: 0 <= i < |rest| ==> rest[i] == xs[i];
    NotInKeysOf(rest, Key(xs[|xs| - 1]));
  }

  /** Filtering twice is filtering once. */
  lemma KeepFirstIdempotent(xs: seq<Record>)
    ensures KeepFirst(KeepFirst(xs)) == KeepFirst(xs)
  {
    KeepFirstDistinct(xs);
    KeepFirstOfDistinct(KeepFirst(xs));
  }
}
