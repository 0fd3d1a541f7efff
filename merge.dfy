/** The collection loop of fetch_all_hackathons: each finished future
    either extends `results` with its list or, when it raised, is logged
    and skipped. */
module Merge {
  import opened Records

  /** What one finished future adds to `results`. */
  function Contribution(o: Outcome): (rs: seq<Record>)
    ensures o.Raised? ==> rs == []
  {
    match o
    case Completed(records) => records
    case Raised => []
  }

  /** `results` after the loop has handled every outcome of outs, in order. */
  function Merged(outs: seq<Outcome>): (results: seq<Record>)
    decreases |outs|
  {
    if outs == [] then []
    else Merged(outs[..|outs| - 1]) + Contribution(outs[|outs| - 1])
  }

  /** One more round of the loop: handling outcome k extends `results`
      by what that outcome contributes. */
  lemma MergedExtend(outs: seq<Outcome>, k: nat)
    requires k < |outs|
    ensures Merged(outs[..k + 1]) == Merged(outs[..k]) + Contribution(outs[k])
  {
    assert outs[..k + 1][..k] == outs[..k];
  }

  /** Merging is a homomorphism from outcome lists to record lists. */
  lemma {:induction false} MergedAppend(a: seq<Outcome>, b: seq<Outcome>)
    ensures Merged(a + b) == Merged(a) + Merged(b)
    decreases |b|
  {
    if b == [] {
      assert a + b == a;
    } else {
      var b' := b[..|b| - 1];
      assert (a + b)[..|a + b| - 1] == a + b';
      assert (a + b)[|a + b| - 1] == b[|b| - 1];
      MergedAppend(a, b');
    }
  }

  /** A source that raised contributes nothing and leaves the sources
      before and after it untouched. */
  lemma RaisedIsIsolated(a: seq<Outcome>, b: seq<Outcome>)
    ensures Merged(a + [Raised] + b) == Merged(a + b)
  {
    var a' := a + [Raised];
    assert a'[..|a'| - 1] == a;
    calc {
      Merged(a' + b);
      { MergedAppend(a', b); }
      Merged(a') + Merged(b);
      Merged(a) + Merged(b);
      { MergedAppend(a, b); }
      Merged(a + b);
    }
  }

  /** A successful source's list sits in `results` whole and in its own
      order, between what came before and what came after it. */
  lemma CompletedIsContiguous(outs: seq<Outcome>, i: nat)
    requires i < |outs|
    ensures Merged(outs) == Merged(outs[..i]) + Contribution(outs[i]) + Merged(outs[i + 1..])
  {
    calc {
      Merged(outs);
      { assert outs == outs[..i + 1] + outs[i + 1..]; }
      Merged(outs[..i + 1] + outs[i + 1..]);
      { MergedAppend(outs[..i + 1], outs[i + 1..]); }
      Merged(outs[..i + 1]) + Merged(outs[i + 1..]);
      { MergedExtend(outs, i); }
      Merged(outs[..i]) + Contribution(outs[i]) + Merged(outs[i + 1..]);
    }
  }

  /** A record is merged exactly when some source returned it. */
  lemma {:induction false} MergedMembership(outs: seq<Outcome>, r: Record)
    ensures r in Merged(outs) <==> exists i :: 0 <= i < |outs| && r in Contribution(outs[i])
    decreases |outs|
  {
    if outs != [] {
      var rest := outs[..|outs| - 1];
      MergedMembership(rest, r);
      assert forall i :: 0 <= i < |rest| ==> rest[i] == outs[i];
    }
  }

  /** as_completed yields each of the n submitted futures exactly once:
      order[k] is the registration index of the k-th future to finish. */
  predicate IsCompletionOrder(order: seq<nat>, n: nat)
  {
    && |order| == n
    && (forall k :: 0 <= k < |order| ==> order[k] < n)
    && (forall i :: 0 <= i < n ==> i in order)
  }

  /** The registration indices of the first n futures. */
  function Indices(n: nat): (ix: set<nat>)
    ensures |ix| == n
    ensures forall i: nat :: i in ix <==> i < n
  {
    if n == 0 then {}
    else
      var ix := Indices(n - 1);
      assert n - 1 !in ix;
      ix + {n - 1}
  }

  /** The registration indices named by the positions in ks. */
  function Named(order: seq<nat>, ks: set<nat>): (named: set<nat>)
    requires forall k :: k in ks ==> k < |order|
    ensures |named| <= |ks|
    ensures forall k :: k in ks ==> order[k] in named
    ensures forall i :: i in named ==> exists k :: k in ks && order[k] == i
    decreases |ks|
  {
    if ks == {} then {}
    else
      var k :| k in ks;
      var named := Named(order, ks - {k});
      assert |ks - {k}| == |ks| - 1;
      named + {order[k]}
  }

  lemma SubsetSize(a: set<nat>, b: set<nat>)
    ensures a <= b ==> |a| <= |b|
  {
    if a <= b {
      assert b == a + (b - a);
    }
  }

  /** A completion order never names a future twice: n positions cover
      all n registration indices, so no two can share one. */
  lemma CompletionOrderIsInjective(order: seq<nat>, n: nat, p: nat, q: nat)
    requires IsCompletionOrder(order, n)
    requires p < q < n
    ensures order[p] != order[q]
  {
    var others := Indices(n) - {q};
    assert |others| == n - 1;
    var named := Named(order, others);
    SubsetSize(Indices(n), named);
    forall i | i in Indices(n) && order[p] == order[q]
      ensures i in named
    {
      assert i in order;
      var k :| 0 <= k < |order| && order[k] == i;
      if k == q {
        assert p in others;
      } else {
        assert k in others;
      }
    }
  }

  /** The outcomes, listed in registration order, rearranged into the
      order in which their futures finished. */
  function InCompletionOrder(outs: seq<Outcome>, order: seq<nat>): (done: seq<Outcome>)
    requires IsCompletionOrder(order, |outs|)
    ensures |done| == |outs|
    ensures forall k :: 0 <= k < |done| ==> done[k] == outs[order[k]]
  {
    seq(|order|, k requires 0 <= k < |order| => outs[order[k]])
  }

  /** Whatever the completion order, the merged list holds exactly the
      records the sources returned. */
  lemma MergedInAnyOrder(outs: seq<Outcome>, order: seq<nat>, r: Record)
    requires IsCompletionOrder(order, |outs|)
    ensures r in Merged(InCompletionOrder(outs, order)) <==> r in Merged(outs)
  {
    var done := InCompletionOrder(outs, order);
    MergedMembership(done, r);
    MergedMembership(outs, r);
    if r in Merged(outs) {
      var i :| 0 <= i < |outs| && r in Contribution(outs[i]);
      assert i in order;
      var k :| 0 <= k < |order| && order[k] == i;
      assert done[k] == outs[i];
    }
    if r in Merged(done) {
      var k :| 0 <= k < |done| && r in Contribution(done[k]);
      assert done[k] == outs[order[k]];
    }
  }
}
