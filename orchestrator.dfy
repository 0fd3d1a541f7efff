/** fetch_all_hackathons: run the four scrapers, collect each future as
    it finishes, then keep the first record of every key. The thread pool
    is replaced by the order in which the futures finish. */
module Orchestrator {
  import opened Records
  import opened Dedupe
  import opened Merge
  import opened Scrolling
  import opened Adapters

  /** What each registered scraper will meet when it runs. */
  datatype Sources = Sources(
    devpost: Browser<DevpostPage>,
    devfolio: Api<seq<DevfolioHackathon>>,
    mlh: Api<MlhBody>,
    hackathonCom: Browser<seq<Card>>)

  /** The four futures' outcomes in registration order (Devpost, Devfolio,
      MLH, Hackathon.com); None when Devpost's page rendered but its scroll
      loop has not stopped within its observations, so the executor's
      `with` block would still be waiting. Devfolio and MLH catch their own
      errors and always complete. */
  function RegisteredOutcomes(s: Sources): (r: Option<seq<Outcome>>)
    ensures r.Some? <==> DevpostRun(s.devpost).Some?
    ensures r.Some? ==> |r.value| == 4
    ensures r.Some? ==> r.value[1] == Completed(DevfolioResult(s.devfolio)) && r.value[2] == Completed(MlhResult(s.mlh))
    ensures r.Some? ==> (r.value[0].Raised? <==> s.devpost.BrowserFailed?) && (r.value[3].Raised? <==> s.hackathonCom.BrowserFailed?)
    ensures r.Some? && s.devpost.Rendered? ==> r.value[0] == Completed(Collect(s.devpost.page.tiles, DevpostTile))
    ensures r.Some? && s.hackathonCom.Rendered? ==> r.value[3] == Completed(Collect(s.hackathonCom.page, CardRecord))
  {
    match DevpostRun(s.devpost)
    case None => None
    case Some(devpost) =>
      Some([devpost, Completed(DevfolioResult(s.devfolio)), Completed(MlhResult(s.mlh)), HackathonComRun(s.hackathonCom)])
  }

  /** The body of fetch_all_hackathons after the futures are submitted:
      collect the finished futures, then drop repeated keys. */
  method FetchAllHackathons(outcomes: seq<Outcome>, order: seq<nat>) returns (unique: seq<Record>)
    requires IsCompletionOrder(order, |outcomes|)
    ensures unique == KeepFirst(Merged(InCompletionOrder(outcomes, order)))
  {
    var results := CollectFinished(outcomes, order);
    unique := DropRepeatedKeys(results);
  }

  /** The `as_completed` loop: extend `results` with what each future
      returned, in the order the futures finish, and skip a future that
      raised. */
  method CollectFinished(outcomes: seq<Outcome>, order: seq<nat>) returns (results: seq<Record>)
    requires IsCompletionOrder(order, |outcomes|)
    ensures results == Merged(InCompletionOrder(outcomes, order))
  {
    ghost var done := InCompletionOrder(outcomes, order);
    results := [];
    for k := 0 to |order|
      invariant results == Merged(done[..k])
    {
      MergedExtend(done, k);
      var future := outcomes[order[k]];
      match future
      case Completed(data) =>
        results := results + data;
      case Raised =>
    }
    assert done[..|order|] == done;
  }

  /** The loop over `seen` and `unique`: keep a record only when its key
      has not been seen before. */
  method DropRepeatedKeys(results: seq<Record>) returns (unique: seq<Record>)
    ensures unique == KeepFirst(results)
  {
    var seen: set<string> := {};
    unique := [];
    for i := 0 to |results|
      invariant unique == KeepFirst(results[..i])
      invariant seen == KeysOf(results[..i])
    {
      KeepFirstExtend(results, i);
      var h := results[i];
      var key := Key(h);
      if key !in seen {
        seen := seen + {key};
        unique := unique + [h];
      }
    }
    assert results[..|results|] == results;
  }

  /** The result never holds two records with the same key and is stable
      under a second pass (which record of each key is kept is stated by
      KeepFirstIsFirstOccurrences). */
  lemma FetchAllDistinct(outcomes: seq<Outcome>, order: seq<nat>)
    requires IsCompletionOrder(order, |outcomes|)
    ensures DistinctKeys(KeepFirst(Merged(InCompletionOrder(outcomes, order))))
    ensures KeepFirst(KeepFirst(Merged(InCompletionOrder(outcomes, order)))) == KeepFirst(Merged(InCompletionOrder(outcomes, order)))
  {
    KeepFirstDistinct(Merged(InCompletionOrder(outcomes, order)));
    KeepFirstIdempotent(Merged(InCompletionOrder(outcomes, order)));
  }

  /** Whatever order the futures finish in, the result covers exactly the
      keys of the records the successful sources returned: the key set
      does not depend on timing, and a source that raised loses nothing
      of the others. */
  lemma FetchAllKeysIndependentOfOrder(outcomes: seq<Outcome>, order: seq<nat>)
    requires IsCompletionOrder(order, |outcomes|)
    ensures KeysOf(KeepFirst(Merged(InCompletionOrder(outcomes, order)))) == KeysOf(Merged(outcomes))
  {
    var merged := Merged(InCompletionOrder(outcomes, order));
    KeepFirstKeys(merged);
    forall r
      ensures r in merged <==> r in Merged(outcomes)
    {
      MergedInAnyOrder(outcomes, order, r);
    }
  }

  /** Devfolio and MLH never raise, so every key they produce reaches the
      result of a run that finishes, whatever Devpost and Hackathon.com
      do and in whichever order the futures complete. */
  lemma ApiSourcesAlwaysReachResult(s: Sources, order: seq<nat>, r: Record)
    requires IsCompletionOrder(order, 4)
    requires r in DevfolioResult(s.devfolio) || r in MlhResult(s.mlh)
    ensures RegisteredOutcomes(s).Some? ==>
              Key(r) in KeysOf(KeepFirst(Merged(InCompletionOrder(RegisteredOutcomes(s).value, order))))
  {
    if RegisteredOutcomes(s).None? {
      return;
    }
    var outs := RegisteredOutcomes(s).value;
    FetchAllKeysIndependentOfOrder(outs, order);
    MergedMembership(outs, r);
    if r in DevfolioResult(s.devfolio) {
      assert r in Contribution(outs[1]);
    } else {
      assert r in Contribution(outs[2]);
    }
  }
}
