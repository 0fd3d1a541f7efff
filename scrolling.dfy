/** _fast_scroll_devpost: keep scrolling Devpost's listing until five
    "stagnation points" have accumulated. The browser is replaced by the
    sequence of what each scroll round observes. */
module Scrolling {

  /** What one scroll round reads back: document.body.scrollHeight and the
      number of elements with class "hackathon-tile". */
  datatype Observation = Observation(height: int, tileCount: nat)

  /** The loop's variables: last_height, stagnant and len(tiles). */
  datatype ScrollState = ScrollState(lastHeight: int, stagnant: nat, tiles: nat)

  /** Where the loop stands when it stops, or when the observations run
      out first; consumed counts the rounds taken. */
  datatype ScrollEnd = ScrollEnd(state: ScrollState, consumed: nat)

  const STAGNANT_LIMIT: nat := 5

  /** The state before the first round: the height read before the loop,
      nothing stagnant, the empty tile set. */
  function Start(initialHeight: int): (s: ScrollState)
  {
    ScrollState(initialHeight, 0, 0)
  }

  /** One round of the loop body. */
  function Step(s: ScrollState, o: Observation): (t: ScrollState)
    ensures t.lastHeight == o.height
    ensures t.stagnant == 0 <==> o.tileCount > s.tiles && o.height != s.lastHeight
    ensures o.tileCount > s.tiles ==> t.tiles == o.tileCount && t.stagnant <= 1
    ensures o.tileCount <= s.tiles ==> t.tiles == s.tiles && t.stagnant == s.stagnant + (if o.height == s.lastHeight then 2 else 1)
    ensures o.height == s.lastHeight ==> t.stagnant >= 1
  {
    var grew := o.tileCount > s.tiles;
    var stagnant := if grew then 0 else s.stagnant + 1;
    var stagnant' := if o.height == s.lastHeight then stagnant + 1 else stagnant;
    ScrollState(o.height, stagnant', if grew then o.tileCount else s.tiles)
  }

  /** The loop `while stagnant < 5`, run over the observations in order. */
  function Scroll(s: ScrollState, obs: seq<Observation>): (e: ScrollEnd)
    ensures e.consumed <= |obs|
    decreases |obs|
  {
    if s.stagnant >= STAGNANT_LIMIT || obs == [] then ScrollEnd(s, 0)
    else
      var e := Scroll(Step(s, obs[0]), obs[1..]);
      ScrollEnd(e.state, e.consumed + 1)
  }

  /** The loop leaves only once stagnant has reached the limit: if it
      stops before the observations run out, stagnant is at least 5. */
  lemma {:induction false} ScrollStopsOnlyAtLimit(s: ScrollState, obs: seq<Observation>)
    ensures Scroll(s, obs).consumed < |obs| ==> Scroll(s, obs).state.stagnant >= STAGNANT_LIMIT
    decreases |obs|
  {
    if s.stagnant < STAGNANT_LIMIT && obs != [] {
      ScrollStopsOnlyAtLimit(Step(s, obs[0]), obs[1..]);
    }
  }

  /** Every round taken started below the limit: the loop does not run
      past its first chance to stop. */
  lemma {:induction false} ScrollRoundsBelowLimit(s: ScrollState, obs: seq<Observation>, k: nat)
    requires k < Scroll(s, obs).consumed
    ensures RunState(s, obs, k).stagnant < STAGNANT_LIMIT
    decreases |obs|
  {
    if k > 0 {
      ScrollRoundsBelowLimit(Step(s, obs[0]), obs[1..], k - 1);
    }
  }

  /** The state after the first k rounds. */
  function RunState(s: ScrollState, obs: seq<Observation>, k: nat): (t: ScrollState)
    requires k <= |obs|
    decreases k
  {
    if k == 0 then s else RunState(Step(s, obs[0]), obs[1..], k - 1)
  }

  /** The largest tile count among the observations, 0 for none. */
  function MaxCount(obs: seq<Observation>): (m: nat)
    ensures forall i :: 0 <= i < |obs| ==> obs[i].tileCount <= m
    ensures obs != [] ==> exists i :: 0 <= i < |obs| && obs[i].tileCount == m
    decreases |obs|
  {
    if obs == [] then 0
    else
      var m := MaxCount(obs[1..]);
      if obs[0].tileCount > m then obs[0].tileCount else m
  }

  function Max(a: nat, b: nat): (m: nat) { if a < b then b else a }

  /** `tiles` only ever grows, to the largest count observed: after the
      loop its size is the maximum of the starting size and every count
      read in the rounds taken. */
  lemma {:induction false} ScrollTilesIsMax(s: ScrollState, obs: seq<Observation>)
    ensures Scroll(s, obs).state.tiles == Max(s.tiles, MaxCount(obs[..Scroll(s, obs).consumed]))
    decreases |obs|
  {
    var e := Scroll(s, obs);
    if s.stagnant >= STAGNANT_LIMIT || obs == [] {
      assert obs[..0] == [];
    } else {
      var t := Step(s, obs[0]);
      ScrollTilesIsMax(t, obs[1..]);
      var c := Scroll(t, obs[1..]).consumed;
      assert obs[..c + 1][1..] == obs[1..][..c];
    }
  }

  /** stagnant stays at most 6: the loop is entered below 5 and a round
      adds at most 2. */
  lemma {:induction false} ScrollStagnantBounded(s: ScrollState, obs: seq<Observation>)
    requires s.stagnant <= STAGNANT_LIMIT + 1
    ensures Scroll(s, obs).state.stagnant <= STAGNANT_LIMIT + 1
    decreases |obs|
  {
    if s.stagnant < STAGNANT_LIMIT && obs != [] {
      ScrollStagnantBounded(Step(s, obs[0]), obs[1..]);
    }
  }

  /** A round adds at most 2, so from stagnant s the loop needs at least
      (5 - s) / 2 rounds to stop; from the start that is three rounds. */
  lemma {:induction false} ScrollNeedsRounds(s: ScrollState, obs: seq<Observation>)
    requires Scroll(s, obs).state.stagnant >= STAGNANT_LIMIT
    ensures s.stagnant + 2 * Scroll(s, obs).consumed >= STAGNANT_LIMIT
    decreases |obs|
  {
    if s.stagnant < STAGNANT_LIMIT && obs != [] {
      ScrollNeedsRounds(Step(s, obs[0]), obs[1..]);
    }
  }

  /** The loop stops on a plateau: once n further rounds show no new
      tiles and n more stagnation points would reach the limit, it stops
      within those n rounds. In particular five rounds without growth
      always end the loop. */
  lemma {:induction false} ScrollStopsOnPlateau(s: ScrollState, obs: seq<Observation>, n: nat)
    requires n <= |obs|
    requires s.stagnant + n >= STAGNANT_LIMIT
    requires forall i :: 0 <= i < n ==> obs[i].tileCount <= s.tiles
    ensures Scroll(s, obs).consumed <= n
    ensures Scroll(s, obs).state.stagnant >= STAGNANT_LIMIT
    decreases n
  {
    if s.stagnant < STAGNANT_LIMIT {
      var t := Step(s, obs[0]);
      assert forall i :: 0 <= i < n - 1 ==> obs[1..][i] == obs[i + 1];
      ScrollStopsOnPlateau(t, obs[1..], n - 1);
    }
  }

  /** The loop itself, with the observations as fuel: returns len(tiles),
      the number of rounds taken and whether `stagnant < 5` became false
      before the observations ran out. */
  method FastScrollDevpost(initialHeight: int, observations: seq<Observation>)
    returns (tiles: nat, rounds: nat, stopped: bool)
    ensures var e := Scroll(Start(initialHeight), observations);
            tiles == e.state.tiles && rounds == e.consumed && stopped == (e.state.stagnant >= STAGNANT_LIMIT)
  {
    var lastHeight := initialHeight;
    var stagnant: nat := 0;
    tiles := 0;
    rounds := 0;
    while stagnant < STAGNANT_LIMIT && rounds < |observations|
      invariant rounds <= |observations|
      invariant var e := Scroll(Start(initialHeight), observations);
                var rest := Scroll(ScrollState(lastHeight, stagnant, tiles), observations[rounds..]);
                e.state == rest.state && e.consumed == rounds + rest.consumed
      decreases |observations| - rounds
    {
      var o := observations[rounds];
      assert observations[rounds..][1..] == observations[rounds + 1..];
      if o.tileCount > tiles {
        tiles := o.tileCount;
        stagnant := 0;
      } else {
        stagnant := stagnant + 1;
      }
      if o.height == lastHeight {
        stagnant := stagnant + 1;
      }
      lastHeight := o.height;
      rounds := rounds + 1;
    }
    stopped := stagnant >= STAGNANT_LIMIT;
  }
}
