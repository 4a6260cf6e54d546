/**
 * Chains built by repeated hops, as the lightning strategy builds them: a
 * chain of unit indices starts with one link and, while bounces remain,
 * asks a hop rule for the next link given the chain so far; a hop that
 * finds nothing ends the chain.  The rule is a parameter, so the shape
 * lemmas here hold for any targeting rule.
 */
module Chains {
  import opened Wrappers

  function ChainFrom(chain: seq<nat>, bounces: nat, hop: seq<nat> -> Option<nat>): (r: seq<nat>)
    requires |chain| > 0
    ensures |chain| <= |r|
    decreases bounces
  {
    if bounces == 0 then chain
    else
      var next := hop(chain);
      if next.None? then chain
      else ChainFrom(chain + [next.value], bounces - 1, hop)
  }

  /** Every link after the first is what the rule picks from the links before it. */
  predicate AllHops(chain: seq<nat>, hop: seq<nat> -> Option<nat>)
  {
    forall k :: 0 < k < |chain| ==> hop(chain[..k]) == Some(chain[k])
  }

  /** Building only appends. */
  lemma {:induction false} ChainFromPrefix(chain: seq<nat>, bounces: nat, hop: seq<nat> -> Option<nat>)
    requires |chain| > 0
    ensures ChainFrom(chain, bounces, hop)[..|chain|] == chain
    decreases bounces
  {
    if bounces > 0 && hop(chain).Some? {
      var c := chain + [hop(chain).value];
      ChainFromPrefix(c, bounces - 1, hop);
      var r := ChainFrom(c, bounces - 1, hop);
      assert r[..|chain|] == r[..|c|][..|chain|];
    }
  }

  /** Each bounce adds at most one link. */
  lemma {:induction false} ChainFromLength(chain: seq<nat>, bounces: nat, hop: seq<nat> -> Option<nat>)
    requires |chain| > 0
    ensures |ChainFrom(chain, bounces, hop)| <= |chain| + bounces
    decreases bounces
  {
    if bounces > 0 && hop(chain).Some? {
      ChainFromLength(chain + [hop(chain).value], bounces - 1, hop);
    }
  }

  /** Building from a chain of hops yields a chain of hops. */
  lemma {:induction false} ChainFromHops(chain: seq<nat>, bounces: nat, hop: seq<nat> -> Option<nat>)
    requires |chain| > 0 && AllHops(chain, hop)
    ensures AllHops(ChainFrom(chain, bounces, hop), hop)
    decreases bounces
  {
    if bounces > 0 && hop(chain).Some? {
      var c := chain + [hop(chain).value];
      forall k | 0 < k < |c| ensures hop(c[..k]) == Some(c[k]) {
        if k < |chain| {
          assert c[..k] == chain[..k];
        } else {
          assert c[..k] == chain;
        }
      }
      ChainFromHops(c, bounces - 1, hop);
    }
  }

  /** Building stops short of `bounces` hops only where the rule finds nothing. */
  lemma {:induction false} ChainFromStops(chain: seq<nat>, bounces: nat, hop: seq<nat> -> Option<nat>)
    requires |chain| > 0
    ensures var r := ChainFrom(chain, bounces, hop);
      |r| < |chain| + bounces ==> hop(r).None?
    decreases bounces
  {
    if bounces > 0 && hop(chain).Some? {
      ChainFromStops(chain + [hop(chain).value], bounces - 1, hop);
    }
  }

  /** One round of building, as a loop takes it. */
  lemma ChainFromStep(chain: seq<nat>, bounces: nat, hop: seq<nat> -> Option<nat>)
    requires |chain| > 0 && bounces > 0
    ensures ChainFrom(chain, bounces, hop) ==
      if hop(chain).None? then chain else ChainFrom(chain + [hop(chain).value], bounces - 1, hop)
  {
  }
}
