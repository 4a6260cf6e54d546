/**
 * Selection of the nearest candidate, shared by every "closest unit" or
 * "closest cell" scan of the game.  A scan is described by one entry per
 * enumerated object: `None` when the object is not a candidate, `Some(d)`
 * with its (squared) distance when it is.
 *
 * The selection is the one a forward scan with a strict `<` makes, and the
 * one LINQ's stable `OrderBy(...).First()` makes: the smallest distance,
 * and on ties the candidate enumerated first.
 */
module Nearest {
  import opened Wrappers

  /** The selection itself; `FirstArgMinProperties` says what it picks. */
  function FirstArgMin(ds: seq<Option<nat>>): (r: Option<nat>)
    ensures r.Some? ==> r.value < |ds| && ds[r.value].Some?
    decreases |ds|
  {
    if |ds| == 0 then None
    else
      var p := FirstArgMin(ds[..|ds| - 1]);
      var last := ds[|ds| - 1];
      if last.Some? && (p.None? || last.value < ds[p.value].value) then Some(|ds| - 1)
      else p
  }

  /** The pick is a candidate of minimal distance, strictly closer than
      every candidate enumerated before it, and there is no pick exactly
      when there is no candidate. */
  lemma {:induction false} FirstArgMinProperties(ds: seq<Option<nat>>)
    ensures var r := FirstArgMin(ds);
      (r.Some? ==> forall i :: 0 <= i < |ds| && ds[i].Some? ==> ds[r.value].value <= ds[i].value) &&
      (r.Some? ==> forall i :: 0 <= i < r.value && ds[i].Some? ==> ds[r.value].value < ds[i].value) &&
      (r.None? <==> forall i :: 0 <= i < |ds| ==> ds[i].None?)
    decreases |ds|
  {
    if |ds| > 0 {
      var init := ds[..|ds| - 1];
      FirstArgMinProperties(init);
      assert forall i :: 0 <= i < |ds| - 1 ==> ds[i] == init[i];
    }
  }

  /** The three properties above pin the selection down: an index that is
      a candidate, minimal, and strictly better than every earlier
      candidate is the one `FirstArgMin` returns. */
  lemma FirstArgMinUnique(ds: seq<Option<nat>>, k: nat)
    requires k < |ds| && ds[k].Some?
    requires forall i :: 0 <= i < |ds| && ds[i].Some? ==> ds[k].value <= ds[i].value
    requires forall i :: 0 <= i < k && ds[i].Some? ==> ds[k].value < ds[i].value
    ensures FirstArgMin(ds) == Some(k)
  {
    FirstArgMinProperties(ds);
  }

  /** The one-step unfolding a forward scan relies on. */
  lemma FirstArgMinSnoc(ds: seq<Option<nat>>, d: Option<nat>)
    ensures FirstArgMin(ds + [d]) ==
      if d.Some? && (FirstArgMin(ds).None? || d.value < ds[FirstArgMin(ds).value].value)
      then Some(|ds|) else FirstArgMin(ds)
  {
    assert (ds + [d])[..|ds|] == ds;
  }
}
