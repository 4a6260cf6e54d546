/**
 * `DropZonesSpacePreview`: holding the space key for `holdDelay` shows
 * every drop zone's highlight, releasing it hides them again.  Key state
 * and frame duration are the inputs of each `Update`; time is in
 * milliseconds.
 */
module SpacePreview {
  import opened Zones

  /** The default `holdDelay`, 0.15 s. */
  const DefaultHoldDelay: int := 150

  /** The calls of `SetAllHighlights` so far alternate, starting with
      showing, and the last one agrees with `showing`. */
  predicate Alternating(calls: seq<bool>, showing: bool)
  {
    (forall k :: 0 <= k < |calls| ==> calls[k] == (k % 2 == 0)) &&
    (showing <==> |calls| % 2 == 1)
  }

  /** In an alternating history the highlights were last switched to
      the state the preview reports, and a switch always changes it. */
  lemma {:induction false} AlternatingLast(calls: seq<bool>, showing: bool, on: bool)
    requires Alternating(calls, showing)
    ensures |calls| > 0 ==> calls[|calls| - 1] == showing
    ensures Alternating(calls + [on], !showing) <==> on == !showing
  {
    var c := calls + [on];
    if on == !showing {
      forall k | 0 <= k < |c| ensures c[k] == (k % 2 == 0) {
        if k < |calls| {
          assert c[k] == calls[k];
        }
      }
    }
    if Alternating(c, !showing) {
      assert c[|calls|] == (|calls| % 2 == 0);
    }
  }

  class DropZonesSpacePreview {
    const holdDelay: int
    /** The `DropZone.AllZones` registry it switches. */
    const zones: ZoneRegistry
    var isShowing: bool
    var holdTimer: int
    /** The arguments of every `SetAllHighlights` call it has made. */
    ghost var calls: seq<bool>

    ghost predicate Valid()
      reads this`isShowing, this`calls
    {
      Alternating(calls, isShowing)
    }

    constructor (holdDelay: int, zones: ZoneRegistry)
      ensures this.holdDelay == holdDelay && this.zones == zones
      ensures !isShowing && holdTimer == 0 && calls == []
      ensures Valid()
    {
      this.holdDelay := holdDelay;
      this.zones := zones;
      isShowing := false;
      holdTimer := 0;
      calls := [];
    }

    /**
     * One frame.  While the key is held the timer grows by the frame's
     * duration, and the highlights are switched on once, the first frame
     * the timer has reached `holdDelay` while they are hidden.  A frame
     * without the key resets the timer and switches them off if they were
     * shown.
     */
    method Update(spaceHeld: bool, deltaTime: nat)
      requires Valid() && zones.Valid()
      modifies this`isShowing, this`holdTimer, this`calls
      modifies zones.allZones`active, zones.allZones`isBlinking, zones.allZones`alpha
      ensures Valid()
      ensures holdTimer == if spaceHeld then old(holdTimer) + deltaTime else 0
      ensures var turnsOn := spaceHeld && !old(isShowing) && holdTimer >= holdDelay;
        var turnsOff := !spaceHeld && old(isShowing);
        isShowing == (if turnsOn then true else if turnsOff then false else old(isShowing)) &&
        calls == old(calls) + (if turnsOn then [true] else if turnsOff then [false] else []) &&
        (turnsOn ==> zones.HighlightsSetTo(true)) &&
        (turnsOff ==> zones.HighlightsSetTo(false)) &&
        (!turnsOn && !turnsOff ==> unchanged(zones.allZones))
    {
      if spaceHeld {
        holdTimer := holdTimer + deltaTime;
        if !isShowing && holdTimer >= holdDelay {
          AlternatingLast(calls, isShowing, true);
          isShowing := true;
          zones.SetAllHighlights(true);
          calls := calls + [true];
        }
      } else {
        holdTimer := 0;
        if isShowing {
          AlternatingLast(calls, isShowing, false);
          isShowing := false;
          zones.SetAllHighlights(false);
          calls := calls + [false];
        }
      }
    }

    /** `OnDisable`: hides the highlights if they are shown and resets
        the timer. */
    method OnDisable()
      requires Valid() && zones.Valid()
      modifies this`isShowing, this`holdTimer, this`calls
      modifies zones.allZones`active, zones.allZones`isBlinking, zones.allZones`alpha
      ensures Valid()
      ensures !isShowing && holdTimer == 0
      ensures calls == old(calls) + (if old(isShowing) then [false] else [])
      ensures old(isShowing) ==> zones.HighlightsSetTo(false)
      ensures !old(isShowing) ==> unchanged(zones.allZones)
    {
      if isShowing {
        AlternatingLast(calls, isShowing, false);
        isShowing := false;
        zones.SetAllHighlights(false);
        calls := calls + [false];
      }
      holdTimer := 0;
    }
  }
}
