/**
 * `DropZone`, an area of the board a dragged unit can be dropped on.
 * Every enabled zone is registered in the static `AllZones` list; a zone
 * can blink its highlight object, all registered zones can be switched at
 * once, and a world point is resolved to the first registered zone whose
 * collider contains it.  The static list is the `ZoneRegistry` object every
 * zone method is given.
 */
module Zones {
  import opened Geometry
  import opened Sequences

  /** What the zone's `highlightObject` field holds: nothing, or a game
      object with or without a `SpriteRenderer`, whose colour has the
      given alpha. */
  datatype Highlight = NoHighlight | HighlightObject(hasSpriteRenderer: bool, alpha: real)

  /** The mutable part of a zone: whether the highlight object is active,
      `_isBlinking`, and the alpha of the highlight renderer's colour. */
  datatype HighlightState = HighlightState(active: bool, blinking: bool, alpha: real)

  class DropZone {
    /** `highlightObject != null`. */
    const hasHighlight: bool
    /** `_highlightSR != null`; it is looked up on the highlight object only. */
    const hasRenderer: bool
    const minAlpha: real
    /** `_col != null`. */
    const hasCollider: bool
    /** `_col.OverlapPoint`, the engine's containment test for the collider. */
    const overlapPoint: Pos -> bool
    var active: bool
    var isBlinking: bool
    var alpha: real

    /** `Awake`: the highlight object, when there is one, starts inactive.
        Resizing it to the collider is left out. */
    constructor Awake(highlight: Highlight, minAlpha: real, hasCollider: bool, overlapPoint: Pos -> bool)
      ensures hasHighlight == highlight.HighlightObject?
      ensures hasRenderer == (highlight.HighlightObject? && highlight.hasSpriteRenderer)
      ensures this.minAlpha == minAlpha && this.hasCollider == hasCollider && this.overlapPoint == overlapPoint
      ensures State() == HighlightState(false, false, if highlight.HighlightObject? then highlight.alpha else 0.0)
      ensures Consistent(State())
    {
      hasHighlight := highlight.HighlightObject?;
      hasRenderer := highlight.HighlightObject? && highlight.hasSpriteRenderer;
      this.minAlpha := minAlpha;
      this.hasCollider := hasCollider;
      this.overlapPoint := overlapPoint;
      active := false;
      isBlinking := false;
      alpha := if highlight.HighlightObject? then highlight.alpha else 0.0;
    }

    function State(): HighlightState
      reads this`active, this`isBlinking, this`alpha
    {
      HighlightState(active, isBlinking, alpha)
    }

    /** The highlight object is shown exactly while the zone blinks, and a
        zone without one never blinks. */
    predicate Consistent(s: HighlightState)
    {
      s.active == s.blinking && (!hasHighlight ==> !s.blinking)
    }

    /** The state `SetHighlight(on)` leaves. */
    function AfterSetHighlight(s: HighlightState, on: bool): (r: HighlightState)
      ensures !hasHighlight ==> r == s
      ensures hasHighlight ==> r.active == on && r.blinking == on
      ensures hasHighlight && hasRenderer && !on ==> r.alpha == minAlpha
      ensures (on || !hasRenderer) ==> r.alpha == s.alpha
      ensures Consistent(s) ==> Consistent(r)
    {
      if !hasHighlight then s
      else HighlightState(on, on, if !on && hasRenderer then minAlpha else s.alpha)
    }

    /** `SetHighlight(on)`: nothing without a highlight object; otherwise
        the object is shown and the zone blinks exactly when `on`, and
        switching off puts the renderer back at `minAlpha`. */
    method SetHighlight(on: bool)
      modifies this`active, this`isBlinking, this`alpha
      ensures State() == AfterSetHighlight(old(State()), on)
    {
      if !hasHighlight {
        return;
      }
      active := on;
      isBlinking := on;
      if !on && hasRenderer {
        alpha := minAlpha;
      }
    }

    /** The highlight part of `OnDisable`. */
    function AfterDisable(s: HighlightState): (r: HighlightState)
      ensures Consistent(s) ==> !r.active && !r.blinking && Consistent(r)
      ensures r.alpha == s.alpha
      ensures !s.blinking ==> r == s
    {
      if s.blinking && hasHighlight then HighlightState(false, false, s.alpha) else s
    }

    /** `ContainsWorldPoint`: false without a collider, otherwise the
        collider's own test. */
    predicate ContainsWorldPoint(p: Pos)
    {
      hasCollider && overlapPoint(p)
    }

    /** `OnEnable`: registers the zone unless it is registered already. */
    method OnEnable(zones: ZoneRegistry)
      requires zones.Valid()
      modifies zones`allZones
      ensures zones.Valid()
      ensures zones.allZones == Enabled(old(zones.allZones), this)
    {
      if this !in zones.allZones {
        zones.allZones := zones.allZones + [this];
      }
    }

    /** `OnDisable`: unregisters the zone and, if it was blinking, stops
        the blinking and hides the highlight. */
    method OnDisable(zones: ZoneRegistry)
      requires zones.Valid()
      modifies zones`allZones, this`active, this`isBlinking
      ensures zones.Valid()
      ensures zones.allZones == RemoveFirst(old(zones.allZones), this)
      ensures this !in zones.allZones
      ensures State() == AfterDisable(old(State()))
    {
      RemoveFirstDistinct(zones.allZones, this);
      zones.allZones := RemoveFirst(zones.allZones, this);
      if isBlinking && hasHighlight {
        isBlinking := false;
        active := false;
      }
    }
  }

  /** The registry after `OnEnable` of zone `z`. */
  function Enabled(zones: seq<DropZone>, z: DropZone): (r: seq<DropZone>)
    ensures z in r
    ensures |zones| <= |r| <= |zones| + 1 && r[..|zones|] == zones
    ensures Distinct(zones) ==> Distinct(r)
  {
    if z in zones then zones else zones + [z]
  }

  /** Enabling an enabled zone again changes nothing. */
  lemma EnabledIdempotent(zones: seq<DropZone>, z: DropZone)
    ensures Enabled(Enabled(zones, z), z) == Enabled(zones, z)
  {
  }

  /** Enabling an unregistered zone and disabling it again restores the
      registry. */
  lemma EnableThenDisable(zones: seq<DropZone>, z: DropZone)
    requires z !in zones
    ensures RemoveFirst(Enabled(zones, z), z) == zones
  {
    RemoveFirstAppended(zones, z);
  }

  /**
   * The index of the first zone of `zones` containing `p`, or `|zones|`
   * when none does.
   */
  function FirstContaining(zones: seq<DropZone>, p: Pos): (k: nat)
    ensures k <= |zones|
    ensures forall j :: 0 <= j < k ==> !zones[j].ContainsWorldPoint(p)
    ensures k < |zones| ==> zones[k].ContainsWorldPoint(p)
  {
    if |zones| == 0 then 0
    else if zones[0].ContainsWorldPoint(p) then 0
    else
      var k := FirstContaining(zones[1..], p);
      assert forall j :: 1 <= j < |zones| ==> zones[j] == zones[1..][j - 1];
      1 + k
  }

  /** The static `AllZones` list. */
  class ZoneRegistry {
    var allZones: seq<DropZone>

    constructor ()
      ensures allZones == [] && Valid()
    {
      allZones := [];
    }

    /** No zone is registered twice. */
    predicate Valid()
      reads this`allZones
    {
      Distinct(allZones)
    }

    /** Every registered zone is in the state `SetHighlight(on)` leaves. */
    twostate predicate HighlightsSetTo(on: bool)
      reads this`allZones, allZones`active, allZones`isBlinking, allZones`alpha
    {
      |allZones| == |old(allZones)| &&
      forall k :: 0 <= k < |allZones| ==>
        allZones[k] == old(allZones[k]) &&
        allZones[k].State() == allZones[k].AfterSetHighlight(old(allZones[k].State()), on)
    }

    /**
     * `SetAllHighlights(on)`: `SetHighlight(on)` on every registered zone.
     * The source skips null entries; only enabled zones are ever
     * registered, so the registry holds none.
     */
    method SetAllHighlights(on: bool)
      requires Valid()
      modifies allZones`active, allZones`isBlinking, allZones`alpha
      ensures HighlightsSetTo(on)
    {
      for i := 0 to |allZones|
        invariant forall k :: 0 <= k < i ==>
          allZones[k].State() == allZones[k].AfterSetHighlight(old(allZones[k].State()), on)
        invariant forall k :: i <= k < |allZones| ==> allZones[k].State() == old(allZones[k].State())
      {
        allZones[i].SetHighlight(on);
      }
    }

    /** `GetZoneAtWorldPoint(p)`: the first registered zone containing
        `p`, or null when none does. */
    method GetZoneAtWorldPoint(p: Pos) returns (z: DropZone?)
      ensures var k := FirstContaining(allZones, p);
        z == if k < |allZones| then allZones[k] else null
      ensures z == null <==> forall j :: 0 <= j < |allZones| ==> !allZones[j].ContainsWorldPoint(p)
    {
      for i := 0 to |allZones|
        invariant forall j :: 0 <= j < i ==> !allZones[j].ContainsWorldPoint(p)
      {
        var candidate := allZones[i];
        if candidate.ContainsWorldPoint(p) {
          return candidate;
        }
      }
      return null;
    }
  }
}
