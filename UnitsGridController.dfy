/**
 * `UnitsGridController`, the collection grid of unit cards.  Clicking a
 * card expands it: the card is drawn above its siblings (moved to the end
 * of the sibling order), grows by `extraHeight` and shows its quick
 * actions, and the grid layout is switched off.  Collapsing undoes each of
 * these.  The children of the grid's transform are the `siblings`
 * sequence, in sibling order.
 */
module CardGrid {
  import opened Sequences

  /** The part of `UnitCardView` the controller drives. */
  class UnitCardView {
    /** `_originalSize.y`. */
    const originalHeight: int
    /** `quickActionsPanel != null`. */
    const hasQuickActions: bool
    /** `RectTransform.sizeDelta.y`. */
    var height: int
    /** Whether the quick-actions panel is active. */
    var quickActionsShown: bool

    /** A card after `Awake`: at its original size, quick actions hidden. */
    constructor (originalHeight: int, hasQuickActions: bool)
      ensures this.originalHeight == originalHeight && this.hasQuickActions == hasQuickActions
      ensures height == originalHeight && !quickActionsShown
    {
      this.originalHeight := originalHeight;
      this.hasQuickActions := hasQuickActions;
      height := originalHeight;
      quickActionsShown := false;
    }

    /** `Expand(extraHeight)`: the original height plus `extraHeight`. */
    method Expand(extraHeight: int)
      modifies this`height
      ensures height == originalHeight + extraHeight
    {
      height := originalHeight + extraHeight;
    }

    /** `Collapse`: back to the original height. */
    method Collapse()
      modifies this`height
      ensures height == originalHeight
    {
      height := originalHeight;
    }

    /** `ShowQuickActions(show)`: switches the panel, if there is one. */
    method ShowQuickActions(show: bool)
      modifies this`quickActionsShown
      ensures quickActionsShown == if hasQuickActions then show else old(quickActionsShown)
    {
      if hasQuickActions {
        quickActionsShown := show;
      }
    }

    /** Neither grown nor showing its quick actions. */
    predicate AtRest()
      reads this`height, this`quickActionsShown
    {
      height == originalHeight && !quickActionsShown
    }
  }

  /** `SetAsLastSibling`: `x` moves to the end, the others keep their order. */
  function MoveToEnd<T(==)>(s: seq<T>, x: T): (r: seq<T>)
    requires x in s
    ensures |r| == |s| && r[|r| - 1] == x && multiset(r) == multiset(s)
  {
    RemoveFirst(s, x) + [x]
  }

  /** `SetSiblingIndex(i)`: `x` moves to position `i`, the others keep
      their order. */
  function MoveToIndex<T(==)>(s: seq<T>, x: T, i: nat): (r: seq<T>)
    requires x in s && i < |s|
    ensures |r| == |s| && r[i] == x && multiset(r) == multiset(s)
  {
    var t := RemoveFirst(s, x);
    InsertAt(t, x, i);
    t[..i] + [x] + t[i..]
  }

  /** Putting `x` back between the two halves of `t` adds one `x`. */
  lemma InsertAt<T>(t: seq<T>, x: T, i: nat)
    requires i <= |t|
    ensures multiset(t[..i] + [x] + t[i..]) == multiset(t) + multiset{x}
  {
    assert t == t[..i] + t[i..];
  }

  /** Moving a card to the end and then back to the index it had restores
      the sibling order, provided no card appears twice. */
  lemma RestoreOrder<T>(s: seq<T>, x: T)
    requires Distinct(s) && x in s
    ensures MoveToIndex(MoveToEnd(s, x), x, IndexOf(s, x)) == s
  {
    var k := IndexOf(s, x);
    var t := RemoveFirst(s, x);
    var a, b := s[..k], s[k + 1..];
    assert t == a + b;
    RemoveFirstDistinct(s, x);
    RemoveFirstAppended(t, x);
    assert MoveToEnd(s, x) == t + [x];
    assert t[..k] == a && t[k..] == b by {
      assert |a| == k;
    }
    assert MoveToIndex(t + [x], x, k) == a + [x] + b;
    SplitAt(s, k);
  }

  /** Every card of `cards` other than `busy` is at rest. */
  ghost predicate RestExcept(cards: seq<UnitCardView>, busy: UnitCardView?)
    reads cards`height, cards`quickActionsShown
  {
    forall k :: 0 <= k < |cards| && cards[k] != busy ==> cards[k].AtRest()
  }

  class UnitsGridController {
    /** `extraHeight`. */
    const extraHeight: int
    /** `grid != null`. */
    const hasGrid: bool
    /** `grid.enabled`. */
    var gridEnabled: bool
    /** The grid's children in sibling order. */
    var siblings: seq<UnitCardView>
    /** `_expandedCard`. */
    var expandedCard: UnitCardView?
    /** `_expandedOriginalSiblingIndex`. */
    var expandedOriginalSiblingIndex: int
    /** The sibling order with no card expanded; the controller only ever
        moves a card out of it and back. */
    ghost const restingOrder: seq<UnitCardView>

    /**
     * At most one card is expanded, and it is `expandedCard`: it sits at
     * the end of the resting order, its old index is recorded, the grid
     * layout is off, and every other card is at rest.  With no card
     * expanded the siblings are in their resting order.
     */
    ghost predicate Valid()
      reads this`siblings, this`expandedCard, this`expandedOriginalSiblingIndex, this`gridEnabled
      reads restingOrder`height, restingOrder`quickActionsShown
    {
      OrderValid() && LayoutValid() && CardsValid()
    }

    /** The sibling order: resting, or the expanded card moved last with
        its old index recorded. */
    ghost predicate OrderValid()
      reads this`siblings, this`expandedCard, this`expandedOriginalSiblingIndex
    {
      Distinct(restingOrder) &&
      (expandedCard == null ==> siblings == restingOrder) &&
      (expandedCard != null ==>
        expandedCard in restingOrder &&
        expandedOriginalSiblingIndex == IndexOf(restingOrder, expandedCard) &&
        siblings == MoveToEnd(restingOrder, expandedCard))
    }

    /** The grid layout runs exactly while no card is expanded. */
    ghost predicate LayoutValid()
      reads this`expandedCard, this`gridEnabled
    {
      hasGrid ==> gridEnabled == (expandedCard == null)
    }

    /** The expanded card is grown and shows its quick actions; every
        other card is at rest. */
    ghost predicate CardsValid()
      reads this`expandedCard, restingOrder`height, restingOrder`quickActionsShown
    {
      (expandedCard != null && expandedCard in restingOrder ==>
        expandedCard.height == expandedCard.originalHeight + extraHeight &&
        expandedCard.quickActionsShown == expandedCard.hasQuickActions) &&
      RestExcept(restingOrder, expandedCard)
    }

    /** `Awake`, over a grid whose cards are at rest in distinct places. */
    constructor (extraHeight: int, hasGrid: bool, siblings: seq<UnitCardView>)
      requires Distinct(siblings)
      requires forall k :: 0 <= k < |siblings| ==> siblings[k].AtRest()
      ensures this.extraHeight == extraHeight && this.hasGrid == hasGrid
      ensures this.siblings == siblings && restingOrder == siblings && expandedCard == null
      ensures Valid()
    {
      this.extraHeight := extraHeight;
      this.hasGrid := hasGrid;
      gridEnabled := true;
      this.siblings := siblings;
      expandedCard := null;
      expandedOriginalSiblingIndex := 0;
      restingOrder := siblings;
    }

    /**
     * `OnCardClicked`: the expanded card collapses; any other card
     * becomes the only expanded one, after the previous one collapses.
     */
    method OnCardClicked(card: UnitCardView)
      requires Valid() && card in restingOrder
      modifies this`siblings, this`expandedCard, this`expandedOriginalSiblingIndex, this`gridEnabled
      modifies restingOrder
      ensures Valid()
      ensures old(expandedCard) == card ==> expandedCard == null && siblings == restingOrder
      ensures old(expandedCard) != card ==>
        expandedCard == card && siblings == MoveToEnd(restingOrder, card) &&
        siblings[|siblings| - 1] == card
    {
      if expandedCard == card {
        CollapseCurrent();
        return;
      }
      if expandedCard != null {
        CollapseCurrent();
      }
      ExpandCard(card);
    }

    /** `ExpandCard`: records the card's sibling index, switches the grid
        layout off, draws the card last, grows it and shows its quick
        actions. */
    method ExpandCard(card: UnitCardView)
      requires Valid() && expandedCard == null && card in restingOrder
      modifies this`siblings, this`expandedCard, this`expandedOriginalSiblingIndex, this`gridEnabled
      modifies card
      ensures Valid()
      ensures expandedCard == card && expandedOriginalSiblingIndex == IndexOf(old(siblings), card)
      ensures siblings == MoveToEnd(old(siblings), card)
      ensures hasGrid ==> !gridEnabled
    {
      var index := IndexOf(siblings, card);
      var moved := MoveToEnd(siblings, card);
      card.Expand(extraHeight);
      card.ShowQuickActions(true);
      expandedCard := card;
      expandedOriginalSiblingIndex := index;
      if hasGrid {
        gridEnabled := false;
      }
      siblings := moved;
    }

    /** `CollapseCurrent`: nothing when no card is expanded; otherwise the
        card shrinks back, returns to its recorded sibling index and hides
        its quick actions, and the grid layout is switched on again. */
    method CollapseCurrent()
      requires Valid()
      modifies this`siblings, this`expandedCard, this`gridEnabled
      modifies if expandedCard == null then {} else {expandedCard}
      ensures Valid()
      ensures expandedCard == null && siblings == restingOrder
      ensures old(expandedCard) == null ==> unchanged(this)
      ensures old(expandedCard) != null ==> old(expandedCard).AtRest() && (hasGrid ==> gridEnabled)
    {
      if expandedCard == null {
        return;
      }
      var card := expandedCard;
      card.Collapse();
      RestoreSiblingIndex();
      card.ShowQuickActions(false);
      expandedCard := null;
      if hasGrid {
        gridEnabled := true;
      }
    }

    /** `SetSiblingIndex(_expandedOriginalSiblingIndex)` on the expanded
        card: the siblings are back in their resting order. */
    method RestoreSiblingIndex()
      requires OrderValid() && expandedCard != null
      modifies this`siblings
      ensures siblings == restingOrder
    {
      RestoreOrder(restingOrder, expandedCard);
      siblings := MoveToIndex(siblings, expandedCard, expandedOriginalSiblingIndex);
    }

    /** `ForceCollapse`: the same as `CollapseCurrent`. */
    method ForceCollapse()
      requires Valid()
      modifies this`siblings, this`expandedCard, this`gridEnabled
      modifies if expandedCard == null then {} else {expandedCard}
      ensures Valid()
      ensures expandedCard == null && siblings == restingOrder
      ensures old(expandedCard) == null ==> unchanged(this)
      ensures old(expandedCard) != null ==> old(expandedCard).AtRest() && (hasGrid ==> gridEnabled)
    {
      CollapseCurrent();
    }
  }
}
