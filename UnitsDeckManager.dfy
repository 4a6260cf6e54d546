/**
 * `UnitsDeckManager`: the player's deck, a list of at most four unit
 * definitions chosen from `allUnits`.  Units are toggled in and out and
 * removed; every change is saved slot by slot to `PlayerPrefs`, and the
 * deck is loaded from there on `Awake`, falling back to the first units of
 * the pool when no saved slot names a known unit.  Rebuilding the deck row
 * of cards and the `OnDeckChanged` event are presentation.
 */
module DeckManager {
  import opened Sequences
  import opened Definitions
  import opened DeckSlots

  function Min(a: int, b: int): int { if a <= b then a else b }

  /** The fallback deck: the non-null units among the first four of the pool. */
  function FallbackDeck(units: seq<UnitDefinition?>): (r: seq<UnitDefinition>)
    ensures |r| <= MaxDeckSize
  {
    NonNulls(units[..Min(MaxDeckSize, |units|)])
  }

  /** The deck `LoadDeck` produces. */
  function LoadedDeck(units: seq<UnitDefinition?>, store: map<string, string>): (r: seq<UnitDefinition>)
    ensures |r| <= MaxDeckSize
    ensures forall k :: 0 <= k < |r| ==> r[k] in units
  {
    var slots := LoadedSlots(units, store, MaxDeckSize);
    if |slots| == 0 then FallbackDeck(units) else slots
  }

  /** A toggle changes the deck, and is saved, unless the definition is
      null or it is absent and the deck is full. */
  predicate ToggleChanges(deck: seq<UnitDefinition>, def: UnitDefinition?)
  {
    def != null && (def in deck || |deck| < MaxDeckSize)
  }

  /** The deck after `ToggleUnit(def)`. */
  function Toggled(deck: seq<UnitDefinition>, def: UnitDefinition?): (r: seq<UnitDefinition>)
    ensures |deck| <= MaxDeckSize ==> |r| <= MaxDeckSize
    ensures !ToggleChanges(deck, def) ==> r == deck
    ensures ToggleChanges(deck, def) && def in deck ==> |r| == |deck| - 1
    ensures ToggleChanges(deck, def) && def !in deck ==> |r| == |deck| + 1 && r[..|deck|] == deck && r[|deck|] == def
  {
    if def == null then deck
    else if def in deck then RemoveFirst<UnitDefinition>(deck, def)
    else if |deck| >= MaxDeckSize then deck
    else deck + [def]
  }

  /** Toggling a unit into a deck with room and toggling it again restores
      the deck; a deck without repeats loses a toggled member for good. */
  lemma ToggleTwice(deck: seq<UnitDefinition>, def: UnitDefinition)
    requires def !in deck && |deck| < MaxDeckSize
    ensures def in Toggled(deck, def)
    ensures Toggled(Toggled(deck, def), def) == deck
  {
    RemoveFirstAppended<UnitDefinition>(deck, def);
  }

  /** In a deck without repeats a toggled member is gone afterwards. */
  lemma ToggleOutDistinct(deck: seq<UnitDefinition>, def: UnitDefinition)
    requires def in deck && multiset(deck)[def] == 1
    ensures def !in Toggled(deck, def)
  {
    var r: seq<UnitDefinition> := Toggled(deck, def);
    var m: multiset<UnitDefinition> := multiset(r);
    assert m[def] == 0;
  }

  class UnitsDeckManager {
    const allUnits: seq<UnitDefinition?>
    const prefs: PlayerPrefs
    /** `_deckUnits`. */
    var deck: seq<UnitDefinition>

    /** The deck never holds more than `MaxDeckSize` units. */
    predicate Valid()
      reads this`deck
    {
      |deck| <= MaxDeckSize
    }

    /** The component together with `Awake`, which loads the deck. */
    constructor (allUnits: seq<UnitDefinition?>, prefs: PlayerPrefs)
      ensures this.allUnits == allUnits && this.prefs == prefs
      ensures deck == LoadedDeck(allUnits, prefs.store)
      ensures Valid()
    {
      this.allUnits := allUnits;
      this.prefs := prefs;
      new;
      LoadDeck();
    }

    /** `LoadDeck`: the saved slots, or the fallback when none loads. */
    method LoadDeck()
      modifies this`deck
      ensures deck == LoadedDeck(allUnits, prefs.store)
    {
      deck := [];
      deck := ReadSlots(allUnits, prefs);
      if |deck| == 0 {
        for i := 0 to Min(MaxDeckSize, |allUnits|)
          invariant deck == NonNulls(allUnits[..i])
        {
          assert allUnits[..i + 1][..i] == allUnits[..i];
          if allUnits[i] != null {
            deck := deck + [allUnits[i]];
          }
        }
      }
    }

    /** `SaveDeck`: every slot written or deleted. */
    method SaveDeck()
      modifies prefs`store
      ensures prefs.store == SaveSlots(old(prefs.store), deck, MaxDeckSize)
    {
      for i := 0 to MaxDeckSize
        invariant prefs.store == SaveSlots(old(prefs.store), deck, i)
      {
        var key := SlotKey(i);
        if i < |deck| {
          prefs.SetString(key, deck[i].id);
        } else {
          prefs.DeleteKey(key);
        }
      }
    }

    /** `IsInDeck(UnitDefinition)`: never for null. */
    predicate IsInDeck(def: UnitDefinition?)
      reads this`deck
      ensures IsInDeck(def) ==> def != null && def in deck
      ensures def != null && def in deck ==> IsInDeck(def)
    {
      def != null && def in deck
    }

    /** `IsInDeck(string)`: some deck unit has that id. */
    predicate IsIdInDeck(unitId: string)
      reads this`deck
      ensures IsIdInDeck(unitId) <==> exists k :: 0 <= k < |deck| && deck[k].id == unitId
    {
      exists u :: u in deck && u.id == unitId
    }

    /** `ToggleUnit`: out if present, in if absent and there is room; a
        change is saved, no change is not. */
    method ToggleUnit(def: UnitDefinition?)
      requires Valid()
      modifies this`deck, prefs`store
      ensures Valid()
      ensures deck == Toggled(old(deck), def)
      ensures prefs.store ==
        if ToggleChanges(old(deck), def) then SaveSlots(old(prefs.store), deck, MaxDeckSize) else old(prefs.store)
    {
      if def == null {
        return;
      }
      if def in deck {
        deck := RemoveFirst<UnitDefinition>(deck, def);
      } else {
        if |deck| >= MaxDeckSize {
          return;
        }
        deck := deck + [def];
      }
      SaveDeck();
    }

    /** `RemoveFromDeck`: drops the first occurrence and saves; nothing
        happens, and nothing is saved, for null or an absent unit. */
    method RemoveFromDeck(def: UnitDefinition?)
      requires Valid()
      modifies this`deck, prefs`store
      ensures Valid()
      ensures def == null || def !in old(deck) ==> deck == old(deck) && prefs.store == old(prefs.store)
      ensures def != null && def in old(deck) ==>
        deck == RemoveFirst<UnitDefinition>(old(deck), def) && |deck| == |old(deck)| - 1 &&
        prefs.store == SaveSlots(old(prefs.store), deck, MaxDeckSize)
    {
      if def == null {
        return;
      }
      if def in deck {
        deck := RemoveFirst<UnitDefinition>(deck, def);
        SaveDeck();
      }
    }
  }

  /** With unique ids in the pool, saving a non-empty deck of pool units
      with non-empty ids and loading it again gives back the same deck. */
  lemma SaveThenLoad(units: seq<UnitDefinition?>, store: map<string, string>, deck: seq<UnitDefinition>)
    requires 0 < |deck| <= MaxDeckSize && UniqueIds(units)
    requires forall k :: 0 <= k < |deck| ==> deck[k] in units && |deck[k].id| > 0
    ensures LoadedDeck(units, SaveSlots(store, deck, MaxDeckSize)) == deck
  {
    LoadAfterSave(units, store, deck, MaxDeckSize);
    assert deck[..|deck|] == deck;
  }

  /** Saving an empty deck deletes every slot, so the next load falls back
      to the pool's first units. */
  lemma SaveEmptyThenLoad(units: seq<UnitDefinition?>, store: map<string, string>)
    ensures LoadedDeck(units, SaveSlots(store, [], MaxDeckSize)) == FallbackDeck(units)
  {
    SaveSlotsContents(store, [], MaxDeckSize);
    LoadedSlotsEmpty(units, SaveSlots(store, [], MaxDeckSize), MaxDeckSize);
  }
}
