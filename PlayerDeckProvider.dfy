/**
 * `PlayerDeckProvider`: the deck as the battle scene reads it.  It loads
 * the same `PlayerPrefs` slots as `UnitsDeckManager`, from the units
 * database, but without any fallback: no saved slot, no deck.
 */
module DeckProvider {
  import opened Wrappers
  import opened Definitions
  import opened DeckSlots
  import opened DeckManager

  /** The deck `LoadDeck` produces from `unitsDatabase.allUnits` (`None`
      for a null array). */
  function ProvidedDeck(units: Option<seq<UnitDefinition?>>, store: map<string, string>): (r: seq<UnitDefinition>)
    ensures |r| <= MaxDeckSize
    ensures units.None? || |units.value| == 0 ==> r == []
  {
    if units.None? || |units.value| == 0 then [] else LoadedSlots(units.value, store, MaxDeckSize)
  }

  /** The provider and the deck manager agree whenever some saved slot
      names a unit of the pool; otherwise the provider's deck is empty where
      the manager falls back. */
  lemma ProviderAgreesWithManager(units: seq<UnitDefinition?>, store: map<string, string>)
    requires |units| > 0
    ensures |LoadedSlots(units, store, MaxDeckSize)| > 0 ==> ProvidedDeck(Some(units), store) == LoadedDeck(units, store)
    ensures |LoadedSlots(units, store, MaxDeckSize)| == 0 ==>
      ProvidedDeck(Some(units), store) == [] && LoadedDeck(units, store) == FallbackDeck(units)
  {
  }

  /** With no saved slot at all the provider's deck is empty. */
  lemma NoSlotsNoDeck(units: Option<seq<UnitDefinition?>>, store: map<string, string>)
    requires forall i :: 0 <= i < MaxDeckSize ==> SlotKey(i) !in store
    ensures ProvidedDeck(units, store) == []
  {
    if units.Some? {
      LoadedSlotsEmpty(units.value, store, MaxDeckSize);
    }
  }

  /** What the deck manager saves, the provider loads. */
  lemma ProviderLoadsSavedDeck(units: seq<UnitDefinition?>, store: map<string, string>, deck: seq<UnitDefinition>)
    requires |deck| <= MaxDeckSize && UniqueIds(units)
    requires forall k :: 0 <= k < |deck| ==> deck[k] in units && |deck[k].id| > 0
    requires |units| > 0
    ensures ProvidedDeck(Some(units), SaveSlots(store, deck, MaxDeckSize)) == deck
  {
    LoadAfterSave(units, store, deck, MaxDeckSize);
    assert deck[..|deck|] == deck;
  }

  class PlayerDeckProvider {
    /** `unitsDatabase.allUnits`. */
    var allUnits: Option<seq<UnitDefinition?>>
    const prefs: PlayerPrefs
    /** `CurrentDeck`. */
    var currentDeck: seq<UnitDefinition>

    /** The component together with `Awake` on the first instance, which
        loads the deck. */
    constructor (allUnits: Option<seq<UnitDefinition?>>, prefs: PlayerPrefs)
      ensures this.allUnits == allUnits && this.prefs == prefs
      ensures currentDeck == ProvidedDeck(allUnits, prefs.store)
    {
      this.allUnits := allUnits;
      this.prefs := prefs;
      currentDeck := [];
      new;
      LoadDeck();
    }

    /** `Initialize(allUnits)`: a new pool, then a reload. */
    method Initialize(units: Option<seq<UnitDefinition?>>)
      modifies this`allUnits, this`currentDeck
      ensures allUnits == units
      ensures currentDeck == ProvidedDeck(units, prefs.store)
    {
      allUnits := units;
      LoadDeck();
    }

    /** `ReloadDeck`: exactly `LoadDeck`. */
    method ReloadDeck()
      modifies this`currentDeck
      ensures currentDeck == ProvidedDeck(allUnits, prefs.store)
    {
      LoadDeck();
    }

    /** `LoadDeck`: the previous deck is cleared; an empty or missing pool
        leaves it empty, otherwise the saved slots are read in order. */
    method LoadDeck()
      modifies this`currentDeck
      ensures currentDeck == ProvidedDeck(allUnits, prefs.store)
    {
      currentDeck := [];
      if allUnits.None? || |allUnits.value| == 0 {
        return;
      }
      currentDeck := ReadSlots(allUnits.value, prefs);
    }
  }
}
