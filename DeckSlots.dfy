/**
 * The saved deck as both `UnitsDeckManager` and `PlayerDeckProvider` keep
 * it in `PlayerPrefs`: one string entry per slot, keyed `deck_slot_0` to
 * `deck_slot_3`, holding the `id` of the unit definition in that slot.
 * `PlayerPrefs` is modelled as a string-to-string map; writing it to disk
 * (`PlayerPrefs.Save`) is not.
 */
module DeckSlots {
  import opened Wrappers
  import opened Definitions

  /** `MaxDeckSize`: the number of slots. */
  const MaxDeckSize: nat := 4

  /** `DeckSlotKeyPrefix`. */
  const SlotKeyPrefix: string := "deck_slot_"

  /** `PlayerPrefs`: the persistent key-value store. */
  class PlayerPrefs {
    var store: map<string, string>

    constructor (store: map<string, string>)
      ensures this.store == store
    {
      this.store := store;
    }

    /** `GetString(key, defaultValue)`. */
    function GetString(key: string, defaultValue: string): (r: string)
      reads this`store
      ensures key in store ==> r == store[key]
      ensures key !in store ==> r == defaultValue
    {
      Get(store, key, defaultValue)
    }

    /** `SetString(key, value)`. */
    method SetString(key: string, value: string)
      modifies this`store
      ensures store == old(store)[key := value]
    {
      store := store[key := value];
    }

    /** `DeleteKey(key)`. */
    method DeleteKey(key: string)
      modifies this`store
      ensures store == old(store) - {key}
    {
      store := store - {key};
    }
  }

  function Get(store: map<string, string>, key: string, defaultValue: string): string
  {
    if key in store then store[key] else defaultValue
  }

  /** The decimal digit of a number below ten. */
  function Digit(i: nat): char
    requires i < 10
  {
    ('0' as int + i) as char
  }

  /** `DeckSlotKeyPrefix + i`; slots are numbered below ten, so the number
      is one digit. */
  function SlotKey(i: nat): (k: string)
    requires i < 10
    ensures |k| == |SlotKeyPrefix| + 1 && k[..|SlotKeyPrefix|] == SlotKeyPrefix
  {
    SlotKeyPrefix + [Digit(i)]
  }

  /** Different slots have different keys. */
  lemma SlotKeyInjective(i: nat, j: nat)
    requires i < 10 && j < 10
    ensures SlotKey(i) == SlotKey(j) <==> i == j
  {
    if SlotKey(i) == SlotKey(j) {
      assert SlotKey(i)[|SlotKeyPrefix|] == SlotKey(j)[|SlotKeyPrefix|];
    }
  }

  /** `allUnits.FirstOrDefault(u => u != null && u.id == unitId)`. */
  function FindById(units: seq<UnitDefinition?>, unitId: string): (r: UnitDefinition?)
    ensures r != null ==> r in units && r.id == unitId
    ensures r == null <==> forall k :: 0 <= k < |units| && units[k] != null ==> units[k].id != unitId
  {
    if |units| == 0 then null
    else if units[0] != null && units[0].id == unitId then units[0]
    else
      var r := FindById(units[1..], unitId);
      assert forall k :: 1 <= k < |units| ==> units[k] == units[1..][k - 1];
      r
  }

  /** No two different definitions of the pool share an id. */
  predicate UniqueIds(units: seq<UnitDefinition?>)
  {
    forall i, j ::
      0 <= i < |units| && 0 <= j < |units| && units[i] != null && units[j] != null && units[i].id == units[j].id
      ==> units[i] == units[j]
  }

  /** With unique ids, looking up a definition's id finds that definition. */
  lemma FindByIdUnique(units: seq<UnitDefinition?>, d: UnitDefinition)
    requires UniqueIds(units) && d in units
    ensures FindById(units, d.id) == d
  {
    var r := FindById(units, d.id);
    var i :| 0 <= i < |units| && units[i] == d;
    assert r != null;
    var j :| 0 <= j < |units| && units[j] == r;
  }

  /**
   * The slot loop of `LoadDeck` over slots `0 .. n-1`: a slot whose stored
   * id is missing or empty is skipped, and so is an id no definition of
   * the pool has; every other slot adds the first definition with that id.
   */
  function LoadedSlots(units: seq<UnitDefinition?>, store: map<string, string>, n: nat): (r: seq<UnitDefinition>)
    requires n <= MaxDeckSize
    ensures |r| <= n
    ensures forall k :: 0 <= k < |r| ==> r[k] in units
  {
    if n == 0 then []
    else
      var prev := LoadedSlots(units, store, n - 1);
      var unitId := Get(store, SlotKey(n - 1), "");
      if |unitId| == 0 then prev
      else
        var d := FindById(units, unitId);
        if d == null then prev else prev + [d]
  }

  /** The slot loop itself, as both deck loaders run it. */
  method ReadSlots(units: seq<UnitDefinition?>, prefs: PlayerPrefs) returns (deck: seq<UnitDefinition>)
    ensures deck == LoadedSlots(units, prefs.store, MaxDeckSize)
  {
    deck := [];
    for i := 0 to MaxDeckSize
      invariant deck == LoadedSlots(units, prefs.store, i)
    {
      var key := SlotKey(i);
      var unitId := prefs.GetString(key, "");
      if |unitId| == 0 {
        continue;
      }
      var def := FindById(units, unitId);
      if def != null {
        deck := deck + [def];
      }
    }
  }

  /** Without any stored slot nothing loads. */
  lemma {:induction false} LoadedSlotsEmpty(units: seq<UnitDefinition?>, store: map<string, string>, n: nat)
    requires n <= MaxDeckSize
    requires forall i :: 0 <= i < n ==> SlotKey(i) !in store
    ensures LoadedSlots(units, store, n) == []
  {
    if n > 0 {
      LoadedSlotsEmpty(units, store, n - 1);
    }
  }

  /** The non-null entries of `s`, in order. */
  function NonNulls(s: seq<UnitDefinition?>): (r: seq<UnitDefinition>)
    ensures |r| <= |s|
    ensures forall k :: 0 <= k < |r| ==> r[k] in s
    ensures forall k :: 0 <= k < |s| && s[k] != null ==> s[k] in r
  {
    if |s| == 0 then []
    else
      var init := NonNulls(s[..|s| - 1]);
      assert forall k :: 0 <= k < |s| - 1 ==> s[k] == s[..|s| - 1][k];
      if s[|s| - 1] != null then init + [s[|s| - 1]] else init
  }

  /** `SaveDeck` over slots `0 .. n-1`: slot `i` holds the id of
      `deck[i]` when the deck has one, and is deleted otherwise. */
  function SaveSlots(store: map<string, string>, deck: seq<UnitDefinition>, n: nat): map<string, string>
    requires n <= MaxDeckSize
  {
    if n == 0 then store
    else
      var s := SaveSlots(store, deck, n - 1);
      if n - 1 < |deck| then s[SlotKey(n - 1) := deck[n - 1].id] else s - {SlotKey(n - 1)}
  }

  /** What a save leaves in the store: each of the first `n` slots holds
      its unit's id or is absent, and every other key keeps its entry. */
  lemma SaveSlotsContents(store: map<string, string>, deck: seq<UnitDefinition>, n: nat)
    requires n <= MaxDeckSize
    ensures var s := SaveSlots(store, deck, n);
      (forall i :: 0 <= i < n && i < |deck| ==> SlotKey(i) in s && s[SlotKey(i)] == deck[i].id) &&
      (forall i :: 0 <= i < n && |deck| <= i ==> SlotKey(i) !in s) &&
      (forall key :: (forall i :: 0 <= i < n ==> key != SlotKey(i)) ==>
        (key in s <==> key in store) && (key in store ==> s[key] == store[key]))
  {
    SaveSlotsSlots(store, deck, n);
    forall key | forall i :: 0 <= i < n ==> key != SlotKey(i)
      ensures var s := SaveSlots(store, deck, n);
        (key in s <==> key in store) && (key in store ==> s[key] == store[key])
    {
      SaveSlotsOther(store, deck, n, key);
    }
  }

  /** The slots a save writes. */
  lemma {:induction false} SaveSlotsSlots(store: map<string, string>, deck: seq<UnitDefinition>, n: nat)
    requires n <= MaxDeckSize
    ensures var s := SaveSlots(store, deck, n);
      (forall i :: 0 <= i < n && i < |deck| ==> SlotKey(i) in s && s[SlotKey(i)] == deck[i].id) &&
      (forall i :: 0 <= i < n && |deck| <= i ==> SlotKey(i) !in s)
  {
    if n > 0 {
      SaveSlotsSlots(store, deck, n - 1);
      forall i | 0 <= i < n - 1
        ensures SlotKey(i) != SlotKey(n - 1)
      {
        SlotKeyInjective(i, n - 1);
      }
    }
  }

  /** A key that is no slot key keeps its entry through a save. */
  lemma {:induction false} SaveSlotsOther(store: map<string, string>, deck: seq<UnitDefinition>, n: nat, key: string)
    requires n <= MaxDeckSize
    requires forall i :: 0 <= i < n ==> key != SlotKey(i)
    ensures var s := SaveSlots(store, deck, n);
      (key in s <==> key in store) && (key in store ==> s[key] == store[key])
  {
    if n > 0 {
      SaveSlotsOther(store, deck, n - 1, key);
      assert key != SlotKey(n - 1);
    }
  }

  /** Reading back the slots a save wrote gives the saved units, provided
      each is in the pool, ids are unique in the pool and no id is empty. */
  lemma {:induction false} LoadAfterSave(units: seq<UnitDefinition?>, store: map<string, string>,
                                          deck: seq<UnitDefinition>, n: nat)
    requires n <= MaxDeckSize && |deck| <= MaxDeckSize
    requires UniqueIds(units)
    requires forall k :: 0 <= k < |deck| ==> deck[k] in units && |deck[k].id| > 0
    ensures LoadedSlots(units, SaveSlots(store, deck, MaxDeckSize), n) == deck[..if n < |deck| then n else |deck|]
  {
    if n > 0 {
      LoadAfterSave(units, store, deck, n - 1);
      SavedSlot(store, deck, MaxDeckSize, n - 1);
      if n - 1 < |deck| {
        FindByIdUnique(units, deck[n - 1]);
        assert deck[..n] == deck[..n - 1] + [deck[n - 1]];
      }
    }
  }

  /** What a save leaves in one slot. */
  lemma SavedSlot(store: map<string, string>, deck: seq<UnitDefinition>, n: nat, i: nat)
    requires i < n <= MaxDeckSize
    ensures var s := SaveSlots(store, deck, n);
      if i < |deck| then SlotKey(i) in s && s[SlotKey(i)] == deck[i].id else SlotKey(i) !in s
  {
    SaveSlotsSlots(store, deck, n);
  }
}
