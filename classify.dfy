/**
 * The text heuristics that classify catalog items, and the acquired test on a
 * collectible state bitmask.
 */
module Classify {
  import opened Wrappers
  import opened JsStrings
  import opened Definitions

  /** `DestinyCollectibleState` as a 32-bit mask (`|` and `&` work on 32-bit integers). */
  type CollectibleState = bv32

  const StateNone: CollectibleState := 0
  const NotAcquired: CollectibleState := 1

  /** The lower-cased type label, when the item has one. */
  predicate LabelContains(item: ItemDef, phrase: string) {
    item.itemTypeDisplayName.Some? && Contains(ToLower(item.itemTypeDisplayName.value), phrase)
  }

  /** A plug whose type label mentions "shader". */
  predicate IsShaderDef(item: ItemDef)
    ensures IsShaderDef(item) <==> (item.hasPlug && item.itemTypeDisplayName.Some?
      && exists i :: OccursAt(ToLower(item.itemTypeDisplayName.value), "shader", i))
  {
    item.hasPlug && LabelContains(item, "shader")
  }

  /** A plug whose type label mentions "ornament". */
  predicate IsArmorOrnamentDef(item: ItemDef)
    ensures IsArmorOrnamentDef(item) <==> (item.hasPlug && item.itemTypeDisplayName.Some?
      && exists i :: OccursAt(ToLower(item.itemTypeDisplayName.value), "ornament", i))
  {
    item.hasPlug && LabelContains(item, "ornament")
  }

  /** `displayProperties?.description?.toLowerCase() ?? ""`. */
  function LowerDescription(item: ItemDef): string {
    if item.Description().Some? then ToLower(item.Description().value) else ""
  }

  const UniversalPhrases: seq<string> := [
    "once you get a universal ornament",
    "once you get the universal ornament",
    "eligible legendary armor",
    "eligible legendary"
  ]

  /**
   * An ornament whose description uses the standard transmog wording: universal ornaments
   * are ornaments, and an ornament is universal exactly when one of the phrases occurs.
   */
  predicate IsUniversalArmorOrnamentDef(item: ItemDef)
    ensures IsUniversalArmorOrnamentDef(item) <==> (IsArmorOrnamentDef(item)
      && exists k :: 0 <= k < |UniversalPhrases| && Contains(LowerDescription(item), UniversalPhrases[k]))
  {
    if !IsArmorOrnamentDef(item) then false
    else
      var desc := LowerDescription(item);
      Contains(desc, UniversalPhrases[0]) || Contains(desc, UniversalPhrases[1])
      || Contains(desc, UniversalPhrases[2]) || Contains(desc, UniversalPhrases[3])
  }

  /** A collectible is acquired when its NotAcquired bit is clear. */
  predicate IsCollectibleAcquired(state: CollectibleState)
    ensures IsCollectibleAcquired(state) <==> state % 2 == 0
  {
    state & NotAcquired == 0
  }

  // ---------------------------------------------------------------------------
  // Properties of the classifiers
  // ---------------------------------------------------------------------------

  /** Lower-casing twice is lower-casing once. */
  lemma ToLowerIdempotent(s: string)
    ensures ToLower(ToLower(s)) == ToLower(s)
  {
  }

  /** The shader and ornament tests ignore the case of the type label. */
  lemma LabelTestsIgnoreCase(item: ItemDef, typeLabel: string)
    requires item.itemTypeDisplayName == Some(typeLabel)
    ensures IsShaderDef(item.(itemTypeDisplayName := Some(ToLower(typeLabel)))) == IsShaderDef(item)
    ensures IsArmorOrnamentDef(item.(itemTypeDisplayName := Some(ToLower(typeLabel))))
            == IsArmorOrnamentDef(item)
  {
    ToLowerIdempotent(typeLabel);
  }

  /** "eligible legendary" subsumes "eligible legendary armor": three phrases decide universality. */
  lemma UniversalNeedsThreePhrases(item: ItemDef)
    ensures IsUniversalArmorOrnamentDef(item) <==>
      IsArmorOrnamentDef(item) &&
      (Contains(LowerDescription(item), "once you get a universal ornament")
       || Contains(LowerDescription(item), "once you get the universal ornament")
       || Contains(LowerDescription(item), "eligible legendary"))
  {
    var desc := LowerDescription(item);
    if Contains(desc, UniversalPhrases[2]) {
      ContainsPrefixOf(desc, UniversalPhrases[2], UniversalPhrases[3]);
    }
  }

  /** A missing description is the empty text, which no phrase occurs in. */
  lemma MissingDescriptionIsArmorSpecific(item: ItemDef)
    requires item.Description().None?
    ensures !IsUniversalArmorOrnamentDef(item)
  {
    assert LowerDescription(item) == "";
    forall k | 0 <= k < |UniversalPhrases| ensures !Contains("", UniversalPhrases[k]) {
      assert forall i :: !OccursAt("", UniversalPhrases[k], i);
    }
  }

  // Facts about `|` on state masks, kept apart so that proofs about the merge only use them by name.

  lemma OrNoneLeft(x: CollectibleState)
    ensures StateNone | x == x
  {
  }

  lemma OrNoneRight(x: CollectibleState)
    ensures x | StateNone == x
  {
  }

  lemma OrAssoc(x: CollectibleState, y: CollectibleState, z: CollectibleState)
    ensures (x | y) | z == x | (y | z)
  {
  }

  /** The acquired test on a merge of two states: acquired only if both are. */
  lemma AcquiredOfUnion(a: CollectibleState, b: CollectibleState)
    ensures IsCollectibleAcquired(a | b) <==> IsCollectibleAcquired(a) && IsCollectibleAcquired(b)
  {
  }

  /** The empty state is acquired; the NotAcquired bit alone is not. */
  lemma AcquiredConstants()
    ensures IsCollectibleAcquired(StateNone)
    ensures !IsCollectibleAcquired(NotAcquired)
  {
  }
}
