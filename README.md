# Destiny 2 cosmetics classification, modelled in Dafny

This project models the part of d2-drip-extractor that works out which cosmetics a
Destiny 2 player owns. It covers four pieces:

- **Item classifiers.** Text tests on an item definition. A shader or an armor ornament
  is a plug whose lower-cased type label mentions "shader" or "ornament". A universal
  (transmog) ornament is an ornament whose description uses one of four fixed phrases.
- **Ownership merge.** The collectible state bitmasks of the profile scope and of every
  character scope are folded into one map by bitwise OR, in first-seen order. A
  collectible is acquired when its NotAcquired bit is clear.
- **Ornament cross-reference.** Every socketed armor item is scanned. Each reusable plug
  hash maps to the set of armor items that accept it.
- **Aggregation.** The merged states are walked in insertion order and each collectible
  is routed to one list or dropped. The lists are owned shaders, owned universal
  ornaments, wish-listed universal ornaments and owned armor-specific ornaments. Each
  ornament list has four class buckets: hunter, titan, warlock and unknown.

It also models the display labels of `lib/utils/destiny.ts`.

## Modules

| file | module |
|---|---|
| `wrappers.dfy` | `Wrappers`: `Option` and `Result` |
| `strings.dfy` | `JsStrings`: ASCII `toLowerCase` and `includes` |
| `ordered_map.dfy` | `JsMaps`: an insertion-ordered map, standing for a JavaScript `Map` whose iteration order is observable |
| `definitions.dfy` | `Definitions`: catalog records, the manifest slice, and the content-path lookup by language |
| `classify.dfy` | `Classify`: the shader and ornament tests, the acquired test, facts about bitwise OR on state masks |
| `merge.dfy` | `MergeStates`: the profile response, the merge method and its specification |
| `ornament_index.dfy` | `OrnamentIndex`: the cross-reference method and its specification |
| `cosmetics.dfy` | `Cosmetics`: routing, the classification loop, and the whole report |
| `cosmetics_properties.dfy` | `CosmeticsProperties`: what the report promises |
| `labels.dfy` | `DestinyLabels`: class and slot labels, class colours |
| `scenarios.dfy` | `CosmeticsScenarios`: worked examples on small catalogs |

The three loops of the source are methods proved against specification functions:

- `MergeCollectibleStates` is proved against `Merged(Flatten(Scopes(profile)))`.
- `BuildOrnamentToArmorMap` is proved against `OrnamentToArmor`.
- `ClassifyCollectibles` is proved against `Aggregate`.

The properties are lemmas about those functions. `LoadOwnedCosmetics` chains the three
methods and is proved to return `Report(manifest, profile)`.

Inputs are values:

- Each collectibles object of the profile response is a sequence of `(hash, state)`
  entries, in the object's iteration order.
- The manifest slice holds the items as an ordered map and the collectibles as a map.
- Hashes are integers from the start.
- The set of armor hashes per ornament is a duplicate-free sequence in insertion order,
  which is also the order `Array.from` gives.

## Model

| member | source | states |
|---|---|---|
| JsStrings.ToLower | lib/destiny/cosmetics.ts:90 | the lower-cased text has the same length, and each character is its ASCII lower-case form |
| JsStrings.Contains | lib/destiny/cosmetics.ts:90 | `includes` holds exactly when the phrase occurs at some position of the text |
| JsStrings.ContainsPrefixOf | lib/destiny/cosmetics.ts:119-120 | a text containing a phrase contains every prefix of that phrase |
| JsMaps.OrderedMap.Set | lib/destiny/cosmetics.ts:138-141 | `Map.set` keeps the map well formed and overwrites the value; an existing key keeps its position and a new key goes last |
| Definitions.ContentPathsFor | lib/destiny/manifest.ts:28-29 | the lookup fails, naming the language, exactly when the manifest has no paths for that language; otherwise it returns those paths |
| Classify.LabelTestsIgnoreCase | lib/destiny/cosmetics.ts:86-100 | the shader and ornament tests give the same answer whether or not the type label is already lower-case |
| Classify.IsShaderDef | lib/destiny/cosmetics.ts:86-92 | an item is a shader exactly when it is a plug, has a type label, and "shader" occurs somewhere in the lower-cased label |
| Classify.IsArmorOrnamentDef | lib/destiny/cosmetics.ts:94-100 | an item is an armor ornament exactly when it is a plug, has a type label, and "ornament" occurs somewhere in the lower-cased label |
| Classify.IsUniversalArmorOrnamentDef | lib/destiny/cosmetics.ts:109-122 | a universal ornament is an ornament; an ornament is universal exactly when its lower-cased description contains one of the four phrases |
| Classify.IsCollectibleAcquired | lib/destiny/cosmetics.ts:163-166 | a state is acquired exactly when its lowest bit, the NotAcquired flag, is clear |
| Classify.UniversalNeedsThreePhrases | lib/destiny/cosmetics.ts:116-121 | "eligible legendary" subsumes "eligible legendary armor", so three phrases decide universality |
| Classify.MissingDescriptionIsArmorSpecific | lib/destiny/cosmetics.ts:114 | an item with no description is never universal, because the missing description counts as "" |
| Classify.AcquiredOfUnion | lib/destiny/cosmetics.ts:137-166 | the OR of two states is acquired exactly when both states are |
| Classify.AcquiredConstants | lib/destiny/cosmetics.ts:163-166 | the None state is acquired; the NotAcquired bit alone is not |
| MergeStates.Scopes | lib/destiny/cosmetics.ts:132-147 | the profile scope comes first, followed by one scope per character; a missing collectibles object is an empty scope |
| MergeStates.ScopeOfCharacter | lib/destiny/cosmetics.ts:144-147 | scope `c + 1` is the collectibles of character `c`, or empty |
| MergeStates.Merged | lib/destiny/cosmetics.ts:130-160 | the merged map is well formed: the keys are in first-seen order, without repeats |
| MergeStates.MergeStep | lib/destiny/cosmetics.ts:137-141 | merging one more entry sets its hash to the previous state (None when absent) OR the entry's state |
| MergeStates.MergeScope | lib/destiny/cosmetics.ts:148-157 | one pass of the inner loop turns the merge of the entries so far into the merge of those entries followed by the scope |
| MergeStates.MergeCollectibleStates | lib/destiny/cosmetics.ts:127-161 | the method returns the merge of the profile scope followed by every character scope, in that order |
| MergeStates.StateInAppend | lib/destiny/cosmetics.ts:137-140 | the state of a hash over two runs of entries is the OR of its states over each run |
| MergeStates.MergedIsUnionAndOr | lib/destiny/cosmetics.ts:127-161 | the merged keys are exactly the union of the keys of all scopes; each merged value is the OR, from None, of that hash's state across the scopes |
| MergeStates.MergeAbsorbs | lib/destiny/cosmetics.ts:137-141 | merging entries that were all merged already changes neither the states nor the key order |
| MergeStates.RemergeScopeIsIdempotent | lib/destiny/cosmetics.ts:144-158 | merging any scope a second time leaves the map unchanged |
| MergeStates.UnacquiredIffSomeEntry | lib/destiny/cosmetics.ts:137-166 | the merged state is unacquired exactly when some entry for that hash has the NotAcquired bit |
| MergeStates.UnacquiredIffSomeScope | lib/destiny/cosmetics.ts:127-166 | a merged collectible is unacquired exactly when at least one scope marks it not acquired |
| OrnamentIndex.IsArmorForIndex | lib/destiny/cosmetics.ts:181-193 | an item counts as armor exactly when its item type is 2 or its lower-cased type label contains one of the eight armor words |
| OrnamentIndex.PlugHashesSpec | lib/destiny/cosmetics.ts:197-199 | the plug hashes of a socket are exactly the non-null `plugItemHash` values |
| OrnamentIndex.SocketPlugHashesSpec | lib/destiny/cosmetics.ts:195-199 | the plug hashes of an item are exactly the non-null hashes of the reusable plugs of its sockets |
| OrnamentIndex.AddToSpec | lib/destiny/cosmetics.ts:201-206 | adding an armor hash under an ornament keeps every set duplicate-free and adds exactly that pair |
| OrnamentIndex.RecordPlugs | lib/destiny/cosmetics.ts:196-207 | the innermost loop records the armor hash under every non-null plug hash of one socket, in plug order |
| OrnamentIndex.BuildOrnamentToArmorMap | lib/destiny/cosmetics.ts:172-212 | the three nested loops build the cross-reference of the catalog, visiting items in the catalog's order |
| OrnamentIndex.BuildIndexSpec | lib/destiny/cosmetics.ts:177-208 | an armor hash is listed under an ornament exactly when that hash was visited, is socketed armor and has a reusable plug with that ornament's hash |
| OrnamentIndex.IndexComplete | lib/destiny/cosmetics.ts:177-208 | every non-null reusable plug hash of every socketed armor item maps to a set containing that item |
| OrnamentIndex.IndexSound | lib/destiny/cosmetics.ts:177-208 | every set is non-empty and duplicate-free, and each of its members is socketed armor that has that ornament among its plugs |
| OrnamentIndex.IndexKeys | lib/destiny/cosmetics.ts:177-208 | an ornament hash is a key exactly when some socketed armor item has it as a reusable plug |
| Cosmetics.OrnamentsByClass.Push | lib/destiny/cosmetics.ts:331-338 | pushing into one bucket appends to that bucket and leaves the other three unchanged |
| Cosmetics.BucketOf | lib/destiny/cosmetics.ts:290-326 | Hunter, Titan and Warlock classes pick their own bucket; every other class value picks unknown |
| Cosmetics.ArmorNames | lib/destiny/cosmetics.ts:299-302 | there are never more names than armor hashes, and there is one name per hash when every hash is in the catalog |
| Cosmetics.ItemOf | lib/destiny/cosmetics.ts:265-270 | the lookup succeeds exactly when the collectible is in the collectible table and its item is in the item table; it then gives that item hash and that item's definition |
| Cosmetics.OrnamentEntry | lib/destiny/cosmetics.ts:290-314 | the entry carries the item hash; its class is the item's class, or Unknown when the item has none; it is universal exactly when the item is a universal ornament; its targets are the cross-reference entry of the item, or none; it has no more names than targets |
| Cosmetics.Route | lib/destiny/cosmetics.ts:264-340 | the routing table of one collectible. A lookup miss is dropped. A shader is kept exactly when acquired, and the shader test comes first. An ornament goes to owned-universal, wishlist-universal or owned-armor-specific according to universality and acquisition, in the bucket of its class. The ornament's class is the item's class, or Unknown when the item has none. An unacquired armor-specific ornament is dropped |
| Cosmetics.ClassifyCollectibles | lib/destiny/cosmetics.ts:240-348 | the loop over the merged states builds the routing of every collectible, in insertion order |
| Cosmetics.OwnershipState | lib/destiny/cosmetics.ts:237 | the merged state map is well formed |
| Cosmetics.LoadOwnedCosmetics | lib/destiny/cosmetics.ts:218-349 | once the manifest slice and the profile are given, the result is the report of the catalog and the merged ownership |
| CosmeticsProperties.FileTouchesOneList | lib/destiny/cosmetics.ts:278-340 | filing a routed collectible appends to the one list and bucket it is routed to and leaves every other list unchanged |
| CosmeticsProperties.ShadersAreRouted | lib/destiny/cosmetics.ts:264-285 | the shader list holds exactly the shaders of the collectibles routed to it |
| CosmeticsProperties.ListedOrnamentsWereRouted | lib/destiny/cosmetics.ts:287-340 | every ornament in a bucket was routed to that list and bucket by some collectible walked |
| CosmeticsProperties.RoutedOrnamentsAreListed | lib/destiny/cosmetics.ts:287-340 | every collectible routed to an ornament list appears in that list's bucket |
| CosmeticsProperties.OrnamentsAreRouted | lib/destiny/cosmetics.ts:287-340 | each ornament bucket holds exactly the ornaments routed to that list and bucket |
| CosmeticsProperties.PushSize | lib/destiny/cosmetics.ts:331-338 | a push grows the ornament count by exactly one |
| CosmeticsProperties.EachCollectibleOnce | lib/destiny/cosmetics.ts:264-341 | the entries emitted plus the collectibles dropped equal the number of collectibles walked, so each collectible lands in at most one list |
| CosmeticsProperties.DroppedLeavesNoTrace | lib/destiny/cosmetics.ts:264-341 | removing a dropped collectible from the walk does not change the result |
| CosmeticsProperties.MissingLookupDropped | lib/destiny/cosmetics.ts:265-270 | a collectible missing from the collectible table, or whose item is missing from the item table, leaves no trace in the result |
| CosmeticsProperties.OrnamentEntryFacts | lib/destiny/cosmetics.ts:287-340 | each listed ornament sits in its class's bucket. It is universal exactly when it is not in the armor-specific list. It has no more names than armor hashes. It comes from a non-shader ornament collectible that is acquired exactly when the list is not the wishlist. Its class is that item's class, or Unknown when the item has none, and it is universal exactly when that item is a universal ornament |
| CosmeticsProperties.ShaderEntryFacts | lib/destiny/cosmetics.ts:272-284 | each listed shader comes from an acquired collectible whose item is a shader and carries that item's hash |
| CosmeticsProperties.UniversalAndSpecificDisjoint | lib/destiny/cosmetics.ts:328-340 | an ornament in any armor-specific bucket never has the item hash of an ornament in any universal or wishlist bucket |
| CosmeticsProperties.AppliesToFromIndex | lib/destiny/cosmetics.ts:296-302 | an ornament's target hashes are its cross-reference entry, or none, and its names are the names of those targets |
| CosmeticsProperties.OwnershipStateKeys | lib/destiny/cosmetics.ts:264 | every key walked by the loop has a merged state |
| CosmeticsProperties.AppliesToIsCompatibleArmor | lib/destiny/cosmetics.ts:296-302 | in the report, an ornament has one name per target, and every target is socketed armor that accepts that ornament |
| CosmeticsProperties.OwnershipAcrossScopes | lib/destiny/cosmetics.ts:264-340 | each reported ornament comes from a collectible that appears in some scope and that no scope marks not acquired, or, for the wishlist, that some scope does |
| CosmeticsProperties.BucketMatchesClassLabel | lib/destiny/cosmetics.ts:316-326 | the bucket of an ornament is the one whose label `classTypeLabel` gives its class, and unknown exactly when that label is "Unknown" |
| DestinyLabels.ClassTypeLabel | lib/utils/destiny.ts:3-14 | the label is one of four; it is "Unknown" exactly when the class is not 0, 1 or 2; it is "Titan" exactly for 0 |
| DestinyLabels.SlotLabel | lib/utils/destiny.ts:16-31 | the label is one of six; it is "Unknown" exactly for the unknown slot |
| DestinyLabels.GetClassColor | lib/utils/destiny.ts:33-44 | the colour is one of four; it is grey exactly when the class is not 0, 1 or 2 |
| DestinyLabels.SlotLabelInjective | lib/utils/destiny.ts:16-31 | distinct slots have distinct labels |
| DestinyLabels.LabelAndColorAgree | lib/utils/destiny.ts:3-44 | the label is "Unknown" exactly when the colour is grey; two classes share a label exactly when they share a colour |
| CosmeticsScenarios.HunterOrnamentIsUniversal | lib/destiny/cosmetics.ts:86-122 | "Hunter Ornament" with the description "eligible Legendary armor" is a universal ornament and not a shader |
| CosmeticsScenarios.HunterCatalogIndex | lib/destiny/cosmetics.ts:172-212 | a helmet socket that offers plug 100 and a null plug yields exactly the cross-reference 100 → [helmet] |
| CosmeticsScenarios.HunterRoute | lib/destiny/cosmetics.ts:264-334 | the unacquired Hunter ornament is routed to the Hunter wishlist with its name, icon, class, the helmet as target and the helmet's name |
| CosmeticsScenarios.ScenarioMerge | lib/destiny/cosmetics.ts:127-161 | the profile scope saying not acquired and a character scope saying acquired merge to not acquired |
| CosmeticsScenarios.UnacquiredUniversalGoesToWishlist | lib/destiny/cosmetics.ts:218-349 | an unacquired universal Hunter ornament is reported in the Hunter wishlist, with the helmet as its target, and in no other list |
| CosmeticsScenarios.ShaderTestTakesPrecedence | lib/destiny/cosmetics.ts:274-288 | an item labelled "Shader Ornament" is a shader when acquired and is dropped, not wish-listed, when not acquired |
| CosmeticsScenarios.MissingLanguageFails | lib/destiny/manifest.ts:28-29 | asking for "fr" when only "en" paths exist fails with the error naming "fr" |

## Left out

- Network and I/O: `fetchProfileWithCosmetics`, `loadManifestSlice`, `fetchDestinyManifest` and the Bungie client are HTTP fetches and JSON unwrapping. The manifest slice and the profile response are inputs to the model. Of the manifest loading, only the failing lookup of a language's content paths is modelled.
- `Number(hashStr)` and `Number(k)`: hashes are integers from the start. Each collectibles object is a sequence of entries in its iteration order. The model takes that order as given; it does not derive the ascending order JavaScript uses for integer-like keys.
- `toLowerCase` and `includes`: lower-casing is ASCII only. Unicode case mapping is not modelled.
- `plugSetsByHash`: loaded by the manifest slice but never read by the classification, so it is not part of the slice here.
- Authentication, the API route and all React components: these are session plumbing and rendering.
- The report fields `ownedArmorByClass`, `ownedExoticArmor` and `characterArmorDrip`, and the per-ornament `slot`: the type declarations name them, but `loadOwnedCosmetics` returns only shaders and the three ornament collections. The model follows the code. It has no armor-piece, exotic, slot-inference or per-character results.
- The cross-reference from ornament hashes to armor sets is a map whose key order is not modelled. Nothing reads the keys in order; the armor hashes inside each set keep their insertion order.
- The state values are `bv32`, standing for JavaScript's 32-bit `|` and `&`. Values outside 32 bits are not modelled.
- The output buckets are values updated by the loop. The aliasing of the bucket arrays inside the result object is not modelled.
- `mergeCollectibleStates` repeats its inner loop for the profile scope and for each character scope. The model factors that loop into `MergeStates.MergeScope`, which both places call.
- The innermost loop of `buildOrnamentToArmorMap`, over one socket's reusable plugs, is the separate method `OrnamentIndex.RecordPlugs`, called from the socket loop. The behaviour is unchanged.
- `itemTypeDisplayName` values that are not strings: the model's label is a string or absent. The shader and ornament tests would treat a non-string label as false through their `typeof` guard, but lib/destiny/cosmetics.ts:181 calls `toLowerCase` on it unguarded and throws, which aborts `loadOwnedCosmetics`.
- The missing-language error is modelled as the value `NoManifestForLanguage(language)`. The source throws an `Error` with that message.
