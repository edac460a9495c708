/**
 * The aggregation of `loadOwnedCosmetics`: the merged collectible states are walked in
 * insertion order and each collectible is routed to the owned shaders, to one of the three
 * per-class ornament collections, or nowhere.
 */
module Cosmetics {
  import opened Wrappers
  import opened JsMaps
  import opened Definitions
  import opened Classify
  import opened MergeStates
  import opened OrnamentIndex

  /** `DestinyClass`. */
  const ClassTitan: int := 0
  const ClassHunter: int := 1
  const ClassWarlock: int := 2
  const ClassUnknown: int := 3

  datatype OwnedShader = OwnedShader(itemHash: int, collectibleHash: int, name: string, icon: string)

  datatype OwnedArmorOrnament = OwnedArmorOrnament(
    itemHash: int,
    name: string,
    icon: string,
    classType: int,
    isUniversal: bool,
    appliesToItemHashes: seq<int>,
    appliesToItemNames: seq<string>)

  /** The four class buckets of an ornament collection. */
  datatype Bucket = Hunter | Titan | Warlock | UnknownClass

  datatype OrnamentsByClass = OrnamentsByClass(
    hunter: seq<OwnedArmorOrnament>,
    titan: seq<OwnedArmorOrnament>,
    warlock: seq<OwnedArmorOrnament>,
    unknown: seq<OwnedArmorOrnament>)
  {
    /** `byClass[bucket]`. */
    function Get(bucket: Bucket): seq<OwnedArmorOrnament> {
      match bucket
      case Hunter => hunter
      case Titan => titan
      case Warlock => warlock
      case UnknownClass => unknown
    }

    /** `byClass[bucket].push(entry)`: one bucket grows by `entry`, the others are unchanged. */
    function Push(bucket: Bucket, entry: OwnedArmorOrnament): (r: OrnamentsByClass)
      ensures r.Get(bucket) == Get(bucket) + [entry]
      ensures forall b :: b != bucket ==> r.Get(b) == Get(b)
    {
      match bucket
      case Hunter => this.(hunter := hunter + [entry])
      case Titan => this.(titan := titan + [entry])
      case Warlock => this.(warlock := warlock + [entry])
      case UnknownClass => this.(unknown := unknown + [entry])
    }
  }

  const NoOrnaments: OrnamentsByClass := OrnamentsByClass([], [], [], [])

  /** The three ornament collections of the result. */
  datatype OrnamentList = OwnedUniversal | WishlistUniversal | OwnedArmorSpecific

  datatype OwnedCosmeticsResult = OwnedCosmeticsResult(
    shaders: seq<OwnedShader>,
    universalOrnamentsByClass: OrnamentsByClass,
    wishlistUniversalOrnamentsByClass: OrnamentsByClass,
    armorSpecificOrnamentsByClass: OrnamentsByClass)
  {
    function Ornaments(list: OrnamentList): OrnamentsByClass {
      match list
      case OwnedUniversal => universalOrnamentsByClass
      case WishlistUniversal => wishlistUniversalOrnamentsByClass
      case OwnedArmorSpecific => armorSpecificOrnamentsByClass
    }

    /** The result once a routed collectible is filed: a shader is appended, an ornament pushed into its bucket. */
    function File(routing: Routing): OwnedCosmeticsResult {
      match routing
      case Dropped => this
      case ToShaders(s) => this.(shaders := shaders + [s])
      case ToOrnaments(list, bucket, o) =>
        match list
        case OwnedUniversal =>
          this.(universalOrnamentsByClass := universalOrnamentsByClass.Push(bucket, o))
        case WishlistUniversal =>
          this.(wishlistUniversalOrnamentsByClass := wishlistUniversalOrnamentsByClass.Push(bucket, o))
        case OwnedArmorSpecific =>
          this.(armorSpecificOrnamentsByClass := armorSpecificOrnamentsByClass.Push(bucket, o))
    }
  }

  /** The bucket of a class value: the three playable classes by their value, anything else unknown. */
  function BucketOf(classType: int): (b: Bucket)
    ensures b == Hunter <==> classType == ClassHunter
    ensures b == Titan <==> classType == ClassTitan
    ensures b == Warlock <==> classType == ClassWarlock
    ensures b == UnknownClass <==> classType !in {ClassTitan, ClassHunter, ClassWarlock}
  {
    if classType == ClassHunter then Hunter
    else if classType == ClassTitan then Titan
    else if classType == ClassWarlock then Warlock
    else UnknownClass
  }

  /** The names of the armor hashes found in the catalog, `"Unknown Armor"` for a nameless one. */
  function ArmorNames(items: map<int, ItemDef>, hashes: seq<int>): (names: seq<string>)
    ensures |names| <= |hashes|
    ensures (forall h :: h in hashes ==> h in items) ==> |names| == |hashes|
  {
    if hashes == [] then []
    else
      var last := hashes[|hashes| - 1];
      ArmorNames(items, hashes[..|hashes| - 1])
        + (if last in items then [items[last].Name().GetOr("Unknown Armor")] else [])
  }

  /**
   * The ornament record built for an ornament item: its class falls back to Unknown when
   * the item has none, and its targets are its cross-reference entry, or none.
   */
  function OrnamentEntry(manifest: ManifestSlice, index: Index, itemHash: int, itemDef: ItemDef)
    : (o: OwnedArmorOrnament)
    ensures o.itemHash == itemHash
    ensures o.classType == (if itemDef.classType.Some? then itemDef.classType.value else ClassUnknown)
    ensures o.isUniversal <==> IsUniversalArmorOrnamentDef(itemDef)
    ensures itemHash in index ==> o.appliesToItemHashes == index[itemHash]
    ensures itemHash !in index ==> o.appliesToItemHashes == []
    ensures |o.appliesToItemNames| <= |o.appliesToItemHashes|
  {
    var appliesToItemHashes := if itemHash in index then index[itemHash] else [];
    OwnedArmorOrnament(
      itemHash,
      itemDef.Name().GetOr("Unknown Ornament"),
      itemDef.Icon().GetOr(""),
      itemDef.classType.GetOr(ClassUnknown),
      IsUniversalArmorOrnamentDef(itemDef),
      appliesToItemHashes,
      ArmorNames(manifest.inventoryItemsByHash.entries, appliesToItemHashes))
  }

  /** Where one collectible goes. */
  datatype Routing =
    | Dropped
    | ToShaders(shader: OwnedShader)
    | ToOrnaments(list: OrnamentList, bucket: Bucket, ornament: OwnedArmorOrnament)

  /** The catalog item behind a collectible hash, when both lookups hit. */
  function ItemOf(manifest: ManifestSlice, collectibleHash: int): (r: Option<(int, ItemDef)>)
    ensures r.Some? <==> (collectibleHash in manifest.collectiblesByHash
      && manifest.collectiblesByHash[collectibleHash].itemHash in manifest.inventoryItemsByHash.entries)
    ensures r.Some? ==> (r.value.0 == manifest.collectiblesByHash[collectibleHash].itemHash
      && r.value.1 == manifest.inventoryItemsByHash.entries[r.value.0])
  {
    if collectibleHash !in manifest.collectiblesByHash then None
    else
      var itemHash := manifest.collectiblesByHash[collectibleHash].itemHash;
      if itemHash !in manifest.inventoryItemsByHash.entries then None
      else Some((itemHash, manifest.inventoryItemsByHash.entries[itemHash]))
  }

  /**
   * The routing of one collectible, which is the table of the aggregation. Lookup misses
   * and non-cosmetics are dropped; the shader test comes first, and only acquired shaders
   * are kept; an ornament goes to the list chosen by universality and acquisition, in the
   * bucket of its class, and an unacquired armor-specific ornament is dropped.
   */
  function Route(manifest: ManifestSlice, index: Index, collectibleHash: int, state: CollectibleState): (r: Routing)
    ensures ItemOf(manifest, collectibleHash).None? ==> r == Dropped
    ensures r.ToShaders? <==>
      ItemOf(manifest, collectibleHash).Some? && IsShaderDef(ItemOf(manifest, collectibleHash).value.1)
      && IsCollectibleAcquired(state)
    ensures r.ToShaders? ==>
      (r.shader.collectibleHash == collectibleHash
       && r.shader.itemHash == ItemOf(manifest, collectibleHash).value.0)
    ensures r.ToOrnaments? ==>
      (ItemOf(manifest, collectibleHash).Some?
       && !IsShaderDef(ItemOf(manifest, collectibleHash).value.1)
       && IsArmorOrnamentDef(ItemOf(manifest, collectibleHash).value.1)
       && r.ornament.itemHash == ItemOf(manifest, collectibleHash).value.0
       && r.ornament.classType == ItemOf(manifest, collectibleHash).value.1.classType.GetOr(ClassUnknown)
       && r.bucket == BucketOf(r.ornament.classType)
       && r.ornament.isUniversal == IsUniversalArmorOrnamentDef(ItemOf(manifest, collectibleHash).value.1)
       && (r.list == OwnedUniversal <==> r.ornament.isUniversal && IsCollectibleAcquired(state))
       && (r.list == WishlistUniversal <==> r.ornament.isUniversal && !IsCollectibleAcquired(state))
       && (r.list == OwnedArmorSpecific <==> !r.ornament.isUniversal && IsCollectibleAcquired(state)))
    ensures ItemOf(manifest, collectibleHash).Some? && !IsShaderDef(ItemOf(manifest, collectibleHash).value.1)
      && IsArmorOrnamentDef(ItemOf(manifest, collectibleHash).value.1)
      ==> (r.Dropped? <==>
            !IsUniversalArmorOrnamentDef(ItemOf(manifest, collectibleHash).value.1) && !IsCollectibleAcquired(state))
  {
    match ItemOf(manifest, collectibleHash)
    case None => Dropped
    case Some((itemHash, itemDef)) =>
      var acquired := IsCollectibleAcquired(state);
      if IsShaderDef(itemDef) then
        if acquired then
          ToShaders(OwnedShader(itemHash, collectibleHash, itemDef.Name().GetOr("Unknown Shader"), itemDef.Icon().GetOr("")))
        else Dropped
      else if !IsArmorOrnamentDef(itemDef) then Dropped
      else
        var entry := OrnamentEntry(manifest, index, itemHash, itemDef);
        var bucket := BucketOf(entry.classType);
        if entry.isUniversal then
          if acquired then ToOrnaments(OwnedUniversal, bucket, entry)
          else ToOrnaments(WishlistUniversal, bucket, entry)
        else if acquired then ToOrnaments(OwnedArmorSpecific, bucket, entry)
        else Dropped
  }

  /** The result of routing the collectibles `keys`, in order; each routed collectible adds one entry. */
  function Aggregate(manifest: ManifestSlice, index: Index, states: map<int, CollectibleState>, keys: seq<int>)
    : OwnedCosmeticsResult
    requires forall k :: k in keys ==> k in states
  {
    if keys == [] then OwnedCosmeticsResult([], NoOrnaments, NoOrnaments, NoOrnaments)
    else
      var k := keys[|keys| - 1];
      Aggregate(manifest, index, states, keys[..|keys| - 1]).File(Route(manifest, index, k, states[k]))
  }

  /** Walks the merged states in insertion order and routes each collectible. */
  method ClassifyCollectibles(manifest: ManifestSlice, ornamentToArmorMap: Index,
                              stateByCollectible: OrderedMap<CollectibleState>)
    returns (result: OwnedCosmeticsResult)
    requires stateByCollectible.Valid()
    ensures result == Aggregate(manifest, ornamentToArmorMap, stateByCollectible.entries, stateByCollectible.order)
  {
    var order := stateByCollectible.order;
    ghost var states := stateByCollectible.entries;
    assert forall k :: k in order ==> k in states by {
      assert forall k :: k in order ==> k in (set x | x in order);
    }
    var shaders: seq<OwnedShader> := [];
    var universalOrnamentsByClass := NoOrnaments;
    var wishlistUniversalOrnamentsByClass := NoOrnaments;
    var armorSpecificOrnamentsByClass := NoOrnaments;

    for i := 0 to |order|
      invariant OwnedCosmeticsResult(shaders, universalOrnamentsByClass, wishlistUniversalOrnamentsByClass,
                                     armorSpecificOrnamentsByClass)
                == Aggregate(manifest, ornamentToArmorMap, states, order[..i])
    {
      var collectibleHash := order[i];
      var state := stateByCollectible.entries[collectibleHash];
      assert order[..i + 1][..i] == order[..i];
      ghost var before := OwnedCosmeticsResult(shaders, universalOrnamentsByClass, wishlistUniversalOrnamentsByClass,
                                               armorSpecificOrnamentsByClass);
      assert Aggregate(manifest, ornamentToArmorMap, states, order[..i + 1])
             == before.File(Route(manifest, ornamentToArmorMap, collectibleHash, state));

      if collectibleHash !in manifest.collectiblesByHash {
        continue;
      }
      var collectibleDef := manifest.collectiblesByHash[collectibleHash];
      var itemHash := collectibleDef.itemHash;
      if itemHash !in manifest.inventoryItemsByHash.entries {
        continue;
      }
      var itemDef := manifest.inventoryItemsByHash.entries[itemHash];
      var acquired := IsCollectibleAcquired(state);

      if IsShaderDef(itemDef) {
        if !acquired {
          continue;
        }
        shaders := shaders + [OwnedShader(itemHash, collectibleHash, itemDef.Name().GetOr("Unknown Shader"),
                                          itemDef.Icon().GetOr(""))];
        continue;
      }

      if !IsArmorOrnamentDef(itemDef) {
        continue;
      }

      var classType := itemDef.classType.GetOr(ClassUnknown);
      var appliesToItemHashes := if itemHash in ornamentToArmorMap then ornamentToArmorMap[itemHash] else [];
      var appliesToItemNames := ArmorNames(manifest.inventoryItemsByHash.entries, appliesToItemHashes);
      var isUniversal := IsUniversalArmorOrnamentDef(itemDef);
      var ornamentEntry := OwnedArmorOrnament(itemHash, itemDef.Name().GetOr("Unknown Ornament"),
                                              itemDef.Icon().GetOr(""), classType, isUniversal,
                                              appliesToItemHashes, appliesToItemNames);
      assert ornamentEntry == OrnamentEntry(manifest, ornamentToArmorMap, itemHash, itemDef);
      var bucket := BucketOf(classType);

      if isUniversal {
        if acquired {
          universalOrnamentsByClass := universalOrnamentsByClass.Push(bucket, ornamentEntry);
        } else {
          wishlistUniversalOrnamentsByClass := wishlistUniversalOrnamentsByClass.Push(bucket, ornamentEntry);
        }
      } else {
        if acquired {
          armorSpecificOrnamentsByClass := armorSpecificOrnamentsByClass.Push(bucket, ornamentEntry);
        }
      }
    }
    assert order[..|order|] == order;
    result := OwnedCosmeticsResult(shaders, universalOrnamentsByClass, wishlistUniversalOrnamentsByClass,
                                   armorSpecificOrnamentsByClass);
  }

  /** The merged ownership state of a profile, in the merge's insertion order. */
  function OwnershipState(profile: ProfileResponse): (m: OrderedMap<CollectibleState>)
    ensures m.Valid()
  {
    Merged(Flatten(Scopes(profile)))
  }

  /** The whole report for a manifest slice and a profile response. */
  function Report(manifest: ManifestSlice, profile: ProfileResponse): OwnedCosmeticsResult {
    var states := OwnershipState(profile);
    assert forall k :: k in states.order ==> k in states.entries by {
      assert forall k :: k in states.order ==> k in (set x | x in states.order);
    }
    Aggregate(manifest, OrnamentToArmor(manifest.inventoryItemsByHash), states.entries, states.order)
  }

  /**
   * `loadOwnedCosmetics` once the manifest slice and the profile response are in hand:
   * build the cross-reference, merge the states, classify.
   */
  method LoadOwnedCosmetics(manifest: ManifestSlice, profile: ProfileResponse) returns (result: OwnedCosmeticsResult)
    ensures result == Report(manifest, profile)
  {
    var ornamentToArmorMap := BuildOrnamentToArmorMap(manifest);
    var stateByCollectible := MergeCollectibleStates(profile);
    result := ClassifyCollectibles(manifest, ornamentToArmorMap, stateByCollectible);
  }
}
