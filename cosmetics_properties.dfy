/** What the aggregation promises about its output lists. */
module CosmeticsProperties {
  import opened Wrappers
  import opened JsMaps
  import opened Definitions
  import opened Classify
  import opened MergeStates
  import opened OrnamentIndex
  import opened Cosmetics
  import opened DestinyLabels

  /** The shaders are exactly the collectibles routed to the shader list. */
  lemma {:induction false} ShadersAreRouted(manifest: ManifestSlice, index: Index,
                                            states: map<int, CollectibleState>, keys: seq<int>)
    requires forall k :: k in keys ==> k in states
    ensures forall s :: s in Aggregate(manifest, index, states, keys).shaders ==>
      s.collectibleHash in keys && Route(manifest, index, s.collectibleHash, states[s.collectibleHash]) == ToShaders(s)
    ensures forall k :: k in keys && Route(manifest, index, k, states[k]).ToShaders? ==>
      Route(manifest, index, k, states[k]).shader in Aggregate(manifest, index, states, keys).shaders
  {
    if keys != [] {
      var init := keys[..|keys| - 1];
      var k := keys[|keys| - 1];
      assert keys == init + [k];
      ShadersAreRouted(manifest, index, states, init);
      var r := Aggregate(manifest, index, states, init);
      var r' := Aggregate(manifest, index, states, keys);
      if Route(manifest, index, k, states[k]).ToShaders? {
        assert r'.shaders == r.shaders + [Route(manifest, index, k, states[k]).shader];
      } else {
        assert r'.shaders == r.shaders;
      }
    }
  }

  /** Filing a routed collectible changes the one list it is routed to and no other. */
  lemma FileTouchesOneList(r: OwnedCosmeticsResult, routing: Routing)
    ensures r.File(routing).shaders == if routing.ToShaders? then r.shaders + [routing.shader] else r.shaders
    ensures forall list :: (r.File(routing).Ornaments(list) ==
      if routing.ToOrnaments? && routing.list == list then r.Ornaments(list).Push(routing.bucket, routing.ornament)
      else r.Ornaments(list))
  {
  }

  /** Every listed ornament was routed to that list and bucket by some collectible walked. */
  lemma {:induction false} ListedOrnamentsWereRouted(manifest: ManifestSlice, index: Index,
                                                     states: map<int, CollectibleState>, keys: seq<int>)
    requires forall k :: k in keys ==> k in states
    ensures forall list, bucket, o :: o in Aggregate(manifest, index, states, keys).Ornaments(list).Get(bucket) ==>
      exists k :: k in keys && Route(manifest, index, k, states[k]) == ToOrnaments(list, bucket, o)
  {
    if keys != [] {
      var init := keys[..|keys| - 1];
      var k := keys[|keys| - 1];
      assert keys == init + [k];
      ListedOrnamentsWereRouted(manifest, index, states, init);
      var r := Aggregate(manifest, index, states, init);
      var route := Route(manifest, index, k, states[k]);
      FileTouchesOneList(r, route);
      forall list, bucket, o | o in Aggregate(manifest, index, states, keys).Ornaments(list).Get(bucket)
        ensures exists k' :: k' in keys && Route(manifest, index, k', states[k']) == ToOrnaments(list, bucket, o)
      {
        if route == ToOrnaments(list, bucket, o) {
          assert k in keys;
        } else {
          assert o in r.Ornaments(list).Get(bucket);
          var k' :| k' in init && Route(manifest, index, k', states[k']) == ToOrnaments(list, bucket, o);
          assert k' in keys;
        }
      }
    }
  }

  /** Every collectible routed to an ornament list is listed there. */
  lemma {:induction false} RoutedOrnamentsAreListed(manifest: ManifestSlice, index: Index,
                                                    states: map<int, CollectibleState>, keys: seq<int>)
    requires forall k :: k in keys ==> k in states
    ensures forall k :: k in keys && Route(manifest, index, k, states[k]).ToOrnaments? ==>
      var r := Route(manifest, index, k, states[k]);
      r.ornament in Aggregate(manifest, index, states, keys).Ornaments(r.list).Get(r.bucket)
  {
    if keys != [] {
      var init := keys[..|keys| - 1];
      var k := keys[|keys| - 1];
      assert keys == init + [k];
      RoutedOrnamentsAreListed(manifest, index, states, init);
      var r := Aggregate(manifest, index, states, init);
      FileTouchesOneList(r, Route(manifest, index, k, states[k]));
      forall k' | k' in keys && Route(manifest, index, k', states[k']).ToOrnaments?
        ensures Route(manifest, index, k', states[k']).ornament
                in Aggregate(manifest, index, states, keys).Ornaments(Route(manifest, index, k', states[k']).list)
                     .Get(Route(manifest, index, k', states[k']).bucket)
      {
        var rk := Route(manifest, index, k', states[k']);
        if k' != k {
          assert k' in init;
          assert rk.ornament in r.Ornaments(rk.list).Get(rk.bucket);
        }
      }
    }
  }

  /** The ornament lists are exactly the collectibles routed to each list and bucket. */
  lemma OrnamentsAreRouted(manifest: ManifestSlice, index: Index,
                           states: map<int, CollectibleState>, keys: seq<int>)
    requires forall k :: k in keys ==> k in states
    ensures forall list, bucket, o :: o in Aggregate(manifest, index, states, keys).Ornaments(list).Get(bucket) ==>
      exists k :: k in keys && Route(manifest, index, k, states[k]) == ToOrnaments(list, bucket, o)
    ensures forall k :: k in keys && Route(manifest, index, k, states[k]).ToOrnaments? ==>
      var r := Route(manifest, index, k, states[k]);
      r.ornament in Aggregate(manifest, index, states, keys).Ornaments(r.list).Get(r.bucket)
  {
    ListedOrnamentsWereRouted(manifest, index, states, keys);
    RoutedOrnamentsAreListed(manifest, index, states, keys);
  }

  function BucketsSize(byClass: OrnamentsByClass): nat {
    |byClass.Get(Hunter)| + |byClass.Get(Titan)| + |byClass.Get(Warlock)| + |byClass.Get(UnknownClass)|
  }

  /** All entries of a result. */
  function Emitted(r: OwnedCosmeticsResult): nat {
    |r.shaders| + BucketsSize(r.universalOrnamentsByClass) + BucketsSize(r.wishlistUniversalOrnamentsByClass)
    + BucketsSize(r.armorSpecificOrnamentsByClass)
  }

  /** The collectibles among `keys` that the routing drops. */
  function DroppedCount(manifest: ManifestSlice, index: Index, states: map<int, CollectibleState>, keys: seq<int>): nat
    requires forall k :: k in keys ==> k in states
  {
    if keys == [] then 0
    else
      var k := keys[|keys| - 1];
      DroppedCount(manifest, index, states, keys[..|keys| - 1])
        + (if Route(manifest, index, k, states[k]).Dropped? then 1 else 0)
  }

  lemma PushSize(byClass: OrnamentsByClass, bucket: Bucket, o: OwnedArmorOrnament)
    ensures BucketsSize(byClass.Push(bucket, o)) == BucketsSize(byClass) + 1
  {
  }

  /**
   * Each collectible lands in exactly one place: one output list, or nowhere. So the
   * entries emitted and the collectibles dropped add up to the collectibles walked.
   */
  lemma {:induction false} EachCollectibleOnce(manifest: ManifestSlice, index: Index,
                                               states: map<int, CollectibleState>, keys: seq<int>)
    requires forall k :: k in keys ==> k in states
    ensures Emitted(Aggregate(manifest, index, states, keys)) + DroppedCount(manifest, index, states, keys) == |keys|
  {
    if keys != [] {
      var init := keys[..|keys| - 1];
      var k := keys[|keys| - 1];
      EachCollectibleOnce(manifest, index, states, init);
      var r := Aggregate(manifest, index, states, init);
      match Route(manifest, index, k, states[k])
      case Dropped =>
      case ToShaders(_) =>
      case ToOrnaments(list, bucket, o) =>
        PushSize(r.Ornaments(list), bucket, o);
    }
  }

  /** A collectible the routing drops (a lookup miss among them) leaves every list unchanged. */
  lemma {:induction false} DroppedLeavesNoTrace(manifest: ManifestSlice, index: Index,
                                                states: map<int, CollectibleState>, a: seq<int>, k: int, b: seq<int>)
    requires forall x :: x in a + [k] + b ==> x in states
    requires Route(manifest, index, k, states[k]).Dropped?
    ensures Aggregate(manifest, index, states, a + [k] + b) == Aggregate(manifest, index, states, a + b)
    decreases |b|
  {
    if b == [] {
      assert a + [k] + b == a + [k];
      assert (a + [k])[..|a|] == a;
      assert a + b == a;
    } else {
      var b' := b[..|b| - 1];
      var x := b[|b| - 1];
      assert (a + [k] + b)[..|a + [k] + b| - 1] == a + [k] + b';
      assert (a + b)[..|a + b| - 1] == a + b';
      assert (a + [k] + b)[|a + [k] + b| - 1] == x && (a + b)[|a + b| - 1] == x;
      DroppedLeavesNoTrace(manifest, index, states, a, k, b');
    }
  }

  /** A collectible whose catalog lookups miss appears in no output list. */
  lemma MissingLookupDropped(manifest: ManifestSlice, index: Index,
                             states: map<int, CollectibleState>, a: seq<int>, k: int, b: seq<int>)
    requires forall x :: x in a + [k] + b ==> x in states
    requires k !in manifest.collectiblesByHash
          || manifest.collectiblesByHash[k].itemHash !in manifest.inventoryItemsByHash.entries
    ensures Aggregate(manifest, index, states, a + [k] + b) == Aggregate(manifest, index, states, a + b)
  {
    DroppedLeavesNoTrace(manifest, index, states, a, k, b);
  }

  /**
   * What an entry of an ornament list says about its collectible: its item is an ornament
   * and not a shader, it sits in its class's bucket, it is universal exactly outside the
   * armor-specific list, and its collectible is acquired exactly outside the wishlist.
   */
  lemma OrnamentEntryFacts(manifest: ManifestSlice, index: Index, states: map<int, CollectibleState>,
                           keys: seq<int>, list: OrnamentList, bucket: Bucket, o: OwnedArmorOrnament)
    requires forall k :: k in keys ==> k in states
    requires o in Aggregate(manifest, index, states, keys).Ornaments(list).Get(bucket)
    ensures BucketOf(o.classType) == bucket
    ensures o.isUniversal <==> list != OwnedArmorSpecific
    ensures |o.appliesToItemNames| <= |o.appliesToItemHashes|
    ensures exists k :: (k in keys && ItemOf(manifest, k).Some? && ItemOf(manifest, k).value.0 == o.itemHash
      && IsArmorOrnamentDef(ItemOf(manifest, k).value.1) && !IsShaderDef(ItemOf(manifest, k).value.1)
      && o.classType == ItemOf(manifest, k).value.1.classType.GetOr(ClassUnknown)
      && (o.isUniversal <==> IsUniversalArmorOrnamentDef(ItemOf(manifest, k).value.1))
      && (IsCollectibleAcquired(states[k]) <==> list != WishlistUniversal))
  {
    OrnamentsAreRouted(manifest, index, states, keys);
    var k :| k in keys && Route(manifest, index, k, states[k]) == ToOrnaments(list, bucket, o);
    var item := ItemOf(manifest, k).value.1;
    assert o == OrnamentEntry(manifest, index, o.itemHash, item);
  }

  /** A shader in the output is an acquired shader of the catalog. */
  lemma ShaderEntryFacts(manifest: ManifestSlice, index: Index, states: map<int, CollectibleState>,
                         keys: seq<int>, s: OwnedShader)
    requires forall k :: k in keys ==> k in states
    requires s in Aggregate(manifest, index, states, keys).shaders
    ensures s.collectibleHash in keys && IsCollectibleAcquired(states[s.collectibleHash])
    ensures ItemOf(manifest, s.collectibleHash).Some? && ItemOf(manifest, s.collectibleHash).value.0 == s.itemHash
    ensures IsShaderDef(ItemOf(manifest, s.collectibleHash).value.1)
  {
    ShadersAreRouted(manifest, index, states, keys);
  }

  /**
   * No ornament item is both armor-specific and universal: an armor-specific entry and an
   * entry of either universal list never carry the same item hash.
   */
  lemma UniversalAndSpecificDisjoint(manifest: ManifestSlice, index: Index, states: map<int, CollectibleState>,
                                     keys: seq<int>, b1: Bucket, b2: Bucket,
                                     specific: OwnedArmorOrnament, universal: OwnedArmorOrnament)
    requires forall k :: k in keys ==> k in states
    requires specific in Aggregate(manifest, index, states, keys).armorSpecificOrnamentsByClass.Get(b2)
    requires universal in Aggregate(manifest, index, states, keys).universalOrnamentsByClass.Get(b1)
      || universal in Aggregate(manifest, index, states, keys).wishlistUniversalOrnamentsByClass.Get(b1)
    ensures specific.itemHash != universal.itemHash
  {
    var r := Aggregate(manifest, index, states, keys);
    OrnamentEntryFacts(manifest, index, states, keys, OwnedArmorSpecific, b2, specific);
    if universal in r.universalOrnamentsByClass.Get(b1) {
      OrnamentEntryFacts(manifest, index, states, keys, OwnedUniversal, b1, universal);
    } else {
      OrnamentEntryFacts(manifest, index, states, keys, WishlistUniversal, b1, universal);
    }
  }

  /** An ornament lists the set the cross-reference holds for it (none when absent), and those armors' names. */
  lemma AppliesToFromIndex(manifest: ManifestSlice, index: Index, states: map<int, CollectibleState>,
                           keys: seq<int>, list: OrnamentList, bucket: Bucket, o: OwnedArmorOrnament)
    requires forall k :: k in keys ==> k in states
    requires o in Aggregate(manifest, index, states, keys).Ornaments(list).Get(bucket)
    ensures o.appliesToItemHashes == if o.itemHash in index then index[o.itemHash] else []
    ensures o.appliesToItemNames == ArmorNames(manifest.inventoryItemsByHash.entries, o.appliesToItemHashes)
  {
    OrnamentsAreRouted(manifest, index, states, keys);
    var k :| k in keys && Route(manifest, index, k, states[k]) == ToOrnaments(list, bucket, o);
    assert o == OrnamentEntry(manifest, index, o.itemHash, ItemOf(manifest, k).value.1);
  }

  /** The states of the merged map cover its insertion order. */
  lemma OwnershipStateKeys(profile: ProfileResponse)
    ensures forall k :: k in OwnershipState(profile).order ==> k in OwnershipState(profile).entries
  {
    var states := OwnershipState(profile);
    assert forall k :: k in states.order ==> k in (set x | x in states.order);
  }

  /**
   * With the cross-reference built from the same catalog, every base armor an ornament
   * lists is a scanned armor item accepting it, and every one of them has a name.
   */
  lemma AppliesToIsCompatibleArmor(manifest: ManifestSlice, profile: ProfileResponse,
                                   list: OrnamentList, bucket: Bucket, o: OwnedArmorOrnament)
    requires o in Report(manifest, profile).Ornaments(list).Get(bucket)
    ensures |o.appliesToItemNames| == |o.appliesToItemHashes|
    ensures forall h :: h in o.appliesToItemHashes ==>
      h in manifest.inventoryItemsByHash.entries
      && IsScannedArmor(manifest.inventoryItemsByHash.entries[h])
      && AcceptsPlug(manifest.inventoryItemsByHash.entries[h], o.itemHash)
  {
    var states := OwnershipState(profile);
    var index := OrnamentToArmor(manifest.inventoryItemsByHash);
    OwnershipStateKeys(profile);
    AppliesToFromIndex(manifest, index, states.entries, states.order, list, bucket, o);
    if o.itemHash in index {
      IndexSound(manifest.inventoryItemsByHash, o.itemHash);
    }
  }

  /**
   * End to end: an owned ornament's collectible has the NotAcquired bit clear in every
   * scope of the profile, and a wishlisted one has it set in at least one scope.
   */
  lemma OwnershipAcrossScopes(manifest: ManifestSlice, profile: ProfileResponse,
                              list: OrnamentList, bucket: Bucket, o: OwnedArmorOrnament)
    requires o in Report(manifest, profile).Ornaments(list).Get(bucket)
    ensures exists c :: (ItemOf(manifest, c).Some? && ItemOf(manifest, c).value.0 == o.itemHash
      && (exists i, e :: 0 <= i < |Scopes(profile)| && e in Scopes(profile)[i] && e.hash == c)
      && (list != WishlistUniversal <==>
          forall i, e :: 0 <= i < |Scopes(profile)| && e in Scopes(profile)[i] && e.hash == c ==>
            IsCollectibleAcquired(e.state)))
  {
    var states := OwnershipState(profile);
    var index := OrnamentToArmor(manifest.inventoryItemsByHash);
    OwnershipStateKeys(profile);
    OrnamentEntryFacts(manifest, index, states.entries, states.order, list, bucket, o);
    var c :| c in states.order && ItemOf(manifest, c).Some? && ItemOf(manifest, c).value.0 == o.itemHash
      && (IsCollectibleAcquired(states.entries[c]) <==> list != WishlistUniversal);
    UnacquiredIffSomeScope(Scopes(profile), c);
    MergedKeyInSomeScope(Scopes(profile), c);
  }

  /** The bucket an ornament is filed under is the one its class label names. */
  lemma BucketMatchesClassLabel(classType: int)
    ensures BucketOf(classType) == UnknownClass <==> ClassTypeLabel(classType) == "Unknown"
    ensures BucketOf(classType) == Hunter <==> ClassTypeLabel(classType) == "Hunter"
    ensures BucketOf(classType) == Titan <==> ClassTypeLabel(classType) == "Titan"
    ensures BucketOf(classType) == Warlock <==> ClassTypeLabel(classType) == "Warlock"
  {
  }
}
