/** Worked examples of the classification on small catalogs and profiles. */
module CosmeticsScenarios {
  import opened Wrappers
  import opened JsStrings
  import opened JsMaps
  import opened Definitions
  import opened Classify
  import opened MergeStates
  import opened OrnamentIndex
  import opened Cosmetics

  /** A Hunter transmog ornament (item 100), unlocked by collectible 10. */
  const HunterOrnament: ItemDef := ItemDef(
    Some(DisplayProperties(Some("Hunter Transmog"), Some("/icon.png"), Some("eligible Legendary armor"))),
    Some("Hunter Ornament"), true, Some(ClassHunter), 19, None)

  /** A Hunter helmet (item 200) whose one socket accepts item 100. */
  const HunterHelm: ItemDef := ItemDef(
    Some(DisplayProperties(Some("Hunter Helm"), None, None)),
    Some("Helmet"), false, Some(ClassHunter), ArmorItemType,
    Some([SocketEntry(Some([PlugItem(Some(100)), PlugItem(None)]))]))

  const HunterCatalog: ManifestSlice := ManifestSlice(
    OrderedMap([100, 200], map[100 := HunterOrnament, 200 := HunterHelm]),
    map[10 := CollectibleDef(100)])

  lemma HunterTypeNameLower()
    ensures ToLower("Hunter Ornament") == "hunter ornament"
  {
  }

  lemma HunterTypeNameNotShader()
    ensures !Contains("hunter ornament", "shader")
  {
    MissingCharNotContained("hunter ornament", "shader", 's');
  }

  lemma HunterTypeNameOrnament()
    ensures Contains("hunter ornament", "ornament")
  {
    assert OccursAt("hunter ornament", "ornament", 7);
  }

  lemma HunterDescription()
    ensures ToLower("eligible Legendary armor") == UniversalPhrases[2]
    ensures Contains(UniversalPhrases[2], UniversalPhrases[2])
  {
    assert OccursAt(UniversalPhrases[2], UniversalPhrases[2], 0);
  }

  lemma HunterOrnamentIsUniversal()
    ensures !IsShaderDef(HunterOrnament)
    ensures IsArmorOrnamentDef(HunterOrnament)
    ensures IsUniversalArmorOrnamentDef(HunterOrnament)
  {
    HunterTypeNameLower();
    HunterTypeNameNotShader();
    HunterTypeNameOrnament();
    HunterDescription();
  }

  lemma HunterHelmPlugs()
    ensures IsScannedArmor(HunterHelm)
    ensures SocketPlugHashes(HunterHelm.Sockets()) == [100]
  {
    var plugs := [PlugItem(Some(100)), PlugItem(None)];
    assert plugs[..1] == [PlugItem(Some(100))];
    assert plugs[..1][..0] == [];
    assert PlugHashes(plugs) == [100];
    var sockets := HunterHelm.Sockets();
    assert sockets[..0] == [];
    assert SocketPlugHashes(sockets) == SocketPlugHashes([]) + PlugHashes(plugs);
  }

  lemma HunterCatalogFirstItem()
    ensures BuildIndex(HunterCatalog.inventoryItemsByHash.entries, [100]) == map[]
  {
    assert [100][..0] == [];
    assert !IsScannedArmor(HunterOrnament);
  }

  lemma HelmIndexed()
    ensures AddAll(map[], [100], 200) == map[100 := [200]]
  {
    assert [100][..0] == [];
  }

  lemma HunterCatalogIndex()
    ensures OrnamentToArmor(HunterCatalog.inventoryItemsByHash) == map[100 := [200]]
  {
    var items := HunterCatalog.inventoryItemsByHash.entries;
    HunterCatalogFirstItem();
    HunterHelmPlugs();
    HelmIndexed();
    assert [100, 200][..1] == [100];
    assert BuildIndex(items, [100, 200]) == AddAll(BuildIndex(items, [100]), SocketPlugHashes(HunterHelm.Sockets()), 200);
  }

  lemma ScenarioFlatten(profile: ProfileResponse)
    requires profile == ProfileResponse(Some([StateEntry(10, NotAcquired)]),
                                        Some([CharacterCollectibles(Some([StateEntry(10, StateNone)]))]))
    ensures Flatten(Scopes(profile)) == [StateEntry(10, NotAcquired), StateEntry(10, StateNone)]
  {
    var scopes := Scopes(profile);
    assert scopes == [[StateEntry(10, NotAcquired)], [StateEntry(10, StateNone)]];
    assert scopes[..1] == [[StateEntry(10, NotAcquired)]];
    assert scopes[..1][..0] == [];
    assert Flatten(scopes[..1]) == Flatten([]) + [StateEntry(10, NotAcquired)];
    assert Flatten(scopes) == Flatten(scopes[..1]) + [StateEntry(10, StateNone)];
  }

  lemma ScenarioStates(es: seq<StateEntry>)
    requires es == [StateEntry(10, NotAcquired), StateEntry(10, StateNone)]
    ensures Merged(es) == OrderedMap([10], map[10 := NotAcquired])
  {
    assert es[..1] == [StateEntry(10, NotAcquired)];
    assert es[..1][..0] == [];
    assert FirstOccurrences(es[..1]) == FirstOccurrences([]) + [10];
    assert FirstOccurrences(es) == [10];
    OrNoneLeft(NotAcquired);
    OrNoneRight(NotAcquired);
    assert StateIn(es[..1], 10) == NotAcquired;
    assert StateIn(es, 10) == NotAcquired;
    assert HashesIn(es) == {10};
  }

  /**
   * The profile scope marks collectible 10 not acquired and a character scope marks it
   * acquired: the merged state keeps the NotAcquired bit.
   */
  lemma ScenarioMerge(profile: ProfileResponse)
    requires profile == ProfileResponse(Some([StateEntry(10, NotAcquired)]),
                                        Some([CharacterCollectibles(Some([StateEntry(10, StateNone)]))]))
    ensures OwnershipState(profile) == OrderedMap([10], map[10 := NotAcquired])
  {
    ScenarioFlatten(profile);
    ScenarioStates(Flatten(Scopes(profile)));
  }

  /** The ornament record the scenario expects for item 100. */
  const HunterEntry: OwnedArmorOrnament :=
    OwnedArmorOrnament(100, "Hunter Transmog", "/icon.png", ClassHunter, true, [200], ["Hunter Helm"])

  lemma HelmNames()
    ensures ArmorNames(HunterCatalog.inventoryItemsByHash.entries, [200]) == ["Hunter Helm"]
  {
    assert [200][..0] == [];
  }

  lemma HunterRoute()
    ensures Route(HunterCatalog, map[100 := [200]], 10, NotAcquired) == ToOrnaments(WishlistUniversal, Hunter, HunterEntry)
  {
    HunterOrnamentIsUniversal();
    HelmNames();
    assert ItemOf(HunterCatalog, 10) == Some((100, HunterOrnament));
    assert !IsCollectibleAcquired(NotAcquired);
  }

  /**
   * An unacquired universal Hunter ornament goes to the Hunter wishlist and nowhere else,
   * with the helmet that accepts it as its target, although one character scope marks it
   * acquired.
   */
  lemma UnacquiredUniversalGoesToWishlist(profile: ProfileResponse)
    requires profile == ProfileResponse(Some([StateEntry(10, NotAcquired)]),
                                        Some([CharacterCollectibles(Some([StateEntry(10, StateNone)]))]))
    ensures Report(HunterCatalog, profile)
            == OwnedCosmeticsResult([], NoOrnaments, NoOrnaments.(hunter := [HunterEntry]), NoOrnaments)
  {
    ScenarioMerge(profile);
    HunterCatalogIndex();
    HunterRoute();
    var states := map[10 := NotAcquired];
    assert [10][..0] == [];
    assert Aggregate(HunterCatalog, map[100 := [200]], states, [10])
           == OwnedCosmeticsResult([], NoOrnaments, NoOrnaments.Push(Hunter, HunterEntry), NoOrnaments);
  }

  /** An item whose type label names both a shader and an ornament (item 300, collectible 30). */
  const ShaderOrnament: ItemDef := ItemDef(
    Some(DisplayProperties(Some("Dual"), None, Some("eligible Legendary armor"))),
    Some("Shader Ornament"), true, Some(ClassTitan), 19, None)

  const DualCatalog: ManifestSlice := ManifestSlice(
    OrderedMap([300], map[300 := ShaderOrnament]),
    map[30 := CollectibleDef(300)])

  lemma DualTypeName()
    ensures ToLower("Shader Ornament") == "shader ornament"
    ensures Contains("shader ornament", "shader")
  {
    assert OccursAt("shader ornament", "shader", 0);
  }

  /**
   * The shader test comes first: an item that also passes the ornament test is reported
   * as a shader when acquired, and dropped, not wish-listed, when not.
   */
  lemma ShaderTestTakesPrecedence(index: Index)
    ensures Route(DualCatalog, index, 30, StateNone) == ToShaders(OwnedShader(300, 30, "Dual", ""))
    ensures Route(DualCatalog, index, 30, NotAcquired) == Dropped
  {
    DualTypeName();
    assert ItemOf(DualCatalog, 30) == Some((300, ShaderOrnament));
    assert IsCollectibleAcquired(StateNone) && !IsCollectibleAcquired(NotAcquired);
  }

  /** A catalog without the requested language is an error naming that language. */
  lemma MissingLanguageFails(paths: ContentPaths)
    ensures ContentPathsFor(map[DefaultLanguage := paths], "fr") == Err(NoManifestForLanguage("fr"))
  {
  }
}
