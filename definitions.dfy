/**
 * The catalog ("manifest") records the engine reads, reduced to the fields it consults,
 * and the manifest slice handed to it: items by hash (in iteration order) and
 * collectibles by hash.
 */
module Definitions {
  import opened Wrappers
  import opened JsMaps

  /** `displayProperties` of a definition; each part may be absent. */
  datatype DisplayProperties = DisplayProperties(
    name: Option<string>,
    icon: Option<string>,
    description: Option<string>)

  /** One entry of a socket's `reusablePlugItems`; its hash may be null. */
  datatype PlugItem = PlugItem(plugItemHash: Option<int>)

  /** One entry of `sockets.socketEntries`. */
  datatype SocketEntry = SocketEntry(reusablePlugItems: Option<seq<PlugItem>>)

  /**
   * An inventory item definition. `hasPlug` is whether a `plug` block is present;
   * `itemTypeDisplayName` is `None` when absent (a label is always a string here);
   * `classType` is `None` when absent or not a number; `socketEntries` is
   * `sockets?.socketEntries`.
   */
  datatype ItemDef = ItemDef(
    displayProperties: Option<DisplayProperties>,
    itemTypeDisplayName: Option<string>,
    hasPlug: bool,
    classType: Option<int>,
    itemType: int,
    socketEntries: Option<seq<SocketEntry>>)
  {
    /** `displayProperties?.name`. */
    function Name(): Option<string> {
      if displayProperties.Some? then displayProperties.value.name else None
    }

    /** `displayProperties?.icon`. */
    function Icon(): Option<string> {
      if displayProperties.Some? then displayProperties.value.icon else None
    }

    /** `displayProperties?.description`. */
    function Description(): Option<string> {
      if displayProperties.Some? then displayProperties.value.description else None
    }

    /** `sockets?.socketEntries ?? []`. */
    function Sockets(): seq<SocketEntry> {
      socketEntries.GetOr([])
    }
  }

  /** A collectible definition: the item it unlocks. */
  datatype CollectibleDef = CollectibleDef(itemHash: int)

  /** The hash-keyed catalog tables the engine reads (plug sets are never consulted). */
  datatype ManifestSlice = ManifestSlice(
    inventoryItemsByHash: OrderedMap<ItemDef>,
    collectiblesByHash: map<int, CollectibleDef>)

  /** The per-language content paths of the three definition tables. */
  datatype ContentPaths = ContentPaths(
    inventoryItemPath: string,
    collectiblePath: string,
    plugSetPath: string)

  /** Raised when the manifest has no content paths for the requested language. */
  datatype ManifestError = NoManifestForLanguage(language: string)

  const DefaultLanguage: string := "en"

  /** Looks up the content paths for `language`, failing when there are none. */
  function ContentPathsFor(paths: map<string, ContentPaths>, language: string)
    : (r: Result<ContentPaths, ManifestError>)
    ensures r.Err? <==> language !in paths
    ensures r.Err? ==> r.error == NoManifestForLanguage(language)
    ensures r.Ok? ==> r.value == paths[language]
  {
    if language in paths then Ok(paths[language]) else Err(NoManifestForLanguage(language))
  }
}
