/**
 * The ornament -> base-armor cross-reference: for every plug hash, the armor items whose
 * sockets list it among their reusable plugs.
 */
module OrnamentIndex {
  import opened Wrappers
  import opened JsStrings
  import opened JsMaps
  import opened Definitions

  /** `DestinyItemType.Armor`. */
  const ArmorItemType: int := 2

  /** `itemTypeDisplayName?.toLowerCase() ?? ""`. */
  function LowerTypeName(item: ItemDef): string {
    if item.itemTypeDisplayName.Some? then ToLower(item.itemTypeDisplayName.value) else ""
  }

  /** The slot words of the armor test. */
  const ArmorWords: seq<string> := ["helmet", "gauntlet", "greaves", "robes", "chest armor", "cloak", "bond", "mark"]

  /** The armor test of the cross-reference: the armor item type, or a slot word in the type label. */
  predicate IsArmorForIndex(item: ItemDef)
    ensures IsArmorForIndex(item) <==> (item.itemType == ArmorItemType
      || exists k :: 0 <= k < |ArmorWords| && Contains(LowerTypeName(item), ArmorWords[k]))
  {
    ArmorWordsOccur(LowerTypeName(item));
    var name := LowerTypeName(item);
    item.itemType == ArmorItemType
    || Contains(name, "helmet") || Contains(name, "gauntlet") || Contains(name, "greaves")
    || Contains(name, "robes") || Contains(name, "chest armor") || Contains(name, "cloak")
    || Contains(name, "bond") || Contains(name, "mark")
  }

  lemma ArmorWordsOccur(name: string)
    ensures (exists k :: 0 <= k < |ArmorWords| && Contains(name, ArmorWords[k])) <==>
      (Contains(name, "helmet") || Contains(name, "gauntlet") || Contains(name, "greaves")
       || Contains(name, "robes") || Contains(name, "chest armor") || Contains(name, "cloak")
       || Contains(name, "bond") || Contains(name, "mark"))
  {
    if exists k :: 0 <= k < |ArmorWords| && Contains(name, ArmorWords[k]) {
      var k :| 0 <= k < |ArmorWords| && Contains(name, ArmorWords[k]);
      assert k in {0, 1, 2, 3, 4, 5, 6, 7};
    }
    if Contains(name, "helmet") { assert Contains(name, ArmorWords[0]); }
    if Contains(name, "gauntlet") { assert Contains(name, ArmorWords[1]); }
    if Contains(name, "greaves") { assert Contains(name, ArmorWords[2]); }
    if Contains(name, "robes") { assert Contains(name, ArmorWords[3]); }
    if Contains(name, "chest armor") { assert Contains(name, ArmorWords[4]); }
    if Contains(name, "cloak") { assert Contains(name, ArmorWords[5]); }
    if Contains(name, "bond") { assert Contains(name, ArmorWords[6]); }
    if Contains(name, "mark") { assert Contains(name, ArmorWords[7]); }
  }

  /** The items whose sockets are scanned: at least one socket, and armor. */
  predicate IsScannedArmor(item: ItemDef) {
    |item.Sockets()| > 0 && IsArmorForIndex(item)
  }

  /** `reusablePlugItems ?? []`. */
  function ReusablePlugs(socket: SocketEntry): seq<PlugItem> {
    socket.reusablePlugItems.GetOr([])
  }

  /** The item's sockets list plug `h` among their reusable plugs. */
  ghost predicate AcceptsPlug(item: ItemDef, h: int) {
    exists socket, plug :: socket in item.Sockets() && plug in ReusablePlugs(socket) && plug.plugItemHash == Some(h)
  }

  /** The non-null plug hashes of a plug list, in order. */
  function PlugHashes(plugs: seq<PlugItem>): seq<int> {
    if plugs == [] then []
    else
      var last := plugs[|plugs| - 1];
      PlugHashes(plugs[..|plugs| - 1]) + (if last.plugItemHash.Some? then [last.plugItemHash.value] else [])
  }

  /** The non-null plug hashes of all sockets, socket after socket. */
  function SocketPlugHashes(sockets: seq<SocketEntry>): seq<int> {
    if sockets == [] then []
    else SocketPlugHashes(sockets[..|sockets| - 1]) + PlugHashes(ReusablePlugs(sockets[|sockets| - 1]))
  }

  /** `Map<number, Set<number>>`; each set as its elements in insertion order. */
  type Index = map<int, seq<int>>

  /** Every recorded set is non-empty and has no repeated element. */
  ghost predicate WellFormed(index: Index) {
    forall h :: h in index ==> index[h] != [] && Distinct(index[h])
  }

  /** `get(h)`, creating an empty set when missing, then `add(k)`. */
  function AddTo(index: Index, h: int, k: int): Index {
    if h !in index then index[h := [k]]
    else if k in index[h] then index
    else index[h := index[h] + [k]]
  }

  /** Records `k` under every hash of `hs`, in order. */
  function AddAll(index: Index, hs: seq<int>, k: int): Index {
    if hs == [] then index else AddTo(AddAll(index, hs[..|hs| - 1], k), hs[|hs| - 1], k)
  }

  /** The index built from the items visited in `order`. */
  function BuildIndex(items: map<int, ItemDef>, order: seq<int>): Index {
    if order == [] then map[]
    else
      var index := BuildIndex(items, order[..|order| - 1]);
      var k := order[|order| - 1];
      if k in items && IsScannedArmor(items[k]) then AddAll(index, SocketPlugHashes(items[k].Sockets()), k)
      else index
  }

  /** The cross-reference of a catalog, as the scan builds it. */
  function OrnamentToArmor(items: OrderedMap<ItemDef>): Index {
    BuildIndex(items.entries, items.order)
  }

  lemma {:induction false} AddAllAppend(index: Index, a: seq<int>, b: seq<int>, k: int)
    ensures AddAll(index, a + b, k) == AddAll(AddAll(index, a, k), b, k)
    decreases |b|
  {
    if b == [] {
      assert a + b == a;
    } else {
      var b' := b[..|b| - 1];
      assert (a + b)[..|a + b| - 1] == a + b';
      AddAllAppend(index, a, b', k);
    }
  }

  lemma PlugHashesStep(plugs: seq<PlugItem>, l: int)
    requires 0 <= l < |plugs|
    ensures PlugHashes(plugs[..l + 1])
            == PlugHashes(plugs[..l]) + (if plugs[l].plugItemHash.Some? then [plugs[l].plugItemHash.value] else [])
  {
    assert plugs[..l + 1][..l] == plugs[..l];
  }

  lemma AddAllSnoc(index: Index, hs: seq<int>, h: int, k: int)
    ensures AddAll(index, hs + [h], k) == AddTo(AddAll(index, hs, k), h, k)
  {
    assert (hs + [h])[..|hs|] == hs;
  }

  /** Records `itemHash` under each non-null plug hash of one socket's reusable plugs. */
  method RecordPlugs(index: Index, reusablePlugItems: seq<PlugItem>, itemHash: int) returns (r: Index)
    ensures r == AddAll(index, PlugHashes(reusablePlugItems), itemHash)
  {
    r := index;
    var l := 0;
    while l < |reusablePlugItems|
      invariant 0 <= l <= |reusablePlugItems|
      invariant r == AddAll(index, PlugHashes(reusablePlugItems[..l]), itemHash)
    {
      var ornamentHash := reusablePlugItems[l].plugItemHash;
      PlugHashesStep(reusablePlugItems, l);
      if ornamentHash.Some? {
        AddAllSnoc(index, PlugHashes(reusablePlugItems[..l]), ornamentHash.value, itemHash);
        r := AddTo(r, ornamentHash.value, itemHash);
      } else {
        assert PlugHashes(reusablePlugItems[..l]) + [] == PlugHashes(reusablePlugItems[..l]);
      }
      l := l + 1;
    }
    assert reusablePlugItems[..l] == reusablePlugItems;
  }

  /** Scans every item: armor with sockets records its hash under each non-null reusable plug hash. */
  method BuildOrnamentToArmorMap(manifest: ManifestSlice) returns (index: Index)
    ensures index == OrnamentToArmor(manifest.inventoryItemsByHash)
  {
    var items := manifest.inventoryItemsByHash;
    index := map[];
    var i := 0;
    while i < |items.order|
      invariant 0 <= i <= |items.order|
      invariant index == BuildIndex(items.entries, items.order[..i])
    {
      var itemHash := items.order[i];
      assert items.order[..i + 1][..i] == items.order[..i];
      if itemHash in items.entries {
        var itemDef := items.entries[itemHash];
        var sockets := itemDef.Sockets();
        if |sockets| > 0 && IsArmorForIndex(itemDef) {
          ghost var before := index;
          var j := 0;
          while j < |sockets|
            invariant 0 <= j <= |sockets|
            invariant index == AddAll(before, SocketPlugHashes(sockets[..j]), itemHash)
          {
            var reusablePlugItems := ReusablePlugs(sockets[j]);
            index := RecordPlugs(index, reusablePlugItems, itemHash);
            assert sockets[..j + 1][..j] == sockets[..j];
            AddAllAppend(before, SocketPlugHashes(sockets[..j]), PlugHashes(reusablePlugItems), itemHash);
            j := j + 1;
          }
          assert sockets[..j] == sockets;
        }
      }
      i := i + 1;
    }
    assert items.order[..i] == items.order;
  }

  // ---------------------------------------------------------------------------
  // Properties of the cross-reference
  // ---------------------------------------------------------------------------

  lemma {:induction false} PlugHashesSpec(plugs: seq<PlugItem>, h: int)
    ensures h in PlugHashes(plugs) <==> exists plug :: plug in plugs && plug.plugItemHash == Some(h)
  {
    if plugs != [] {
      var init := plugs[..|plugs| - 1];
      PlugHashesSpec(init, h);
      assert plugs == init + [plugs[|plugs| - 1]];
    }
  }

  lemma {:induction false} SocketPlugHashesSpec(sockets: seq<SocketEntry>, h: int)
    ensures h in SocketPlugHashes(sockets) <==>
      exists socket, plug :: socket in sockets && plug in ReusablePlugs(socket) && plug.plugItemHash == Some(h)
  {
    if sockets != [] {
      var init := sockets[..|sockets| - 1];
      var last := sockets[|sockets| - 1];
      SocketPlugHashesSpec(init, h);
      PlugHashesSpec(ReusablePlugs(last), h);
      assert sockets == init + [last];
    }
  }

  /** `add` on a well-formed index: one more pair, sets stay non-empty and duplicate-free. */
  lemma AddToSpec(index: Index, h: int, k: int)
    requires WellFormed(index)
    ensures WellFormed(AddTo(index, h, k))
    ensures AddTo(index, h, k).Keys == index.Keys + {h}
    ensures forall g, x :: g in AddTo(index, h, k) && x in AddTo(index, h, k)[g] <==>
      (g in index && x in index[g]) || (g == h && x == k)
  {
    if h in index && k !in index[h] {
      var s := index[h] + [k];
      assert forall i, j :: 0 <= i < j < |s| ==> s[i] != s[j] by {
        forall i, j | 0 <= i < j < |s| ensures s[i] != s[j] {
          if j == |s| - 1 { assert s[i] in index[h]; }
        }
      }
    }
  }

  lemma {:induction false} AddAllSpec(index: Index, hs: seq<int>, k: int)
    requires WellFormed(index)
    ensures WellFormed(AddAll(index, hs, k))
    ensures AddAll(index, hs, k).Keys == index.Keys + (set h | h in hs)
    ensures forall g, x :: g in AddAll(index, hs, k) && x in AddAll(index, hs, k)[g] <==>
      (g in index && x in index[g]) || (g in hs && x == k)
  {
    if hs != [] {
      var init := hs[..|hs| - 1];
      AddAllSpec(index, init, k);
      AddToSpec(AddAll(index, init, k), hs[|hs| - 1], k);
      assert hs == init + [hs[|hs| - 1]];
    }
  }

  lemma {:induction false} BuildIndexSpec(items: map<int, ItemDef>, order: seq<int>)
    ensures WellFormed(BuildIndex(items, order))
    ensures forall h, k :: h in BuildIndex(items, order) && k in BuildIndex(items, order)[h] <==>
      k in order && k in items && IsScannedArmor(items[k]) && h in SocketPlugHashes(items[k].Sockets())
  {
    if order != [] {
      var init := order[..|order| - 1];
      var k := order[|order| - 1];
      BuildIndexSpec(items, init);
      assert order == init + [k];
      if k in items && IsScannedArmor(items[k]) {
        AddAllSpec(BuildIndex(items, init), SocketPlugHashes(items[k].Sockets()), k);
      }
    }
  }

  /**
   * Completeness: every non-null reusable plug hash of every scanned armor item maps to a
   * set that holds that item's hash.
   */
  lemma IndexComplete(items: OrderedMap<ItemDef>, k: int, socket: SocketEntry, plug: PlugItem)
    requires items.Valid()
    requires k in items.entries && IsScannedArmor(items.entries[k])
    requires socket in items.entries[k].Sockets() && plug in ReusablePlugs(socket) && plug.plugItemHash.Some?
    ensures plug.plugItemHash.value in OrnamentToArmor(items)
    ensures k in OrnamentToArmor(items)[plug.plugItemHash.value]
  {
    BuildIndexSpec(items.entries, items.order);
    SocketPlugHashesSpec(items.entries[k].Sockets(), plug.plugItemHash.value);
    assert k in (set x | x in items.order);
  }

  /**
   * Soundness: every set is non-empty and duplicate-free, and each of its elements is a
   * scanned armor item of the catalog whose sockets accept the plug.
   */
  lemma IndexSound(items: OrderedMap<ItemDef>, h: int)
    requires h in OrnamentToArmor(items)
    ensures OrnamentToArmor(items)[h] != [] && Distinct(OrnamentToArmor(items)[h])
    ensures forall k :: k in OrnamentToArmor(items)[h] ==>
      k in items.entries && IsScannedArmor(items.entries[k]) && AcceptsPlug(items.entries[k], h)
  {
    BuildIndexSpec(items.entries, items.order);
    forall k | k in OrnamentToArmor(items)[h]
      ensures k in items.entries && IsScannedArmor(items.entries[k]) && AcceptsPlug(items.entries[k], h)
    {
      SocketPlugHashesSpec(items.entries[k].Sockets(), h);
    }
  }

  /** The index depends on the catalog only: the keys are exactly the plugs some scanned armor accepts. */
  lemma IndexKeys(items: OrderedMap<ItemDef>, h: int)
    requires items.Valid()
    ensures h in OrnamentToArmor(items) <==>
      exists k :: k in items.entries && IsScannedArmor(items.entries[k]) && AcceptsPlug(items.entries[k], h)
  {
    BuildIndexSpec(items.entries, items.order);
    if h in OrnamentToArmor(items) {
      IndexSound(items, h);
      var k0 := OrnamentToArmor(items)[h][0];
      assert k0 in OrnamentToArmor(items)[h];
      assert k0 in items.entries && IsScannedArmor(items.entries[k0]) && AcceptsPlug(items.entries[k0], h);
    }
    if exists k :: k in items.entries && IsScannedArmor(items.entries[k]) && AcceptsPlug(items.entries[k], h) {
      var k :| k in items.entries && IsScannedArmor(items.entries[k]) && AcceptsPlug(items.entries[k], h);
      var socket, plug :| socket in items.entries[k].Sockets() && plug in ReusablePlugs(socket)
                          && plug.plugItemHash == Some(h);
      IndexComplete(items, k, socket, plug);
    }
  }
}
