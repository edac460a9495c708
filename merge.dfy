/**
 * Folding the collectible states of the profile scope and of every character scope
 * into one `hash -> state` map by bitwise OR.
 */
module MergeStates {
  import opened Wrappers
  import opened JsMaps
  import opened Classify

  /** One `[hash, { state }]` entry of a scope's `collectibles` object. */
  datatype StateEntry = StateEntry(hash: int, state: CollectibleState)

  /** One character's collectibles component; `collectibles` may be missing. */
  datatype CharacterCollectibles = CharacterCollectibles(collectibles: Option<seq<StateEntry>>)

  /**
   * The parts of a profile response the merge reads: the profile-scope collectibles
   * (`profileCollectibles?.data?.collectibles`) and the character-scope components
   * (`characterCollectibles?.data`), each in iteration order.
   */
  datatype ProfileResponse = ProfileResponse(
    profileCollectibles: Option<seq<StateEntry>>,
    characterCollectibles: Option<seq<CharacterCollectibles>>)

  /** The scopes in the order the merge visits them: the profile scope, then each character. */
  function Scopes(profile: ProfileResponse): (r: seq<seq<StateEntry>>)
    ensures |r| == 1 + |profile.characterCollectibles.GetOr([])|
    ensures r[0] == profile.profileCollectibles.GetOr([])
  {
    var chars := profile.characterCollectibles.GetOr([]);
    [profile.profileCollectibles.GetOr([])]
      + seq(|chars|, c requires 0 <= c < |chars| => chars[c].collectibles.GetOr([]))
  }

  /** Character `c`'s scope comes after the profile scope and the `c` characters before it. */
  lemma ScopeOfCharacter(profile: ProfileResponse, c: int)
    requires 0 <= c < |profile.characterCollectibles.GetOr([])|
    ensures Scopes(profile)[c + 1] == profile.characterCollectibles.GetOr([])[c].collectibles.GetOr([])
  {
  }

  /** All entries of all scopes, scope after scope. */
  function Flatten(scopes: seq<seq<StateEntry>>): seq<StateEntry> {
    if scopes == [] then [] else Flatten(scopes[..|scopes| - 1]) + scopes[|scopes| - 1]
  }

  /** The bitwise OR of the states recorded for `h`, starting from None. */
  function StateIn(es: seq<StateEntry>, h: int): CollectibleState {
    if es == [] then StateNone
    else if es[|es| - 1].hash == h then StateIn(es[..|es| - 1], h) | es[|es| - 1].state
    else StateIn(es[..|es| - 1], h)
  }

  function HashesIn(es: seq<StateEntry>): set<int> {
    set e | e in es :: e.hash
  }

  /** The merged state of every hash that occurs. */
  function MergedStates(es: seq<StateEntry>): map<int, CollectibleState> {
    map h | h in HashesIn(es) :: StateIn(es, h)
  }

  /** The hashes in the order of their first occurrence: the insertion order of the merged map. */
  function FirstOccurrences(es: seq<StateEntry>): seq<int> {
    if es == [] then []
    else
      var o := FirstOccurrences(es[..|es| - 1]);
      if es[|es| - 1].hash in o then o else o + [es[|es| - 1].hash]
  }

  /** The merged map: insertion order and merged states. */
  function Merged(es: seq<StateEntry>): (r: OrderedMap<CollectibleState>)
    ensures r.Valid()
  {
    FirstOccurrencesSpec(es);
    OrderedMap(FirstOccurrences(es), MergedStates(es))
  }

  lemma {:induction false} FirstOccurrencesSpec(es: seq<StateEntry>)
    ensures Distinct(FirstOccurrences(es))
    ensures (set k | k in FirstOccurrences(es)) == HashesIn(es)
  {
    if es != [] {
      var init := es[..|es| - 1];
      FirstOccurrencesSpec(init);
      assert es == init + [es[|es| - 1]];
      assert HashesIn(es) == HashesIn(init) + {es[|es| - 1].hash};
    }
  }

  lemma {:induction false} StateOfAbsentHash(es: seq<StateEntry>, h: int)
    requires h !in HashesIn(es)
    ensures StateIn(es, h) == StateNone
  {
    if es != [] {
      var init := es[..|es| - 1];
      assert HashesIn(init) <= HashesIn(es);
      StateOfAbsentHash(init, h);
    }
  }

  lemma {:induction false} StateInStep(es: seq<StateEntry>, e: StateEntry, h: int)
    ensures StateIn(es + [e], h) == if e.hash == h then StateIn(es, h) | e.state else StateIn(es, h)
  {
    var es' := es + [e];
    assert es'[..|es'| - 1] == es;
  }

  lemma {:induction false} MergedStatesStep(es: seq<StateEntry>, e: StateEntry)
    ensures MergedStates(es + [e]) == MergedStates(es)[e.hash := StateIn(es + [e], e.hash)]
  {
    var m := MergedStates(es);
    var m' := MergedStates(es + [e]);
    assert HashesIn(es + [e]) == HashesIn(es) + {e.hash};
    assert m'.Keys == m[e.hash := StateIn(es + [e], e.hash)].Keys;
    forall h | h in m' && h != e.hash ensures m'[h] == m[h] {
      StateInStep(es, e, h);
    }
  }

  /** The state merged for the entry's own hash: the previous state (None if absent) OR the entry's. */
  lemma {:induction false} StateInOfNewEntry(es: seq<StateEntry>, e: StateEntry, prev: CollectibleState)
    requires e.hash in HashesIn(es) ==> prev == StateIn(es, e.hash)
    requires e.hash !in HashesIn(es) ==> prev == StateNone
    ensures StateIn(es + [e], e.hash) == prev | e.state
  {
    StateInStep(es, e, e.hash);
    if e.hash !in HashesIn(es) {
      StateOfAbsentHash(es, e.hash);
    }
  }

  lemma {:induction false} FirstOccurrencesStep(es: seq<StateEntry>, e: StateEntry)
    ensures FirstOccurrences(es + [e]) ==
      if e.hash in HashesIn(es) then FirstOccurrences(es) else FirstOccurrences(es) + [e.hash]
  {
    var es' := es + [e];
    assert es'[..|es'| - 1] == es;
    FirstOccurrencesSpec(es);
  }

  /** One entry merged into the map: `set(hash, (get(hash) ?? None) | state)`. */
  lemma {:induction false} MergeStep(es: seq<StateEntry>, e: StateEntry)
    ensures Merged(es + [e]) == Merged(es).Set(e.hash, Merged(es).Get(e.hash).GetOr(StateNone) | e.state)
  {
    var prev := Merged(es).Get(e.hash).GetOr(StateNone);
    StateInOfNewEntry(es, e, prev);
    MergedStatesStep(es, e);
    FirstOccurrencesStep(es, e);
  }

  /**
   * Merges one scope's entries into the map, entry by entry:
   * `set(hash, (get(hash) ?? None) | state)`.
   */
  method MergeScope(stateByCollectible: OrderedMap<CollectibleState>, collectibles: seq<StateEntry>,
                    ghost merged: seq<StateEntry>)
    returns (r: OrderedMap<CollectibleState>)
    requires stateByCollectible == Merged(merged)
    ensures r == Merged(merged + collectibles)
  {
    r := stateByCollectible;
    var j := 0;
    assert merged + collectibles[..0] == merged;
    while j < |collectibles|
      invariant 0 <= j <= |collectibles|
      invariant r == Merged(merged + collectibles[..j])
    {
      var comp := collectibles[j];
      var prev := r.Get(comp.hash).GetOr(StateNone);
      MergeStep(merged + collectibles[..j], comp);
      assert merged + collectibles[..j + 1] == (merged + collectibles[..j]) + [comp];
      r := r.Set(comp.hash, prev | comp.state);
      j := j + 1;
    }
    assert collectibles[..j] == collectibles;
  }

  /** Merges the collectible states of the profile scope and of every character scope. */
  method MergeCollectibleStates(profile: ProfileResponse) returns (stateByCollectible: OrderedMap<CollectibleState>)
    ensures stateByCollectible == Merged(Flatten(Scopes(profile)))
    ensures stateByCollectible.Valid()
  {
    ghost var scopes := Scopes(profile);
    stateByCollectible := Empty();

    var profileCollectibles := profile.profileCollectibles.GetOr([]);
    assert [] + profileCollectibles == profileCollectibles;
    stateByCollectible := MergeScope(stateByCollectible, profileCollectibles, []);
    assert Flatten(scopes[..1]) == profileCollectibles by {
      assert scopes[..1][..0] == [];
    }

    var characterCollectibles := profile.characterCollectibles.GetOr([]);
    var c := 0;
    while c < |characterCollectibles|
      invariant 0 <= c <= |characterCollectibles|
      invariant stateByCollectible == Merged(Flatten(scopes[..c + 1]))
    {
      var collectibles := characterCollectibles[c].collectibles.GetOr([]);
      ScopeOfCharacter(profile, c);
      FlattenStep(scopes, c + 1);
      stateByCollectible := MergeScope(stateByCollectible, collectibles, Flatten(scopes[..c + 1]));
      c := c + 1;
    }
    assert scopes[..c + 1] == scopes;
  }

  lemma {:induction false} FlattenStep(scopes: seq<seq<StateEntry>>, n: int)
    requires 0 <= n < |scopes|
    ensures Flatten(scopes[..n + 1]) == Flatten(scopes[..n]) + scopes[n]
  {
    assert scopes[..n + 1][..n] == scopes[..n];
  }

  // ---------------------------------------------------------------------------
  // Properties of the merge
  // ---------------------------------------------------------------------------

  lemma {:induction false} HashesInAppend(a: seq<StateEntry>, b: seq<StateEntry>)
    ensures HashesIn(a + b) == HashesIn(a) + HashesIn(b)
  {
    assert forall e :: e in a + b <==> e in a || e in b;
  }

  lemma {:induction false} StateInAppend(a: seq<StateEntry>, b: seq<StateEntry>, h: int)
    ensures StateIn(a + b, h) == StateIn(a, h) | StateIn(b, h)
    decreases |b|
  {
    if b == [] {
      assert a + b == a;
      OrNoneRight(StateIn(a, h));
    } else {
      var b' := b[..|b| - 1];
      var e := b[|b| - 1];
      assert (a + b)[..|a + b| - 1] == a + b';
      StateInAppend(a, b', h);
      if e.hash == h {
        OrAssoc(StateIn(a, h), StateIn(b', h), e.state);
      }
    }
  }

  /** The OR, scope by scope, of each scope's own state for `h`. */
  function OrAcross(scopes: seq<seq<StateEntry>>, h: int): CollectibleState {
    if scopes == [] then StateNone
    else OrAcross(scopes[..|scopes| - 1], h) | StateIn(scopes[|scopes| - 1], h)
  }

  lemma {:induction false} FlattenHashes(scopes: seq<seq<StateEntry>>)
    ensures forall h :: h in HashesIn(Flatten(scopes)) <==>
      exists i :: 0 <= i < |scopes| && h in HashesIn(scopes[i])
  {
    if scopes != [] {
      var init := scopes[..|scopes| - 1];
      var last := scopes[|scopes| - 1];
      FlattenHashes(init);
      HashesInAppend(Flatten(init), last);
      forall h | exists i :: 0 <= i < |scopes| && h in HashesIn(scopes[i])
        ensures h in HashesIn(Flatten(scopes))
      {
        var i :| 0 <= i < |scopes| && h in HashesIn(scopes[i]);
        if i < |init| { assert init[i] == scopes[i]; }
      }
      forall h | h in HashesIn(Flatten(scopes))
        ensures exists i :: 0 <= i < |scopes| && h in HashesIn(scopes[i])
      {
        if h !in HashesIn(last) {
          var i :| 0 <= i < |init| && h in HashesIn(init[i]);
          assert scopes[i] == init[i];
        }
      }
    }
  }

  lemma {:induction false} FlattenStates(scopes: seq<seq<StateEntry>>, h: int)
    ensures StateIn(Flatten(scopes), h) == OrAcross(scopes, h)
  {
    if scopes != [] {
      var init := scopes[..|scopes| - 1];
      FlattenStates(init, h);
      StateInAppend(Flatten(init), scopes[|scopes| - 1], h);
    }
  }

  /**
   * The merged keys are exactly the hashes of the profile scope and of all character
   * scopes, and each merged value is the OR of that hash's state in every scope.
   */
  lemma MergedIsUnionAndOr(scopes: seq<seq<StateEntry>>)
    ensures forall h :: h in Merged(Flatten(scopes)).entries <==>
      exists i :: 0 <= i < |scopes| && h in HashesIn(scopes[i])
    ensures forall h :: h in Merged(Flatten(scopes)).entries ==>
      Merged(Flatten(scopes)).entries[h] == OrAcross(scopes, h)
  {
    FlattenHashes(scopes);
    forall h ensures StateIn(Flatten(scopes), h) == OrAcross(scopes, h) {
      FlattenStates(scopes, h);
    }
  }

  /** A merged key occurs as an entry of some scope. */
  lemma MergedKeyInSomeScope(scopes: seq<seq<StateEntry>>, h: int)
    requires h in Merged(Flatten(scopes)).entries
    ensures exists i, e :: 0 <= i < |scopes| && e in scopes[i] && e.hash == h
  {
    MergedIsUnionAndOr(scopes);
    var i :| 0 <= i < |scopes| && h in HashesIn(scopes[i]);
    var e :| e in scopes[i] && e.hash == h;
  }

  /** An entry already merged is absorbed: OR-ing its state in again changes nothing. */
  lemma {:induction false} StateInAbsorbs(es: seq<StateEntry>, e: StateEntry)
    requires e in es
    ensures StateIn(es, e.hash) | e.state == StateIn(es, e.hash)
  {
    var init := es[..|es| - 1];
    if es[|es| - 1] != e {
      assert e in init;
      StateInAbsorbs(init, e);
    }
  }

  lemma {:induction false} StateInAbsorbsAll(a: seq<StateEntry>, b: seq<StateEntry>, h: int)
    requires forall e :: e in b ==> e in a
    ensures StateIn(a, h) | StateIn(b, h) == StateIn(a, h)
  {
    if b != [] {
      var b' := b[..|b| - 1];
      var e := b[|b| - 1];
      assert forall x :: x in b' ==> x in b;
      StateInAbsorbsAll(a, b', h);
      if e.hash == h { StateInAbsorbs(a, e); }
    }
  }

  lemma {:induction false} FirstOccurrencesAbsorb(a: seq<StateEntry>, b: seq<StateEntry>)
    requires forall e :: e in b ==> e in a
    ensures FirstOccurrences(a + b) == FirstOccurrences(a)
    decreases |b|
  {
    if b == [] {
      assert a + b == a;
    } else {
      var b' := b[..|b| - 1];
      assert (a + b)[..|a + b| - 1] == a + b';
      assert forall x :: x in b' ==> x in b;
      FirstOccurrencesAbsorb(a, b');
      FirstOccurrencesSpec(a);
      assert b[|b| - 1].hash in HashesIn(a);
    }
  }

  /** Merging entries that were all merged before leaves the map, order included, unchanged. */
  lemma MergeAbsorbs(a: seq<StateEntry>, b: seq<StateEntry>)
    requires forall e :: e in b ==> e in a
    ensures Merged(a + b) == Merged(a)
  {
    HashesInAppend(a, b);
    assert HashesIn(b) <= HashesIn(a);
    forall h ensures StateIn(a + b, h) == StateIn(a, h) {
      StateInAppend(a, b, h);
      StateInAbsorbsAll(a, b, h);
    }
    FirstOccurrencesAbsorb(a, b);
  }

  lemma {:induction false} ScopeInFlatten(scopes: seq<seq<StateEntry>>, k: int, e: StateEntry)
    requires 0 <= k < |scopes| && e in scopes[k]
    ensures e in Flatten(scopes)
  {
    var init := scopes[..|scopes| - 1];
    if k < |init| {
      assert init[k] == scopes[k];
      ScopeInFlatten(init, k, e);
    }
  }

  /** Merging one of the scopes a second time leaves the merged map unchanged. */
  lemma RemergeScopeIsIdempotent(scopes: seq<seq<StateEntry>>, k: int)
    requires 0 <= k < |scopes|
    ensures Merged(Flatten(scopes + [scopes[k]])) == Merged(Flatten(scopes))
  {
    var s' := scopes + [scopes[k]];
    assert s'[..|s'| - 1] == scopes;
    forall e | e in scopes[k] ensures e in Flatten(scopes) {
      ScopeInFlatten(scopes, k, e);
    }
    MergeAbsorbs(Flatten(scopes), scopes[k]);
  }

  lemma {:induction false} UnacquiredIffSomeEntry(es: seq<StateEntry>, h: int)
    ensures !IsCollectibleAcquired(StateIn(es, h)) <==>
      exists e :: e in es && e.hash == h && !IsCollectibleAcquired(e.state)
  {
    if es != [] {
      var init := es[..|es| - 1];
      var last := es[|es| - 1];
      UnacquiredIffSomeEntry(init, h);
      if last.hash == h {
        AcquiredOfUnion(StateIn(init, h), last.state);
      }
      assert es == init + [last];
    }
  }

  /** After merging, a collectible is unacquired iff some scope has its NotAcquired bit set. */
  lemma UnacquiredIffSomeScope(scopes: seq<seq<StateEntry>>, h: int)
    requires h in Merged(Flatten(scopes)).entries
    ensures !IsCollectibleAcquired(Merged(Flatten(scopes)).entries[h]) <==>
      exists i, e :: 0 <= i < |scopes| && e in scopes[i] && e.hash == h && !IsCollectibleAcquired(e.state)
  {
    UnacquiredIffSomeEntry(Flatten(scopes), h);
    forall e | e in Flatten(scopes) ensures exists i :: 0 <= i < |scopes| && e in scopes[i] {
      FlattenMember(scopes, e);
    }
    forall i, e | 0 <= i < |scopes| && e in scopes[i] ensures e in Flatten(scopes) {
      ScopeInFlatten(scopes, i, e);
    }
  }

  lemma {:induction false} FlattenMember(scopes: seq<seq<StateEntry>>, e: StateEntry)
    requires e in Flatten(scopes)
    ensures exists i :: 0 <= i < |scopes| && e in scopes[i]
  {
    var init := scopes[..|scopes| - 1];
    if e !in scopes[|scopes| - 1] {
      FlattenMember(init, e);
      var i :| 0 <= i < |init| && e in init[i];
      assert scopes[i] == init[i];
    }
  }
}
