/**
 * A JavaScript `Map` keyed by numbers: its entries together with the order in which
 * `for ... of` visits them (the order in which keys were first inserted).
 */
module JsMaps {
  import opened Wrappers

  ghost predicate Distinct(s: seq<int>) {
    forall i, j :: 0 <= i < j < |s| ==> s[i] != s[j]
  }

  datatype OrderedMap<V> = OrderedMap(order: seq<int>, entries: map<int, V>) {

    /** Every key is visited exactly once. */
    ghost predicate Valid() {
      Distinct(order) && (set k | k in order) == entries.Keys
    }

    /** `m.get(k)`. */
    function Get(k: int): (r: Option<V>)
      ensures r.Some? <==> k in entries
      ensures r.Some? ==> r.value == entries[k]
    {
      if k in entries then Some(entries[k]) else None
    }

    /** `m.set(k, v)`: an existing key keeps its place, a new key goes last. */
    function Set(k: int, v: V): (r: OrderedMap<V>)
      requires Valid()
      ensures r.Valid()
      ensures r.entries == entries[k := v]
      ensures k in entries ==> r.order == order
      ensures k !in entries ==> r.order == order + [k]
    {
      if k in entries then
        OrderedMap(order, entries[k := v])
      else
        var r := OrderedMap(order + [k], entries[k := v]);
        assert (set x | x in r.order) == (set x | x in order) + {k};
        r
    }
  }

  /** `new Map()`. */
  function Empty<V>(): (r: OrderedMap<V>)
    ensures r.Valid() && r.order == [] && r.entries == map[]
  {
    OrderedMap([], map[])
  }
}
