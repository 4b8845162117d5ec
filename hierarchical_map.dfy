/**
 * HierarchicalMap, as its unit test pins it down: a level holds its own
 * key-value entries and may have a parent level. Lookups fall back from a
 * level to its ancestors, the nearest entry winning; the local queries see
 * only the level's own entries; adding changes only the level added to.
 */
module HierarchicalMap {
  import opened Common

  /** The values of a map, with multiplicity. */
  ghost function MapValues<K, V>(m: map<K, V>): multiset<V>
    decreases |m|
  {
    if |m| == 0 then multiset{}
    else
      var k :| k in m;
      multiset{m[k]} + MapValues(m - {k})
  }

  /** The keys of `m` under which `v` is stored. */
  ghost function KeysOf<K, V>(m: map<K, V>, v: V): set<K> {
    set k | k in m && m[k] == v
  }

  /** A non-empty map's values are one entry's value plus the values of the rest. */
  lemma Unfold<K, V>(m: map<K, V>) returns (k: K)
    requires |m| != 0
    ensures k in m && MapValues(m) == multiset{m[k]} + MapValues(m - {k})
  {
    k :| k in m && MapValues(m) == multiset{m[k]} + MapValues(m - {k});
  }

  /** Removing a key removes it from the keys of its own value only. */
  lemma KeysOfRemove<K, V>(m: map<K, V>, k: K, v: V)
    requires k in m
    ensures |KeysOf(m, v)| == |KeysOf(m - {k}, v)| + (if m[k] == v then 1 else 0)
  {
    var before := KeysOf(m - {k}, v);
    if m[k] == v {
      assert KeysOf(m, v) == before + {k};
    } else {
      assert KeysOf(m, v) == before;
    }
  }

  /** Every value is counted once per key it is stored under. */
  lemma {:induction false} MapValuesCount<K, V>(m: map<K, V>, v: V)
    ensures MapValues(m)[v] == |KeysOf(m, v)|
    decreases |m|
  {
    if |m| != 0 {
      var k := Unfold(m);
      MapValuesCount(m - {k}, v);
      KeysOfRemove(m, k, v);
    }
  }

  /** There are as many values as keys. */
  lemma {:induction false} MapValuesSize<K, V>(m: map<K, V>)
    ensures |MapValues(m)| == |m|
    decreases |m|
  {
    if |m| != 0 {
      var k := Unfold(m);
      MapValuesSize(m - {k});
    }
  }

  /** Adding an entry under a new key adds one to its value's count only. */
  lemma MapValuesInsertCount<K, V>(m: map<K, V>, k: K, v: V, w: V)
    requires k !in m
    ensures MapValues(m[k := v])[w] == MapValues(m)[w] + (if v == w then 1 else 0)
  {
    MapValuesCount(m[k := v], w);
    MapValuesCount(m, w);
    assert m[k := v] - {k} == m;
    KeysOfRemove(m[k := v], k, w);
  }

  /** Adding an entry under a new key adds its value once. */
  lemma MapValuesInsert<K, V>(m: map<K, V>, k: K, v: V)
    requires k !in m
    ensures MapValues(m[k := v]) == MapValues(m) + multiset{v}
  {
    var after, before := MapValues(m[k := v]), MapValues(m) + multiset{v};
    forall w
      ensures after[w] == before[w]
    {
      MapValuesInsertCount(m, k, v, w);
    }
    MultisetExtensionality(after, before);
  }

  lemma MultisetExtensionality<V>(a: multiset<V>, b: multiset<V>)
    requires forall w :: a[w] == b[w]
    ensures a == b
  {
  }

  class HierarchicalMap<K(==, !new), V> {
    /** The parent level; null for a root. */
    const parent: HierarchicalMap?<K, V>
    /** The parent, its parent, and so on up to the root. */
    ghost const ancestors: seq<HierarchicalMap<K, V>>
    ghost const depth: nat
    var localMap: map<K, V>

    /** The ancestors are exactly the parent chain, each level one less deep. */
    ghost predicate Valid()
      decreases depth
    {
      if parent == null then ancestors == [] && depth == 0
      else
        && parent.depth < depth
        && ancestors == [parent] + parent.ancestors
        && parent.Valid()
    }

    /** A root level, with no entries. */
    constructor Root()
      ensures Valid() && parent == null && ancestors == []
      ensures localMap == map[]
    {
      parent := null;
      ancestors := [];
      depth := 0;
      localMap := map[];
    }

    /** A child level of `parent`, with no entries of its own. */
    constructor Child(parent: HierarchicalMap<K, V>)
      requires parent.Valid()
      ensures Valid() && this.parent == parent && ancestors == [parent] + parent.ancestors
      ensures localMap == map[]
    {
      this.parent := parent;
      ancestors := [parent] + parent.ancestors;
      depth := parent.depth + 1;
      localMap := map[];
    }

    /** add: the level maps `key` to `value`; its other entries stay. */
    method Add(key: K, value: V)
      modifies this
      ensures localMap == old(localMap)[key := value]
    {
      localMap := localMap[key := value];
    }

    /** addAll: every entry of `m` is added, replacing the level's own entry for the same key. */
    method AddAll(m: map<K, V>)
      modifies this
      ensures localMap == old(localMap) + m
    {
      localMap := localMap + m;
    }

    /** localGet: the level's own entry, or null. */
    function LocalGet(key: K): (r: Option<V>)
      reads this
      ensures r.Some? <==> key in localMap
      ensures r.Some? ==> r.value == localMap[key]
    {
      if key in localMap then Some(localMap[key]) else None
    }

    /** localContainsKey: the level has its own entry for `key`. */
    predicate LocalContainsKey(key: K)
      reads this
      ensures LocalContainsKey(key) <==> LocalGet(key).Some?
    {
      key in localMap
    }

    function LocalKeys(): (r: set<K>)
      reads this
      ensures forall k :: k in r <==> LocalContainsKey(k)
    {
      localMap.Keys
    }

    /** localValues: the level's own values, with multiplicity. */
    ghost function LocalValues(): (r: multiset<V>)
      reads this
      ensures |r| == |LocalKeys()|
    {
      MapValuesSize(localMap);
      MapValues(localMap)
    }

    /** lookup: the level's own entry, or else its parent's lookup; null at a root. */
    function Lookup(key: K): (r: Option<V>)
      requires Valid()
      reads this, set a | a in ancestors
      ensures LocalContainsKey(key) ==> r == LocalGet(key)
      decreases depth
    {
      if key in localMap then Some(localMap[key])
      else if parent == null then None
      else parent.Lookup(key)
    }

    /** containsKey: the level or its parent chain has an entry for `key`. */
    predicate ContainsKey(key: K)
      requires Valid()
      reads this, set a | a in ancestors
      ensures ContainsKey(key) <==>
        LocalContainsKey(key) || exists i :: 0 <= i < |ancestors| && ancestors[i].LocalContainsKey(key)
      decreases depth
    {
      assert parent != null ==> ancestors[0] == parent;
      assert parent != null ==> forall i :: 0 <= i < |parent.ancestors| ==> parent.ancestors[i] == ancestors[i + 1];
      key in localMap || (parent != null && parent.ContainsKey(key))
    }
  }

  /**
   * lookup finds nothing exactly when neither the level nor any ancestor has
   * an entry for the key; keys held only by descendants are never seen.
   */
  lemma {:induction false} LookupNoneIff<K(!new), V>(h: HierarchicalMap<K, V>, key: K)
    requires h.Valid()
    ensures h.Lookup(key).None? <==>
      key !in h.localMap && forall i :: 0 <= i < |h.ancestors| ==> key !in h.ancestors[i].localMap
    decreases h.depth
  {
    if h.parent != null {
      LookupNoneIff(h.parent, key);
      assert h.ancestors[0] == h.parent;
      forall i | 0 <= i < |h.parent.ancestors|
        ensures h.parent.ancestors[i] == h.ancestors[i + 1]
      {
      }
    }
  }

  /**
   * lookup of a key the level lacks yields the entry of the nearest ancestor
   * holding it.
   */
  lemma {:induction false} LookupNearestAncestor<K(!new), V>(h: HierarchicalMap<K, V>, key: K, i: nat)
    requires h.Valid() && key !in h.localMap
    requires i < |h.ancestors| && key in h.ancestors[i].localMap
    requires forall j :: 0 <= j < i ==> key !in h.ancestors[j].localMap
    ensures h.Lookup(key) == Some(h.ancestors[i].localMap[key])
    decreases h.depth
  {
    assert h.ancestors[0] == h.parent;
    if i > 0 {
      forall j | 0 <= j < i - 1
        ensures key !in h.parent.ancestors[j].localMap
      {
        assert h.parent.ancestors[j] == h.ancestors[j + 1];
      }
      assert h.parent.ancestors[i - 1] == h.ancestors[i];
      LookupNearestAncestor(h.parent, key, i - 1);
    }
  }

  /** containsKey holds exactly when lookup finds something. */
  lemma {:induction false} ContainsKeyIffLookup<K(!new), V>(h: HierarchicalMap<K, V>, key: K)
    requires h.Valid()
    ensures h.ContainsKey(key) <==> h.Lookup(key).Some?
    decreases h.depth
  {
    if h.parent != null {
      ContainsKeyIffLookup(h.parent, key);
    }
  }

  /** localValues counts each value once per key of the level's own that holds it. */
  lemma LocalValuesMultiplicity<K(!new), V>(h: HierarchicalMap<K, V>, v: V)
    ensures h.LocalValues()[v] == |KeysOf(h.localMap, v)|
    ensures |h.LocalValues()| == |h.localMap|
  {
    MapValuesCount(h.localMap, v);
    MapValuesSize(h.localMap);
  }

  datatype Person = Reagan | Schwarzenegger | Eastwood

  const President := "president"
  const Governor := "governor"
  const Mayor := "mayor"
  const Actor := "actor"

  /**
   * The test hierarchy country, state, city after its setup: a president and
   * an actor in the country, a governor and an actor in the state, a mayor and
   * an actor in the city.
   */
  ghost predicate IsTestHierarchy(country: HierarchicalMap<string, Person>, state: HierarchicalMap<string, Person>,
                                  city: HierarchicalMap<string, Person>)
    reads country, state, city
  {
    && country.Valid() && country.parent == null
    && state.Valid() && state.parent == country
    && city.Valid() && city.parent == state
    && country.localMap == map[President := Reagan, Actor := Eastwood]
    && state.localMap == map[Governor := Schwarzenegger, Actor := Schwarzenegger]
    && city.localMap == map[Mayor := Eastwood, Actor := Reagan]
  }

  /** The setup: three levels, each added to in turn. */
  method Setup() returns (country: HierarchicalMap<string, Person>, state: HierarchicalMap<string, Person>,
                          city: HierarchicalMap<string, Person>)
    ensures IsTestHierarchy(country, state, city)
  {
    country := new HierarchicalMap.Root();
    state := new HierarchicalMap.Child(country);
    city := new HierarchicalMap.Child(state);

    country.Add(President, Reagan);
    state.Add(Governor, Schwarzenegger);
    city.Add(Mayor, Eastwood);

    country.Add(Actor, Eastwood);
    state.Add(Actor, Schwarzenegger);
    city.Add(Actor, Reagan);
  }

  /** addAndLookup: the president is seen from every level, each level's own actor wins, no mayor above the city. */
  lemma AddAndLookup(country: HierarchicalMap<string, Person>, state: HierarchicalMap<string, Person>,
                     city: HierarchicalMap<string, Person>)
    requires IsTestHierarchy(country, state, city)
    ensures country.Lookup(President) == state.Lookup(President) == city.Lookup(President) == Some(Reagan)
    ensures country.Lookup(Actor) == Some(Eastwood)
    ensures state.Lookup(Actor) == Some(Schwarzenegger)
    ensures city.Lookup(Actor) == Some(Reagan)
    ensures country.Lookup(Mayor) == None && state.Lookup(Mayor) == None
  {
  }

  /** localValues: each level's own values, a value stored twice counted twice. */
  lemma LocalValuesOfTest(country: HierarchicalMap<string, Person>, state: HierarchicalMap<string, Person>,
                          city: HierarchicalMap<string, Person>)
    requires IsTestHierarchy(country, state, city)
    ensures country.LocalValues() == multiset{Eastwood, Reagan}
    ensures state.LocalValues() == multiset{Schwarzenegger, Schwarzenegger}
    ensures city.LocalValues() == multiset{Eastwood, Reagan}
  {
    TwoEntryValues(President, Reagan, Actor, Eastwood);
    TwoEntryValues(Governor, Schwarzenegger, Actor, Schwarzenegger);
    TwoEntryValues(Mayor, Eastwood, Actor, Reagan);
  }

  /** localGet: nothing from an ancestor or a descendant, the level's own entry otherwise. */
  lemma LocalGetOfTest(country: HierarchicalMap<string, Person>, state: HierarchicalMap<string, Person>,
                       city: HierarchicalMap<string, Person>)
    requires IsTestHierarchy(country, state, city)
    ensures country.LocalGet(Mayor) == None && state.LocalGet(Mayor) == None
    ensures state.LocalGet(President) == None && city.LocalGet(President) == None
    ensures country.LocalGet(Actor) == Some(Eastwood)
    ensures state.LocalGet(Governor) == Some(Schwarzenegger)
    ensures city.LocalGet(Actor) == Some(Reagan)
  {
  }

  /** containsKey: the level's and its ancestors' keys, never a descendant's. */
  lemma ContainsKeyOfTest(country: HierarchicalMap<string, Person>, state: HierarchicalMap<string, Person>,
                          city: HierarchicalMap<string, Person>)
    requires IsTestHierarchy(country, state, city)
    ensures country.ContainsKey(President) && !country.ContainsKey(Governor) && !country.ContainsKey(Mayor)
    ensures state.ContainsKey(President) && state.ContainsKey(Governor) && !state.ContainsKey(Mayor)
    ensures city.ContainsKey(President) && city.ContainsKey(Governor) && city.ContainsKey(Mayor)
  {
  }

  /** localContainsKey: only the level's own keys. */
  lemma LocalContainsKeyOfTest(country: HierarchicalMap<string, Person>, state: HierarchicalMap<string, Person>,
                               city: HierarchicalMap<string, Person>)
    requires IsTestHierarchy(country, state, city)
    ensures country.LocalContainsKey(President) && country.LocalContainsKey(Actor) && !country.LocalContainsKey(Mayor)
    ensures state.LocalContainsKey(Governor) && state.LocalContainsKey(Actor) && !state.LocalContainsKey(President)
    ensures city.LocalContainsKey(Mayor) && city.LocalContainsKey(Actor) && !city.LocalContainsKey(Governor)
  {
  }

  /** addAll on a new root: its keys, entries and values are those of the added map. */
  method AddAllScenario() returns (hmap: HierarchicalMap<string, Person>)
    ensures hmap.LocalKeys() == {"A", "B"}
    ensures hmap.LocalGet("A") == Some(Eastwood)
    ensures hmap.LocalValues() == multiset{Eastwood, Schwarzenegger}
    ensures hmap.LocalContainsKey("B")
  {
    var m := map["A" := Eastwood, "B" := Schwarzenegger];
    hmap := new HierarchicalMap.Root();
    hmap.AddAll(m);
    assert hmap.localMap == m;
    assert hmap.LocalValues() == MapValues(m);
    TwoEntryValues("A", Eastwood, "B", Schwarzenegger);
  }

  /** The values of a two-entry map. */
  lemma TwoEntryValues<K, V>(k1: K, v1: V, k2: K, v2: V)
    requires k1 != k2
    ensures MapValues(map[k1 := v1, k2 := v2]) == multiset{v1, v2}
  {
    var empty: map<K, V> := map[];
    MapValuesInsert(empty, k1, v1);
    MapValuesInsert(empty[k1 := v1], k2, v2);
  }
}
