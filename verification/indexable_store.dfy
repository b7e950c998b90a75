/** A keyed store that keeps secondary group indexes in step with it
    (`IndexableStore`, `GroupIndex`). */
module IndexableStore {
  import opened Wrappers

  /** A group key counts only when it is truthy: defined and non-empty. */
  predicate Truthy(groupKey: Option<string>)
  {
    groupKey.Some? && groupKey.value != ""
  }

  type Groups<V> = map<string, map<string, V>>

  /** The groups after `internalSet`: the entry goes into the group named by
      a truthy group key, the group being created on first use; otherwise
      nothing changes. */
  function Inserted<V>(groups: Groups<V>, groupKey: Option<string>, key: string, value: V): (r: Groups<V>)
  {
    if Truthy(groupKey) then
      var group := if groupKey.value in groups then groups[groupKey.value] else map[];
      groups[groupKey.value := group[key := value]]
    else groups
  }

  /** The groups after `internalDelete`: the key is gone from every group. */
  function Removed<V>(groups: Groups<V>, key: string): (r: Groups<V>)
  {
    map g | g in groups :: groups[g] - {key}
  }

  function LookupIn<V>(groups: Groups<V>, groupKey: string, key: string): (r: Option<V>)
    ensures r.Some? <==> groupKey in groups && key in groups[groupKey]
    ensures r.Some? ==> r.value == groups[groupKey][key]
  {
    if groupKey in groups && key in groups[groupKey] then Some(groups[groupKey][key]) else None
  }

  class GroupIndex<V> {
    var groups: Groups<V>
    const groupBy: (string, V) -> Option<string>

    constructor (groupBy: (string, V) -> Option<string>)
      ensures this.groupBy == groupBy && groups == map[]
    {
      this.groupBy := groupBy;
      groups := map[];
    }

    method InternalSet(key: string, value: V)
      modifies this
      ensures groups == Inserted(old(groups), groupBy(key, value), key, value)
    {
      var groupKey := groupBy(key, value);
      if groupKey.Some? && groupKey.value != "" {
        var group: map<string, V>;
        if groupKey.value in groups {
          group := groups[groupKey.value];
        } else {
          group := map[];
          groups := groups[groupKey.value := group];
        }
        groups := groups[groupKey.value := group[key := value]];
      }
    }

    method InternalDelete(key: string)
      modifies this
      ensures groups == Removed(old(groups), key)
    {
      var pending := groups.Keys;
      while pending != {}
        invariant pending <= groups.Keys == old(groups).Keys
        invariant forall g :: g in groups ==> groups[g] == if g in pending then old(groups)[g] else old(groups)[g] - {key}
        decreases pending
      {
        var g :| g in pending;
        groups := groups[g := groups[g] - {key}];
        pending := pending - {g};
      }
    }

    /** `get` as written: the lookup is evaluated but never returned, so the
        caller always receives `undefined`. */
    method Get(groupKey: string, key: string) returns (r: Option<V>)
      ensures r.None?
    {
      var found := LookupIn(groups, groupKey, key);
      r := None;
    }

    /** `get` as evidently intended: the entry stored under the key in the
        group, if any. */
    function Lookup(groupKey: string, key: string): (r: Option<V>)
      reads this
      ensures r.Some? <==> groupKey in groups && key in groups[groupKey]
      ensures r.Some? ==> r.value == groups[groupKey][key]
    {
      LookupIn(groups, groupKey, key)
    }
  }

  /** The discrepancy of `get`: right after an entry is stored under group
      `g`, `get` reports nothing while the lookup it evaluates finds it. */
  method GetDropsLookup<V>(value: V) returns (got: Option<V>, looked: Option<V>)
    ensures got == None && looked == Some(value)
  {
    var index := new GroupIndex((key: string, v: V) => Some("g"));
    index.InternalSet("a", value);
    got := index.Get("g", "a");
    looked := index.Lookup("g", "a");
  }

  /** Once inserted under a truthy group key, an entry is found there; with a
      falsy key no group changes. */
  lemma InsertedThenFound<V>(groups: Groups<V>, groupKey: Option<string>, key: string, value: V)
    ensures Truthy(groupKey) ==> LookupIn(Inserted(groups, groupKey, key, value), groupKey.value, key) == Some(value)
    ensures !Truthy(groupKey) ==> Inserted(groups, groupKey, key, value) == groups
    ensures Truthy(groupKey) ==> Inserted(groups, groupKey, key, value).Keys == groups.Keys + {groupKey.value}
  {
  }

  /** Inserting touches only the named group and only the given key. */
  lemma InsertedElsewhereUnchanged<V>(groups: Groups<V>, groupKey: Option<string>, key: string, value: V,
                                      g: string, k: string)
    requires !(Truthy(groupKey) && g == groupKey.value && k == key)
    ensures LookupIn(Inserted(groups, groupKey, key, value), g, k) == LookupIn(groups, g, k)
  {
  }

  /** Stale entries: setting a key again under a different group leaves its
      old entry in the old group. */
  lemma StaleEntryPersists<V>(groups: Groups<V>, key: string, v1: V, v2: V, g1: string, g2: Option<string>)
    requires g1 != ""
    requires g2 != Some(g1)
    ensures var once := Inserted(groups, Some(g1), key, v1);
      LookupIn(Inserted(once, g2, key, v2), g1, key) == Some(v1)
  {
  }

  /** After a delete the key is in no group, and every other entry stays. */
  lemma RemovedEverywhere<V>(groups: Groups<V>, key: string)
    ensures forall g :: LookupIn(Removed(groups, key), g, key).None?
    ensures forall g, k :: k != key ==> LookupIn(Removed(groups, key), g, k) == LookupIn(groups, g, k)
  {
  }

  /** The store and its registered indexes (a set: each index at most once). */
  class Store<V> {
    var entries: map<string, V>
    var indexes: seq<GroupIndex<V>>

    ghost predicate Valid()
      reads this
    {
      forall a, b :: 0 <= a < b < |indexes| ==> indexes[a] != indexes[b]
    }

    constructor ()
      ensures Valid() && entries == map[] && indexes == []
    {
      entries := map[];
      indexes := [];
    }

    /** `indexes.add(index)`. */
    method AddIndex(index: GroupIndex<V>)
      requires Valid()
      modifies this
      ensures Valid() && entries == old(entries)
      ensures indexes == if index in old(indexes) then old(indexes) else old(indexes) + [index]
    {
      if index !in indexes {
        indexes := indexes + [index];
      }
    }

    function Get(key: string): (r: Option<V>)
      reads this
      ensures r.Some? <==> key in entries
      ensures r.Some? ==> r.value == entries[key]
    {
      if key in entries then Some(entries[key]) else None
    }

    /** `set`: every registered index first, then the store. */
    method Set(key: string, value: V)
      requires Valid()
      modifies this, indexes
      ensures Valid() && indexes == old(indexes)
      ensures entries == old(entries)[key := value]
      ensures forall i :: i in indexes ==> i.groups == Inserted(old(i.groups), i.groupBy(key, value), key, value)
    {
      for k := 0 to |indexes|
        invariant indexes == old(indexes) && entries == old(entries)
        invariant forall j :: 0 <= j < k ==> indexes[j].groups == Inserted(old(indexes[j].groups), indexes[j].groupBy(key, value), key, value)
        invariant forall j :: k <= j < |indexes| ==> indexes[j].groups == old(indexes[j].groups)
      {
        indexes[k].InternalSet(key, value);
      }
      entries := entries[key := value];
    }

    /** `delete`: every registered index first, then the store. */
    method Delete(key: string)
      requires Valid()
      modifies this, indexes
      ensures Valid() && indexes == old(indexes)
      ensures entries == old(entries) - {key}
      ensures forall i :: i in indexes ==> i.groups == Removed(old(i.groups), key)
    {
      for k := 0 to |indexes|
        invariant indexes == old(indexes) && entries == old(entries)
        invariant forall j :: 0 <= j < k ==> indexes[j].groups == Removed(old(indexes[j].groups), key)
        invariant forall j :: k <= j < |indexes| ==> indexes[j].groups == old(indexes[j].groups)
      {
        indexes[k].InternalDelete(key);
      }
      entries := entries - {key};
    }
  }
}
