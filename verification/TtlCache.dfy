/** The TTL cache of internal/cache/cache.go: what a read sees and what each lock region does to the map. */
module TtlCache {
  import opened Wrappers

  datatype Item<+V> = Item(value: V, expiration: int)

  function Lookup<K, V>(d: map<K, Item<V>>, key: K, now: int): Option<V> {
    if key in d && now <= d[key].expiration then Some(d[key].value) else None
  }

  /** The second lock region of a read that found a stale entry: the entry is checked again. */
  function Reap<K, V>(d: map<K, Item<V>>, key: K, now: int): map<K, Item<V>> {
    if key in d && now > d[key].expiration then d - {key} else d
  }

  function ExpiredKeys<K, V>(d: map<K, Item<V>>, now: int): set<K> {
    set k | k in d && now > d[k].expiration
  }

  /** The second phase of an eviction, over the keys that the first phase found. */
  function ReapAll<K, V>(d: map<K, Item<V>>, keys: set<K>, now: int): map<K, Item<V>> {
    map k | k in d && !(k in keys && now > d[k].expiration) :: d[k]
  }

  /** An entry is seen up to its last instant and not after it, and so are the others beside it. */
  lemma LookupMeaning<K, V>(d: map<K, Item<V>>, key: K, value: V, expiration: int, other: K, now: int)
    ensures var r := Lookup(d[key := Item(value, expiration)], other, now);
            if other == key then r == if now <= expiration then Some(value) else None
            else if other in d && now <= d[other].expiration then r == Some(d[other].value)
            else r == None
    ensures key !in d ==> Lookup(d, key, now) == None
  {
  }

  /** A read drops the entry that it found expired and no other. */
  lemma ReapMeaning<K, V>(d: map<K, Item<V>>, key: K, other: K, now: int)
    ensures var r := Reap(d, key, now);
            && (other in r <==> other in d && (other == key ==> now <= d[other].expiration))
            && (other in r ==> r[other] == d[other])
  {
  }

  /** An eviction leaves exactly the entries that are live, as they were. */
  lemma EvictionMeaning<K, V>(d: map<K, Item<V>>, keys: set<K>, now: int, k: K)
    ensures k in ExpiredKeys(d, now) <==> k in d && d[k].expiration < now
    ensures var r := ReapAll(d, keys, now);
            && (k in r <==> k in d && (k in keys ==> now <= d[k].expiration))
            && (k in r ==> r[k] == d[k])
  {
  }

  class Cache<K(==, !new), V(==)> {
    var data: map<K, Item<V>>
    const ttl: int

    constructor (ttl: int)
      ensures data == map[] && this.ttl == ttl
    {
      data, this.ttl := map[], ttl;
    }

    method Get(key: K, now: int) returns (r: Option<V>)
      modifies this`data
      ensures r == Lookup(old(data), key, now)
      ensures data == Reap(old(data), key, now)
    {
      if key !in data {
        return None;
      }
      var item := data[key];
      if now > item.expiration {
        if key in data && now > data[key].expiration {
          data := data - {key};
        }
        return None;
      }
      return Some(item.value);
    }

    method Set(key: K, value: V, now: int)
      modifies this`data
      ensures data == old(data)[key := Item(value, now + ttl)]
    {
      SetWithTTL(key, value, ttl, now);
    }

    method SetWithTTL(key: K, value: V, ttl: int, now: int)
      modifies this`data
      ensures data == old(data)[key := Item(value, now + ttl)]
    {
      data := data[key := Item(value, now + ttl)];
    }

    method Delete(key: K)
      modifies this`data
      ensures data == old(data) - {key}
    {
      data := data - {key};
    }

    method Clear()
      modifies this`data
      ensures data == map[]
    {
      data := map[];
    }

    /** Both phases with nothing in between: exactly the live entries remain. */
    method EvictExpired(now: int)
      modifies this`data
      ensures data == map k | k in old(data) && now <= old(data)[k].expiration :: old(data)[k]
    {
      var expired: seq<K> := [];
      var rest := data.Keys;
      while rest != {}
        invariant rest <= data.Keys
        invariant forall k :: k in expired <==> k in data && k !in rest && now > data[k].expiration
      {
        var k :| k in rest;
        if now > data[k].expiration {
          expired := expired + [k];
        }
        rest := rest - {k};
      }
      for i := 0 to |expired|
        invariant data == map k | k in old(data) && k !in expired[..i] :: old(data)[k]
      {
        if expired[i] in data && now > data[expired[i]].expiration {
          data := data - {expired[i]};
        }
        assert expired[..i + 1] == expired[..i] + [expired[i]];
      }
      assert expired[..|expired|] == expired;
    }
  }
}
