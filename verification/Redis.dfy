/** Redis as the service uses it: keys to values with an expiry instant, in milliseconds. */
module Redis {
  import opened Basics

  datatype Entry<V> = Entry(value: V, deadline: int)

  type Store<K, V> = map<K, Entry<V>>

  /** GET: an entry is served through the millisecond of its deadline. */
  function Get<K, V>(m: Store<K, V>, k: K, now: int): Option<V> {
    if k in m && now <= m[k].deadline then Some(m[k].value) else None
  }

  /** SETEX: a TTL of zero is an error, which the callers swallow, and stores nothing. */
  function SetEx<K, V>(m: Store<K, V>, k: K, v: V, ttl: nat, now: int): Store<K, V> {
    if ttl == 0 then m else m[k := Entry(v, now + 1000 * ttl)]
  }

  function Del<K, V>(m: Store<K, V>, k: K): Store<K, V> {
    m - {k}
  }

  class Cache<K(==), V> {
    var entries: Store<K, V>

    constructor ()
      ensures entries == map[]
    {
      entries := map[];
    }

    method Read(k: K, now: int) returns (v: Option<V>)
      ensures v == Get(entries, k, now)
    {
      if k in entries && now <= entries[k].deadline {
        return Some(entries[k].value);
      }
      return None;
    }

    method Write(k: K, v: V, ttl: nat, now: int)
      modifies this
      ensures entries == SetEx(old(entries), k, v, ttl, now)
    {
      if ttl != 0 {
        entries := entries[k := Entry(v, now + 1000 * ttl)];
      }
    }

    method Delete(k: K)
      modifies this
      ensures entries == Del(old(entries), k)
    {
      entries := entries - {k};
    }
  }
}
