/** The server's memory of answered push requests. */
module Idempotency {
  import opened Domain

  datatype Entry = Entry(results: seq<PushResult>, expiresAt: Time)

  type Cache = map<(Owner, Key), Entry>

  /** An entry still answers at its very expiry time. */
  predicate Hit(cache: Cache, k: (Owner, Key), now: Time) {
    k in cache && now <= cache[k].expiresAt
  }

  function Expire(cache: Cache, now: Time): Cache {
    map k | k in cache && now <= cache[k].expiresAt :: cache[k]
  }

  class IdempotencyStore {
    var entries: Cache

    constructor ()
      ensures entries == map[]
    {
      entries := map[];
    }

    /** A lookup that finds an expired entry also drops it. */
    method Get(owner: Owner, key: Key, now: Time) returns (r: Option<seq<PushResult>>)
      modifies this
      ensures Hit(old(entries), (owner, key), now) ==>
                entries == old(entries) && r == Some(old(entries)[(owner, key)].results)
      ensures !Hit(old(entries), (owner, key), now) ==> entries == old(entries) - {(owner, key)} && r == None
      ensures r.Some? <==> (owner, key) in old(entries) && now <= old(entries)[(owner, key)].expiresAt
    {
      var k := (owner, key);
      if k !in entries || now > entries[k].expiresAt {
        entries := entries - {k};
        return None;
      }
      r := Some(entries[k].results);
    }

    method Save(owner: Owner, key: Key, results: seq<PushResult>, now: Time, ttl: Time)
      modifies this
      ensures entries == old(entries)[(owner, key) := Entry(results, now + ttl)]
    {
      entries := entries[(owner, key) := Entry(results, now + ttl)];
    }

    method DeleteExpired(now: Time)
      modifies this
      ensures entries == Expire(old(entries), now)
      ensures forall k :: k in entries <==> k in old(entries) && now <= old(entries)[k].expiresAt
      ensures forall k :: k in entries ==> entries[k] == old(entries)[k]
    {
      ghost var all := entries;
      var rest := entries.Keys;
      while rest != {}
        invariant rest <= entries.Keys <= all.Keys
        invariant forall k :: k in all ==> (k in entries <==> k in rest || now <= all[k].expiresAt)
        invariant forall k :: k in entries ==> entries[k] == all[k]
        decreases rest
      {
        var k :| k in rest;
        rest := rest - {k};
        if now > entries[k].expiresAt {
          entries := entries - {k};
        }
      }
    }
  }
}
