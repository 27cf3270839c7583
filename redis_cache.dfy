/**
 * The part of Redis the org-hierarchy cache uses: set keys (`SMEMBERS`,
 * `SADD`), list keys (`LRANGE key 0 -1`, `RPUSH`), `EXPIRE`, `DEL` and
 * `SCAN` with a `prefix*` pattern. A connection failure is an input of each
 * call (`down`) and surfaces as `RedisError`, as the client raises it.
 */
module RedisCache {
  import opened Wrappers
  import opened PyValues
  import opened PyText

  const ConnectionFailed: string := "Error connecting to Redis"
  const WrongType: string := "WRONGTYPE Operation against a key holding the wrong kind of value"

  class Redis {
    /** Set-valued keys. */
    var sets: map<string, set<string>>
    /** List-valued keys. */
    var lists: map<string, seq<string>>
    /** Keys with a time to live, in seconds; expiry over time is not modelled. */
    var ttl: map<string, int>

    /** A key holds one kind of value, Redis drops a key that becomes empty, and only stored keys have a TTL. */
    ghost predicate Valid()
      reads this
    {
      && sets.Keys !! lists.Keys
      && (forall k :: k in sets ==> sets[k] != {})
      && (forall k :: k in lists ==> lists[k] != [])
      && ttl.Keys <= sets.Keys + lists.Keys
    }

    constructor ()
      ensures Valid()
      ensures sets == map[] && lists == map[] && ttl == map[]
    {
      sets, lists, ttl := map[], map[], map[];
    }

    /** `SMEMBERS key`: the members, or the empty set for a missing key. */
    method SMembers(key: string, down: bool) returns (r: Result<set<string>, PyError>)
      requires Valid()
      ensures down ==> r == Err(RedisError(ConnectionFailed))
      ensures !down && key in lists ==> r == Err(RedisError(WrongType))
      ensures !down && key !in lists ==> r.Ok? && (r.value == {} <==> key !in sets)
      ensures !down && key in sets ==> r == Ok(sets[key])
    {
      if down {
        return Err(RedisError(ConnectionFailed));
      }
      if key in lists {
        return Err(RedisError(WrongType));
      }
      return Ok(if key in sets then sets[key] else {});
    }

    /** `LRANGE key 0 -1`: the whole list, or the empty list for a missing key. */
    method LRange(key: string, down: bool) returns (r: Result<seq<string>, PyError>)
      requires Valid()
      ensures down ==> r == Err(RedisError(ConnectionFailed))
      ensures !down && key in sets ==> r == Err(RedisError(WrongType))
      ensures !down && key !in sets ==> r.Ok? && (r.value == [] <==> key !in lists)
      ensures !down && key in lists ==> r == Ok(lists[key])
    {
      if down {
        return Err(RedisError(ConnectionFailed));
      }
      if key in sets {
        return Err(RedisError(WrongType));
      }
      return Ok(if key in lists then lists[key] else []);
    }

    /** `SADD key m1 m2 ...`: adds the members and answers how many were new. */
    method SAdd(key: string, members: set<string>, down: bool) returns (r: Result<int, PyError>)
      requires Valid() && members != {}
      modifies this
      ensures Valid()
      ensures down || key in old(lists) ==> r.Err? && unchanged(this)
      ensures !down && key !in old(lists) ==>
        && r == Ok(|members - old(if key in sets then sets[key] else {})|)
        && sets == old(sets)[key := old(if key in sets then sets[key] else {}) + members]
        && lists == old(lists) && ttl == old(ttl)
    {
      if down {
        return Err(RedisError(ConnectionFailed));
      }
      if key in lists {
        return Err(RedisError(WrongType));
      }
      var existing := if key in sets then sets[key] else {};
      sets := sets[key := existing + members];
      return Ok(|members - existing|);
    }

    /** `RPUSH key v1 v2 ...`: appends the values and answers the new length. */
    method RPush(key: string, values: seq<string>, down: bool) returns (r: Result<int, PyError>)
      requires Valid() && values != []
      modifies this
      ensures Valid()
      ensures down || key in old(sets) ==> r.Err? && unchanged(this)
      ensures !down && key !in old(sets) ==>
        && lists == old(lists)[key := old(if key in lists then lists[key] else []) + values]
        && r == Ok(|lists[key]|)
        && sets == old(sets) && ttl == old(ttl)
    {
      if down {
        return Err(RedisError(ConnectionFailed));
      }
      if key in sets {
        return Err(RedisError(WrongType));
      }
      var existing := if key in lists then lists[key] else [];
      lists := lists[key := existing + values];
      return Ok(|existing| + |values|);
    }

    /** `DEL key`: removes the key, whatever it holds, and answers how many keys went. */
    method Delete(key: string) returns (n: int)
      requires Valid()
      modifies this
      ensures Valid()
      ensures sets == old(sets) - {key} && lists == old(lists) - {key} && ttl == old(ttl) - {key}
      ensures n == (if key in old(sets) || key in old(lists) then 1 else 0)
    {
      n := if key in sets || key in lists then 1 else 0;
      sets, lists, ttl := sets - {key}, lists - {key}, ttl - {key};
    }

    /**
     * `EXPIRE key seconds`: sets the TTL of an existing key and answers
     * whether it exists; a timeout that is not positive deletes the key.
     */
    method Expire(key: string, seconds: int, down: bool) returns (r: Result<bool, PyError>)
      requires Valid()
      modifies this
      ensures Valid()
      ensures down || (key !in old(sets) && key !in old(lists)) ==>
        unchanged(this) && r == (if down then Err(RedisError(ConnectionFailed)) else Ok(false))
      ensures !down && (key in old(sets) || key in old(lists)) && seconds > 0 ==>
        && r == Ok(true)
        && sets == old(sets) && lists == old(lists) && ttl == old(ttl)[key := seconds]
      ensures !down && (key in old(sets) || key in old(lists)) && seconds <= 0 ==>
        && r == Ok(true)
        && sets == old(sets) - {key} && lists == old(lists) - {key} && ttl == old(ttl) - {key}
    {
      if down {
        return Err(RedisError(ConnectionFailed));
      }
      if key !in sets && key !in lists {
        return Ok(false);
      }
      if seconds <= 0 {
        var _ := Delete(key);
      } else {
        ttl := ttl[key := seconds];
      }
      return Ok(true);
    }

    /** `SCAN` with the pattern `prefix*`: every key that starts with `prefix`. */
    method ScanPrefix(prefix: string) returns (keys: set<string>)
      requires Valid()
      ensures forall k :: k in keys <==> (k in sets || k in lists) && StartsWith(k, prefix)
    {
      keys := set k | k in sets.Keys + lists.Keys && StartsWith(k, prefix);
    }
  }
}
