/**
 * The cached org-hierarchy resolvers of base_query.py:
 * `get_user_organizations` (an org and everything below it, cached as a
 * Redis set under `auth_org_ids:{id}`), `get_all_parent_orgs` (an org and
 * its ancestors, cached as a Redis list under `org_parent:{id}`) and
 * `delete_user_organizations` (invalidation by key pattern).
 *
 * The recursive SQL query is an input: the rows it returned or the database
 * error it raised. `random.randint` is an input constrained to its range.
 * Each resolver's result is a function of the cache before the call, and
 * the properties are lemmas about those functions.
 */
module OrgResolvers {
  import opened Wrappers
  import opened PyValues
  import opened PyText
  import opened OrgTable
  import opened FallbackQueries
  import opened RedisCache

  const DescendantPrefix: string := "auth_org_ids:"
  const AncestorPrefix: string := "org_parent:"
  /** The pattern `delete_user_organizations` scans for, without its trailing `*`. */
  const InvalidationPrefix: string := "auth_org_ids_"

  const DescendantBaseTtl: int := 3600
  const DescendantJitterMax: int := 300
  const AncestorBaseTtl: int := 1800
  const AncestorJitterMax: int := 300

  function DescendantKey(orgId: int): string {
    DescendantPrefix + IntToString(orgId)
  }

  function AncestorKey(orgId: int): string {
    AncestorPrefix + IntToString(orgId)
  }

  /** Two orgs never share a cache key. */
  lemma CacheKeysInjective(a: int, b: int)
    ensures DescendantKey(a) == DescendantKey(b) ==> a == b
    ensures AncestorKey(a) == AncestorKey(b) ==> a == b
  {
    if DescendantKey(a) == DescendantKey(b) {
      assert DescendantKey(a)[|DescendantPrefix|..] == IntToString(a);
      assert DescendantKey(b)[|DescendantPrefix|..] == IntToString(b);
      IntToStringInjective(a, b);
    }
    if AncestorKey(a) == AncestorKey(b) {
      assert AncestorKey(a)[|AncestorPrefix|..] == IntToString(a);
      assert AncestorKey(b)[|AncestorPrefix|..] == IntToString(b);
      IntToStringInjective(a, b);
    }
  }

  /** What `cursor.execute` of the recursive query gave: the ids of its rows, or the `DatabaseError` it raised. */
  datatype QueryResult = Rows(ids: seq<int>) | DbError(message: string)

  /** `"syntax" in str(e).lower()`: the database does not understand `WITH RECURSIVE`. */
  predicate IsSyntaxError(message: string) {
    Contains(LowerAll(message), "syntax")
  }

  /** The word "syntax" in any mix of case, anywhere in the message, selects the fallback. */
  lemma SyntaxErrorIgnoresCase(pre: string, word: string, post: string)
    requires LowerAll(word) == "syntax"
    ensures IsSyntaxError(pre + word + post)
  {
    LowerAllAppend(pre + word, post);
    LowerAllAppend(pre, word);
    ContainsMiddle(LowerAll(pre), "syntax", LowerAll(post));
  }

  /** Faults injected into the cache calls of one resolver run: the read, the write (`sadd`/`rpush`) and `expire`. */
  datatype CacheFaults = CacheFaults(read: bool, write: bool, expire: bool)

  // ----------------------------------------------------- get_user_organizations

  /** `[str(org_id) for org_id in org_set]`, as the members `sadd` stores. */
  function IdStrings(ids: set<int>): set<string> {
    set x | x in ids :: IntToString(x)
  }

  /** `{int(s) for s in cached}`: `None` where `int` raises `ValueError`. */
  function ParseIds(texts: set<string>): Option<set<int>> {
    if forall s :: s in texts ==> ParseInt(s).Some? then
      Some(set s | s in texts && ParseInt(s).Some? :: ParseInt(s).value)
    else None
  }

  /** `{row[0] for row in cursor.fetchall()}`. */
  function RowSet(ids: seq<int>): (r: set<int>)
    ensures r == {} <==> ids == []
  {
    var r := set x | x in ids;
    assert ids != [] ==> ids[0] in r;
    r
  }

  /** The cache holds a non-empty set for `orgId` and the read succeeds. */
  predicate DescendantsHit(sets: map<string, set<string>>, lists: map<string, seq<string>>, orgId: int, readDown: bool) {
    var key := DescendantKey(orgId);
    !readDown && key !in lists && key in sets && sets[key] != {}
  }

  predicate DescendantsMiss(sets: map<string, set<string>>, lists: map<string, seq<string>>, orgId: int, readDown: bool) {
    var key := DescendantKey(orgId);
    !readDown && key !in lists && !(key in sets && sets[key] != {})
  }

  /** The run reaches the cache write: a miss, and the recursive query returned rows. */
  predicate WritesDescendants(sets: map<string, set<string>>, lists: map<string, seq<string>>, orgId: int,
                              recursive: QueryResult, readDown: bool) {
    DescendantsMiss(sets, lists, orgId, readDown) && recursive.Rows? && recursive.ids != []
  }

  /** What `get_user_organizations(org_id)` returns or raises, given the cache before the call. */
  function DescendantsOutcome(sets: map<string, set<string>>, lists: map<string, seq<string>>, t: Table,
                              orgId: int, recursive: QueryResult, readDown: bool): Result<set<int>, PyError>
  {
    var key := DescendantKey(orgId);
    if readDown then Err(RedisError(ConnectionFailed))
    else if key in lists then Err(RedisError(WrongType))
    else if key in sets && sets[key] != {} then
      match ParseIds(sets[key])
      case None => Err(ValueError("invalid literal for int()"))
      case Some(ids) => Ok(ids)
    else match recursive
      case Rows(ids) => Ok(RowSet(ids))
      case DbError(message) =>
        if IsSyntaxError(message) then Ok(FallbackOrgSet(t, orgId)) else Err(DatabaseError(message))
  }

  /**
   * The cache `get_user_organizations` leaves behind: on a miss with rows
   * and a working `sadd`, the stringified ids under the descendant key with
   * the jittered TTL (none when `expire` fails); otherwise the cache as it was.
   */
  ghost predicate DescendantsCacheAfter(sets: map<string, set<string>>, lists: map<string, seq<string>>,
                                        ttl: map<string, int>, orgId: int, recursive: QueryResult, jitter: int,
                                        faults: CacheFaults, sets': map<string, set<string>>,
                                        lists': map<string, seq<string>>, ttl': map<string, int>)
  {
    var key := DescendantKey(orgId);
    if WritesDescendants(sets, lists, orgId, recursive, faults.read) && !faults.write then
      && sets' == sets[key := IdStrings(RowSet(recursive.ids))]
      && lists' == lists
      && ttl' == (if faults.expire then ttl else ttl[key := DescendantBaseTtl + jitter])
    else
      sets' == sets && lists' == lists && ttl' == ttl
  }

  /**
   * Either no TTL changed, or only `key`'s did and it now lies within
   * `lo` to `hi` seconds.
   */
  predicate TtlSetWithin(ttl: map<string, int>, ttl': map<string, int>, key: string, lo: int, hi: int) {
    ttl' == ttl || (key in ttl' && lo <= ttl'[key] <= hi && ttl' == ttl[key := ttl'[key]])
  }

  /** The descendant resolver touches no TTL but its own key's, and sets that one within 3600 to 3900 seconds. */
  lemma DescendantsTtlWindow(sets: map<string, set<string>>, lists: map<string, seq<string>>,
                             ttl: map<string, int>, orgId: int, recursive: QueryResult, jitter: int,
                             faults: CacheFaults, sets': map<string, set<string>>,
                             lists': map<string, seq<string>>, ttl': map<string, int>)
    requires 0 <= jitter <= DescendantJitterMax
    requires DescendantsCacheAfter(sets, lists, ttl, orgId, recursive, jitter, faults, sets', lists', ttl')
    ensures TtlSetWithin(ttl, ttl', DescendantKey(orgId), 3600, 3900)
    ensures ttl' != ttl ==> WritesDescendants(sets, lists, orgId, recursive, faults.read) && !faults.write && !faults.expire
  {
  }

  /**
   * `get_user_organizations(org_id)`. A failure of `sadd` or `expire` is
   * caught and does not change the result; an expire failure leaves the set
   * stored without a TTL. The TTL is `3600 + randint(0, 300)`.
   */
  method GetUserOrganizations(redis: Redis, t: Table, orgId: int, recursive: QueryResult,
                              jitter: int, faults: CacheFaults) returns (r: Result<set<int>, PyError>)
    requires redis.Valid()
    requires 0 <= jitter <= DescendantJitterMax
    modifies redis
    ensures redis.Valid()
    ensures r == DescendantsOutcome(old(redis.sets), old(redis.lists), t, orgId, recursive, faults.read)
    ensures DescendantsCacheAfter(old(redis.sets), old(redis.lists), old(redis.ttl), orgId, recursive, jitter, faults,
                                  redis.sets, redis.lists, redis.ttl)
    ensures TtlSetWithin(old(redis.ttl), redis.ttl, DescendantKey(orgId), 3600, 3900)
  {
    var key := DescendantKey(orgId);
    var cached := redis.SMembers(key, faults.read);
    if cached.Err? {
      return Err(cached.error);
    }
    if cached.value != {} {
      var parsed := ParseIds(cached.value);
      if parsed.None? {
        return Err(ValueError("invalid literal for int()"));
      }
      return Ok(parsed.value);
    }
    var orgSet: set<int>;
    match recursive {
      case DbError(message) =>
        if IsSyntaxError(message) {
          orgSet := FallbackOrgQuery(t, orgId);
          return Ok(orgSet);
        }
        return Err(DatabaseError(message));
      case Rows(ids) =>
        orgSet := RowSet(ids);
    }
    if orgSet != {} {
      var members := IdStrings(orgSet);
      assert recursive.ids[0] in orgSet;
      assert IntToString(recursive.ids[0]) in members;
      var exTime := DescendantBaseTtl + jitter;
      var added := redis.SAdd(key, members, faults.write);
      if added.Ok? {
        var _ := redis.Expire(key, exTime, faults.expire);
      }
    }
    return Ok(orgSet);
  }

  /** Reading back what `sadd` stored gives the same set of ids. */
  lemma IdStringsRoundTrip(ids: set<int>)
    ensures ParseIds(IdStrings(ids)) == Some(ids)
  {
    var texts := IdStrings(ids);
    IdStringsParse(ids);
    var back := set s | s in texts && ParseInt(s).Some? :: ParseInt(s).value;
    IdStringsParseBack(ids, back);
  }

  lemma IdStringsParse(ids: set<int>)
    ensures forall s :: s in IdStrings(ids) ==> ParseInt(s).Some?
  {
    forall s | s in IdStrings(ids) ensures ParseInt(s).Some? {
      var x :| x in ids && IntToString(x) == s;
      IntStringRoundTrip(x);
    }
  }

  lemma IdStringsParseBack(ids: set<int>, back: set<int>)
    requires back == set s | s in IdStrings(ids) && ParseInt(s).Some? :: ParseInt(s).value
    ensures back == ids
  {
    forall x | x in ids ensures x in back {
      IntStringRoundTrip(x);
      assert IntToString(x) in IdStrings(ids);
    }
    forall x | x in back ensures x in ids {
      var s :| s in IdStrings(ids) && ParseInt(s).Some? && ParseInt(s).value == x;
      var y :| y in ids && IntToString(y) == s;
      IntStringRoundTrip(y);
    }
  }

  /** On a hit the result comes from the cache alone: the table and the recursive query play no part. */
  lemma DescendantsHitIgnoresStore(sets: map<string, set<string>>, lists: map<string, seq<string>>, orgId: int,
                                   t1: Table, q1: QueryResult, t2: Table, q2: QueryResult)
    requires DescendantsHit(sets, lists, orgId, false)
    ensures DescendantsOutcome(sets, lists, t1, orgId, q1, false) == DescendantsOutcome(sets, lists, t2, orgId, q2, false)
    ensures DescendantsOutcome(sets, lists, t1, orgId, q1, false).Ok? <==>
            forall s :: s in sets[DescendantKey(orgId)] ==> ParseInt(s).Some?
  {
  }

  /**
   * Once a run has written its result, the next run returns the same set
   * from the cache, whatever the table or the query would now give.
   */
  lemma DescendantsWriteThenHit(sets: map<string, set<string>>, lists: map<string, seq<string>>, t: Table,
                                orgId: int, ids: seq<int>, t': Table, q': QueryResult)
    requires WritesDescendants(sets, lists, orgId, Rows(ids), false)
    ensures var sets' := sets[DescendantKey(orgId) := IdStrings(RowSet(ids))];
      && DescendantsHit(sets', lists, orgId, false)
      && DescendantsOutcome(sets', lists, t', orgId, q', false) == DescendantsOutcome(sets, lists, t, orgId, Rows(ids), false)
  {
    var s := RowSet(ids);
    IdStringsRoundTrip(s);
    assert IntToString(ids[0]) in IdStrings(s);
  }

  /**
   * On a miss, a database error mentioning "syntax" gives the fallback's
   * set, any other database error is raised again, and neither writes the cache.
   */
  lemma DescendantsOnDatabaseError(sets: map<string, set<string>>, lists: map<string, seq<string>>, t: Table,
                                   orgId: int, message: string)
    requires DescendantsMiss(sets, lists, orgId, false)
    ensures DescendantsOutcome(sets, lists, t, orgId, DbError(message), false)
            == if IsSyntaxError(message) then Ok(FallbackOrgSet(t, orgId)) else Err(DatabaseError(message))
    ensures !WritesDescendants(sets, lists, orgId, DbError(message), false)
  {
  }

  /**
   * On a miss for an org whose row exists, a recursive query that returns
   * the org's subtree and a syntax error that sends the call to the
   * fallback give the same set, provided the fallback's queue empties
   * within its twenty passes.
   */
  lemma DescendantsPathsAgree(sets: map<string, set<string>>, lists: map<string, seq<string>>, t: Table,
                              orgId: int, ids: seq<int>, message: string)
    requires DescendantsMiss(sets, lists, orgId, false)
    requires RowSet(ids) == RecursiveDescendants(t, orgId)
    requires IsSyntaxError(message)
    requires orgId in Ids(t) && FallbackDrains(t, orgId)
    ensures DescendantsOutcome(sets, lists, t, orgId, Rows(ids), false)
            == DescendantsOutcome(sets, lists, t, orgId, DbError(message), false)
  {
    FallbackMatchesRecursiveDescendants(t, orgId);
  }

  // ----------------------------------------------------- get_all_parent_orgs

  /** The value `get_all_parent_orgs` returns: ints from the database, or the cached strings on a hit. */
  datatype Chain = Ints(ids: seq<int>) | Strs(texts: seq<string>)

  /** `map(str, org_ids)`, as the values `rpush` stores. */
  function IdTexts(ids: seq<int>): (r: seq<string>)
    ensures |r| == |ids|
  {
    seq(|ids|, i requires 0 <= i < |ids| => IntToString(ids[i]))
  }

  predicate AncestorsMiss(sets: map<string, set<string>>, lists: map<string, seq<string>>, orgId: int, readDown: bool) {
    var key := AncestorKey(orgId);
    !readDown && key !in sets && !(key in lists && lists[key] != [])
  }

  predicate WritesAncestors(sets: map<string, set<string>>, lists: map<string, seq<string>>, orgId: int,
                            recursive: QueryResult, readDown: bool) {
    AncestorsMiss(sets, lists, orgId, readDown) && recursive.Rows? && recursive.ids != []
  }

  /** What `get_all_parent_orgs(org_id)` returns or raises, given the cache before the call. */
  function AncestorsOutcome(sets: map<string, set<string>>, lists: map<string, seq<string>>, t: Table,
                            orgId: int, recursive: QueryResult, readDown: bool): Result<Chain, PyError>
  {
    var key := AncestorKey(orgId);
    if readDown then Err(RedisError(ConnectionFailed))
    else if key in sets then Err(RedisError(WrongType))
    else if key in lists && lists[key] != [] then Ok(Strs(lists[key]))
    else match recursive
      case Rows(ids) => Ok(Ints(ids))
      case DbError(message) =>
        if IsSyntaxError(message) then Ok(Ints(FallbackChain(t, orgId))) else Err(DatabaseError(message))
  }

  /**
   * The cache `get_all_parent_orgs` leaves behind: on a miss with rows and a
   * working `rpush`, the stringified chain under the ancestor key with the
   * jittered TTL (none when `expire` fails); otherwise the cache as it was.
   */
  ghost predicate AncestorsCacheAfter(sets: map<string, set<string>>, lists: map<string, seq<string>>,
                                      ttl: map<string, int>, orgId: int, recursive: QueryResult, jitter: int,
                                      faults: CacheFaults, sets': map<string, set<string>>,
                                      lists': map<string, seq<string>>, ttl': map<string, int>)
  {
    var key := AncestorKey(orgId);
    if WritesAncestors(sets, lists, orgId, recursive, faults.read) && !faults.write then
      && lists' == lists[key := IdTexts(recursive.ids)]
      && sets' == sets
      && ttl' == (if faults.expire then ttl else ttl[key := AncestorBaseTtl + jitter])
    else
      sets' == sets && lists' == lists && ttl' == ttl
  }

  /**
   * `get_all_parent_orgs(org_id)`. Every exception of `rpush` or `expire`
   * is caught; the TTL is `1800 + randint(-300, 300)`.
   */
  method GetAllParentOrgs(redis: Redis, t: Table, orgId: int, recursive: QueryResult,
                          jitter: int, faults: CacheFaults) returns (r: Result<Chain, PyError>)
    requires redis.Valid()
    requires -AncestorJitterMax <= jitter <= AncestorJitterMax
    modifies redis
    ensures redis.Valid()
    ensures r == AncestorsOutcome(old(redis.sets), old(redis.lists), t, orgId, recursive, faults.read)
    ensures AncestorsCacheAfter(old(redis.sets), old(redis.lists), old(redis.ttl), orgId, recursive, jitter, faults,
                                redis.sets, redis.lists, redis.ttl)
    ensures TtlSetWithin(old(redis.ttl), redis.ttl, AncestorKey(orgId), 1500, 2100)
  {
    var key := AncestorKey(orgId);
    var cached := redis.LRange(key, faults.read);
    if cached.Err? {
      return Err(cached.error);
    }
    if cached.value != [] {
      return Ok(Strs(cached.value));
    }
    var orgIds: seq<int>;
    match recursive {
      case DbError(message) =>
        if IsSyntaxError(message) {
          orgIds := FallbackParentQuery(t, orgId);
          return Ok(Ints(orgIds));
        }
        return Err(DatabaseError(message));
      case Rows(ids) =>
        orgIds := ids;
    }
    if orgIds != [] {
      var exTime := AncestorBaseTtl + jitter;
      var pushed := redis.RPush(key, IdTexts(orgIds), faults.write);
      assert [] + IdTexts(orgIds) == IdTexts(orgIds);
      if pushed.Ok? {
        var _ := redis.Expire(key, exTime, faults.expire);
      }
    }
    return Ok(Ints(orgIds));
  }

  /** The ancestor resolver touches no TTL but its own key's, and sets that one within 1500 to 2100 seconds. */
  lemma AncestorsTtlWindow(sets: map<string, set<string>>, lists: map<string, seq<string>>,
                           ttl: map<string, int>, orgId: int, recursive: QueryResult, jitter: int,
                           faults: CacheFaults, sets': map<string, set<string>>,
                           lists': map<string, seq<string>>, ttl': map<string, int>)
    requires -AncestorJitterMax <= jitter <= AncestorJitterMax
    requires AncestorsCacheAfter(sets, lists, ttl, orgId, recursive, jitter, faults, sets', lists', ttl')
    ensures TtlSetWithin(ttl, ttl', AncestorKey(orgId), 1500, 2100)
    ensures ttl' != ttl ==> WritesAncestors(sets, lists, orgId, recursive, faults.read) && !faults.write && !faults.expire
  {
  }

  /**
   * After a write, the next run is a hit that returns the stored strings in
   * list order rather than the ints the first run returned; each string
   * reads back as the id at its position.
   */
  lemma AncestorsWriteThenHit(sets: map<string, set<string>>, lists: map<string, seq<string>>, t: Table,
                              orgId: int, ids: seq<int>, t': Table, q': QueryResult)
    requires WritesAncestors(sets, lists, orgId, Rows(ids), false)
    ensures var lists' := lists[AncestorKey(orgId) := IdTexts(ids)];
      && AncestorsOutcome(sets, lists, t, orgId, Rows(ids), false) == Ok(Ints(ids))
      && AncestorsOutcome(sets, lists', t', orgId, q', false) == Ok(Strs(IdTexts(ids)))
      && (forall i :: 0 <= i < |ids| ==> ParseInt(IdTexts(ids)[i]) == Some(ids[i]))
  {
    forall i | 0 <= i < |ids| ensures ParseInt(IdTexts(ids)[i]) == Some(ids[i]) {
      IntStringRoundTrip(ids[i]);
    }
  }

  /**
   * On a miss the recursive path returns the query's rows as they come: for
   * the live chain from `org_id` upward that is `org_id` first.
   */
  lemma AncestorsRecursiveOrder(sets: map<string, set<string>>, lists: map<string, seq<string>>, t: Table,
                                orgId: int, rows: seq<int>)
    requires AncestorsMiss(sets, lists, orgId, false)
    requires IsAncestorRows(t, orgId, rows) && rows != []
    ensures AncestorsOutcome(sets, lists, t, orgId, Rows(rows), false) == Ok(Ints(rows))
    ensures rows[0] == orgId
  {
    assert LiveRow(t, orgId).Some?;
  }

  /**
   * When the database rejects the recursive query with a syntax error, the
   * fallback returns the same chain root first: for a chain of at most twenty
   * live rows ending at a root whose `org_id` is NULL, exactly the reverse
   * of what the recursive query would have returned.
   */
  lemma AncestorsFallbackOrder(sets: map<string, set<string>>, lists: map<string, seq<string>>, t: Table,
                               orgId: int, rows: seq<int>, message: string)
    requires AncestorsMiss(sets, lists, orgId, false)
    requires IsAncestorRows(t, orgId, rows) && rows != []
    requires LiveParent(t, rows[|rows| - 1]).None? && |rows| <= MaxDepth
    requires IsSyntaxError(message)
    ensures AncestorsOutcome(sets, lists, t, orgId, DbError(message), false) == Ok(Ints(Reverse(rows)))
  {
    AncestorsOnSyntaxError(sets, lists, t, orgId, message);
    FallbackReversesRecursive(t, orgId, rows);
  }

  /** On a miss a syntax error sends the call to the upward-walk fallback. */
  lemma AncestorsOnSyntaxError(sets: map<string, set<string>>, lists: map<string, seq<string>>, t: Table,
                               orgId: int, message: string)
    requires AncestorsMiss(sets, lists, orgId, false) && IsSyntaxError(message)
    ensures AncestorsOutcome(sets, lists, t, orgId, DbError(message), false) == Ok(Ints(FallbackChain(t, orgId)))
  {
  }

  /**
   * On a miss for a live org whose parent has no live row, the recursive
   * path returns the org alone while the syntax-error fallback returns the
   * missing parent first and then the org.
   */
  lemma AncestorsOnMissingParent(sets: map<string, set<string>>, lists: map<string, seq<string>>, t: Table,
                                 orgId: int, parent: int, rows: seq<int>, message: string)
    requires AncestorsMiss(sets, lists, orgId, false)
    requires LiveRow(t, orgId).Some? && LiveParent(t, orgId) == Some(parent) && LiveRow(t, parent).None?
    requires IsAncestorRows(t, orgId, rows)
    requires IsSyntaxError(message)
    ensures AncestorsOutcome(sets, lists, t, orgId, Rows(rows), false) == Ok(Ints([orgId]))
    ensures AncestorsOutcome(sets, lists, t, orgId, DbError(message), false) == Ok(Ints([parent, orgId]))
  {
    PathsDisagreeOnMissingParent(t, orgId, parent, rows);
  }

  /**
   * On a miss for an org without a live row (deleted, `is_delete = 0`, or
   * absent), the recursive query gives `[]` and nothing is cached, while the
   * syntax-error fallback gives `[org_id]`.
   */
  lemma AncestorsOfDeletedOrg(sets: map<string, set<string>>, lists: map<string, seq<string>>, t: Table,
                              orgId: int, rows: seq<int>, message: string)
    requires AncestorsMiss(sets, lists, orgId, false)
    requires LiveRow(t, orgId).None? && IsAncestorRows(t, orgId, rows)
    requires IsSyntaxError(message)
    ensures AncestorsOutcome(sets, lists, t, orgId, Rows(rows), false) == Ok(Ints([]))
    ensures !WritesAncestors(sets, lists, orgId, Rows(rows), false)
    ensures AncestorsOutcome(sets, lists, t, orgId, DbError(message), false) == Ok(Ints([orgId]))
  {
    RecursiveAndFallbackOnDeletedOrg(t, orgId, rows);
  }

  // ----------------------------------------------------- delete_user_organizations

  /** The map without the keys that start with `prefix`. */
  function DropPrefixed<V>(m: map<string, V>, prefix: string): map<string, V> {
    map k | k in m && !StartsWith(k, prefix) :: m[k]
  }

  lemma DropPrefixedIsMinus<V>(m: map<string, V>, scanned: set<string>, prefix: string)
    requires forall k :: k in m && StartsWith(k, prefix) ==> k in scanned
    requires forall k :: k in scanned ==> StartsWith(k, prefix)
    ensures m - scanned == DropPrefixed(m, prefix)
  {
  }

  lemma MinusOneMore<V>(m: map<string, V>, scanned: set<string>, keys: set<string>, key: string)
    requires key in keys && keys <= scanned
    ensures (m - (scanned - keys)) - {key} == m - (scanned - (keys - {key}))
  {
    assert scanned - (keys - {key}) == (scanned - keys) + {key};
  }

  /** Deletes every key that `SCAN` finds with the pattern `prefix*`. */
  method DeleteByPrefix(redis: Redis, prefix: string)
    requires redis.Valid()
    modifies redis
    ensures redis.Valid()
    ensures redis.sets == DropPrefixed(old(redis.sets), prefix)
    ensures redis.lists == DropPrefixed(old(redis.lists), prefix)
    ensures redis.ttl == DropPrefixed(old(redis.ttl), prefix)
  {
    var scanned := redis.ScanPrefix(prefix);
    DropPrefixedIsMinus(redis.sets, scanned, prefix);
    DropPrefixedIsMinus(redis.lists, scanned, prefix);
    DropPrefixedIsMinus(redis.ttl, scanned, prefix);
    var keys := scanned;
    while keys != {}
      invariant redis.Valid()
      invariant keys <= scanned
      invariant redis.sets == old(redis.sets) - (scanned - keys)
      invariant redis.lists == old(redis.lists) - (scanned - keys)
      invariant redis.ttl == old(redis.ttl) - (scanned - keys)
      decreases keys
    {
      var key :| key in keys;
      var _ := redis.Delete(key);
      MinusOneMore(old(redis.sets), scanned, keys, key);
      MinusOneMore(old(redis.lists), scanned, keys, key);
      MinusOneMore(old(redis.ttl), scanned, keys, key);
      keys := keys - {key};
    }
  }

  /** `delete_user_organizations()`: deletes the keys matching `auth_org_ids_*`. */
  method DeleteUserOrganizations(redis: Redis)
    requires redis.Valid()
    modifies redis
    ensures redis.Valid()
    ensures redis.sets == DropPrefixed(old(redis.sets), InvalidationPrefix)
    ensures redis.lists == DropPrefixed(old(redis.lists), InvalidationPrefix)
    ensures redis.ttl == DropPrefixed(old(redis.ttl), InvalidationPrefix)
  {
    DeleteByPrefix(redis, InvalidationPrefix);
  }

  lemma DescendantKeyNotInvalidated(orgId: int)
    ensures !StartsWith(DescendantKey(orgId), InvalidationPrefix)
  {
    assert DescendantKey(orgId)[12] == ':';
    assert InvalidationPrefix[12] == '_';
  }

  /**
   * `delete_user_organizations` never removes a key `get_user_organizations`
   * wrote: after it, every org's resolution gives what it gave before, so a
   * cached set that is out of date stays in use until its TTL runs out.
   */
  lemma InvalidationMissesDescendantKeys(sets: map<string, set<string>>, lists: map<string, seq<string>>,
                                         t: Table, orgId: int, recursive: QueryResult, readDown: bool)
    ensures DescendantsOutcome(DropPrefixed(sets, InvalidationPrefix), DropPrefixed(lists, InvalidationPrefix),
                               t, orgId, recursive, readDown)
            == DescendantsOutcome(sets, lists, t, orgId, recursive, readDown)
  {
    DescendantKeyNotInvalidated(orgId);
  }

  /** Invalidation with the pattern of the keys actually written, `auth_org_ids:*`. */
  method DeleteDescendantCache(redis: Redis)
    requires redis.Valid()
    modifies redis
    ensures redis.Valid()
    ensures redis.sets == DropPrefixed(old(redis.sets), DescendantPrefix)
    ensures redis.lists == DropPrefixed(old(redis.lists), DescendantPrefix)
    ensures redis.ttl == DropPrefixed(old(redis.ttl), DescendantPrefix)
  {
    DeleteByPrefix(redis, DescendantPrefix);
  }

  /** After the corrected invalidation every org's resolution reads the database again, as with an empty cache. */
  lemma CorrectedInvalidationForcesMiss(sets: map<string, set<string>>, lists: map<string, seq<string>>,
                                        t: Table, orgId: int, recursive: QueryResult, readDown: bool)
    ensures DescendantsOutcome(DropPrefixed(sets, DescendantPrefix), DropPrefixed(lists, DescendantPrefix),
                               t, orgId, recursive, readDown)
            == DescendantsOutcome(map[], map[], t, orgId, recursive, readDown)
  {
    assert StartsWith(DescendantKey(orgId), DescendantPrefix);
  }
}
