/**
 * `getBaseParams` of base_query.py: the ordering, the body filter, the org
 * scope (resolved through the descendant cache when none is given) and the
 * soft-delete exclusion, with paging defaults.
 */
module QueryParams {
  import opened Wrappers
  import opened PyValues
  import opened PyText
  import opened Utils
  import opened Conditions
  import opened OrgTable
  import opened RedisCache
  import opened OrgResolvers

  import opened QuerySorter
  import opened QueryFilter


  // ----------------------------------------------------------------- getBaseParams

  /** The tuple `getBaseParams` returns. */
  datatype BaseParams = BaseParams(query: Cond, sorter: seq<string>, limit: Value, page: Value)

  /** `not allowed_org_ids and allowed_org_ids != False`. */
  predicate FalsyScope(allowed: OrgScope) {
    allowed.NoneGiven? || allowed == IdSet({})
  }

  /** `user` is the `orgId` of `request.user`, `None` when no user is logged in. */
  function ScopeOutcome(allowed: OrgScope, user: Option<int>, resolved: Result<set<int>, PyError>)
    : Result<OrgScope, PyError>
  {
    if FalsyScope(allowed) && user.Some? then
      match resolved
      case Ok(ids) => Ok(IdSet(ids))
      case Err(e) => Err(e)
    else Ok(allowed)
  }

  /** `query_data` before the scope: the filter of `body["body"]`, or `Q()` when it is absent or `None`. */
  function BodyFilter(body: Dict, keywordFields: seq<string>): Result<Cond, PyError> {
    match Get(body, "body")
    case None => Ok(Empty)
    case Some(inner) =>
      if inner.Null? then Ok(Empty)
      else if inner.Object? then Ok(FilterCond(inner.entries, keywordFields))
      else Err(AttributeError(NoItems))
  }

  const SoftDeleted: Cond := Not(Exact("is_delete", Str("1")))

  /** The body filter and'ed with `org_id__in=scope` unless the scope is `False`, then with `~Q(is_delete="1")` unless `no_is_delete`. */
  function ScopedQuery(filter: Cond, scope: OrgScope, noIsDelete: bool): Cond {
    var scoped := if scope.FalseFlag? then filter else Conj(filter, In("org_id", scope));
    if noIsDelete then scoped else Conj(scoped, SoftDeleted)
  }

  /** The conjuncts the scope and the soft-delete flag add after the body filter's own. */
  lemma ScopedQueryConjuncts(filter: Cond, scope: OrgScope, noIsDelete: bool)
    ensures Conjuncts(ScopedQuery(filter, scope, noIsDelete))
         == Conjuncts(filter) + (if scope.FalseFlag? then [] else [In("org_id", scope)])
                              + (if noIsDelete then [] else [SoftDeleted])
  {
    var scoped := if scope.FalseFlag? then filter else Conj(filter, In("org_id", scope));
    assert Conjuncts(scoped) == Conjuncts(filter) + (if scope.FalseFlag? then [] else [In("org_id", scope)]);
    if noIsDelete {
      assert Conjuncts(scoped) + [] == Conjuncts(scoped);
    }
  }

  /**
   * What `getBaseParams` returns or raises for the parsed body; `resolved`
   * is what `get_user_organizations` gives for the user's org.
   */
  function BaseParamsOutcome(body: Dict, keywordFields: seq<string>, allowed: OrgScope, user: Option<int>,
                             noIsDelete: bool, resolved: Result<set<int>, PyError>): Result<BaseParams, PyError>
  {
    match SorterOutcome(body)
    case Err(e) => Err(e)
    case Ok(sorter) =>
      match BodyFilter(body, keywordFields)
      case Err(e) => Err(e)
      case Ok(filter) =>
        match ScopeOutcome(allowed, user, resolved)
        case Err(e) => Err(e)
        case Ok(scope) =>
          Ok(BaseParams(ScopedQuery(filter, scope, noIsDelete), sorter,
                        Get(body, "limit").GetOr(Int(10)), Get(body, "page").GetOr(Int(1))))
  }

  /** The run gets as far as `get_user_organizations`. */
  predicate LooksUpScope(body: Dict, keywordFields: seq<string>, allowed: OrgScope, user: Option<int>) {
    SorterOutcome(body).Ok? && BodyFilter(body, keywordFields).Ok? && FalsyScope(allowed) && user.Some?
  }

  /** `query_data` before the scope: `get_filter` of `body["body"]` when it is present and not `None`. */
  method BodyQueryData(body: Dict, keywordFields: seq<string>) returns (r: Result<Cond, PyError>)
    ensures r == BodyFilter(body, keywordFields)
  {
    var queryData := Empty;
    var inner := Get(body, "body");
    if inner.Some? && inner.value != Null {
      if !inner.value.Object? {
        return Err(AttributeError(NoItems));
      }
      var d := new PyDict(inner.value.entries);
      queryData := GetFilter(d, keywordFields);
    }
    return Ok(queryData);
  }

  /**
   * The org scope `getBaseParams` filters on: the user's organizations when
   * the given scope is falsy (but not `False`) and a user is logged in, the
   * given scope otherwise.
   */
  method ResolveScope(redis: Redis, t: Table, allowed: OrgScope, user: Option<int>, recursive: QueryResult,
                      jitter: int, faults: CacheFaults) returns (r: Result<OrgScope, PyError>)
    requires redis.Valid()
    requires 0 <= jitter <= DescendantJitterMax
    modifies redis
    ensures redis.Valid()
    ensures r == ScopeOutcome(allowed, user, DescendantsOutcome(old(redis.sets), old(redis.lists), t, user.GetOr(0),
                                                               recursive, faults.read))
    ensures FalsyScope(allowed) && user.Some? ==>
      DescendantsCacheAfter(old(redis.sets), old(redis.lists), old(redis.ttl), user.value, recursive, jitter, faults,
                            redis.sets, redis.lists, redis.ttl)
    ensures !(FalsyScope(allowed) && user.Some?) ==> unchanged(redis)
  {
    if FalsyScope(allowed) && user.Some? {
      var resolved := GetUserOrganizations(redis, t, user.value, recursive, jitter, faults);
      if resolved.Err? {
        return Err(resolved.error);
      }
      return Ok(IdSet(resolved.value));
    }
    return Ok(allowed);
  }

  /**
   * `getBaseParams` on an already parsed body. The user's organizations come
   * from `get_user_organizations`, which may write the descendant cache.
   */
  method GetBaseParams(redis: Redis, t: Table, body: Dict, keywordFields: seq<string>, allowed: OrgScope,
                       user: Option<int>, noIsDelete: bool, recursive: QueryResult, jitter: int,
                       faults: CacheFaults) returns (r: Result<BaseParams, PyError>)
    requires redis.Valid()
    requires 0 <= jitter <= DescendantJitterMax
    modifies redis
    ensures redis.Valid()
    ensures r == BaseParamsOutcome(body, keywordFields, allowed, user, noIsDelete,
                                   DescendantsOutcome(old(redis.sets), old(redis.lists), t, user.GetOr(0),
                                                      recursive, faults.read))
    ensures LooksUpScope(body, keywordFields, allowed, user) ==>
      DescendantsCacheAfter(old(redis.sets), old(redis.lists), old(redis.ttl), user.value, recursive, jitter, faults,
                            redis.sets, redis.lists, redis.ttl)
    ensures !LooksUpScope(body, keywordFields, allowed, user) ==> unchanged(redis)
  {
    var limit := Get(body, "limit").GetOr(Int(10));
    var page := Get(body, "page").GetOr(Int(1));
    var sorter := GetSorter(body);
    if sorter.Err? {
      return Err(sorter.error);
    }
    var bodyFilter := BodyQueryData(body, keywordFields);
    if bodyFilter.Err? {
      return Err(bodyFilter.error);
    }
    var queryData := bodyFilter.value;
    ghost var filter := queryData;
    var resolvedScope := ResolveScope(redis, t, allowed, user, recursive, jitter, faults);
    if resolvedScope.Err? {
      return Err(resolvedScope.error);
    }
    var scope := resolvedScope.value;
    if !scope.FalseFlag? {
      queryData := Conj(queryData, In("org_id", scope));
    }
    if !noIsDelete {
      queryData := Conj(queryData, SoftDeleted);
    }
    assert queryData == ScopedQuery(filter, scope, noIsDelete);
    return Ok(BaseParams(queryData, sorter.value, limit, page));
  }

  /** The body filter is made of `icontains`, ranges and or-ed keyword alternatives only. */
  lemma BodyFilterLookups(body: Dict, keywordFields: seq<string>)
    requires BodyFilter(body, keywordFields).Ok?
    ensures forall c :: c in Conjuncts(BodyFilter(body, keywordFields).value) ==> IsLookup(c)
  {
    match Get(body, "body")
    case None =>
    case Some(inner) =>
      if inner.Object? {
        var d := inner.entries;
        var kp := KeywordPart(d, keywordFields);
        assert kp == Empty || IsLookup(kp) by {
          if HasKey(d, "keywords") {
            KeywordFoldLookup(Empty, keywordFields, Get(d, "keywords").value);
          }
        }
        EntriesFoldConjuncts(kp, FilterEntries(d));
        EntryCondsLookups(FilterEntries(d));
      }
  }

  /**
   * The query of a successful `getBaseParams`: `allowed_org_ids=False` adds
   * no org filter at all; otherwise `org_id__in` holds the user's
   * organizations when the scope was falsy and a user is logged in, and the
   * given scope as-is otherwise; `is_delete = "1"` is excluded exactly when
   * `no_is_delete` is false.
   */
  lemma BaseParamsScope(body: Dict, keywordFields: seq<string>, allowed: OrgScope, user: Option<int>,
                        noIsDelete: bool, resolved: Result<set<int>, PyError>)
    requires BaseParamsOutcome(body, keywordFields, allowed, user, noIsDelete, resolved).Ok?
    ensures var q := BaseParamsOutcome(body, keywordFields, allowed, user, noIsDelete, resolved).value.query;
      && (allowed.FalseFlag? ==> forall c :: c in Conjuncts(q) ==> !c.In?)
      && (!allowed.FalseFlag? && FalsyScope(allowed) && user.Some? ==>
            resolved.Ok? && In("org_id", IdSet(resolved.value)) in Conjuncts(q))
      && (!allowed.FalseFlag? && !(FalsyScope(allowed) && user.Some?) ==> In("org_id", allowed) in Conjuncts(q))
      && (SoftDeleted in Conjuncts(q) <==> !noIsDelete)
  {
    BodyFilterLookups(body, keywordFields);
    var filter := BodyFilter(body, keywordFields).value;
    var scope := ScopeOutcome(allowed, user, resolved).value;
    assert BaseParamsOutcome(body, keywordFields, allowed, user, noIsDelete, resolved).value.query
        == ScopedQuery(filter, scope, noIsDelete);
    ScopedQueryConjuncts(filter, scope, noIsDelete);
    assert scope.FalseFlag? <==> allowed.FalseFlag?;
    assert !IsLookup(SoftDeleted);
  }
}
