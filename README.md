# python-utils request helpers, modelled in Dafny

This project models the request-handling core of the `python-utils` Django
helper package:

- `base_query.py`:
  - `get_sorter` turns the request's `sorter` object into an ORM ordering.
  - `get_sorter_sql` turns it into an SQL `ORDER BY` clause, restricted to a whitelist of columns with table aliases.
  - `is_valid_time_range` and `get_filter` turn the request `body` into a Django `Q` condition.
  - `get_user_organizations` gives an org and every org below it. It is cached in a Redis set `auth_org_ids:{id}` and falls back to a bounded breadth-first search.
  - `get_all_parent_orgs` gives an org and its ancestors. It is cached in a Redis list `org_parent:{id}` and falls back to a bounded upward walk.
  - `delete_user_organizations` invalidates the descendant cache.
  - `getBaseParams` combines all of these into the query, ordering and paging of a list request.
- `utils.py`: the naming helpers `camel_to_snake` and `snake_to_camel`, and `json_response`.
- `base_models.py` and `org.py`:
  - `format_datetime`;
  - the `to_representation` methods, which rename snake-case keys to camel-case keys in place with `d[camel] = d.pop(snake)`.

The modules follow the package:

- `Wrappers` (`wrappers.dfy`): `Option` and `Result`.
- `PyValues` (`py_values.dfy`): JSON values and dicts with their insertion order, plus Python exceptions.
- `PyText` (`py_text.dfy`): the parts of `str` the code uses.
- `Utils` (`utils.dfy`): utils.py.
- `Conditions` (`conditions.dfy`): Django `Q` objects.
- `QuerySorter` (`sorter.dfy`): both sorters.
- `QueryFilter` (`filter.dfy`): `get_filter`.
- `OrgTable` (`org_table.dfy`): the `sys_org` table and what the recursive SQL queries return.
- `FallbackQueries` (`fallback_queries.dfy`): both fallbacks.
- `RedisCache` (`redis_cache.dfy`): the Redis commands used, as a class whose maps the commands update.
- `OrgResolvers` (`org_resolvers.dfy`): the cached resolvers and the invalidation.
- `QueryParams` (`query_params.dfy`): `getBaseParams`.
- `BaseModels` (`base_models.dfy`): base_models.py.
- `OrgModels` (`org.dfy`): org.py.

Where the code works step by step, it is a `method`:

- a loop becomes a `while` or `for` loop;
- the Redis client and the representation dict become classes whose fields the methods update.

Each such method is proved equal to a recursive function of its inputs and
old state. The properties are lemmas about those functions.

The database, the random TTL jitter and the faults of the Redis client are
inputs:

- the rows of the recursive SQL query, or the `DatabaseError` it raised;
- `random.randint`, constrained to its range;
- one flag per Redis call that fails.

## Model

| member | source | states |
|---|---|---|
| `Utils.CamelToSnakeExample` | utils.py:114-116 | The documented example: `updateTime` becomes `update_time`. |
| `Utils.CamelToSnake` | utils.py:119 | Definition, no contract; properties in the rows for `CamelToSnakeOneHump`, `CamelToSnakeShape`, `CamelToSnakeOfSnake`, `CamelToSnakeIdempotent` and `CamelSnakeRoundTrip`. |
| `Utils.CamelToSnakeOneHump` | utils.py:119 | A lower-case head, one capital and a lower-case tail give head, `_`, the lowered capital, then the tail. |
| `Utils.CamelToSnakeShape` | utils.py:119 | The result never holds an upper-case letter and never starts with `_`. |
| `Utils.CamelToSnakeDropsLeadingUnderscore` | utils.py:119 | A leading `_` of the input is stripped too: `_x` and `x` convert alike. |
| `Utils.CamelToSnakeOfSnake` | utils.py:119 | A string that is already snake case without a leading `_` comes back unchanged. |
| `Utils.CamelToSnakeIdempotent` | utils.py:119 | Converting twice is converting once. |
| `Utils.LStrip` | utils.py:119 | `lstrip("_")` leaves no leading `_`. |
| `Utils.LStripSuffix` | utils.py:119 | What `lstrip` leaves is a suffix of its input, and every character it removed is the stripped one. |
| `Utils.Split` | utils.py:131 | `split("_")` gives at least one word, and no word holds `_`. |
| `Utils.SplitJoin` | utils.py:131 | Joining the split words with `_` gives back the input. |
| `Utils.CamelizeSplits` | utils.py:131-132 | Agrees, in every reading state, with a reference reading one character at a time: the head is copied, each `_` is dropped, the next letter is upper-cased and the rest of its word lower-cased. |
| `Utils.SnakeToCamel` | utils.py:131-132 | Definition, no contract; properties in the rows for `SnakeToCamelIsCamelize`, `SnakeToCamelShape`, `SnakeToCamelSegments` and `CamelSnakeRoundTrip`. |
| `Utils.SnakeToCamelIsCamelize` | utils.py:122-132 | `snake_to_camel` equals the character-by-character reference reading. |
| `Utils.SnakeToCamelShape` | utils.py:131-132 | The result holds no `_`, and a string without `_` is returned unchanged. |
| `Utils.SnakeToCamelSegments` | utils.py:131-132 | The first word is kept as is, and every later word is capitalized and appended. |
| `Utils.SnakeToCamelCapitalizesLast` | utils.py:131-132 | `head_word` gives `head`, then the upper-cased first letter of `word`, then the rest of `word` lower-cased. |
| `Utils.CamelSnakeRoundTrip` | utils.py:110-132 | `snake_to_camel(camel_to_snake(s)) == s` for a name without `_` whose first letter is not upper case. |
| `Utils.JsonResponse` | utils.py:70-86 | `code`, `msg` and `success` are always present. `data` and `total` are present exactly when not `None`. Every kwarg is kept, and no other key appears. |
| `PyText.Lower` | utils.py:119 | `c.lower()` leaves no upper-case letter, maps capitals to lower case and keeps everything else. |
| `PyText.Upper` | utils.py:132 | `c.upper()` leaves no lower-case letter, maps lower-case letters to capitals and keeps everything else. |
| `PyText.LowerAll` | base_query.py:167 | `s.lower()` keeps the length. |
| `PyText.LowerAllPointwise` | base_query.py:167 | `s.lower()` lowers each character in place. |
| `PyText.LowerAllAppend` | base_query.py:167 | Lower-casing distributes over concatenation. |
| `PyText.ContainsMiddle` | base_query.py:81 | A string contains every piece it is built around. |
| `PyText.NatToString` | base_query.py:175 | `str(n)` of a natural is a non-empty run of digits. |
| `PyText.IntToString` | base_query.py:175 | `str(n)` is never empty. |
| `PyText.ParseInt` | base_query.py:141 | Definition, no contract; `int()` on a decimal string with an optional sign; properties in the rows for `IntStringRoundTrip` and `DescendantsHitIgnoresStore`. |
| `PyText.IntStringRoundTrip` | base_query.py:141 | `int(str(n)) == n` for every integer, negative ones included. |
| `PyText.IntToStringInjective` | base_query.py:136 | Two integers with the same text are equal. |
| `PyValues.Truthy` | base_query.py:99 | Definition, no contract; Python truthiness of a value; used by the rows for `GetFilterShape` and `BaseParamsScope`. |
| `PyValues.EqualsInt` | base_query.py:27-30 | Definition, no contract; `direction == 1` and `direction == -1`, where `True == 1` holds too; used by the rows for `GetSorterOrdering` and `GetSorterSqlOrdering`. |
| `PyValues.Get` | base_query.py:308-309 | `d.get(k)` finds a value exactly when `k` is a key. |
| `PyValues.Without` | base_query.py:97 | After `pop(k)`, `k` is gone and every remaining item was in the dict before. Every item under another key is kept, and a dict without `k` is unchanged. |
| `PyValues.WithoutAppend` | base_query.py:97 | `pop(k)` acts on each part of a dict separately, so the remaining items keep their relative order. |
| `PyValues.PyDict.Pop` | base_query.py:97 | `pop(k, None)` returns the value under `k`, if any. The dict loses exactly that key and keeps its order. |
| `Conditions.Conj` | base_query.py:104 | `a & b` requires the conjuncts of `a` and then those of `b`. It is empty only when both are. |
| `Conditions.Disj` | base_query.py:103 | The or of `a` and `b` accepts the alternatives of `a` and then those of `b`. It is empty only when both are. |
| `QuerySorter.SnakeItems` | base_query.py:22-23 | Snake-casing the sorter keys keeps one entry per entry. |
| `QuerySorter.RemoveFirst` | base_query.py:24-25 | `list.remove(x)` fails exactly when `x` is absent, and otherwise removes one element. |
| `QuerySorter.RemoveFirstOfSplit` | base_query.py:24-25 | `remove` takes out the first occurrence and keeps everything around it in order. |
| `QuerySorter.RemoveFirstKeepsOthers` | base_query.py:59-60 | What `remove` leaves was all in the list before. |
| `QuerySorter.SorterOutcome` | base_query.py:15-31 | Definition, no contract; what `get_sorter` returns or raises; properties in the rows for `GetSorter`, `GetSorterOrdering` and `GetSorterTwoCreateTimes`. |
| `QuerySorter.GetSorter` | base_query.py:15-31 | The loop returns what `get_sorter` gives for the body, including the `AttributeError` of a sorter that is not a dict. |
| `QuerySorter.TokensAfterAppends` | base_query.py:27-30 | Appending the entries' tokens one at a time is appending all of them. |
| `QuerySorter.SortOrderingWithoutCreateTime` | base_query.py:22-30 | Without a `create_time` entry, each entry only appends its token. |
| `QuerySorter.SortOrderingOneCreateTime` | base_query.py:22-30 | With exactly one `create_time` entry, the leading default is removed and every entry's token is appended. |
| `QuerySorter.SortOrderingErrors` | base_query.py:24-25 | The loop's only error is the `ValueError` of `remove`. |
| `QuerySorter.GetSorterOrdering` | base_query.py:15-31 | Without `create_time`, `-create_time` leads the tokens. With one `create_time`, the tokens alone. An error needs at least two `create_time` entries. |
| `QuerySorter.CreateTimeSpellings` | base_query.py:23-24 | `createTime` and `create_time` both name the creation-time column. |
| `QuerySorter.SortOrderingPair` | base_query.py:22-30 | Two entries are the two steps in turn, stopping at the first error. |
| `QuerySorter.FirstCreateTimeStep` | base_query.py:24-30 | The first `create_time` entry replaces the default with its own token. |
| `QuerySorter.SecondCreateTimeStep` | base_query.py:24-30 | A second `create_time` entry succeeds only when the first sorted descending. |
| `QuerySorter.GetSorterTwoCreateTimes` | base_query.py:15-31 | Sorting `create_time` twice raises `ValueError` unless the first entry was `-1`. In that case the second entry's token replaces it. |
| `QuerySorter.SorterSqlOutcome` | base_query.py:34-77 | Definition, no contract; what `get_sorter_sql` returns or raises; properties in the rows for `GetSorterSql`, `GetSorterSqlOrdering`, `SqlOrderingFromWhitelist` and `GetSorterSqlEmptyWhitelist`. |
| `QuerySorter.GetSorterSql` | base_query.py:34-77 | The loops return what `get_sorter_sql` gives for the body and whitelist, including the `AttributeError` of a non-dict sorter. |
| `QuerySorter.RenderClauses` | base_query.py:69-75 | One `column DESC` clause per `-column` and one `field ASC` clause per other entry, in order. |
| `QuerySorter.RenderOrderBy` | base_query.py:77 | The clause is empty exactly when there is no ordering entry, and otherwise starts with `ORDER BY `. |
| `QuerySorter.SqlTokensAfterAppends` | base_query.py:62-66 | Appending the tokens one at a time is appending all of them. |
| `QuerySorter.SqlOrderingAppendsAll` | base_query.py:46-66 | Without a whitelisted `create_time` entry, the loop only appends the whitelisted entries' tokens. |
| `QuerySorter.SqlOrderingWithoutCreateTime` | base_query.py:46-66 | In that case the ordering is the start followed by every whitelisted entry's qualified token. |
| `QuerySorter.SqlOrderingCreateTimeFirst` | base_query.py:58-66 | A leading whitelisted `create_time` replaces the default, and the rest only append. |
| `QuerySorter.SqlOrderingOneCreateTime` | base_query.py:46-66 | One whitelisted `create_time` anywhere removes the default, and every whitelisted token is appended in order. |
| `QuerySorter.GetSorterSqlOrdering` | base_query.py:43-66 | With `create_time` sorted at most once, the ordering is the whitelisted tokens in order. They follow `-p.create_time` unless a whitelisted `create_time` is sorted. |
| `QuerySorter.SqlOrderingFromWhitelist` | base_query.py:50-56 | Whatever the sorter holds, the ordering holds only the default and whitelisted `alias.column` names, ascending or descending. |
| `QuerySorter.SqlTokensOfEmptyWhitelist` | base_query.py:51-52 | With an empty whitelist, every entry is skipped. |
| `QuerySorter.DescendingClause` | base_query.py:71-73 | `-column` renders as `column DESC`. |
| `QuerySorter.DefaultClause` | base_query.py:43 | Example: the default ordering renders as `p.create_time DESC`. |
| `QuerySorter.DefaultOrderBy` | base_query.py:77 | Example: the default alone gives `ORDER BY p.create_time DESC`. |
| `QuerySorter.GetSorterSqlEmptyWhitelist` | base_query.py:34-77 | With the default empty whitelist, the result is `ORDER BY p.create_time DESC` for any dict sorter and `AttributeError` otherwise. |
| `QuerySorter.GetSorterSqlCanBeEmpty` | base_query.py:59-77 | Sorting a whitelisted `create_time` with a direction other than ±1 removes the default and appends nothing, so the result is the empty string. |
| `QueryFilter.ContainsCapitalStart` | base_query.py:81 | A string that contains a piece starting with a capital has a capital. |
| `QueryFilter.IsValidTimeRange` | base_query.py:80-83 | Definition, no contract; properties in the rows for `TimeRangeNeedsCapital` and `TimeRangeExample`. |
| `QueryFilter.TimeRangeNeedsCapital` | base_query.py:80-83 | A key without capitals is never a time range, and its entry becomes an `icontains` lookup. |
| `QueryFilter.TimeRangeExample` | base_query.py:80-83 | `createTime` with a two-element list is a time range. |
| `QueryFilter.FilterCond` | base_query.py:86-115 | Definition, no contract; what `get_filter` returns; properties in the rows for `GetFilter`, `GetFilterShape` and `FilterEntriesAppend`. |
| `QueryFilter.GetFilter` | base_query.py:86-115 | Both loops return the fold-defined condition, and `keywords` is popped from the caller's dict. |
| `QueryFilter.KeywordFoldDisjuncts` | base_query.py:100-103 | The keyword condition or-s one `icontains` per keyword field, in order. |
| `QueryFilter.KeywordFoldLookup` | base_query.py:100-103 | The keyword condition is empty or a lookup. |
| `QueryFilter.EntryCondsLookups` | base_query.py:106-113 | Every body entry becomes an `icontains` or a `range` lookup. |
| `QueryFilter.EntriesFoldConjuncts` | base_query.py:106-113 | The entries' conditions are and-ed one per entry, in order. |
| `QueryFilter.GetFilterShape` | base_query.py:86-115 | The conjuncts are the keyword alternatives, when `keywords` is truthy and fields are given, then one condition per other entry. `keywords` is never a field filter. Every entry under another key stays in the body and adds its own condition. |
| `QueryFilter.EntryCondsAppend` | base_query.py:106-113 | The entries' conditions of a body made of two parts are those of the first part followed by those of the second. |
| `QueryFilter.FilterEntriesAppend` | base_query.py:97-113 | The field conditions follow the body's order: popping `keywords` and filtering act on each part of the body separately. |
| `OrgTable.Children` | base_query.py:205-208 | Every child id is the id of a row of the table. |
| `OrgTable.LiveRow` | base_query.py:277-281 | The row `fetchone` finds has the id asked for and `is_delete` NULL. |
| `OrgTable.DeletedRowInvisible` | base_query.py:278 | An org whose rows all have a non-NULL `is_delete`, `0` included, has no live row. |
| `OrgTable.ReachableRefl` | base_query.py:151-154 | An org is reachable from itself. |
| `OrgTable.ReachableStep` | base_query.py:155-158 | A child of a reachable org is reachable. |
| `OrgTable.ReachableInDescendants` | base_query.py:150-160 | Every reachable org is a descendant. |
| `FallbackQueries.FallbackOrgSet` | base_query.py:187-211 | Definition, no contract; what `_fallback_org_query` returns; properties in the rows for `FallbackOrgQuery`, `FallbackOrgSetBounds`, `FallbackOrgSetSound`, `FallbackOrgSetComplete` and `FallbackMatchesRecursiveDescendants`. |
| `FallbackQueries.FallbackOrgQuery` | base_query.py:187-211 | The loop returns the set of the bounded breadth-first search. |
| `FallbackQueries.BfsGrows` | base_query.py:194-209 | The search only adds ids, at most one per pass. |
| `FallbackQueries.FallbackOrgSetBounds` | base_query.py:189-202 | The result holds `root_id` and between one and twenty ids. |
| `FallbackQueries.BfsKeepsSound` | base_query.py:194-209 | Every visited or queued id stays reachable from the root. |
| `FallbackQueries.FallbackOrgSetSound` | base_query.py:187-211 | Every id returned is the root or one of its descendants. |
| `FallbackQueries.BfsKeepsClosed` | base_query.py:194-209 | Each child of a visited id stays visited or queued. |
| `FallbackQueries.DrainedIsClosed` | base_query.py:195-196 | When the queue empties, the visited set holds the root and every child of its members. |
| `FallbackQueries.FallbackOrgSetComplete` | base_query.py:187-211 | When the queue empties within twenty passes, the result is exactly the root and its descendants. |
| `FallbackQueries.FallbackMatchesRecursiveDescendants` | base_query.py:187-211 | For an existing root whose search drains, the fallback equals the recursive query. For a missing root, the query gives nothing while the fallback still gives the root. |
| `FallbackQueries.Walk` | base_query.py:276-292 | The walk only extends the chain, by at most one id per pass. |
| `FallbackQueries.Reverse` | base_query.py:294 | `[::-1]` keeps the length and puts element `i` at position `len-1-i`. |
| `FallbackQueries.FallbackChain` | base_query.py:269-294 | Definition, no contract; what `_fallback_parent_query` returns; properties in the rows for `FallbackParentQuery`, `FallbackChainShape`, `FallbackReversesRecursive` and `PathsDisagreeOnMissingParent`. |
| `FallbackQueries.FallbackParentQuery` | base_query.py:269-294 | The loop returns the reversed upward walk. |
| `FallbackQueries.WalkShape` | base_query.py:276-292 | The chain stays free of repeats, each element followed by its live parent. It stops at a root, at a repeated parent, or when the passes run out. |
| `FallbackQueries.FallbackChainShape` | base_query.py:269-294 | The result holds one to twenty distinct ids and ends with `org_id`. Each id is the live parent of the next. The first is a root, a repeat, or the twentieth. |
| `FallbackQueries.ReverseKeeps` | base_query.py:294 | Reversing keeps the ids and their distinctness and turns each parent link around. |
| `FallbackQueries.FallbackChainOfRoot` | base_query.py:283-285 | An org without a live row or parent is its own chain. |
| `FallbackQueries.FallbackChainOfSelfLoop` | base_query.py:287-289 | An org that is its own parent gives a one-element chain. |
| `FallbackQueries.AncestorRowsDistinct` | base_query.py:235-245 | A chain of live rows ending at a root never repeats an id. |
| `FallbackQueries.WalkAlongRows` | base_query.py:276-292 | The walk follows such a chain to its end. |
| `FallbackQueries.FallbackReversesRecursive` | base_query.py:269-294 | For at most twenty ancestor rows ending at a root, the fallback is exactly the reverse of the recursive query. |
| `FallbackQueries.AncestorRowsStopAtOrg` | base_query.py:235-245 | The recursive rows of a live org are the org alone exactly when its parent has no live row. |
| `FallbackQueries.PathsDisagreeOnMissingParent` | base_query.py:277-285 | For a live org whose parent has no live row, the recursive rows are `[org_id]`, but the fallback appends the parent and returns `[parent, org_id]`, which is not their reverse. |
| `FallbackQueries.RecursiveAndFallbackOnDeletedOrg` | base_query.py:283-285 | For an org without a live row, the recursive query gives no rows and the fallback gives `[org_id]`. |
| `RedisCache.Redis.SMembers` | base_query.py:139 | The members under a set key. The empty set for a missing key. `WRONGTYPE` for a list key. A connection failure raises `RedisError`. |
| `RedisCache.Redis.LRange` | base_query.py:225 | The whole list under a list key. The empty list for a missing key. `WRONGTYPE` for a set key. A connection failure raises `RedisError`. |
| `RedisCache.Redis.SAdd` | base_query.py:179 | Adds the members to the set and returns how many were new. On failure nothing changes. |
| `RedisCache.Redis.RPush` | base_query.py:261 | Appends the values to the list and returns the new length. On failure nothing changes. |
| `RedisCache.Redis.Delete` | base_query.py:124 | Removes the key whatever it holds, and counts whether it existed. |
| `RedisCache.Redis.Expire` | base_query.py:180 | Sets the TTL of an existing key. A missing key gives `False`, and a timeout that is not positive deletes the key. |
| `RedisCache.Redis.ScanPrefix` | base_query.py:122 | Exactly the stored keys that start with the prefix. |
| `OrgResolvers.CacheKeysInjective` | base_query.py:136 | Two orgs never share a descendant key or an ancestor key. |
| `OrgResolvers.IsSyntaxError` | base_query.py:167 | Definition, no contract; the test `"syntax" in str(e).lower()`; properties in the rows for `SyntaxErrorIgnoresCase`, `DescendantsOnDatabaseError` and `AncestorsOnSyntaxError`. |
| `OrgResolvers.SyntaxErrorIgnoresCase` | base_query.py:167 | "syntax" in any case, anywhere in the message, selects the fallback. |
| `OrgResolvers.RowSet` | base_query.py:163 | The set of rows is empty exactly when no row came back. |
| `OrgResolvers.IdStringsRoundTrip` | base_query.py:141 | Parsing the stored strings gives back the stored set of ids. |
| `OrgResolvers.DescendantsTtlWindow` | base_query.py:176-180 | The cache the descendant resolver leaves changes no TTL but its own key's. That one is `3600 + randint(0, 300)`, in [3600, 3900], and changes only after a write with working `sadd` and `expire`. |
| `OrgResolvers.DescendantsOutcome` | base_query.py:127-184 | Definition, no contract; what `get_user_organizations` returns or raises; properties in the rows for `GetUserOrganizations`, `DescendantsHitIgnoresStore`, `DescendantsWriteThenHit`, `DescendantsOnDatabaseError` and `DescendantsPathsAgree`. |
| `OrgResolvers.GetUserOrganizations` | base_query.py:127-184 | Returns or raises what a function of the cache before the call gives. Writes the ids and the `3600+jitter` TTL only on a miss with rows. `sadd`/`expire` failures are swallowed. No TTL but the org's key changes, and that one lies in [3600, 3900]. |
| `OrgResolvers.DescendantsHitIgnoresStore` | base_query.py:139-141 | On a hit, the table and the query play no part. The hit fails exactly when a member does not parse as an int. |
| `OrgResolvers.DescendantsWriteThenHit` | base_query.py:139-182 | After a write, the next run hits and returns the same set, whatever the database now says. |
| `OrgResolvers.DescendantsOnDatabaseError` | base_query.py:165-170 | On a miss, a "syntax" error gives the fallback's set, any other error is re-raised, and neither writes the cache. |
| `OrgResolvers.DescendantsPathsAgree` | base_query.py:146-170 | The recursive path and the syntax-error fallback give the same set when the root exists and the fallback drains. |
| `OrgResolvers.IdTexts` | base_query.py:261 | `map(str, ids)` has one string per id. |
| `OrgResolvers.AncestorsOutcome` | base_query.py:214-266 | Definition, no contract; what `get_all_parent_orgs` returns or raises; properties in the rows for `GetAllParentOrgs`, `AncestorsWriteThenHit`, `AncestorsRecursiveOrder`, `AncestorsFallbackOrder`, `AncestorsOnMissingParent` and `AncestorsOfDeletedOrg`. |
| `OrgResolvers.GetAllParentOrgs` | base_query.py:214-266 | Returns or raises what a function of the cache before the call gives. Writes the list and the `1800+jitter` TTL only on a miss with rows. Write errors are swallowed. No TTL but the org's key changes, and that one lies in [1500, 2100]. |
| `OrgResolvers.AncestorsTtlWindow` | base_query.py:257-262 | The cache the ancestor resolver leaves changes no TTL but its own key's. That one is `1800 + randint(-300, 300)`, in [1500, 2100], and changes only after a write with working `rpush` and `expire`. |
| `OrgResolvers.AncestorsWriteThenHit` | base_query.py:225-264 | After a write, the next run returns the stored strings, not ints. Each string reads back as the id at its position. |
| `OrgResolvers.AncestorsRecursiveOrder` | base_query.py:230-248 | On a miss, the recursive path returns the rows as they come, `org_id` first. |
| `OrgResolvers.AncestorsFallbackOrder` | base_query.py:250-252 | For a chain of at most twenty live rows ending at a NULL parent, the syntax-error fallback returns exactly the reverse of the recursive result, root first. |
| `OrgResolvers.AncestorsOnMissingParent` | base_query.py:230-257 | For a live org whose parent has no live row, the recursive path gives `[org_id]` and the fallback gives `[parent, org_id]`. |
| `OrgResolvers.AncestorsOnSyntaxError` | base_query.py:250-252 | On a miss, a syntax error gives the fallback chain. |
| `OrgResolvers.AncestorsOfDeletedOrg` | base_query.py:230-257 | For an org without a live row, the recursive path gives `[]` and caches nothing, while the fallback gives `[org_id]`. |
| `OrgResolvers.DeleteByPrefix` | base_query.py:122-124 | Deleting every scanned key leaves exactly the keys that do not start with the prefix. |
| `OrgResolvers.DeleteUserOrganizations` | base_query.py:118-124 | Removes exactly the keys that start with `auth_org_ids_`. |
| `OrgResolvers.DescendantKeyNotInvalidated` | base_query.py:122 | No descendant key starts with `auth_org_ids_`. |
| `OrgResolvers.InvalidationMissesDescendantKeys` | base_query.py:118-141 | After `delete_user_organizations`, every org resolves exactly as before. |
| `OrgResolvers.DeleteDescendantCache` | base_query.py:118-124 | The corrected invalidation removes exactly the keys starting with `auth_org_ids:`. |
| `OrgResolvers.CorrectedInvalidationForcesMiss` | base_query.py:136-141 | After the corrected invalidation, every org resolves as with an empty cache. |
| `QueryParams.ScopedQueryConjuncts` | base_query.py:320-331 | The query is the body filter's conjuncts, then `org_id__in` unless the scope is `False`, then `~Q(is_delete="1")` unless `no_is_delete`. |
| `QueryParams.BodyQueryData` | base_query.py:314-318 | The body filter, `Q()` when `body` is absent or `None`, or `AttributeError` when it is not a dict. |
| `QueryParams.ResolveScope` | base_query.py:320-323 | A falsy scope other than `False`, with a logged-in user, is replaced by the user's organizations, which may write the cache. Otherwise Redis is untouched. |
| `QueryParams.BaseParamsOutcome` | base_query.py:297-334 | Definition, no contract; what `get_base_params` returns or raises; properties in the rows for `GetBaseParams`, `BaseParamsScope` and `BodyFilterLookups`. |
| `QueryParams.GetBaseParams` | base_query.py:297-334 | Returns or raises what a function of the body, scope and cache gives, with paging defaults 10 and 1. The cache changes only when the user's organizations are looked up. |
| `QueryParams.BodyFilterLookups` | base_query.py:314-318 | The body filter holds only `icontains` lookups, ranges and or-ed keyword alternatives. |
| `QueryParams.BaseParamsScope` | base_query.py:320-331 | `False` adds no `in` filter. A falsy scope with a user gives `org_id__in` of the resolved set, and any other scope is used as given. `is_delete="1"` is excluded exactly when `no_is_delete` is false. |
| `BaseModels.FormatDatetime` | base_models.py:6-12 | A datetime becomes a string, and any other value is returned unchanged. |
| `BaseModels.FormatDatetimeIdempotent` | base_models.py:6-12 | Formatting twice is formatting once. |
| `BaseModels.MoveKeys` | base_models.py:53-56 | Definition, no contract; the run of `d[to] = d.pop(from)` statements; properties in the rows for `MoveKeysSucceeds`, `MoveKeysKeys`, `MoveKeysValues`, `MoveKeysKeeps`, `MoveKeysMovesAt`, `MoveKeysAppend` and `Representation.MoveAll`. |
| `BaseModels.MoveKeysSucceeds` | base_models.py:53-56 | The renames succeed exactly when every source key is present. Otherwise the missing key is a source. |
| `BaseModels.MoveKeysKeys` | base_models.py:53-56 | On success, the keys are the old keys, minus the sources, plus the targets. |
| `BaseModels.MoveKeysValues` | base_models.py:53-56 | For independent renames, each target holds its source's old value, and untouched keys keep theirs. |
| `BaseModels.MoveKeysKeeps` | base_models.py:53-56 | A key no rename touches keeps its value. |
| `BaseModels.MoveKeysMovesAt` | base_models.py:53-56 | The i-th target holds the i-th source's old value. |
| `BaseModels.MoveKeysAppend` | base_models.py:53-56 | Two runs of renames in a row are the run of their concatenation. |
| `BaseModels.IndependentAppend` | org.py:32-35 | Two independent rename lists with disjoint keys are independent together. |
| `BaseModels.BaseRenamesIndependent` | base_models.py:53-56 | The four renames are independent, from the four snake keys to the four camel keys. |
| `BaseModels.BaseRepresentationFails` | base_models.py:51-57 | `KeyError` exactly when a snake key is absent, naming an absent snake key. |
| `BaseModels.BaseRepresentationMoves` | base_models.py:51-57 | On success, the snake keys are replaced by `createTime`, `updateTime`, `orgId` and `isDelete`, which hold the popped values. All other keys keep their values. |
| `BaseModels.Representation.Move` | base_models.py:53 | `d[to] = d.pop(from)`, or `KeyError` with the dict unchanged. |
| `BaseModels.Representation.MoveAll` | base_models.py:53-56 | The statements in turn leave the dict as the rename function says, and stop at the first `KeyError`. |
| `BaseModels.BaseToRepresentation` | base_models.py:51-57 | The dict and result are those of the four base renames. |
| `OrgModels.OrgRenamesIndependent` | org.py:33-35 | The three org renames are independent. |
| `OrgModels.OrgKeysAreNew` | org.py:23-35 | No org key is a key of the base renames. |
| `OrgModels.AllRenamesIndependent` | org.py:33-35 | All seven renames move seven distinct keys to seven other distinct keys. |
| `OrgModels.OrgToRepresentation` | org.py:31-36 | The base renames, then the three org renames, with the resulting dict and `KeyError`. |
| `OrgModels.OrgRepresentationFails` | org.py:31-36 | `KeyError` exactly when one of the seven snake keys is absent. |
| `OrgModels.OrgRepresentationKeys` | org.py:31-36 | On success, the seven snake keys are replaced by the seven camel keys, and no other key changes presence. |
| `OrgModels.OrgMovesAt` | org.py:31-36 | The i-th of the seven renames stores its source's old value. |
| `OrgModels.OrgRepresentationMoved` | org.py:31-36 | On success, the seven camel keys hold the popped values, overwriting the declared read-only fields. |
| `OrgModels.OrgRepresentationKeepsOthers` | org.py:31-36 | Every other key, such as `id`, `name` or `code`, keeps its value. |

### Where the code and its documentation differ

The model follows the code in each case:

- `allowed_org_ids=False` means no org filter at all, not an empty one. `0` is treated as `False`.
- The cache keys are `auth_org_ids:{id}` and `org_parent:{id}`.
- The recursive descendant query gives nothing for an org id without a row, while the fallback still returns the id.
- The recursive ancestor path is not reversed, so it lists `org_id` first. Only the fallback reverses, listing the root first.
- A failing cache read is not caught: it propagates as `RedisError`.
- The descendant fallback's twenty passes count dequeues, revisits included.
- The two ancestor paths differ for a live org whose parent row is deleted or absent. The recursive query stops at the org and gives `[org_id]`. The fallback appends the parent id as the root and gives `[parent, org_id]` (`FallbackQueries.PathsDisagreeOnMissingParent`).
- The ancestor fallback walks at most twenty rows. Past that it returns the twenty ids nearest `org_id`, root-most first, without the root, while the recursive query returns the whole chain. `FallbackQueries.FallbackReversesRecursive` therefore holds only for chains of at most twenty rows.
- The `snake_to_camel` docstring example (utils.py:126-128) turns `update_ime` into `updateTime`. The code gives `updateIme`, and so does the model.

## Left out

- Unicode: case mapping is ASCII only, and `int()` whitespace, underscores and non-ASCII digits are not modelled.
- Logging (`logger.info`/`warning`/`error`) has no effect on results and is left out.
- `random.randint` is a parameter constrained to its range. TTL expiry over time is not modelled.
- Concurrency between requests, and between the Redis client and other writers, is not modelled.
- `generate_token`, `decode_token` (JWT), `new_call_id` (uuid), `get_redis_cli` and `generate_urls` in utils.py depend on external libraries, settings or reflection.
- `BaseModels.BaseToRepresentation` and `OrgModels.OrgToRepresentation` take the dict that `super().to_representation(instance)` builds as an input. The framework serialization that produces it is not modelled: the `create_time`/`update_time` values that `get_create_time`/`get_update_time` format with `format_datetime` (base_models.py:45-49), and the declared read-only fields such as `orgId`, `isDelete` (base_models.py:38-39) and `controllerName`, `controllerTel`, `orgName` (org.py:23-25).
- `format_datetime` of utils.py has the same body as base_models.py's and is modelled once as `BaseModels.FormatDatetime`. `strftime` is a parameter, and the default `datetime.now()` argument is not modelled.
- decorators.py, base_delete.py and log.py are not part of this model.
- `JSONParser().parse(request)` is not modelled: `GetBaseParams` takes the parsed body.
- `request.user.get("orgId")` is the `user` parameter, and a user without `orgId` is not modelled.
- `no_is_delete` is a `bool`. A non-bool argument, for which `is False` differs from falsiness, is not modelled.
- `OrgModels.OrgRepresentationKeys`: a `map` has no key order, so where the renamed keys land in the dict's order is not modelled.
- `QueryParams.BodyQueryData`: `get_filter` pops `keywords` from the caller's `body["body"]` dict, but this copies the dict first. The pop on the caller's object (aliasing) is therefore not modelled. It is modelled on its own in `QueryFilter.GetFilter`.
- Database errors inside the fallbacks are not modelled, since they would propagate unchanged.
- The recursive SQL queries are an input (their rows or their error). `OrgTable` states what a terminating query returns. MySQL's behaviour on a cyclic hierarchy (recursion limit) is not modelled.
- Cache errors during `delete_user_organizations` are not modelled, since they would propagate.
- Every exception raised for a `sorter` or `body` that is not a dict is modelled as one `AttributeError`.
- `RedisError` and other exceptions of `rpush`/`expire` are both modelled as a failing call, since both are caught.
- `SCAN` with `prefix*` is modelled as a prefix match over all keys at once. Other glob characters and cursor iteration are not modelled.
- `Q(org_id__in=None)` (an explicit `allowed_org_ids` that is falsy with no user) is kept as the `In` condition on the given scope. Django's handling of it is not modelled.
- `QuerySorter.GetSorterSqlOrdering` states the ordering only when `create_time` is sorted at most once. Beyond that, `SqlOrderingFromWhitelist` states only which names can appear.
- Floating-point values are not modelled: `Value` has no float case. In the code a JSON `1.0` or `-1.0` sort direction compares equal to `1` or `-1` (base_query.py:27-30, 62-66) and sorts like the integer, and float range bounds pass through `get_filter` unchanged. The model covers integer and boolean directions only.
- `Utils.JsonResponse` takes every argument explicitly. The defaults `code=200`, `msg=""`, `success=True`, `data=None` and `total=None` (utils.py:70) are not modelled.
- `Utils.JsonResponse` returns a `map`, so the key order of the returned dict (`code`, `msg`, `success`, then `data`, `total` and the keyword arguments) is not modelled.
- `request.user["orgId"]` is built from a Redis hash as a decoded string (decorators.py:53). The model takes it as an integer id. The string form and a string that is not a decimal integer are not modelled.
- `PyValues.Dict` is a sequence of pairs and does not exclude duplicate keys, which a Python dict never has. `Get` reads the first item under a key and `Without` drops every item under it. With unique keys both agree with the dict's behaviour.
- `Utils.SnakeToCamelCapitalizesLast` states the capitalization of the last word only. Inner words are covered by `SnakeToCamelSegments` through `CapitalizeAll`.

## Findings

| source | as written | input that shows it | evidently intended | confidence | as-written member | corrected member |
|---|---|---|---|---|---|---|
| base_query.py:122 | `delete_user_organizations` scans for `auth_org_ids_*`, but `get_user_organizations` writes `auth_org_ids:{id}` (line 136). No descendant key matches, so stale sets stay until their TTL runs out. | any org id, e.g. a cached `auth_org_ids:7` survives the call | scan `auth_org_ids:*` so that every cached descendant set is removed | high; not executed | `OrgResolvers.InvalidationMissesDescendantKeys` | `OrgResolvers.CorrectedInvalidationForcesMiss` |
