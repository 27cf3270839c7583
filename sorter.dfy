/**
 * The ordering helpers of base_query.py: the ORM ordering that `get_sorter`
 * builds and the SQL `ORDER BY` clause that `get_sorter_sql` builds, both
 * from the request's `sorter` object of `{field: 1 | -1}`.
 *
 * Each loop is a method proved equal to a fold over the same entries; the
 * properties are lemmas about the folds.
 */
module QuerySorter {
  import opened Wrappers
  import opened PyValues
  import opened PyText
  import opened Utils

  const CreateTime: string := "create_time"
  const DefaultOrdering: string := "-create_time"
  const NotInList: string := "list.remove(x): x not in list"

  // ---------------------------------------------------------------- get_sorter

  /**
   * The sorter's entries with `camel_to_snake` applied to each key, in
   * order; both loops below look at nothing else of a key.
   */
  function SnakeItems(items: Dict): (r: Dict)
    ensures |r| == |items|
  {
    seq(|items|, i requires 0 <= i < |items| => (CamelToSnake(items[i].0), items[i].1))
  }

  /** What one sorter entry appends: the field for direction `1`, `-field` for `-1`, nothing otherwise. */
  function Token(field: string, direction: Value): seq<string> {
    if EqualsInt(direction, 1) then [field]
    else if EqualsInt(direction, -1) then ["-" + field]
    else []
  }

  /** `xs.remove(x)`: drops the first `x`; `None` where Python raises `ValueError`. */
  function RemoveFirst<T(==)>(xs: seq<T>, x: T): (r: Option<seq<T>>)
    ensures r.None? <==> x !in xs
    ensures r.Some? ==> |r.value| == |xs| - 1
  {
    if xs == [] then None
    else if xs[0] == x then
      assert xs == [xs[0]] + xs[1..];
      Some(xs[1..])
    else match RemoveFirst(xs[1..], x)
      case None => None
      case Some(rest) =>
        assert xs == [xs[0]] + xs[1..];
        Some([xs[0]] + rest)
  }

  /** The position of the first `x` in `xs`. */
  function IndexOf<T(==)>(xs: seq<T>, x: T): (i: nat)
    requires x in xs
    ensures i < |xs| && xs[i] == x
  {
    if xs[0] == x then 0 else IndexOf(xs[1..], x) + 1
  }

  /** No `x` comes before `IndexOf(xs, x)`. */
  lemma {:induction false} IndexOfFirst<T>(xs: seq<T>, x: T)
    requires x in xs
    ensures x !in xs[..IndexOf(xs, x)]
  {
    if xs[0] != x {
      var j := IndexOf(xs[1..], x);
      IndexOfFirst(xs[1..], x);
      assert xs[..j + 1] == [xs[0]] + xs[1..][..j];
    }
  }

  /** `remove` takes out exactly the first occurrence and keeps the rest in order. */
  lemma {:induction false} RemoveFirstOfSplit<T>(p: seq<T>, x: T, s: seq<T>)
    requires x !in p
    ensures RemoveFirst(p + [x] + s, x) == Some(p + s)
  {
    var xs := p + [x] + s;
    if p == [] {
      assert xs[0] == x && xs[1..] == s && p + s == s;
    } else {
      assert p[0] != x;
      assert xs[0] == p[0] && xs[1..] == p[1..] + [x] + s;
      RemoveFirstOfSplit(p[1..], x, s);
      assert [p[0]] + (p[1..] + s) == p + s;
    }
  }

  /** What `remove` leaves was all in the list before. */
  lemma RemoveFirstKeepsOthers<T>(xs: seq<T>, x: T)
    requires x in xs
    ensures forall y :: y in RemoveFirst(xs, x).value ==> y in xs
  {
    var i := IndexOf(xs, x);
    IndexOfFirst(xs, x);
    assert xs == xs[..i] + [x] + xs[i + 1..];
    RemoveFirstOfSplit(xs[..i], x, xs[i + 1..]);
  }

  /** One pass of `get_sorter`'s loop, for an entry whose key is already in snake case. */
  function SorterStep(ordering: seq<string>, field: string, direction: Value): Result<seq<string>, PyError> {
    if field == CreateTime then
      match RemoveFirst(ordering, DefaultOrdering)
      case None => Err(ValueError(NotInList))
      case Some(rest) => Ok(rest + Token(field, direction))
    else Ok(ordering + Token(field, direction))
  }

  /** The loop of `get_sorter` from `ordering` over the remaining snake-case entries. */
  function SortOrdering(ordering: seq<string>, fields: Dict): Result<seq<string>, PyError>
    decreases |fields|
  {
    if fields == [] then Ok(ordering)
    else match SorterStep(ordering, fields[0].0, fields[0].1)
      case Err(e) => Err(e)
      case Ok(next) => SortOrdering(next, fields[1..])
  }

  /** What `get_sorter(body)` returns or raises. */
  function SorterOutcome(body: Dict): Result<seq<string>, PyError> {
    match Get(body, "sorter")
    case None => Ok([DefaultOrdering])
    case Some(sorter) =>
      if !Truthy(sorter) then Ok([DefaultOrdering])
      else if !sorter.Object? then Err(AttributeError(NoItems))
      else SortOrdering([DefaultOrdering], SnakeItems(sorter.entries))
  }

  lemma SortOrderingUnfold(ordering: seq<string>, fields: Dict, i: nat)
    requires i < |fields|
    ensures SortOrdering(ordering, fields[i..])
         == match SorterStep(ordering, fields[i].0, fields[i].1)
            case Err(e) => Err(e)
            case Ok(next) => SortOrdering(next, fields[i + 1..])
  {
    assert fields[i..][0] == fields[i] && fields[i..][1..] == fields[i + 1..];
  }

  method GetSorter(body: Dict) returns (r: Result<seq<string>, PyError>)
    ensures r == SorterOutcome(body)
  {
    var ordering := [DefaultOrdering];
    var sorter := Get(body, "sorter");
    if sorter.Some? && Truthy(sorter.value) {
      if !sorter.value.Object? {
        return Err(AttributeError(NoItems));
      }
      var items := sorter.value.entries;
      ghost var fields := SnakeItems(items);
      for i := 0 to |items|
        invariant SortOrdering(ordering, fields[i..]) == SortOrdering([DefaultOrdering], fields)
      {
        var (key, direction) := items[i];
        SortOrderingUnfold(ordering, fields, i);
        ghost var before := ordering;
        var field := CamelToSnake(key);
        assert fields[i] == (field, direction);
        if field == CreateTime {
          var removed := RemoveFirst(ordering, DefaultOrdering);
          if removed.None? {
            return Err(ValueError(NotInList));
          }
          ordering := removed.value;
        }
        ghost var kept := ordering;
        assert SorterStep(before, field, direction) == Ok(kept + Token(field, direction));
        if EqualsInt(direction, 1) {
          ordering := ordering + [field];
        } else if EqualsInt(direction, -1) {
          ordering := ordering + ["-" + field];
        } else {
          assert kept + Token(field, direction) == kept;
        }
      }
      assert fields[|items|..] == [];
    }
    return Ok(ordering);
  }

  /** How many entries name `create_time`. */
  function CreateTimeCount(fields: Dict): nat {
    if fields == [] then 0
    else (if fields[0].0 == CreateTime then 1 else 0) + CreateTimeCount(fields[1..])
  }

  /** The tokens the entries contribute, in order. */
  function Tokens(fields: Dict): seq<string> {
    if fields == [] then [] else Token(fields[0].0, fields[0].1) + Tokens(fields[1..])
  }

  /** `acc` followed by the tokens of the entries, appended one entry at a time. */
  function TokensAfter(acc: seq<string>, fields: Dict): seq<string>
    decreases |fields|
  {
    if fields == [] then acc else TokensAfter(acc + Token(fields[0].0, fields[0].1), fields[1..])
  }

  lemma {:induction false} TokensAfterAppends(acc: seq<string>, fields: Dict)
    ensures TokensAfter(acc, fields) == acc + Tokens(fields)
    decreases |fields|
  {
    if fields == [] {
      assert acc + [] == acc;
    } else {
      var token := Token(fields[0].0, fields[0].1);
      TokensAfterAppends(acc + token, fields[1..]);
      assert acc + token + Tokens(fields[1..]) == acc + (token + Tokens(fields[1..]));
    }
  }

  /** Without `create_time`, each entry only appends its token. */
  lemma {:induction false} SortOrderingWithoutCreateTime(ordering: seq<string>, fields: Dict)
    requires CreateTimeCount(fields) == 0
    ensures SortOrdering(ordering, fields) == Ok(TokensAfter(ordering, fields))
    decreases |fields|
  {
    if fields != [] {
      SortOrderingWithoutCreateTime(ordering + Token(fields[0].0, fields[0].1), fields[1..]);
    }
  }

  /** Entries before the one `create_time` append after the default, which it then takes away. */
  lemma {:induction false} SortOrderingOneCreateTime(rest: seq<string>, fields: Dict)
    requires CreateTimeCount(fields) == 1
    ensures SortOrdering([DefaultOrdering] + rest, fields) == Ok(TokensAfter(rest, fields))
    decreases |fields|
  {
    assert fields != [];
    var token := Token(fields[0].0, fields[0].1);
    if fields[0].0 == CreateTime {
      assert RemoveFirst([DefaultOrdering] + rest, DefaultOrdering) == Some(rest) by {
        assert ([DefaultOrdering] + rest)[1..] == rest;
      }
      SortOrderingWithoutCreateTime(rest + token, fields[1..]);
    } else {
      assert [DefaultOrdering] + rest + token == [DefaultOrdering] + (rest + token);
      SortOrderingOneCreateTime(rest + token, fields[1..]);
    }
  }

  lemma {:induction false} SortOrderingErrors(ordering: seq<string>, fields: Dict)
    ensures SortOrdering(ordering, fields).Err? ==> SortOrdering(ordering, fields).error == ValueError(NotInList)
    decreases |fields|
  {
    if fields != [] {
      match SorterStep(ordering, fields[0].0, fields[0].1)
      case Err(_) =>
      case Ok(next) => SortOrderingErrors(next, fields[1..]);
    }
  }

  /**
   * `get_sorter` on a sorter object: `-create_time` leads, followed by the
   * entries' tokens, unless `create_time` is sorted; sorting it once replaces
   * the default; the only error is the `ValueError` of a second `remove`.
   */
  lemma GetSorterOrdering(items: Dict)
    ensures var fields := SnakeItems(items);
      CreateTimeCount(fields) == 0 ==> SortOrdering([DefaultOrdering], fields) == Ok([DefaultOrdering] + Tokens(fields))
    ensures var fields := SnakeItems(items);
      CreateTimeCount(fields) == 1 ==> SortOrdering([DefaultOrdering], fields) == Ok(Tokens(fields))
    ensures var fields := SnakeItems(items);
      SortOrdering([DefaultOrdering], fields).Err? ==>
        CreateTimeCount(fields) >= 2 && SortOrdering([DefaultOrdering], fields).error == ValueError(NotInList)
  {
    var fields := SnakeItems(items);
    SortOrderingErrors([DefaultOrdering], fields);
    if CreateTimeCount(fields) == 0 {
      SortOrderingWithoutCreateTime([DefaultOrdering], fields);
      TokensAfterAppends([DefaultOrdering], fields);
    } else if CreateTimeCount(fields) == 1 {
      var none: seq<string> := [];
      assert [DefaultOrdering] + none == [DefaultOrdering];
      SortOrderingOneCreateTime(none, fields);
      TokensAfterAppends(none, fields);
      assert none + Tokens(fields) == Tokens(fields);
    }
  }

  /** Both spellings of the creation-time column become `create_time`. */
  lemma CreateTimeSpellings()
    ensures CamelToSnake("createTime") == CreateTime
    ensures CamelToSnake(CreateTime) == CreateTime
  {
    CamelToSnakeOneHump("create", 'T', "ime");
    assert "create" + ['T'] + "ime" == "createTime";
    assert "create" + ['_', Lower('T')] + "ime" == CreateTime;
    CamelToSnakeIdempotent("createTime");
  }

  /** `get_sorter`'s loop over two entries is the two steps in turn. */
  lemma SortOrderingPair(ordering: seq<string>, f1: string, d1: Value, f2: string, d2: Value)
    ensures SortOrdering(ordering, [(f1, d1), (f2, d2)])
         == match SorterStep(ordering, f1, d1)
            case Err(e) => Err(e)
            case Ok(next) => (match SorterStep(next, f2, d2) case Err(e) => Err(e) case Ok(last) => Ok(last))
  {
    var fields: Dict := [(f1, d1), (f2, d2)];
    assert fields[0..] == fields && fields[2..] == [];
    SortOrderingUnfold(ordering, fields, 0);
    match SorterStep(ordering, f1, d1)
    case Err(_) =>
    case Ok(next) => SortOrderingUnfold(next, fields, 1);
  }

  /** The first `create_time` entry removes the default and leaves its own token. */
  lemma FirstCreateTimeStep(d1: Value)
    ensures SorterStep([DefaultOrdering], CreateTime, d1) == Ok(Token(CreateTime, d1))
  {
    assert RemoveFirst([DefaultOrdering], DefaultOrdering) == Some([]);
    assert [] + Token(CreateTime, d1) == Token(CreateTime, d1);
  }

  /** The second `create_time` entry finds `-create_time` only where the first one sorted descending. */
  lemma SecondCreateTimeStep(d1: Value, d2: Value)
    ensures SorterStep(Token(CreateTime, d1), CreateTime, d2)
         == if EqualsInt(d1, -1) then Ok(Token(CreateTime, d2)) else Err(ValueError(NotInList))
  {
    var first := Token(CreateTime, d1);
    if EqualsInt(d1, -1) {
      assert !EqualsInt(d1, 1);
      assert "-" + CreateTime == DefaultOrdering;
      assert first == [DefaultOrdering];
      assert RemoveFirst(first, DefaultOrdering) == Some([]);
      assert [] + Token(CreateTime, d2) == Token(CreateTime, d2);
    } else {
      assert DefaultOrdering != CreateTime by { assert DefaultOrdering[0] != CreateTime[0]; }
      assert DefaultOrdering !in first;
    }
  }

  /**
   * Two entries naming `create_time` (such as `createTime` and `create_time`):
   * the second `remove` raises `ValueError`, unless the first sorted
   * descending, whose token `-create_time` the second `remove` takes away.
   */
  lemma GetSorterTwoCreateTimes(k1: string, d1: Value, k2: string, d2: Value)
    requires CamelToSnake(k1) == CreateTime && CamelToSnake(k2) == CreateTime
    ensures SortOrdering([DefaultOrdering], SnakeItems([(k1, d1), (k2, d2)]))
         == if EqualsInt(d1, -1) then Ok(Token(CreateTime, d2)) else Err(ValueError(NotInList))
  {
    assert SnakeItems([(k1, d1), (k2, d2)]) == [(CreateTime, d1), (CreateTime, d2)];
    SortOrderingPair([DefaultOrdering], CreateTime, d1, CreateTime, d2);
    FirstCreateTimeStep(d1);
    SecondCreateTimeStep(d1, d2);
  }

  // ------------------------------------------------------------ get_sorter_sql

  const SqlDefaultOrdering: string := "-p.create_time"

  /** `f"{table_alias}.{snake_field}"`. */
  function Qualified(alias: string, field: string): string {
    alias + "." + field
  }

  /** One pass of `get_sorter_sql`'s first loop; `valid` maps a column to its table alias. */
  function SqlStep(ordering: seq<string>, valid: map<string, string>, field: string, direction: Value): seq<string> {
    if field !in valid then ordering
    else
      var kept := if field == CreateTime && SqlDefaultOrdering in ordering
                  then RemoveFirst(ordering, SqlDefaultOrdering).value
                  else ordering;
      kept + Token(Qualified(valid[field], field), direction)
  }

  function SqlOrdering(ordering: seq<string>, valid: map<string, string>, fields: Dict): seq<string>
    decreases |fields|
  {
    if fields == [] then ordering
    else SqlOrdering(SqlStep(ordering, valid, fields[0].0, fields[0].1), valid, fields[1..])
  }

  lemma SqlOrderingUnfold(ordering: seq<string>, valid: map<string, string>, fields: Dict, i: nat)
    requires i < |fields|
    ensures SqlOrdering(ordering, valid, fields[i..])
         == SqlOrdering(SqlStep(ordering, valid, fields[i].0, fields[i].1), valid, fields[i + 1..])
  {
    assert fields[i..][0] == fields[i] && fields[i..][1..] == fields[i + 1..];
  }

  /** A leading `-` means descending. */
  function OrderClause(field: string): string {
    if StartsWith(field, "-") then field[1..] + " DESC" else field + " ASC"
  }

  function OrderClauses(ordering: seq<string>): seq<string> {
    seq(|ordering|, i requires 0 <= i < |ordering| => OrderClause(ordering[i]))
  }

  function RenderOrderBy(clauses: seq<string>): (r: string)
    ensures r == "" <==> clauses == []
    ensures clauses != [] ==> StartsWith(r, "ORDER BY ")
  {
    if clauses == [] then "" else "ORDER BY " + JoinWith(clauses, ", ")
  }

  /** What `get_sorter_sql(body, valid)` returns or raises; an absent sorter is `{}`. */
  function SorterSqlOutcome(body: Dict, valid: map<string, string>): Result<string, PyError> {
    var sorter := Get(body, "sorter").GetOr(Object([]));
    if !sorter.Object? then Err(AttributeError(NoItems))
    else Ok(RenderOrderBy(OrderClauses(SqlOrdering([SqlDefaultOrdering], valid, SnakeItems(sorter.entries)))))
  }

  method GetSorterSql(body: Dict, valid: map<string, string>) returns (r: Result<string, PyError>)
    ensures r == SorterSqlOutcome(body, valid)
  {
    var ordering := [SqlDefaultOrdering];
    var sorter := Get(body, "sorter").GetOr(Object([]));
    if !sorter.Object? {
      return Err(AttributeError(NoItems));
    }
    var items := sorter.entries;
    ghost var fields := SnakeItems(items);
    for i := 0 to |items|
      invariant SqlOrdering(ordering, valid, fields[i..]) == SqlOrdering([SqlDefaultOrdering], valid, fields)
    {
      var (camelField, direction) := items[i];
      SqlOrderingUnfold(ordering, valid, fields, i);
      var snakeField := CamelToSnake(camelField);
      assert fields[i] == (snakeField, direction);
      if snakeField !in valid {
        continue;
      }
      ghost var before := ordering;
      var qualifiedField := Qualified(valid[snakeField], snakeField);
      if snakeField == CreateTime && SqlDefaultOrdering in ordering {
        ordering := RemoveFirst(ordering, SqlDefaultOrdering).value;
      }
      ghost var kept := ordering;
      assert SqlStep(before, valid, snakeField, direction) == kept + Token(qualifiedField, direction);
      if EqualsInt(direction, 1) {
        ordering := ordering + [qualifiedField];
      } else if EqualsInt(direction, -1) {
        ordering := ordering + ["-" + qualifiedField];
      } else {
        assert kept + Token(qualifiedField, direction) == kept;
      }
    }
    assert fields[|items|..] == [];
    var clauses := RenderClauses(ordering);
    return Ok(RenderOrderBy(clauses));
  }

  /** `get_sorter_sql`'s second loop: one `column DESC` or `field ASC` per ordering entry. */
  method RenderClauses(ordering: seq<string>) returns (clauses: seq<string>)
    ensures clauses == OrderClauses(ordering)
  {
    clauses := [];
    for i := 0 to |ordering|
      invariant |clauses| == i
      invariant forall j :: 0 <= j < i ==> clauses[j] == OrderClause(ordering[j])
    {
      var field := ordering[i];
      if StartsWith(field, "-") {
        clauses := clauses + [field[1..] + " DESC"];
      } else {
        clauses := clauses + [field + " ASC"];
      }
    }
  }

  /** The token one entry contributes: none unless its column is whitelisted. */
  function SqlToken(valid: map<string, string>, field: string, direction: Value): seq<string> {
    if field in valid then Token(Qualified(valid[field], field), direction) else []
  }

  /** The tokens of the whitelisted entries, in order. */
  function SqlTokens(valid: map<string, string>, fields: Dict): seq<string> {
    if fields == [] then [] else SqlToken(valid, fields[0].0, fields[0].1) + SqlTokens(valid, fields[1..])
  }

  /** An entry other than a whitelisted `create_time` only appends its token. */
  lemma SqlStepAppends(ordering: seq<string>, valid: map<string, string>, field: string, direction: Value)
    requires field != CreateTime || CreateTime !in valid
    ensures SqlStep(ordering, valid, field, direction) == ordering + SqlToken(valid, field, direction)
  {
    if field !in valid {
      assert ordering + [] == ordering;
    }
  }

  /** A whitelisted `create_time` takes away the leading default and appends its token. */
  lemma SqlStepReplacesDefault(rest: seq<string>, valid: map<string, string>, direction: Value)
    requires CreateTime in valid
    ensures SqlStep([SqlDefaultOrdering] + rest, valid, CreateTime, direction) == rest + SqlToken(valid, CreateTime, direction)
  {
    var ordering := [SqlDefaultOrdering] + rest;
    assert ordering[0] == SqlDefaultOrdering && ordering[1..] == rest;
    assert RemoveFirst(ordering, SqlDefaultOrdering) == Some(rest);
  }

  /** `acc` followed by the tokens of the entries, appended one entry at a time. */
  function SqlTokensAfter(acc: seq<string>, valid: map<string, string>, fields: Dict): seq<string>
    decreases |fields|
  {
    if fields == [] then acc
    else SqlTokensAfter(acc + SqlToken(valid, fields[0].0, fields[0].1), valid, fields[1..])
  }

  lemma {:induction false} SqlTokensAfterAppends(acc: seq<string>, valid: map<string, string>, fields: Dict)
    ensures SqlTokensAfter(acc, valid, fields) == acc + SqlTokens(valid, fields)
    decreases |fields|
  {
    if fields == [] {
      assert acc + [] == acc;
    } else {
      var token := SqlToken(valid, fields[0].0, fields[0].1);
      SqlTokensAfterAppends(acc + token, valid, fields[1..]);
      assert acc + token + SqlTokens(valid, fields[1..]) == acc + (token + SqlTokens(valid, fields[1..]));
    }
  }

  lemma {:induction false} SqlOrderingAppendsAll(ordering: seq<string>, valid: map<string, string>, fields: Dict)
    requires CreateTime !in valid || CreateTimeCount(fields) == 0
    ensures SqlOrdering(ordering, valid, fields) == SqlTokensAfter(ordering, valid, fields)
    decreases |fields|
  {
    if fields != [] {
      SqlStepAppends(ordering, valid, fields[0].0, fields[0].1);
      SqlOrderingAppendsAll(ordering + SqlToken(valid, fields[0].0, fields[0].1), valid, fields[1..]);
    }
  }

  /** Without a whitelisted `create_time`, each entry only appends its token. */
  lemma SqlOrderingWithoutCreateTime(ordering: seq<string>, valid: map<string, string>, fields: Dict)
    requires CreateTime !in valid || CreateTimeCount(fields) == 0
    ensures SqlOrdering(ordering, valid, fields) == ordering + SqlTokens(valid, fields)
  {
    SqlOrderingAppendsAll(ordering, valid, fields);
    SqlTokensAfterAppends(ordering, valid, fields);
  }

  /** The `create_time` entry comes first: it replaces the default and the rest only append. */
  lemma SqlOrderingCreateTimeFirst(rest: seq<string>, valid: map<string, string>, fields: Dict)
    requires CreateTime in valid && fields != [] && fields[0].0 == CreateTime && CreateTimeCount(fields[1..]) == 0
    ensures SqlOrdering([SqlDefaultOrdering] + rest, valid, fields) == SqlTokensAfter(rest, valid, fields)
  {
    SqlStepReplacesDefault(rest, valid, fields[0].1);
    SqlOrderingAppendsAll(rest + SqlToken(valid, CreateTime, fields[0].1), valid, fields[1..]);
  }

  /** Entries before the `create_time` one append after the default, which it then takes away. */
  lemma {:induction false} SqlOrderingOneCreateTime(rest: seq<string>, valid: map<string, string>, fields: Dict)
    requires CreateTime in valid && CreateTimeCount(fields) == 1
    ensures SqlOrdering([SqlDefaultOrdering] + rest, valid, fields) == SqlTokensAfter(rest, valid, fields)
    decreases |fields|
  {
    assert fields != [];
    if fields[0].0 == CreateTime {
      SqlOrderingCreateTimeFirst(rest, valid, fields);
    } else {
      var token := SqlToken(valid, fields[0].0, fields[0].1);
      SqlStepAppends([SqlDefaultOrdering] + rest, valid, fields[0].0, fields[0].1);
      assert [SqlDefaultOrdering] + rest + token == [SqlDefaultOrdering] + (rest + token);
      SqlOrderingOneCreateTime(rest + token, valid, fields[1..]);
    }
  }

  /**
   * `get_sorter_sql` with `create_time` sorted at most once: the whitelisted
   * entries' tokens in order, after `-p.create_time` unless a whitelisted
   * `create_time` is sorted.
   */
  lemma GetSorterSqlOrdering(valid: map<string, string>, items: Dict)
    requires CreateTimeCount(SnakeItems(items)) <= 1
    ensures var fields := SnakeItems(items);
      SqlOrdering([SqlDefaultOrdering], valid, fields)
        == (if CreateTime in valid && CreateTimeCount(fields) == 1 then [] else [SqlDefaultOrdering])
           + SqlTokens(valid, fields)
  {
    var fields := SnakeItems(items);
    if CreateTime in valid && CreateTimeCount(fields) == 1 {
      var none: seq<string> := [];
      SqlOrderingOneCreateTime(none, valid, fields);
      SqlTokensAfterAppends(none, valid, fields);
      assert [SqlDefaultOrdering] + none == [SqlDefaultOrdering];
    } else {
      SqlOrderingWithoutCreateTime([SqlDefaultOrdering], valid, fields);
    }
  }

  /** A whitelisted column under its alias, ascending or descending. */
  ghost predicate FromWhitelist(valid: map<string, string>, x: string) {
    exists f :: f in valid && (x == Qualified(valid[f], f) || x == "-" + Qualified(valid[f], f))
  }

  /** Whatever the sorter holds, the ordering only ever contains the default and whitelisted columns. */
  lemma {:induction false} SqlOrderingFromWhitelist(ordering: seq<string>, valid: map<string, string>, fields: Dict)
    requires forall x :: x in ordering ==> x == SqlDefaultOrdering || FromWhitelist(valid, x)
    ensures forall x :: x in SqlOrdering(ordering, valid, fields) ==> x == SqlDefaultOrdering || FromWhitelist(valid, x)
    decreases |fields|
  {
    if fields != [] {
      var field := fields[0].0;
      var next := SqlStep(ordering, valid, field, fields[0].1);
      forall x | x in next
        ensures x == SqlDefaultOrdering || FromWhitelist(valid, x)
      {
        if field in valid {
          var q := Qualified(valid[field], field);
          if field == CreateTime && SqlDefaultOrdering in ordering {
            RemoveFirstKeepsOthers(ordering, SqlDefaultOrdering);
          }
          if x in Token(q, fields[0].1) {
            assert x == q || x == "-" + q;
            assert FromWhitelist(valid, x);
          }
        }
      }
      SqlOrderingFromWhitelist(next, valid, fields[1..]);
    }
  }

  lemma {:induction false} SqlTokensOfEmptyWhitelist(fields: Dict)
    ensures SqlTokens(map[], fields) == []
    decreases |fields|
  {
    if fields != [] {
      SqlTokensOfEmptyWhitelist(fields[1..]);
    }
  }

  /** A `-` in front of a column renders it descending. */
  lemma DescendingClause(column: string)
    ensures OrderClause("-" + column) == column + " DESC"
  {
    assert ("-" + column)[1..] == column;
  }

  /** The default ordering is `p.create_time`, descending. */
  lemma DefaultClause()
    ensures OrderClauses([SqlDefaultOrdering]) == ["p.create_time DESC"]
  {
    var column := "p.create_time";
    assert SqlDefaultOrdering == "-" + column;
    DescendingClause(column);
    assert column + " DESC" == "p.create_time DESC";
    assert OrderClauses([SqlDefaultOrdering]) == [OrderClause(SqlDefaultOrdering)];
  }

  /** The default alone renders as `ORDER BY p.create_time DESC`. */
  lemma DefaultOrderBy()
    ensures RenderOrderBy(OrderClauses([SqlDefaultOrdering])) == "ORDER BY p.create_time DESC"
  {
    DefaultClause();
    assert JoinWith(["p.create_time DESC"], ", ") == "p.create_time DESC";
  }

  /** With an empty whitelist every entry is ignored: the clause is exactly the default. */
  lemma GetSorterSqlEmptyWhitelist(body: Dict)
    ensures Get(body, "sorter").GetOr(Object([])).Object? ==>
      SorterSqlOutcome(body, map[]) == Ok("ORDER BY p.create_time DESC")
    ensures !Get(body, "sorter").GetOr(Object([])).Object? ==>
      SorterSqlOutcome(body, map[]) == Err(AttributeError(NoItems))
  {
    var sorter := Get(body, "sorter").GetOr(Object([]));
    if sorter.Object? {
      var fields := SnakeItems(sorter.entries);
      assert SqlOrdering([SqlDefaultOrdering], map[], fields) == [SqlDefaultOrdering] by {
        SqlOrderingWithoutCreateTime([SqlDefaultOrdering], map[], fields);
        SqlTokensOfEmptyWhitelist(fields);
        assert [SqlDefaultOrdering] + [] == [SqlDefaultOrdering];
      }
      DefaultOrderBy();
    }
  }

  /** Sorting a whitelisted `create_time` alone with a direction other than ±1 leaves no clause at all. */
  lemma GetSorterSqlCanBeEmpty(body: Dict, valid: map<string, string>, key: string, direction: Value)
    requires Get(body, "sorter") == Some(Object([(key, direction)]))
    requires CamelToSnake(key) == CreateTime && CreateTime in valid
    requires !EqualsInt(direction, 1) && !EqualsInt(direction, -1)
    ensures SorterSqlOutcome(body, valid) == Ok("")
  {
    var fields: Dict := [(CreateTime, direction)];
    assert SnakeItems([(key, direction)]) == fields;
    assert SqlStep([SqlDefaultOrdering], valid, CreateTime, direction) == [] by {
      assert RemoveFirst([SqlDefaultOrdering], SqlDefaultOrdering) == Some([]);
    }
    assert SqlOrdering([SqlDefaultOrdering], valid, fields) == [] by {
      SqlOrderingUnfold([SqlDefaultOrdering], valid, fields, 0);
      assert fields[0..] == fields && fields[1..] == [];
    }
    assert OrderClauses([]) == [];
  }
}
