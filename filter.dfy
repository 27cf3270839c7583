/**
 * The filter helpers of base_query.py: `is_valid_time_range` and
 * `get_filter`, which turn the request body into a Django `Q` of
 * `icontains` and `range` lookups plus the or-ed keyword search.
 *
 * The loops of `get_filter` are proved equal to folds; the shape of the
 * resulting condition is proved about the folds.
 */
module QueryFilter {
  import opened PyValues
  import opened PyText
  import opened Utils
  import opened Conditions

  // ------------------------------------------------------- is_valid_time_range

  predicate IsValidTimeRange(key: string, value: Value) {
    Contains(key, "Time") && value.List? && |value.items| == 2
  }

  lemma {:induction false} ContainsCapitalStart(s: string, sub: string)
    requires sub != [] && IsUpper(sub[0]) && Contains(s, sub)
    ensures !NoUpper(s)
    decreases |s|
  {
    if StartsWith(s, sub) {
      assert s[0] == sub[0];
    } else {
      ContainsCapitalStart(s[1..], sub);
      var i :| 0 <= i < |s[1..]| && IsUpper(s[1..][i]);
      assert IsUpper(s[i + 1]);
    }
  }

  /** A key with no capital letter, such as any snake-case key, is never a time range and always filters by `icontains`. */
  lemma TimeRangeNeedsCapital(key: string, value: Value)
    requires NoUpper(key)
    ensures !IsValidTimeRange(key, value)
    ensures EntryCond(key, value) == Icontains(CamelToSnake(key), value)
  {
    if Contains(key, "Time") {
      ContainsCapitalStart(key, "Time");
    }
  }

  /** A camel-case time key with a two-element list is a range. */
  lemma TimeRangeExample(start: Value, end: Value)
    ensures IsValidTimeRange("createTime", List([start, end]))
  {
    ContainsMiddle("create", "Time", "");
    assert "create" + "Time" + "" == "createTime";
  }

  // ---------------------------------------------------------------- get_filter

  /** `keyword_condition |= Q(**{f"{field}__icontains": keywords})` over the remaining fields. */
  function KeywordFold(acc: Cond, fields: seq<string>, keywords: Value): Cond
    decreases |fields|
  {
    if fields == [] then acc
    else KeywordFold(Disj(acc, Icontains(CamelToSnake(fields[0]), keywords)), fields[1..], keywords)
  }

  /** The condition one remaining body entry adds. */
  function EntryCond(key: string, value: Value): Cond {
    if IsValidTimeRange(key, value) then Range(CamelToSnake(key), value.items[0], value.items[1])
    else Icontains(CamelToSnake(key), value)
  }

  /** `filter_conditions &= ...` over the remaining entries. */
  function EntriesFold(acc: Cond, entries: Dict): Cond
    decreases |entries|
  {
    if entries == [] then acc
    else EntriesFold(Conj(acc, EntryCond(entries[0].0, entries[0].1)), entries[1..])
  }

  /** The body after `get_filter`: `keywords` popped when it was there. */
  function FilterEntries(d: Dict): Dict {
    if HasKey(d, "keywords") then Without(d, "keywords") else d
  }

  /** The keyword condition, present when `keywords` is truthy and keyword fields are given. */
  function KeywordPart(d: Dict, keywordFields: seq<string>): Cond {
    match Get(d, "keywords")
    case Some(keywords) =>
      if Truthy(keywords) && keywordFields != [] then KeywordFold(Empty, keywordFields, keywords) else Empty
    case None => Empty
  }

  /** What `get_filter(d, keyword_fields)` returns. */
  function FilterCond(d: Dict, keywordFields: seq<string>): Cond {
    EntriesFold(KeywordPart(d, keywordFields), FilterEntries(d))
  }

  /** `get_filter(body, keyword_fields)`: pops `keywords` from the caller's dict. */
  method GetFilter(body: PyDict, keywordFields: seq<string>) returns (conditions: Cond)
    modifies body
    ensures conditions == FilterCond(old(body.items), keywordFields)
    ensures body.items == FilterEntries(old(body.items))
  {
    conditions := Empty;
    if HasKey(body.items, "keywords") {
      var keywords := body.Pop("keywords");
      if Truthy(keywords.value) && keywordFields != [] {
        var keywordCondition := Empty;
        for i := 0 to |keywordFields|
          invariant KeywordFold(keywordCondition, keywordFields[i..], keywords.value)
                 == KeywordFold(Empty, keywordFields, keywords.value)
        {
          assert keywordFields[i..][1..] == keywordFields[i + 1..];
          var field := CamelToSnake(keywordFields[i]);
          keywordCondition := Disj(keywordCondition, Icontains(field, keywords.value));
        }
        assert keywordFields[|keywordFields|..] == [];
        conditions := Conj(conditions, keywordCondition);
      }
    }
    ghost var start := conditions;
    var entries := body.items;
    for i := 0 to |entries|
      invariant EntriesFold(conditions, entries[i..]) == EntriesFold(start, entries)
    {
      var (k, v) := entries[i];
      assert entries[i..][1..] == entries[i + 1..];
      if IsValidTimeRange(k, v) {
        var startTime, endTime := v.items[0], v.items[1];
        conditions := Conj(conditions, Range(CamelToSnake(k), startTime, endTime));
        continue;
      }
      conditions := Conj(conditions, Icontains(CamelToSnake(k), v));
    }
    assert entries[|entries|..] == [];
  }

  /** One `icontains` lookup per keyword field, in order. */
  function KeywordAlternatives(fields: seq<string>, keywords: Value): seq<Cond> {
    if fields == [] then [] else [Icontains(CamelToSnake(fields[0]), keywords)] + KeywordAlternatives(fields[1..], keywords)
  }

  /** One condition per body entry, in order. */
  function EntryConds(entries: Dict): seq<Cond> {
    if entries == [] then [] else [EntryCond(entries[0].0, entries[0].1)] + EntryConds(entries[1..])
  }

  lemma {:induction false} KeywordFoldDisjuncts(acc: Cond, fields: seq<string>, keywords: Value)
    ensures Disjuncts(KeywordFold(acc, fields, keywords)) == Disjuncts(acc) + KeywordAlternatives(fields, keywords)
    decreases |fields|
  {
    if fields != [] {
      var alt := Icontains(CamelToSnake(fields[0]), keywords);
      var next := Disj(acc, alt);
      KeywordFoldDisjuncts(next, fields[1..], keywords);
      assert Disjuncts(next) == Disjuncts(acc) + [alt];
    }
  }

  /** A lookup condition: a single `icontains` or `range`, or an alternative of lookups. */
  predicate IsLookup(c: Cond) {
    c.Icontains? || c.Range? || c.Or?
  }

  /** The keyword condition is empty or a lookup. */
  lemma {:induction false} KeywordFoldLookup(acc: Cond, fields: seq<string>, keywords: Value)
    requires acc == Empty || IsLookup(acc)
    ensures var r := KeywordFold(acc, fields, keywords); r == Empty || IsLookup(r)
    decreases |fields|
  {
    if fields != [] {
      KeywordFoldLookup(Disj(acc, Icontains(CamelToSnake(fields[0]), keywords)), fields[1..], keywords);
    }
  }

  /** Every remaining entry becomes an `icontains` or a `range` lookup. */
  lemma {:induction false} EntryCondsLookups(entries: Dict)
    ensures forall c :: c in EntryConds(entries) ==> c.Icontains? || c.Range?
    decreases |entries|
  {
    if entries != [] {
      EntryCondsLookups(entries[1..]);
    }
  }

  lemma {:induction false} EntriesFoldConjuncts(acc: Cond, entries: Dict)
    ensures Conjuncts(EntriesFold(acc, entries)) == Conjuncts(acc) + EntryConds(entries)
    decreases |entries|
  {
    if entries != [] {
      var c := EntryCond(entries[0].0, entries[0].1);
      EntriesFoldConjuncts(Conj(acc, c), entries[1..]);
      assert Conjuncts(Conj(acc, c)) == Conjuncts(acc) + [c];
    }
  }

  /** Every entry contributes its own condition. */
  lemma {:induction false} EntryCondsHas(entries: Dict, e: (string, Value))
    requires e in entries
    ensures EntryCond(e.0, e.1) in EntryConds(entries)
    decreases |entries|
  {
    if entries[0] != e {
      assert e in entries[1..];
      EntryCondsHas(entries[1..], e);
    }
  }

  lemma {:induction false} EntryCondsAppend(a: Dict, b: Dict)
    ensures EntryConds(a + b) == EntryConds(a) + EntryConds(b)
    decreases |a|
  {
    if a == [] {
      assert a + b == b;
    } else {
      assert (a + b)[0] == a[0] && (a + b)[1..] == a[1..] + b;
      EntryCondsAppend(a[1..], b);
    }
  }

  /**
   * The field conditions follow the order of the body: for a body made of
   * two parts, the conditions of the first part come before those of the
   * second, each without `keywords`.
   */
  lemma FilterEntriesAppend(a: Dict, b: Dict)
    ensures FilterEntries(a + b) == Without(a, "keywords") + Without(b, "keywords")
    ensures EntryConds(FilterEntries(a + b)) == EntryConds(FilterEntries(a)) + EntryConds(FilterEntries(b))
  {
    WithoutAppend(a, b, "keywords");
    EntryCondsAppend(FilterEntries(a), FilterEntries(b));
  }

  /**
   * `get_filter`: the keyword alternatives first (one `icontains` per
   * keyword field, or-ed) when `keywords` is truthy and fields are given,
   * then one condition per other entry, in order; `keywords` is never a
   * field filter.
   */
  lemma GetFilterShape(d: Dict, keywordFields: seq<string>)
    ensures var kp := KeywordPart(d, keywordFields);
      Conjuncts(FilterCond(d, keywordFields)) == (if kp == Empty then [] else [kp]) + EntryConds(FilterEntries(d))
    ensures Disjuncts(KeywordPart(d, keywordFields))
         == (if HasKey(d, "keywords") && Truthy(Get(d, "keywords").value) && keywordFields != []
             then KeywordAlternatives(keywordFields, Get(d, "keywords").value) else [])
    ensures forall i :: 0 <= i < |FilterEntries(d)| ==> FilterEntries(d)[i].0 != "keywords"
    ensures forall i :: 0 <= i < |FilterEntries(d)| ==> FilterEntries(d)[i] in d
    ensures forall i :: 0 <= i < |d| && d[i].0 != "keywords" ==> d[i] in FilterEntries(d)
    ensures forall i :: 0 <= i < |d| && d[i].0 != "keywords" ==>
      EntryCond(d[i].0, d[i].1) in Conjuncts(FilterCond(d, keywordFields))
  {
    var kp := KeywordPart(d, keywordFields);
    EntriesFoldConjuncts(kp, FilterEntries(d));
    forall i | 0 <= i < |d| && d[i].0 != "keywords"
      ensures EntryCond(d[i].0, d[i].1) in Conjuncts(FilterCond(d, keywordFields))
    {
      EntryCondsHas(FilterEntries(d), d[i]);
    }
    if HasKey(d, "keywords") {
      var keywords := Get(d, "keywords").value;
      if Truthy(keywords) && keywordFields != [] {
        KeywordFoldDisjuncts(Empty, keywordFields, keywords);
      }
      assert !HasKey(FilterEntries(d), "keywords");
    }
  }
}
