/**
 * The Python values the request-handling layer passes around: parsed JSON
 * bodies, serializer representations, and the exceptions the modelled code
 * can raise.
 */
module PyValues {
  import opened Wrappers

  /** A point in time held by a `datetime` object, as seconds. */
  datatype Instant = Instant(seconds: int)

  /**
   * A Python value as it appears in a parsed JSON body or a serializer
   * representation. `Object` keeps the insertion order of a dict.
   */
  datatype Value =
    | Null
    | Bool(b: bool)
    | Int(i: int)
    | Str(s: string)
    | List(items: seq<Value>)
    | Object(entries: seq<(string, Value)>)
    | DateTime(at: Instant)

  /** A dict whose iteration order matters: its items, in insertion order. */
  type Dict = seq<(string, Value)>

  /** The exceptions the modelled code raises or lets through. */
  datatype PyError =
    | DatabaseError(message: string)
    | RedisError(message: string)
    | ValueError(message: string)
    | KeyError(key: string)
    | AttributeError(message: string)

  /** What `x.items()` raises on a value that is not a dict. */
  const NoItems: string := "object has no attribute 'items'"

  /** Python's truth value of a value (`bool(v)`). */
  predicate Truthy(v: Value) {
    match v
    case Null => false
    case Bool(b) => b
    case Int(i) => i != 0
    case Str(s) => s != ""
    case List(items) => items != []
    case Object(entries) => entries != []
    case DateTime(_) => true
  }

  /** `v == n` in Python for an integer `n`: `True == 1` and `False == 0` hold too. */
  predicate EqualsInt(v: Value, n: int) {
    v == Int(n) || (v.Bool? && (if v.b then 1 else 0) == n)
  }

  /** `k in d` for a dict. */
  predicate HasKey(d: Dict, k: string) {
    exists i :: 0 <= i < |d| && d[i].0 == k
  }

  /** `d.get(k)`: the value stored under `k`, or `None` when `k` is absent. */
  function Get(d: Dict, k: string): (r: Option<Value>)
    ensures r.Some? <==> HasKey(d, k)
  {
    if d == [] then None
    else if d[0].0 == k then Some(d[0].1)
    else Get(d[1..], k)
  }

  /** The dict after `d.pop(k)`: every item keeps its order, the items under `k` are gone. */
  function Without(d: Dict, k: string): (r: Dict)
    ensures !HasKey(r, k)
    ensures forall i :: 0 <= i < |r| ==> r[i] in d
    ensures forall i :: 0 <= i < |d| && d[i].0 != k ==> d[i] in r
    ensures !HasKey(d, k) ==> r == d
  {
    if d == [] then []
    else
      assert forall i :: 1 <= i < |d| ==> d[i] == d[1..][i - 1];
      if d[0].0 == k then Without(d[1..], k)
      else [d[0]] + Without(d[1..], k)
  }

  /** `pop` keeps the relative order of what is left: it acts on each part of a dict separately. */
  lemma {:induction false} WithoutAppend(a: Dict, b: Dict, k: string)
    ensures Without(a + b, k) == Without(a, k) + Without(b, k)
  {
    if a == [] {
      assert a + b == b;
    } else {
      assert (a + b)[0] == a[0] && (a + b)[1..] == a[1..] + b;
      WithoutAppend(a[1..], b, k);
    }
  }

  /** A dict the code changes in place, such as the `body` that `get_filter` pops from. */
  class PyDict {
    var items: Dict

    constructor (items: Dict)
      ensures this.items == items
    {
      this.items := items;
    }

    /** `d.pop(k, None)`: the value under `k`, if any, which leaves the dict. */
    method Pop(k: string) returns (v: Option<Value>)
      modifies this
      ensures v == Get(old(items), k)
      ensures items == Without(old(items), k)
      ensures v.Some? <==> HasKey(old(items), k)
    {
      v := Get(items, k);
      items := Without(items, k);
    }
  }
}
