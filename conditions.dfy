/**
 * Django `Q` objects as the request-parameter code of base_query.py builds
 * them: lookups (`field__icontains`, `field__range`, `field__in`, exact
 * match), combined with `&`, `|` and `~`. Combining with an empty `Q()`
 * gives the other operand unchanged, as Django does.
 */
module Conditions {
  import opened PyValues

  /** The `allowed_org_ids` argument of `getBaseParams`: `None`, `False` (or `0`), or a set of ids. */
  datatype OrgScope = NoneGiven | FalseFlag | IdSet(ids: set<int>)

  datatype Cond =
    | Empty                                      // Q()
    | Icontains(field: string, value: Value)     // Q(field__icontains=value)
    | Range(field: string, low: Value, high: Value)  // Q(field__range=(low, high))
    | In(field: string, scope: OrgScope)         // Q(field__in=scope)
    | Exact(field: string, value: Value)         // Q(field=value)
    | And(left: Cond, right: Cond)
    | Or(left: Cond, right: Cond)
    | Not(inner: Cond)

  /** The lookups a condition requires all at once, left to right. */
  function Conjuncts(c: Cond): seq<Cond> {
    match c
    case Empty => []
    case And(l, r) => Conjuncts(l) + Conjuncts(r)
    case _ => [c]
  }

  /** The alternatives a condition accepts, left to right. */
  function Disjuncts(c: Cond): seq<Cond> {
    match c
    case Empty => []
    case Or(l, r) => Disjuncts(l) + Disjuncts(r)
    case _ => [c]
  }

  /** `a & b`. */
  function Conj(a: Cond, b: Cond): (r: Cond)
    ensures Conjuncts(r) == Conjuncts(a) + Conjuncts(b)
    ensures r == Empty <==> a == Empty && b == Empty
  {
    if a == Empty then b else if b == Empty then a else And(a, b)
  }

  /** `a | b`. */
  function Disj(a: Cond, b: Cond): (r: Cond)
    ensures Disjuncts(r) == Disjuncts(a) + Disjuncts(b)
    ensures r == Empty <==> a == Empty && b == Empty
  {
    if a == Empty then b else if b == Empty then a else Or(a, b)
  }
}
