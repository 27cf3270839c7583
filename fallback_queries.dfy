/**
 * The two fallbacks of base_query.py, used when the database rejects the
 * recursive query: `_fallback_org_query`, a breadth-first search bounded to
 * twenty dequeues, and `_fallback_parent_query`, an upward walk bounded to
 * twenty steps that stops on a cycle and reverses the chain at the end.
 *
 * Each is a loop over the table, proved equal to a recursive function; the
 * properties are proved about those functions.
 */
module FallbackQueries {
  import opened Wrappers
  import opened OrgTable

  /** `max_depth` of both fallbacks: the number of loop passes. */
  const MaxDepth: nat := 20

  // --------------------------------------------------- _fallback_org_query

  /**
   * The search from a given queue and visited set with `steps` passes left;
   * the result is the visited set and the queue when the passes run out or
   * the queue empties. A dequeued id that was already visited still uses up
   * a pass.
   */
  function Bfs(t: Table, queue: seq<int>, visited: set<int>, steps: nat): (r: (set<int>, seq<int>))
    decreases steps
  {
    if steps == 0 || queue == [] then (visited, queue)
    else if queue[0] in visited then Bfs(t, queue[1..], visited, steps - 1)
    else Bfs(t, queue[1..] + Children(t, queue[0]), visited + {queue[0]}, steps - 1)
  }

  function FallbackOrgSet(t: Table, root: int): set<int> {
    Bfs(t, [root], {}, MaxDepth).0
  }

  /** The search ended because the queue emptied, not because the passes ran out. */
  predicate FallbackDrains(t: Table, root: int) {
    Bfs(t, [root], {}, MaxDepth).1 == []
  }

  /** `_fallback_org_query(root_id)`. */
  method FallbackOrgQuery(t: Table, rootId: int) returns (orgSet: set<int>)
    ensures orgSet == FallbackOrgSet(t, rootId)
  {
    orgSet := {};
    var queue := [rootId];
    for i := 0 to MaxDepth
      invariant Bfs(t, queue, orgSet, MaxDepth - i) == Bfs(t, [rootId], {}, MaxDepth)
    {
      if queue == [] {
        break;
      }
      var currentId := queue[0];
      queue := queue[1..];
      if currentId in orgSet {
        continue;
      }
      orgSet := orgSet + {currentId};
      var children := Children(t, currentId);
      queue := queue + children;
    }
  }

  /** The search only adds to the visited set, at most one id per pass. */
  lemma {:induction false} BfsGrows(t: Table, queue: seq<int>, visited: set<int>, steps: nat)
    ensures var r := Bfs(t, queue, visited, steps); visited <= r.0 && |r.0| <= |visited| + steps
    decreases steps
  {
    if steps > 0 && queue != [] {
      if queue[0] in visited {
        BfsGrows(t, queue[1..], visited, steps - 1);
      } else {
        BfsGrows(t, queue[1..] + Children(t, queue[0]), visited + {queue[0]}, steps - 1);
      }
    }
  }

  /** The result holds `root` and at most twenty ids, one per pass. */
  lemma FallbackOrgSetBounds(t: Table, root: int)
    ensures root in FallbackOrgSet(t, root)
    ensures 1 <= |FallbackOrgSet(t, root)| <= MaxDepth
  {
    var queue := [root][1..] + Children(t, root);
    var none: set<int> := {};
    assert none + {root} == {root};
    assert Bfs(t, [root], {}, MaxDepth) == Bfs(t, queue, {root}, MaxDepth - 1);
    BfsGrows(t, queue, {root}, MaxDepth - 1);
  }

  /** Every visited or queued id is reachable from `root`. */
  ghost predicate BfsSound(t: Table, root: int, queue: seq<int>, visited: set<int>) {
    && (forall v :: v in visited ==> Reachable(t, root, v))
    && (forall i :: 0 <= i < |queue| ==> Reachable(t, root, queue[i]))
  }

  /** One pass keeps every visited and queued id reachable, whether or not it visits. */
  lemma BfsStepSound(t: Table, root: int, queue: seq<int>, visited: set<int>)
    requires BfsSound(t, root, queue, visited) && queue != []
    ensures BfsSound(t, root, queue[1..], visited)
    ensures BfsSound(t, root, queue[1..] + Children(t, queue[0]), visited + {queue[0]})
  {
    var cur, rest, kids := queue[0], queue[1..], Children(t, queue[0]);
    assert Reachable(t, root, cur);
    forall i | 0 <= i < |rest| ensures Reachable(t, root, rest[i]) {
      assert rest[i] == queue[i + 1];
    }
    forall i | 0 <= i < |rest + kids| ensures Reachable(t, root, (rest + kids)[i]) {
      if i < |rest| {
        assert (rest + kids)[i] == rest[i];
      } else {
        assert (rest + kids)[i] == kids[i - |rest|];
        ReachableStep(t, root, cur, kids[i - |rest|]);
      }
    }
  }

  lemma {:induction false} BfsKeepsSound(t: Table, root: int, queue: seq<int>, visited: set<int>, steps: nat)
    requires BfsSound(t, root, queue, visited)
    ensures var r := Bfs(t, queue, visited, steps); BfsSound(t, root, r.1, r.0)
    decreases steps
  {
    if steps > 0 && queue != [] {
      BfsStepSound(t, root, queue, visited);
      var (queue', visited') := if queue[0] in visited then (queue[1..], visited)
        else (queue[1..] + Children(t, queue[0]), visited + {queue[0]});
      assert Bfs(t, queue, visited, steps) == Bfs(t, queue', visited', steps - 1);
      BfsKeepsSound(t, root, queue', visited', steps - 1);
    }
  }

  /** Every id the fallback returns is `root` or one of its descendants. */
  lemma FallbackOrgSetSound(t: Table, root: int)
    ensures FallbackOrgSet(t, root) <= Descendants(t, root)
  {
    ReachableRefl(t, root);
    BfsKeepsSound(t, root, [root], {}, MaxDepth);
    forall x | x in FallbackOrgSet(t, root) ensures x in Descendants(t, root) {
      ReachableInDescendants(t, root, x);
    }
  }

  /** Each child of a visited id is visited or still queued, and `root` is one or the other. */
  ghost predicate BfsClosed(t: Table, root: int, queue: seq<int>, visited: set<int>) {
    && (root in visited || root in queue)
    && (forall v, c :: v in visited && c in Children(t, v) ==> c in visited || c in queue)
  }

  lemma {:induction false} BfsKeepsClosed(t: Table, root: int, queue: seq<int>, visited: set<int>, steps: nat)
    requires BfsClosed(t, root, queue, visited)
    ensures var r := Bfs(t, queue, visited, steps); BfsClosed(t, root, r.1, r.0)
    decreases steps
  {
    if steps > 0 && queue != [] {
      var cur := queue[0];
      if cur in visited {
        forall v, c | v in visited && c in Children(t, v) ensures c in visited || c in queue[1..] {
          if c !in visited {
            assert c in queue;
            var i :| 0 <= i < |queue| && queue[i] == c;
            assert i != 0;
            assert queue[1..][i - 1] == c;
          }
        }
        assert root in visited || root in queue[1..] by {
          if root !in visited {
            var i :| 0 <= i < |queue| && queue[i] == root;
            assert i != 0;
            assert queue[1..][i - 1] == root;
          }
        }
        BfsKeepsClosed(t, root, queue[1..], visited, steps - 1);
      } else {
        var queue' := queue[1..] + Children(t, cur);
        var visited' := visited + {cur};
        forall v, c | v in visited' && c in Children(t, v) ensures c in visited' || c in queue' {
          if v == cur {
            assert c in queue';
          } else if c !in visited' {
            var i :| 0 <= i < |queue| && queue[i] == c;
            assert i != 0;
            assert queue'[i - 1] == c;
          }
        }
        assert root in visited' || root in queue' by {
          if root !in visited' {
            var i :| 0 <= i < |queue| && queue[i] == root;
            assert queue'[i - 1] == root;
          }
        }
        BfsKeepsClosed(t, root, queue', visited', steps - 1);
      }
    }
  }

  /** A set that holds `root` and every child of its members holds everything reachable. */
  lemma ClosedHoldsReachable(t: Table, root: int, s: set<int>, x: int)
    requires root in s
    requires forall v, c :: v in s && c in Children(t, v) ==> c in s
    requires Reachable(t, root, x)
    ensures x in s
  {
    var path :| IsDownPath(t, path) && path[0] == root && path[|path| - 1] == x;
    var k := 0;
    while k < |path| - 1
      invariant 0 <= k < |path|
      invariant path[k] in s
    {
      assert path[k + 1] in Children(t, path[k]);
      k := k + 1;
    }
  }

  /**
   * When the queue empties within twenty passes, the fallback returns
   * exactly `root` and its descendants.
   */
  lemma FallbackOrgSetComplete(t: Table, root: int)
    requires FallbackDrains(t, root)
    ensures FallbackOrgSet(t, root) == Descendants(t, root)
  {
    var s := FallbackOrgSet(t, root);
    var d := Descendants(t, root);
    assert s <= d by {
      FallbackOrgSetSound(t, root);
    }
    assert d <= s by {
      DrainedIsClosed(t, root, MaxDepth);
      ClosedHoldsDescendants(t, root, s);
    }
  }

  /** When the queue empties, the visited set holds `root` and every child of its members. */
  lemma DrainedIsClosed(t: Table, root: int, steps: nat)
    requires Bfs(t, [root], {}, steps).1 == []
    ensures var s := Bfs(t, [root], {}, steps).0; root in s && forall v, c :: v in s && c in Children(t, v) ==> c in s
  {
    BfsKeepsClosed(t, root, [root], {}, steps);
  }

  lemma ClosedHoldsDescendants(t: Table, root: int, s: set<int>)
    requires root in s
    requires forall v, c :: v in s && c in Children(t, v) ==> c in s
    ensures Descendants(t, root) <= s
  {
    forall x | x in Descendants(t, root) ensures x in s {
      ClosedHoldsReachable(t, root, s, x);
    }
  }

  /**
   * The fallback and the recursive query agree when the root row exists and
   * the queue empties in time; for a root without a row the recursive query
   * returns nothing while the fallback still returns the root.
   */
  lemma FallbackMatchesRecursiveDescendants(t: Table, root: int)
    ensures root in Ids(t) && FallbackDrains(t, root) ==> FallbackOrgSet(t, root) == RecursiveDescendants(t, root)
    ensures root !in Ids(t) ==> RecursiveDescendants(t, root) == {} && root in FallbackOrgSet(t, root)
  {
    FallbackOrgSetBounds(t, root);
    if root in Ids(t) && FallbackDrains(t, root) {
      FallbackOrgSetComplete(t, root);
    }
  }

  // --------------------------------------------------- _fallback_parent_query

  /**
   * The upward walk from `cur` with `chain` collected so far and `steps`
   * passes left. Without a live row or with a NULL parent, `cur` is the root
   * and is appended; an id already in the chain ends the walk without being
   * appended.
   */
  function Walk(t: Table, cur: int, chain: seq<int>, steps: nat): (r: seq<int>)
    ensures chain <= r
    ensures |r| <= |chain| + steps
    decreases steps
  {
    if steps == 0 then chain
    else match LiveRow(t, cur)
      case None => chain + [cur]
      case Some(row) =>
        if row.parent.None? then chain + [cur]
        else if cur in chain then chain
        else Walk(t, row.parent.value, chain + [cur], steps - 1)
  }

  /** `org_chain[::-1]`. */
  function Reverse(s: seq<int>): (r: seq<int>)
    ensures |r| == |s|
    ensures forall i :: 0 <= i < |s| ==> r[i] == s[|s| - 1 - i]
  {
    if s == [] then [] else Reverse(s[1..]) + [s[0]]
  }

  function FallbackChain(t: Table, orgId: int): seq<int> {
    Reverse(Walk(t, orgId, [], MaxDepth))
  }

  /** `_fallback_parent_query(org_id)`. */
  method FallbackParentQuery(t: Table, orgId: int) returns (chain: seq<int>)
    ensures chain == FallbackChain(t, orgId)
  {
    var orgChain := [];
    var currentId := orgId;
    for i := 0 to MaxDepth
      invariant Walk(t, currentId, orgChain, MaxDepth - i) == Walk(t, orgId, [], MaxDepth)
    {
      var row := LiveRow(t, currentId);
      if row.None? || row.value.parent.None? {
        orgChain := orgChain + [currentId];
        break;
      }
      if currentId in orgChain {
        break;
      }
      orgChain := orgChain + [currentId];
      currentId := row.value.parent.value;
    }
    chain := Reverse(orgChain);
  }

  predicate Distinct(s: seq<int>) {
    forall i, j :: 0 <= i < j < |s| ==> s[i] != s[j]
  }

  /** Each element of the chain is followed by its live parent. */
  predicate Linked(t: Table, s: seq<int>) {
    forall i :: 0 <= i < |s| - 1 ==> LiveParent(t, s[i]) == Some(s[i + 1])
  }

  /**
   * The walk keeps the chain free of repeats and linked by live parents, and
   * it stops at a root, at a parent already in the chain, or when the passes
   * run out with every pass having appended one id.
   */
  lemma {:induction false} WalkShape(t: Table, cur: int, chain: seq<int>, steps: nat)
    requires Distinct(chain) && Linked(t, chain)
    requires chain != [] ==> LiveParent(t, chain[|chain| - 1]) == Some(cur)
    requires chain != [] || steps > 0
    ensures var r := Walk(t, cur, chain, steps);
      && r != []
      && Distinct(r)
      && Linked(t, r)
      && (LiveParent(t, r[|r| - 1]).None? || LiveParent(t, r[|r| - 1]).value in r || |r| == |chain| + steps)
    decreases steps
  {
    if steps > 0 {
      var p := LiveParent(t, cur);
      if p.None? {
        assert cur !in chain by {
          forall k | 0 <= k < |chain| ensures chain[k] != cur {
            if k < |chain| - 1 {
              assert LiveParent(t, chain[k]) == Some(chain[k + 1]);
            }
          }
        }
        AppendKeepsShape(t, chain, cur);
        assert Walk(t, cur, chain, steps) == chain + [cur];
      } else if cur !in chain {
        AppendKeepsShape(t, chain, cur);
        assert Walk(t, cur, chain, steps) == Walk(t, p.value, chain + [cur], steps - 1);
        WalkShape(t, p.value, chain + [cur], steps - 1);
      }
    }
  }

  /** Appending the live parent of the last element, when it is new, keeps the chain distinct and linked. */
  lemma AppendKeepsShape(t: Table, chain: seq<int>, cur: int)
    requires Distinct(chain) && Linked(t, chain) && cur !in chain
    requires chain != [] ==> LiveParent(t, chain[|chain| - 1]) == Some(cur)
    ensures Distinct(chain + [cur]) && Linked(t, chain + [cur])
  {
    var c := chain + [cur];
    forall i, j | 0 <= i < j < |c| ensures c[i] != c[j] {
      assert c[i] == chain[i];
      if j < |chain| {
        assert c[j] == chain[j];
      }
    }
    forall i | 0 <= i < |c| - 1 ensures LiveParent(t, c[i]) == Some(c[i + 1]) {
      assert c[i] == chain[i];
      if i < |chain| - 1 {
        assert c[i + 1] == chain[i + 1];
      }
    }
  }

  /**
   * `_fallback_parent_query` returns between one and twenty distinct ids,
   * ending with `org_id`; each id is the live parent of the one after it; and
   * the first is a root, has its live parent already in the chain, or was
   * reached on the twentieth pass.
   */
  lemma FallbackChainShape(t: Table, orgId: int)
    ensures var c := FallbackChain(t, orgId);
      && 1 <= |c| <= MaxDepth
      && c[|c| - 1] == orgId
      && Distinct(c)
      && (forall i :: 0 <= i < |c| - 1 ==> LiveParent(t, c[i + 1]) == Some(c[i]))
      && (LiveParent(t, c[0]).None? || LiveParent(t, c[0]).value in c || |c| == MaxDepth)
  {
    var w := Walk(t, orgId, [], MaxDepth);
    WalkShape(t, orgId, [], MaxDepth);
    assert w[0] == orgId by {
      if LiveParent(t, orgId).Some? {
        assert [orgId] <= w;
      }
    }
    ReverseKeeps(t, w);
  }

  /** Reversing keeps the elements and their distinctness and turns each link around. */
  lemma ReverseKeeps(t: Table, w: seq<int>)
    requires Distinct(w) && Linked(t, w)
    ensures var c := Reverse(w);
      && Distinct(c)
      && (forall i :: 0 <= i < |c| - 1 ==> LiveParent(t, c[i + 1]) == Some(c[i]))
      && (forall x :: x in c <==> x in w)
  {
    var c := Reverse(w);
    forall i, j | 0 <= i < j < |c| ensures c[i] != c[j] {
      assert c[i] == w[|w| - 1 - i] && c[j] == w[|w| - 1 - j];
    }
    forall i | 0 <= i < |c| - 1 ensures LiveParent(t, c[i + 1]) == Some(c[i]) {
      var k := |w| - 2 - i;
      assert c[i + 1] == w[k] && c[i] == w[k + 1];
    }
    forall x | x in w ensures x in c {
      var k :| 0 <= k < |w| && w[k] == x;
      assert c[|w| - 1 - k] == x;
    }
  }

  /** An org without a live row or with a NULL parent is its own chain, even when it is `org_id` itself. */
  lemma FallbackChainOfRoot(t: Table, orgId: int)
    requires LiveParent(t, orgId).None?
    ensures FallbackChain(t, orgId) == [orgId]
  {
    assert Walk(t, orgId, [], MaxDepth) == [orgId];
  }

  /** An org whose live parent is itself gives a one-element chain, the cycle check stopping the walk. */
  lemma FallbackChainOfSelfLoop(t: Table, orgId: int)
    requires LiveParent(t, orgId) == Some(orgId)
    ensures FallbackChain(t, orgId) == [orgId]
  {
    var w := Walk(t, orgId, [orgId], MaxDepth - 1);
    assert w == [orgId];
    assert Walk(t, orgId, [], MaxDepth) == w;
  }

  /** A chain of live rows ending at a root never repeats an id. */
  lemma {:induction false} AncestorRowsDistinct(t: Table, rows: seq<int>, i: nat, j: nat)
    requires rows != [] && Linked(t, rows) && LiveParent(t, rows[|rows| - 1]).None?
    requires i < j < |rows|
    ensures rows[i] != rows[j]
    decreases |rows| - j
  {
    assert LiveParent(t, rows[i]) == Some(rows[i + 1]);
    if j < |rows| - 1 {
      AncestorRowsDistinct(t, rows, i + 1, j + 1);
      assert LiveParent(t, rows[j]) == Some(rows[j + 1]);
    }
  }

  lemma {:induction false} WalkAlongRows(t: Table, rows: seq<int>, k: nat, steps: nat)
    requires k < |rows| && Linked(t, rows) && Distinct(rows)
    requires LiveParent(t, rows[|rows| - 1]).None?
    requires steps >= |rows| - k
    ensures Walk(t, rows[k], rows[..k], steps) == rows
    decreases |rows| - k
  {
    if k == |rows| - 1 {
      assert rows[..k] + [rows[k]] == rows;
    } else {
      assert LiveParent(t, rows[k]) == Some(rows[k + 1]);
      assert rows[k] !in rows[..k];
      assert rows[..k] + [rows[k]] == rows[..k + 1];
      WalkAlongRows(t, rows, k + 1, steps - 1);
    }
  }

  /**
   * When the recursive ancestor query returns at most twenty rows ending at
   * a root whose `org_id` is NULL, the fallback returns the same ids in the
   * opposite order: the recursive path lists `org_id` first, the fallback
   * lists the root first.
   */
  lemma FallbackReversesRecursive(t: Table, orgId: int, rows: seq<int>)
    requires IsAncestorRows(t, orgId, rows) && rows != []
    requires LiveParent(t, rows[|rows| - 1]).None?
    requires |rows| <= MaxDepth
    ensures FallbackChain(t, orgId) == Reverse(rows)
  {
    forall i, j | 0 <= i < j < |rows| ensures rows[i] != rows[j] {
      AncestorRowsDistinct(t, rows, i, j);
    }
    assert rows[..0] == [];
    WalkAlongRows(t, rows, 0, MaxDepth);
  }

  /**
   * For an org without a live row, the recursive query returns no rows while
   * the fallback returns `[org_id]`.
   */
  lemma RecursiveAndFallbackOnDeletedOrg(t: Table, orgId: int, rows: seq<int>)
    requires LiveRow(t, orgId).None? && IsAncestorRows(t, orgId, rows)
    ensures rows == []
    ensures FallbackChain(t, orgId) == [orgId]
  {
    FallbackChainOfRoot(t, orgId);
  }

  /** The recursive rows of a live org with parent `parent` are the org alone exactly when `parent` has no live row. */
  lemma AncestorRowsStopAtOrg(t: Table, orgId: int, parent: int, rows: seq<int>)
    requires LiveRow(t, orgId).Some? && LiveParent(t, orgId) == Some(parent)
    requires IsAncestorRows(t, orgId, rows)
    ensures rows == [orgId] <==> LiveRow(t, parent).None?
  {
    if |rows| > 1 {
      assert LiveParent(t, rows[0]) == Some(rows[1]);
      assert LiveRow(t, rows[1]).Some?;
    }
  }

  /**
   * The two ancestor paths disagree when a live org's parent has no live
   * row: the recursive query stops at the org itself, since its join finds
   * no live parent row, while the fallback still appends the parent id as
   * the root of its chain.
   */
  lemma PathsDisagreeOnMissingParent(t: Table, orgId: int, parent: int, rows: seq<int>)
    requires LiveRow(t, orgId).Some? && LiveParent(t, orgId) == Some(parent) && LiveRow(t, parent).None?
    requires IsAncestorRows(t, orgId, rows)
    ensures rows == [orgId] && IsAncestorRows(t, orgId, [orgId])
    ensures FallbackChain(t, orgId) == [parent, orgId]
    ensures FallbackChain(t, orgId) != Reverse(rows)
  {
    AncestorRowsStopAtOrg(t, orgId, parent, rows);
    assert Walk(t, parent, [orgId], MaxDepth - 1) == [orgId, parent];
    assert Walk(t, orgId, [], MaxDepth) == [orgId, parent];
  }
}
