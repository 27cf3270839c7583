/**
 * The `sys_org` table as the org-hierarchy queries of base_query.py see it:
 * each row has an id, a parent id (`org_id`, possibly NULL) and an
 * `is_delete` column (possibly NULL). Only NULL counts as "not deleted" in
 * the ancestor queries, so a row with `is_delete = 0` is treated as absent
 * there; the descendant queries ignore the column altogether.
 *
 * The table is a sequence in scan order, so that `fetchall` and `fetchone`
 * have a definite answer.
 */
module OrgTable {
  import opened Wrappers

  datatype OrgRow = OrgRow(id: int, parent: Option<int>, isDelete: Option<int>)

  type Table = seq<OrgRow>

  /** The ids of all rows. */
  function Ids(t: Table): set<int> {
    set i | 0 <= i < |t| :: t[i].id
  }

  /** `SELECT id FROM sys_org WHERE org_id = p`: the rows whose parent is `p`, in scan order. */
  function Children(t: Table, p: int): (r: seq<int>)
    ensures forall x :: x in r ==> x in Ids(t)
  {
    if t == [] then []
    else
      var rest := Children(t[1..], p);
      assert Ids(t[1..]) <= Ids(t) by {
        forall x | x in Ids(t[1..]) ensures x in Ids(t) {
          var i :| 0 <= i < |t[1..]| && t[1..][i].id == x;
          assert t[i + 1].id == x;
        }
      }
      if t[0].parent == Some(p) then [t[0].id] + rest else rest
  }

  /** `SELECT org_id FROM sys_org WHERE id = x AND is_delete IS NULL`, `fetchone`: the first such row. */
  function LiveRow(t: Table, x: int): (r: Option<OrgRow>)
    ensures r.Some? ==> r.value in t && r.value.id == x && r.value.isDelete.None?
  {
    if t == [] then None
    else if t[0].id == x && t[0].isDelete.None? then Some(t[0])
    else LiveRow(t[1..], x)
  }

  /**
   * The parent the ancestor queries follow from `x`: `None` when there is no
   * live row for `x` or its `org_id` is NULL.
   */
  function LiveParent(t: Table, x: int): Option<int> {
    match LiveRow(t, x)
    case None => None
    case Some(row) => row.parent
  }

  /** A row with `is_delete = 0`, or any non-NULL value, is invisible to the ancestor queries. */
  lemma DeletedRowInvisible(t: Table, x: int)
    requires forall i :: 0 <= i < |t| && t[i].id == x ==> t[i].isDelete.Some?
    ensures LiveRow(t, x) == None && LiveParent(t, x) == None
  {
    if t != [] {
      assert forall i :: 0 <= i < |t[1..]| && t[1..][i].id == x ==> t[1..][i].isDelete.Some? by {
        forall i | 0 <= i < |t[1..]| && t[1..][i].id == x ensures t[1..][i].isDelete.Some? {
          assert t[1..][i] == t[i + 1];
        }
      }
      DeletedRowInvisible(t[1..], x);
    }
  }

  // ------------------------------------------------- descendants, as a closure

  /** A path that goes down from parent to child at every step. */
  ghost predicate IsDownPath(t: Table, path: seq<int>) {
    |path| >= 1 && forall i :: 0 <= i < |path| - 1 ==> path[i + 1] in Children(t, path[i])
  }

  ghost predicate Reachable(t: Table, root: int, x: int) {
    exists path :: IsDownPath(t, path) && path[0] == root && path[|path| - 1] == x
  }

  /** `root` and every org below it through child links, deleted or not. */
  ghost function Descendants(t: Table, root: int): set<int> {
    set x | x in {root} + Ids(t) && Reachable(t, root, x)
  }

  /**
   * What the recursive descendant query returns: its anchor selects the row
   * whose id is `root`, so the result is empty when there is no such row.
   */
  ghost function RecursiveDescendants(t: Table, root: int): set<int> {
    if root in Ids(t) then Descendants(t, root) else {}
  }

  lemma ReachableRefl(t: Table, root: int)
    ensures Reachable(t, root, root)
  {
    assert IsDownPath(t, [root]);
  }

  lemma ReachableStep(t: Table, root: int, x: int, y: int)
    requires Reachable(t, root, x) && y in Children(t, x)
    ensures Reachable(t, root, y)
  {
    var path :| IsDownPath(t, path) && path[0] == root && path[|path| - 1] == x;
    var path' := path + [y];
    forall i | 0 <= i < |path'| - 1 ensures path'[i + 1] in Children(t, path'[i]) {
      if i < |path| - 1 {
        assert path'[i] == path[i] && path'[i + 1] == path[i + 1];
      } else {
        assert path'[i] == x && path'[i + 1] == y;
      }
    }
    assert path'[0] == root && path'[|path'| - 1] == y;
  }

  lemma ReachableInDescendants(t: Table, root: int, x: int)
    requires Reachable(t, root, x)
    ensures x in Descendants(t, root)
  {
    var path :| IsDownPath(t, path) && path[0] == root && path[|path| - 1] == x;
    if |path| > 1 {
      assert x in Children(t, path[|path| - 2]);
    }
  }

  // ------------------------------------------------- ancestors, as a chain

  /**
   * What the recursive ancestor query returns when it terminates: nothing
   * when `x` has no live row; otherwise the live rows from `x` upward, each
   * the live parent of the one before, ending at a row whose parent is NULL
   * or has no live row (the join finds nothing more).
   */
  ghost predicate IsAncestorRows(t: Table, x: int, rows: seq<int>) {
    if LiveRow(t, x).None? then rows == []
    else
      && rows != []
      && rows[0] == x
      && (forall i :: 0 <= i < |rows| ==> LiveRow(t, rows[i]).Some?)
      && (forall i :: 0 <= i < |rows| - 1 ==> LiveParent(t, rows[i]) == Some(rows[i + 1]))
      && (LiveParent(t, rows[|rows| - 1]).None? || LiveRow(t, LiveParent(t, rows[|rows| - 1]).value).None?)
  }
}
