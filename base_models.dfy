/**
 * base_models.py: `format_datetime` and the key renaming done by
 * `BaseModelSerializer.to_representation`.
 *
 * The serializer takes the dict produced by the framework (`super()`), and
 * moves four values from snake-case keys to camel-case keys in place, with
 * `representation[camel] = representation.pop(snake)`.
 */
module BaseModels {
  import opened Wrappers
  import opened PyValues

  /**
   * `format_datetime(dt, fmt)`: a datetime is rendered with `strftime`, any
   * other value is returned as it is. `strftime` belongs to the standard
   * library and is a parameter here.
   */
  function FormatDatetime(dt: Value, fmt: string, strftime: (Instant, string) -> string): (r: Value)
    ensures !r.DateTime?
    ensures !dt.DateTime? ==> r == dt
    ensures dt.DateTime? ==> r.Str?
  {
    if dt.DateTime? then Str(strftime(dt.at, fmt)) else dt
  }

  /** Formatting an already formatted value changes nothing. */
  lemma FormatDatetimeIdempotent(dt: Value, fmt: string, strftime: (Instant, string) -> string)
    ensures FormatDatetime(FormatDatetime(dt, fmt, strftime), fmt, strftime) == FormatDatetime(dt, fmt, strftime)
  {
  }

  // ----------------------------------------------------------- renaming

  /** `representation[to] = representation.pop(from)`. */
  datatype Rename = Rename(from: string, to: string)

  const BaseRenames: seq<Rename> := [
    Rename("create_time", "createTime"),
    Rename("update_time", "updateTime"),
    Rename("org_id", "orgId"),
    Rename("is_delete", "isDelete")
  ]

  /** The dict after a run of renames, and the key whose `pop` raised `KeyError`, if one did. */
  datatype Moved = Moved(fields: map<string, Value>, missing: Option<string>)

  /** Runs the renames in order and stops at the first key that is absent. */
  function MoveKeys(m: map<string, Value>, renames: seq<Rename>): Moved
    decreases |renames|
  {
    if renames == [] then Moved(m, None)
    else
      var rn := renames[0];
      if rn.from !in m then Moved(m, Some(rn.from))
      else MoveKeys((m - {rn.from})[rn.to := m[rn.from]], renames[1..])
  }

  function Froms(renames: seq<Rename>): set<string> {
    set i | 0 <= i < |renames| :: renames[i].from
  }

  function Tos(renames: seq<Rename>): set<string> {
    set i | 0 <= i < |renames| :: renames[i].to
  }

  /** No key is renamed twice, no two keys go to one target, and no target is also a source. */
  predicate Independent(renames: seq<Rename>) {
    && (forall i, j :: 0 <= i < j < |renames| ==> renames[i].from != renames[j].from)
    && (forall i, j :: 0 <= i < j < |renames| ==> renames[i].to != renames[j].to)
    && Froms(renames) !! Tos(renames)
  }

  lemma IndependentTail(renames: seq<Rename>)
    requires renames != [] && Independent(renames)
    ensures Independent(renames[1..])
    ensures Froms(renames) == {renames[0].from} + Froms(renames[1..])
    ensures Tos(renames) == {renames[0].to} + Tos(renames[1..])
    ensures renames[0].from !in Froms(renames[1..]) + Tos(renames[1..])
    ensures renames[0].to !in Froms(renames[1..]) + Tos(renames[1..])
  {
    var rest := renames[1..];
    assert forall i :: 0 <= i < |rest| ==> rest[i] == renames[i + 1];
    assert Froms(renames) == {renames[0].from} + Froms(rest) by {
      forall x | x in Froms(renames) ensures x in {renames[0].from} + Froms(rest) {
        var i :| 0 <= i < |renames| && renames[i].from == x;
        if i > 0 { assert rest[i - 1].from == x; }
      }
    }
    assert Tos(renames) == {renames[0].to} + Tos(rest) by {
      forall x | x in Tos(renames) ensures x in {renames[0].to} + Tos(rest) {
        var i :| 0 <= i < |renames| && renames[i].to == x;
        if i > 0 { assert rest[i - 1].to == x; }
      }
    }
  }

  /** The renames succeed exactly when every source key is present; otherwise the missing key is a source. */
  lemma {:induction false} MoveKeysSucceeds(m: map<string, Value>, renames: seq<Rename>)
    requires Independent(renames)
    ensures var r := MoveKeys(m, renames);
      && (r.missing == None <==> Froms(renames) <= m.Keys)
      && (r.missing.Some? ==> r.missing.value in Froms(renames) && r.missing.value !in m)
    decreases |renames|
  {
    if renames == [] {
      assert Froms(renames) == {};
    } else {
      var rn, rest := renames[0], renames[1..];
      IndependentTail(renames);
      if rn.from in m {
        var m' := (m - {rn.from})[rn.to := m[rn.from]];
        MoveKeysSucceeds(m', rest);
        assert forall k :: k in Froms(rest) ==> (k in m' <==> k in m);
      }
    }
  }

  /** After successful renames the keys are the old ones, minus the sources, plus the targets. */
  lemma {:induction false} MoveKeysKeys(m: map<string, Value>, renames: seq<Rename>)
    requires Independent(renames) && Froms(renames) <= m.Keys
    ensures MoveKeys(m, renames).fields.Keys == (m.Keys - Froms(renames)) + Tos(renames)
    decreases |renames|
  {
    if renames == [] {
      assert Froms(renames) == {} && Tos(renames) == {};
    } else {
      var rn, rest := renames[0], renames[1..];
      IndependentTail(renames);
      var m' := (m - {rn.from})[rn.to := m[rn.from]];
      assert Froms(rest) <= m'.Keys;
      MoveKeysKeys(m', rest);
    }
  }

  /**
   * After successful renames every target holds the value its source held,
   * and every key that is neither a source nor a target keeps its value.
   */
  lemma {:induction false} MoveKeysValues(m: map<string, Value>, renames: seq<Rename>)
    requires Independent(renames) && Froms(renames) <= m.Keys
    ensures var r := MoveKeys(m, renames);
      && (forall i :: 0 <= i < |renames| ==> renames[i].to in r.fields && r.fields[renames[i].to] == m[renames[i].from])
      && (forall k :: k in m && k !in Froms(renames) && k !in Tos(renames) ==> k in r.fields && r.fields[k] == m[k])
    decreases |renames|
  {
    if renames != [] {
      var rn, rest := renames[0], renames[1..];
      IndependentTail(renames);
      var m' := (m - {rn.from})[rn.to := m[rn.from]];
      assert Froms(rest) <= m'.Keys;
      MoveKeysValues(m', rest);
      var r := MoveKeys(m', rest);
      forall i | 0 <= i < |renames|
        ensures renames[i].to in r.fields && r.fields[renames[i].to] == m[renames[i].from]
      {
        if i > 0 {
          assert renames[i] == rest[i - 1];
        }
      }
    }
  }

  /** A key that no rename touches keeps its value. */
  lemma MoveKeysKeeps(m: map<string, Value>, renames: seq<Rename>, k: string)
    requires Independent(renames) && Froms(renames) <= m.Keys
    requires k in m && k !in Froms(renames) && k !in Tos(renames)
    ensures k in MoveKeys(m, renames).fields && MoveKeys(m, renames).fields[k] == m[k]
  {
    MoveKeysValues(m, renames);
  }

  /** The `i`-th rename's target holds the value its source held. */
  lemma MoveKeysMovesAt(m: map<string, Value>, renames: seq<Rename>, i: nat)
    requires Independent(renames) && Froms(renames) <= m.Keys && i < |renames|
    ensures renames[i].to in MoveKeys(m, renames).fields
    ensures MoveKeys(m, renames).fields[renames[i].to] == m[renames[i].from]
  {
    MoveKeysValues(m, renames);
  }

  /** Running two lists of renames one after the other is running their concatenation. */
  lemma {:induction false} MoveKeysAppend(m: map<string, Value>, first: seq<Rename>, second: seq<Rename>)
    ensures MoveKeys(m, first + second) ==
            (var r := MoveKeys(m, first); if r.missing.Some? then r else MoveKeys(r.fields, second))
    decreases |first|
  {
    if first == [] {
      assert first + second == second;
    } else {
      assert (first + second)[0] == first[0];
      assert (first + second)[1..] == first[1..] + second;
      if first[0].from in m {
        MoveKeysAppend((m - {first[0].from})[first[0].to := m[first[0].from]], first[1..], second);
      }
    }
  }

  /** Two independent lists whose keys do not meet are independent together. */
  lemma IndependentAppend(first: seq<Rename>, second: seq<Rename>)
    requires Independent(first) && Independent(second)
    requires (Froms(first) + Tos(first)) !! (Froms(second) + Tos(second))
    ensures Froms(first + second) == Froms(first) + Froms(second)
    ensures Tos(first + second) == Tos(first) + Tos(second)
    ensures Independent(first + second)
  {
    var all := first + second;
    assert forall i :: 0 <= i < |first| ==> all[i] == first[i];
    assert forall i :: |first| <= i < |all| ==> all[i] == second[i - |first|];
    assert Froms(all) == Froms(first) + Froms(second) by {
      forall x | x in Froms(first) + Froms(second) ensures x in Froms(all) {
        if x in Froms(first) {
          var i :| 0 <= i < |first| && first[i].from == x;
          assert all[i].from == x;
        } else {
          var i :| 0 <= i < |second| && second[i].from == x;
          assert all[|first| + i].from == x;
        }
      }
    }
    assert Tos(all) == Tos(first) + Tos(second) by {
      forall x | x in Tos(first) + Tos(second) ensures x in Tos(all) {
        if x in Tos(first) {
          var i :| 0 <= i < |first| && first[i].to == x;
          assert all[i].to == x;
        } else {
          var i :| 0 <= i < |second| && second[i].to == x;
          assert all[|first| + i].to == x;
        }
      }
    }
    forall i, j | 0 <= i < j < |all|
      ensures all[i].from != all[j].from && all[i].to != all[j].to
    {
      if i < |first| && |first| <= j {
        assert all[i].from in Froms(first) && all[i].to in Tos(first);
        assert all[j].from in Froms(second) && all[j].to in Tos(second);
      }
    }
  }

  lemma BaseRenamesIndependent()
    ensures Independent(BaseRenames)
    ensures Froms(BaseRenames) == {"create_time", "update_time", "org_id", "is_delete"}
    ensures Tos(BaseRenames) == {"createTime", "updateTime", "orgId", "isDelete"}
  {
    assert BaseRenames[0].from == "create_time" && BaseRenames[1].from == "update_time";
    assert BaseRenames[2].from == "org_id" && BaseRenames[3].from == "is_delete";
    assert BaseRenames[0].to == "createTime" && BaseRenames[1].to == "updateTime";
    assert BaseRenames[2].to == "orgId" && BaseRenames[3].to == "isDelete";
  }

  const BaseSnakeKeys: set<string> := {"create_time", "update_time", "org_id", "is_delete"}
  const BaseCamelKeys: set<string> := {"createTime", "updateTime", "orgId", "isDelete"}

  /**
   * `BaseModelSerializer.to_representation` raises `KeyError` unless all four
   * snake keys are present (`pop` has no default), and the key it names is one
   * of them.
   */
  lemma BaseRepresentationFails(m: map<string, Value>)
    ensures var r := MoveKeys(m, BaseRenames);
      && (r.missing == None <==> BaseSnakeKeys <= m.Keys)
      && (r.missing.Some? ==> r.missing.value in BaseSnakeKeys && r.missing.value !in m)
  {
    BaseRenamesIndependent();
    MoveKeysSucceeds(m, BaseRenames);
  }

  /**
   * On success `createTime`, `updateTime`, `orgId` and `isDelete` hold the
   * popped values (overwriting `orgId` and `isDelete` that the declared fields
   * produced), the snake keys are gone, and every other key keeps its value.
   */
  lemma BaseRepresentationMoves(m: map<string, Value>)
    requires BaseSnakeKeys <= m.Keys
    ensures var r := MoveKeys(m, BaseRenames).fields;
      && r.Keys == m.Keys - BaseSnakeKeys + BaseCamelKeys
      && r["createTime"] == m["create_time"]
      && r["updateTime"] == m["update_time"]
      && r["orgId"] == m["org_id"]
      && r["isDelete"] == m["is_delete"]
      && (forall k :: k in m && k !in BaseSnakeKeys && k !in BaseCamelKeys ==> r[k] == m[k])
  {
    BaseRenamesIndependent();
    MoveKeysKeys(m, BaseRenames);
    MoveKeysValues(m, BaseRenames);
    assert BaseRenames[0] == Rename("create_time", "createTime");
    assert BaseRenames[1] == Rename("update_time", "updateTime");
    assert BaseRenames[2] == Rename("org_id", "orgId");
    assert BaseRenames[3] == Rename("is_delete", "isDelete");
  }

  // ----------------------------------------------- the dict, updated in place

  /** The `representation` dict that `to_representation` updates in place. */
  class Representation {
    var fields: map<string, Value>

    constructor (fields: map<string, Value>)
      ensures this.fields == fields
    {
      this.fields := fields;
    }

    /** `representation[to] = representation.pop(from)`; `pop` raises before anything is stored. */
    method Move(from: string, to: string) returns (r: Result<(), PyError>)
      modifies this
      ensures from in old(fields) ==> r == Ok(()) && fields == (old(fields) - {from})[to := old(fields)[from]]
      ensures from !in old(fields) ==> r == Err(KeyError(from)) && fields == old(fields)
    {
      if from !in fields {
        return Err(KeyError(from));
      }
      var v := fields[from];
      fields := fields - {from};
      fields := fields[to := v];
      return Ok(());
    }

    /**
     * Runs the renames one statement at a time, stopping at the first
     * `KeyError`; the result is that of `MoveKeys`.
     */
    method MoveAll(renames: seq<Rename>) returns (r: Result<(), PyError>)
      modifies this
      ensures fields == MoveKeys(old(fields), renames).fields
      ensures r == (match MoveKeys(old(fields), renames).missing
                    case None => Ok(())
                    case Some(k) => Err(KeyError(k)))
    {
      var i := 0;
      while i < |renames|
        invariant 0 <= i <= |renames|
        invariant MoveKeys(fields, renames[i..]) == MoveKeys(old(fields), renames)
      {
        assert renames[i..][0] == renames[i] && renames[i..][1..] == renames[i + 1..];
        r := Move(renames[i].from, renames[i].to);
        if r.Err? {
          return;
        }
        i := i + 1;
      }
      return Ok(());
    }
  }

  /** `BaseModelSerializer.to_representation`, on the dict `super()` produced. */
  method BaseToRepresentation(representation: Representation) returns (r: Result<(), PyError>)
    modifies representation
    ensures representation.fields == MoveKeys(old(representation.fields), BaseRenames).fields
    ensures r == (match MoveKeys(old(representation.fields), BaseRenames).missing
                  case None => Ok(())
                  case Some(k) => Err(KeyError(k)))
  {
    r := representation.MoveAll(BaseRenames);
  }
}
