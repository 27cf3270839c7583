/**
 * org.py: `OrgSerializer.to_representation`, which first runs the base
 * serializer's renames and then moves three more values to camel-case keys.
 */
module OrgModels {
  import opened Wrappers
  import opened PyValues
  import opened BaseModels

  const OrgRenames: seq<Rename> := [
    Rename("controller_name", "controllerName"),
    Rename("controller_tel", "controllerTel"),
    Rename("org_name", "orgName")
  ]

  const OrgSnakeKeys: set<string> := {"controller_name", "controller_tel", "org_name"}
  const OrgCamelKeys: set<string> := {"controllerName", "controllerTel", "orgName"}

  lemma OrgRenamesIndependent()
    ensures Independent(OrgRenames)
    ensures Froms(OrgRenames) == OrgSnakeKeys
    ensures Tos(OrgRenames) == OrgCamelKeys
  {
    assert OrgRenames[0] == Rename("controller_name", "controllerName");
    assert OrgRenames[1] == Rename("controller_tel", "controllerTel");
    assert OrgRenames[2] == Rename("org_name", "orgName");
  }

  /** The seven renames of the org representation move seven distinct keys to seven other distinct keys. */
  lemma AllRenamesIndependent()
    ensures Independent(BaseRenames + OrgRenames)
    ensures Froms(BaseRenames + OrgRenames) == BaseSnakeKeys + OrgSnakeKeys
    ensures Tos(BaseRenames + OrgRenames) == BaseCamelKeys + OrgCamelKeys
  {
    BaseRenamesIndependent();
    OrgRenamesIndependent();
    OrgKeysAreNew();
    IndependentAppend(BaseRenames, OrgRenames);
  }

  /** None of the org serializer's keys is one the base serializer renames from or to. */
  lemma OrgKeysAreNew()
    ensures (BaseSnakeKeys + BaseCamelKeys) !! (OrgSnakeKeys + OrgCamelKeys)
  {
    var base := BaseSnakeKeys + BaseCamelKeys;
    assert "controller_name" !in base;
    assert "controller_tel" !in base;
    assert "org_name" !in base;
    assert "controllerName" !in base;
    assert "controllerTel" !in base;
    assert "orgName" !in base;
  }

  /**
   * `OrgSerializer.to_representation`: the base renames (which may raise
   * `KeyError` part way), then `controllerName`, `controllerTel` and
   * `orgName`. The dict ends as the seven renames run in that order leave it.
   */
  method OrgToRepresentation(representation: Representation) returns (r: Result<(), PyError>)
    modifies representation
    ensures representation.fields == MoveKeys(old(representation.fields), BaseRenames + OrgRenames).fields
    ensures r == (match MoveKeys(old(representation.fields), BaseRenames + OrgRenames).missing
                  case None => Ok(())
                  case Some(k) => Err(KeyError(k)))
  {
    MoveKeysAppend(representation.fields, BaseRenames, OrgRenames);
    r := BaseToRepresentation(representation);
    if r.Err? {
      return;
    }
    r := representation.MoveAll(OrgRenames);
  }

  /** The org representation raises `KeyError` exactly when one of the seven snake keys is absent. */
  lemma OrgRepresentationFails(m: map<string, Value>)
    ensures var r := MoveKeys(m, BaseRenames + OrgRenames);
      && (r.missing == None <==> BaseSnakeKeys + OrgSnakeKeys <= m.Keys)
      && (r.missing.Some? ==> r.missing.value in BaseSnakeKeys + OrgSnakeKeys && r.missing.value !in m)
  {
    AllRenamesIndependent();
    MoveKeysSucceeds(m, BaseRenames + OrgRenames);
  }

  /** On success the snake keys are replaced by the camel keys and no other key appears or disappears. */
  lemma OrgRepresentationKeys(m: map<string, Value>)
    requires BaseSnakeKeys + OrgSnakeKeys <= m.Keys
    ensures MoveKeys(m, BaseRenames + OrgRenames).fields.Keys
            == m.Keys - (BaseSnakeKeys + OrgSnakeKeys) + (BaseCamelKeys + OrgCamelKeys)
  {
    AllRenamesIndependent();
    MoveKeysKeys(m, BaseRenames + OrgRenames);
  }

  /** The `i`-th of the seven renames stores the value its source key held in `m`. */
  lemma OrgMovesAt(m: map<string, Value>, i: nat)
    requires BaseSnakeKeys + OrgSnakeKeys <= m.Keys && i < |BaseRenames + OrgRenames|
    ensures var all := BaseRenames + OrgRenames; var r := MoveKeys(m, all).fields;
      all[i].to in r && r[all[i].to] == m[all[i].from]
  {
    AllRenamesIndependent();
    MoveKeysMovesAt(m, BaseRenames + OrgRenames, i);
  }

  /**
   * On success the seven camel keys hold the popped values (the values the
   * declared read-only fields `orgId`, `isDelete`, `controllerName`,
   * `controllerTel` and `orgName` had put there are overwritten).
   */
  lemma OrgRepresentationMoved(m: map<string, Value>)
    requires BaseSnakeKeys + OrgSnakeKeys <= m.Keys
    ensures var r := MoveKeys(m, BaseRenames + OrgRenames).fields;
      && "createTime" in r && r["createTime"] == m["create_time"]
      && "updateTime" in r && r["updateTime"] == m["update_time"]
      && "orgId" in r && r["orgId"] == m["org_id"]
      && "isDelete" in r && r["isDelete"] == m["is_delete"]
      && "controllerName" in r && r["controllerName"] == m["controller_name"]
      && "controllerTel" in r && r["controllerTel"] == m["controller_tel"]
      && "orgName" in r && r["orgName"] == m["org_name"]
  {
    var all := BaseRenames + OrgRenames;
    OrgMovesAt(m, 0); assert all[0] == Rename("create_time", "createTime");
    OrgMovesAt(m, 1); assert all[1] == Rename("update_time", "updateTime");
    OrgMovesAt(m, 2); assert all[2] == Rename("org_id", "orgId");
    OrgMovesAt(m, 3); assert all[3] == Rename("is_delete", "isDelete");
    OrgMovesAt(m, 4); assert all[4] == Rename("controller_name", "controllerName");
    OrgMovesAt(m, 5); assert all[5] == Rename("controller_tel", "controllerTel");
    OrgMovesAt(m, 6); assert all[6] == Rename("org_name", "orgName");
  }

  /** Every other key, such as `id`, `name` or `code`, keeps its value. */
  lemma OrgRepresentationKeepsOthers(m: map<string, Value>, k: string)
    requires BaseSnakeKeys + OrgSnakeKeys <= m.Keys
    requires k in m && k !in BaseSnakeKeys + OrgSnakeKeys && k !in BaseCamelKeys + OrgCamelKeys
    ensures var r := MoveKeys(m, BaseRenames + OrgRenames).fields;
      k in r && r[k] == m[k]
  {
    AllRenamesIndependent();
    MoveKeysKeeps(m, BaseRenames + OrgRenames, k);
  }
}
