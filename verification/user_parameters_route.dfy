/**
 * app/routers/user_parameters_route.py: the partial update of a user's
 * parameter row (`PATCH /{user_id}`).
 */
module UserParametersRoute {
  import opened Wrappers
  import opened UserModel
  import opened UserParameterModel
  import Store

  /** The 404 for a missing row, or the integrity error the commit raises. */
  datatype UpdateError = ParametersNotFound(userId: Uuid) | Integrity(db: Store.DbError)

  /**
   * `update_user_params`: looks the row up by `user_id` (404 if absent), sets
   * every explicitly set field of the patch on it, one `setattr` at a time,
   * and commits. A coordinate patched to `None` breaks its NOT NULL column,
   * so the commit fails and the row is left as it was.
   */
  method UpdateUserParams(db: Store.Session, userId: Uuid, patchParams: UserParameterUpdate)
    returns (r: Result<UserParameter, UpdateError>)
    requires db.Consistent()
    modifies db
    ensures db.Consistent() && db.users == old(db.users) && db.parameters.Keys == old(db.parameters.Keys)
    ensures userId !in old(db.parameters) ==>
      r == Err(ParametersNotFound(userId)) && db.parameters == old(db.parameters)
    ensures userId in old(db.parameters) ==>
      var updated := ApplyPatch(old(db.parameters)[userId], patchParams);
      && (r.Ok? <==> Persistable(updated))
      && (r.Ok? ==> r.value == updated && db.parameters == old(db.parameters)[userId := updated])
      && (r.Err? ==> r == Err(Integrity(Store.NotNullViolation(if updated.preferredLat.None? then "preferred_lat" else "preferred_lon")))
                     && db.parameters == old(db.parameters))
  {
    var dbUserParams := db.GetParamsByUserId(userId);
    if dbUserParams.None? {
      return Err(ParametersNotFound(userId));
    }
    var original := dbUserParams.value;
    var row := original;
    var patchData := ModelDumpExcludeUnset(patchParams);
    for i := 0 to |patchData|
      invariant row == ApplyItems(original, patchData[..i])
    {
      assert patchData[..i + 1][..i] == patchData[..i];
      row := SetAttr(row, patchData[i].0, patchData[i].1);
    }
    assert patchData[..|patchData|] == patchData;
    var err := db.SaveParameterRow(row);
    if err.Some? {
      return Err(Integrity(err.value));
    }
    r := Ok(row);
  }

  /**
   * The same PATCH request sent twice in a row: the second answers exactly
   * as the first did, and the tables end as the first request left them.
   */
  method RepeatedPatch(db: Store.Session, userId: Uuid, patchParams: UserParameterUpdate)
    returns (first: Result<UserParameter, UpdateError>, second: Result<UserParameter, UpdateError>)
    requires db.Consistent()
    modifies db
    ensures second == first
    ensures db.Consistent() && db.users == old(db.users)
    ensures db.parameters == (if first.Ok? then old(db.parameters)[userId := first.value] else old(db.parameters))
  {
    if userId in db.parameters {
      ApplyPatchIdempotent(db.parameters[userId], patchParams);
    }
    first := UpdateUserParams(db, userId, patchParams);
    second := UpdateUserParams(db, userId, patchParams);
  }

  /** A threshold explicitly set to `None` is stored as null; the other fields keep their values. */
  lemma NullThresholdOverwrites(row: UserParameter)
    requires Persistable(row)
    ensures var patched := ApplyPatch(row, UserParameterUpdate(allergens := Set(None)));
      && Persistable(patched)
      && patched.allergens == None
      && forall f :: f != ThresholdField(Allergens) ==> Get(patched, f) == Get(row, f)
  {
    var u := UserParameterUpdate(allergens := Set(None));
    assert Entry(u, ThresholdField(Allergens)) == Some(Parameter(None));
    assert forall f :: f != ThresholdField(Allergens) ==> Entry(u, f) == None;
    var patched := ApplyPatch(row, u);
    assert Get(patched, PreferredLat) == Get(row, PreferredLat);
    assert Get(patched, PreferredLon) == Get(row, PreferredLon);
  }
}
