/**
 * app/services/user_parameter_service.py: building a user's parameter row
 * (from a given update or from the defaults) and handing it to the data
 * manager, which adds it to the parameter table.
 */
module UserParameterService {
  import opened Wrappers
  import opened UserModel
  import opened UserParameterModel
  import Store

  /** The coordinates a row gets when no parameters are given. */
  const DEFAULT_LAT: real := -36.15
  const DEFAULT_LON: real := 95.98

  /** A dumped value that is `None`. */
  predicate IsNull(v: FieldValue)
  {
    (v.Coordinate? && v.coordinate.None?) || (v.Parameter? && v.parameter.None?)
  }

  /** The first of `fields` that the update dumps as `None`, the field pydantic's validation reports. */
  function FirstNullField(u: UserParameterUpdate, fields: seq<ParamField>): (r: Option<ParamField>)
    ensures r.None? <==> forall i :: 0 <= i < |fields| ==> !IsNull(DumpedValue(u, fields[i]))
    ensures r.Some? ==> r.value in fields && IsNull(DumpedValue(u, r.value))
  {
    if fields == [] then None
    else if IsNull(DumpedValue(u, fields[0])) then Some(fields[0])
    else
      var r := FirstNullField(u, fields[1..]);
      assert forall i :: 1 <= i < |fields| ==> fields[i] == fields[1..][i - 1];
      r
  }

  /** The row with the default coordinates and the default thresholds. */
  function DefaultRow(userId: Uuid): UserParameter
  {
    UserParameter(userId, Some(DEFAULT_LAT), Some(DEFAULT_LON),
      Some(DefaultThreshold(UvIndex)), Some(DefaultThreshold(Aqi)), Some(DefaultThreshold(WindSpeed)),
      Some(DefaultThreshold(RainChance)), Some(DefaultThreshold(Pm10)), Some(DefaultThreshold(Pm25)),
      Some(DefaultThreshold(Allergens)))
  }

  /**
   * The row `add_parameter` builds. Without an update: the default
   * coordinates and thresholds. With one: `UserParameterBase(**model_dump())`,
   * which validation refuses when any field (set or not) dumps as `None`.
   */
  function BuildUserParameter(userId: Uuid, parameter: Option<UserParameterUpdate>): (r: Result<UserParameter, ValidationError>)
    ensures r.Ok? ==> r.value.userId == userId && Persistable(r.value)
    ensures r.Ok? ==> forall f :: !IsNull(Get(r.value, f))
    ensures parameter.None? ==> (r.Ok?
      && r.value.preferredLat == Some(DEFAULT_LAT) && r.value.preferredLon == Some(DEFAULT_LON)
      && forall t :: Get(r.value, ThresholdField(t)) == Parameter(Some(DefaultThreshold(t))))
    ensures parameter.Some? ==> (r.Ok? <==> forall f :: !IsNull(DumpedValue(parameter.value, f)))
    ensures parameter.Some? && r.Ok? ==> forall f :: Get(r.value, f) == DumpedValue(parameter.value, f)
  {
    match parameter
    case None => Ok(DefaultRow(userId))
    case Some(p) =>
      match FirstNullField(p, AllFields)
      case Some(f) =>
        AllFieldsListed(f);
        Err(ValidationError(FieldName(f)))
      case None =>
        assert forall f :: !IsNull(DumpedValue(p, f)) by {
          forall f ensures !IsNull(DumpedValue(p, f)) { AllFieldsListed(f); }
        }
        Ok(UserParameter(userId,
          DumpedValue(p, PreferredLat).coordinate, DumpedValue(p, PreferredLon).coordinate,
          DumpedValue(p, ThresholdField(UvIndex)).parameter, DumpedValue(p, ThresholdField(Aqi)).parameter,
          DumpedValue(p, ThresholdField(WindSpeed)).parameter, DumpedValue(p, ThresholdField(RainChance)).parameter,
          DumpedValue(p, ThresholdField(Pm10)).parameter, DumpedValue(p, ThresholdField(Pm25)).parameter,
          DumpedValue(p, ThresholdField(Allergens)).parameter))
  }

  /** The first field of `row`, in declaration order, that holds `None`. */
  function NullField(row: UserParameter): (r: Option<ParamField>)
    ensures r.None? <==> forall f :: !IsNull(Get(row, f))
    ensures r.Some? ==> IsNull(Get(row, r.value))
  {
    var r :=
      if row.preferredLat.None? then Some(PreferredLat)
      else if row.preferredLon.None? then Some(PreferredLon)
      else if row.uvIndexThreshold.None? then Some(ThresholdField(UvIndex))
      else if row.aqiThreshold.None? then Some(ThresholdField(Aqi))
      else if row.windSpeedThreshold.None? then Some(ThresholdField(WindSpeed))
      else if row.rainChanceThreshold.None? then Some(ThresholdField(RainChance))
      else if row.pm10Threshold.None? then Some(ThresholdField(Pm10))
      else if row.pm25Threshold.None? then Some(ThresholdField(Pm25))
      else if row.allergens.None? then Some(ThresholdField(Allergens))
      else None;
    assert r.Some? ==> IsNull(Get(row, r.value));
    assert r.None? ==> forall f :: !IsNull(Get(row, f)) by {
      if r.None? {
        forall f ensures !IsNull(Get(row, f)) { AllFieldsListed(f); }
      }
    }
    r
  }

  /**
   * The build the service's callers expect: the fields the update sets
   * overwrite the defaults, the rest keep them, and only a field set
   * explicitly to `None` fails validation.
   */
  function BuildUserParameterIntended(userId: Uuid, parameter: Option<UserParameterUpdate>): (r: Result<UserParameter, ValidationError>)
    ensures parameter.None? ==> r == Ok(DefaultRow(userId))
    ensures parameter.Some? ==>
      (r.Ok? <==> forall f :: Entry(parameter.value, f).Some? ==> !IsNull(Entry(parameter.value, f).value))
    ensures r.Ok? ==> r.value.userId == userId && Persistable(r.value) && forall f :: !IsNull(Get(r.value, f))
    ensures parameter.Some? && r.Ok? ==> forall f ::
      Get(r.value, f) == match Entry(parameter.value, f) case Some(v) => v case None => Get(DefaultRow(userId), f)
  {
    match parameter
    case None => Ok(DefaultRow(userId))
    case Some(p) =>
      var row := ApplyPatch(DefaultRow(userId), p);
      assert forall f :: !IsNull(Get(DefaultRow(userId), f)) by {
        forall f ensures !IsNull(Get(DefaultRow(userId), f)) { AllFieldsListed(f); }
      }
      match NullField(row)
      case Some(f) => Err(ValidationError(FieldName(f)))
      case None => Ok(row)
  }

  /** The update of the service's own test: coordinates given, thresholds left unset. */
  function CoordinatesOnly(): UserParameterUpdate
  {
    UserParameterUpdate(preferredLat := Set(Some(50.0)), preferredLon := Set(Some(-100.0)))
  }

  /** As written, the coordinates-only update is refused: the unset thresholds dump `None` into required fields. */
  lemma CoordinatesOnlyRefused(userId: Uuid)
    ensures BuildUserParameter(userId, Some(CoordinatesOnly())).Err?
  {
    assert IsNull(DumpedValue(CoordinatesOnly(), ThresholdField(UvIndex)));
  }

  /** Intended, the coordinates-only update is accepted with the default thresholds. */
  lemma CoordinatesOnlyAccepted(userId: Uuid)
    ensures BuildUserParameterIntended(userId, Some(CoordinatesOnly()))
         == Ok(DefaultRow(userId).(preferredLat := Some(50.0), preferredLon := Some(-100.0)))
  {
    var r := BuildUserParameterIntended(userId, Some(CoordinatesOnly()));
    assert forall f :: Entry(CoordinatesOnly(), f).Some? ==> !IsNull(Entry(CoordinatesOnly(), f).value);
    RowExtensionality(r.value, DefaultRow(userId).(preferredLat := Some(50.0), preferredLon := Some(-100.0)));
  }

  /** Wherever the build as written succeeds, the intended build gives the same row. */
  lemma BuildVersionsAgree(userId: Uuid, parameter: Option<UserParameterUpdate>)
    requires BuildUserParameter(userId, parameter).Ok?
    ensures BuildUserParameterIntended(userId, parameter) == BuildUserParameter(userId, parameter)
  {
    if parameter.Some? {
      var p := parameter.value;
      var a := BuildUserParameter(userId, parameter).value;
      assert forall f :: Entry(p, f).Some? ==> !IsNull(Entry(p, f).value) by {
        forall f | Entry(p, f).Some? ensures !IsNull(Entry(p, f).value) {
          assert DumpedValue(p, f) == Entry(p, f).value;
        }
      }
      var b := BuildUserParameterIntended(userId, parameter).value;
      assert forall f :: Get(b, f) == Get(a, f) by {
        forall f ensures Get(b, f) == Get(a, f) {
          assert !IsNull(DumpedValue(p, f));
        }
      }
      RowExtensionality(b, a);
    }
  }

  /** Why `add_parameter` fails: validation of the given update, or the insert. */
  datatype AddParameterError = Invalid(validation: ValidationError) | Integrity(db: Store.DbError)

  /**
   * `UserParameterService.add_parameter`: builds the row and hands exactly that
   * one row to the data manager's `add_one`. (The Python method returns what
   * `add_user_parameters` returns, which is `None`.)
   */
  method AddParameter(db: Store.Session, userId: Uuid, parameter: Option<UserParameterUpdate>)
    returns (r: Outcome<AddParameterError>)
    requires db.Consistent()
    modifies db
    ensures db.Consistent() && db.users == old(db.users)
    ensures BuildUserParameter(userId, parameter).Err? ==>
      r == Fail(Invalid(BuildUserParameter(userId, parameter).error)) && db.parameters == old(db.parameters)
    ensures BuildUserParameter(userId, parameter).Ok? ==>
      var row := BuildUserParameter(userId, parameter).value;
      && (r == Pass <==> userId in old(db.users) && userId !in old(db.parameters))
      && db.parameters == (if r == Pass then old(db.parameters)[userId := row] else old(db.parameters))
  {
    var built := BuildUserParameter(userId, parameter);
    if built.Err? {
      return Fail(Invalid(built.error));
    }
    var err := db.AddParameterRow(built.value);
    if err.Some? {
      return Fail(Integrity(err.value));
    }
    r := Pass;
  }
}
