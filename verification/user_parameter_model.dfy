/**
 * app/models/user_parameter_model.py: one weather or air-quality preference
 * with its importance, the stored per-user parameter row with its default
 * thresholds, and the all-optional update model with its explicit-field
 * tracking.
 */
module UserParameterModel {
  import opened Wrappers
  import opened UserModel

  /** `importance` is validated to lie in 0..10. */
  const IMPORTANCE_MIN: int := 0
  const IMPORTANCE_MAX: int := 10
  type Importance = i: int | IMPORTANCE_MIN <= i <= IMPORTANCE_MAX witness 1

  /** `UserIndividualParameter`, with its field defaults. */
  datatype IndividualParameter = IndividualParameter(
    importance: Importance := 1,
    parameterName: string,
    parameterValue: Option<real> := None,
    parameterArrayValue: Option<seq<string>> := None)

  /** A pydantic validation failure, naming the field. */
  datatype ValidationError = ValidationError(field: string)

  /** Building a `UserIndividualParameter`: pydantic refuses an importance outside 0..10. */
  function NewIndividualParameter(importance: int, parameterName: string,
                                  parameterValue: Option<real> := None,
                                  parameterArrayValue: Option<seq<string>> := None): (r: Result<IndividualParameter, ValidationError>)
    ensures r.Ok? <==> IMPORTANCE_MIN <= importance <= IMPORTANCE_MAX
    ensures r.Ok? ==> r.value.importance == importance && r.value.parameterName == parameterName
                      && r.value.parameterValue == parameterValue && r.value.parameterArrayValue == parameterArrayValue
    ensures r.Err? ==> r.error == ValidationError("importance")
  {
    if IMPORTANCE_MIN <= importance <= IMPORTANCE_MAX
    then Ok(IndividualParameter(importance, parameterName, parameterValue, parameterArrayValue))
    else Err(ValidationError("importance"))
  }

  /** A parameter given only its name has importance 1 and no value of either kind. */
  lemma IndividualParameterDefaults(name: string)
    ensures NewIndividualParameter(1, name) == Ok(IndividualParameter(parameterName := name))
    ensures var p := IndividualParameter(parameterName := name);
      p.importance == 1 && p.parameterValue == None && p.parameterArrayValue == None
  {
  }

  /** The seven threshold fields of `UserParameterBase`. */
  datatype Threshold = UvIndex | Aqi | WindSpeed | RainChance | Pm10 | Pm25 | Allergens

  /** Every field of `UserParameterBase`, in declaration order. */
  datatype ParamField = PreferredLat | PreferredLon | ThresholdField(threshold: Threshold)

  const AllFields: seq<ParamField> := [PreferredLat, PreferredLon,
    ThresholdField(UvIndex), ThresholdField(Aqi), ThresholdField(WindSpeed), ThresholdField(RainChance),
    ThresholdField(Pm10), ThresholdField(Pm25), ThresholdField(Allergens)]

  lemma AllFieldsListed(f: ParamField)
    ensures f in AllFields
  {
    match f
    case PreferredLat => case PreferredLon =>
    case ThresholdField(t) =>
      match t
      case UvIndex => case Aqi => case WindSpeed => case RainChance => case Pm10 => case Pm25 => case Allergens =>
  }

  /** The Python attribute name of a field. */
  function FieldName(f: ParamField): string
  {
    match f
    case PreferredLat => "preferred_lat"
    case PreferredLon => "preferred_lon"
    case ThresholdField(t) =>
      match t
      case UvIndex => "uv_index_threshold"
      case Aqi => "aqi_threshold"
      case WindSpeed => "wind_speed_threshold"
      case RainChance => "rain_chance_threshold"
      case Pm10 => "pm10_threshold"
      case Pm25 => "pm2_5_threshold"
      case Allergens => "allergens"
  }

  /** The `default_factory` of each threshold field. */
  function DefaultThreshold(t: Threshold): IndividualParameter
  {
    match t
    case UvIndex => IndividualParameter(5, "uv_index_threshold", Some(6.0))
    case Aqi => IndividualParameter(5, "aqi_threshold", Some(100.0))
    case WindSpeed => IndividualParameter(3, "wind_speed_threshold", Some(10.0))
    case RainChance => IndividualParameter(7, "rain_chance_threshold", Some(0.5))
    case Pm10 => IndividualParameter(4, "pm10_threshold", Some(50.0))
    case Pm25 => IndividualParameter(4, "pm2_5_threshold", Some(35.0))
    case Allergens => IndividualParameter(5, "allergens", parameterArrayValue := Some([]))
  }

  /**
   * Each default is named after the field it fills, passes the importance
   * validation, and carries the literal importance and value.
   */
  lemma DefaultThresholds()
    ensures forall t: Threshold :: DefaultThreshold(t).parameterName == FieldName(ThresholdField(t))
    ensures forall t: Threshold :: NewIndividualParameter(DefaultThreshold(t).importance, DefaultThreshold(t).parameterName,
      DefaultThreshold(t).parameterValue, DefaultThreshold(t).parameterArrayValue) == Ok(DefaultThreshold(t))
    ensures forall t: Threshold :: t != Allergens ==> DefaultThreshold(t).parameterArrayValue == None
    ensures (DefaultThreshold(UvIndex).importance, DefaultThreshold(UvIndex).parameterValue) == (5, Some(6.0))
    ensures (DefaultThreshold(Aqi).importance, DefaultThreshold(Aqi).parameterValue) == (5, Some(100.0))
    ensures (DefaultThreshold(WindSpeed).importance, DefaultThreshold(WindSpeed).parameterValue) == (3, Some(10.0))
    ensures (DefaultThreshold(RainChance).importance, DefaultThreshold(RainChance).parameterValue) == (7, Some(0.5))
    ensures (DefaultThreshold(Pm10).importance, DefaultThreshold(Pm10).parameterValue) == (4, Some(50.0))
    ensures (DefaultThreshold(Pm25).importance, DefaultThreshold(Pm25).parameterValue) == (4, Some(35.0))
    ensures DefaultThreshold(Allergens).importance == 5 && DefaultThreshold(Allergens).parameterValue == None
    ensures DefaultThreshold(Allergens).parameterArrayValue == Some([])
  {
    forall t: Threshold ensures DefaultThreshold(t).parameterName == FieldName(ThresholdField(t)) {
      match t
      case UvIndex => case Aqi => case WindSpeed => case RainChance => case Pm10 => case Pm25 => case Allergens =>
    }
  }

  /** The value of one field: a coordinate or a threshold, either of which may be `None` in memory. */
  datatype FieldValue = Coordinate(coordinate: Option<real>) | Parameter(parameter: Option<IndividualParameter>)

  /** The value has the field's type. */
  predicate Fits(f: ParamField, v: FieldValue)
  {
    (f.PreferredLat? || f.PreferredLon?) <==> v.Coordinate?
  }

  /**
   * The `UserParameter` row, keyed by `user_id`. Fields hold `Option`s
   * because the update route's `setattr` can place `None` in any of them; the
   * row surrogate id and the timestamps are not modelled.
   */
  datatype UserParameter = UserParameter(
    userId: Uuid,
    preferredLat: Option<real>,
    preferredLon: Option<real>,
    uvIndexThreshold: Option<IndividualParameter>,
    aqiThreshold: Option<IndividualParameter>,
    windSpeedThreshold: Option<IndividualParameter>,
    rainChanceThreshold: Option<IndividualParameter>,
    pm10Threshold: Option<IndividualParameter>,
    pm25Threshold: Option<IndividualParameter>,
    allergens: Option<IndividualParameter>)

  /** `getattr(row, f)`. */
  function Get(row: UserParameter, f: ParamField): (v: FieldValue)
    ensures Fits(f, v)
  {
    match f
    case PreferredLat => Coordinate(row.preferredLat)
    case PreferredLon => Coordinate(row.preferredLon)
    case ThresholdField(t) =>
      match t
      case UvIndex => Parameter(row.uvIndexThreshold)
      case Aqi => Parameter(row.aqiThreshold)
      case WindSpeed => Parameter(row.windSpeedThreshold)
      case RainChance => Parameter(row.rainChanceThreshold)
      case Pm10 => Parameter(row.pm10Threshold)
      case Pm25 => Parameter(row.pm25Threshold)
      case Allergens => Parameter(row.allergens)
  }

  /** `setattr(row, f, v)`: that field changes, nothing else does. */
  function SetAttr(row: UserParameter, f: ParamField, v: FieldValue): (r: UserParameter)
    requires Fits(f, v)
    ensures r.userId == row.userId
    ensures Get(r, f) == v
    ensures forall g :: g != f ==> Get(r, g) == Get(row, g)
  {
    match f
    case PreferredLat => row.(preferredLat := v.coordinate)
    case PreferredLon => row.(preferredLon := v.coordinate)
    case ThresholdField(t) =>
      match t
      case UvIndex => row.(uvIndexThreshold := v.parameter)
      case Aqi => row.(aqiThreshold := v.parameter)
      case WindSpeed => row.(windSpeedThreshold := v.parameter)
      case RainChance => row.(rainChanceThreshold := v.parameter)
      case Pm10 => row.(pm10Threshold := v.parameter)
      case Pm25 => row.(pm25Threshold := v.parameter)
      case Allergens => row.(allergens := v.parameter)
  }

  /** Two rows with the same key and the same value in every field are the same row. */
  lemma RowExtensionality(a: UserParameter, b: UserParameter)
    requires a.userId == b.userId
    requires forall f :: Get(a, f) == Get(b, f)
    ensures a == b
  {
    assert Get(a, PreferredLat) == Get(b, PreferredLat);
    assert Get(a, PreferredLon) == Get(b, PreferredLon);
    assert Get(a, ThresholdField(UvIndex)) == Get(b, ThresholdField(UvIndex));
    assert Get(a, ThresholdField(Aqi)) == Get(b, ThresholdField(Aqi));
    assert Get(a, ThresholdField(WindSpeed)) == Get(b, ThresholdField(WindSpeed));
    assert Get(a, ThresholdField(RainChance)) == Get(b, ThresholdField(RainChance));
    assert Get(a, ThresholdField(Pm10)) == Get(b, ThresholdField(Pm10));
    assert Get(a, ThresholdField(Pm25)) == Get(b, ThresholdField(Pm25));
    assert Get(a, ThresholdField(Allergens)) == Get(b, ThresholdField(Allergens));
  }

  /** The NOT NULL columns (`preferred_lat`, `preferred_lon`) hold values; the JSONB threshold columns may be null. */
  predicate Persistable(row: UserParameter)
  {
    row.preferredLat.Some? && row.preferredLon.Some?
  }

  /** A field of the update model: never set (left at its `None` default), or explicitly set, possibly to `None`. */
  datatype Patch<T> = Unset | Set(value: Option<T>)

  /** `UserParameterUpdate`: every field optional and unset by default. */
  datatype UserParameterUpdate = UserParameterUpdate(
    preferredLat: Patch<real> := Unset,
    preferredLon: Patch<real> := Unset,
    uvIndexThreshold: Patch<IndividualParameter> := Unset,
    aqiThreshold: Patch<IndividualParameter> := Unset,
    windSpeedThreshold: Patch<IndividualParameter> := Unset,
    rainChanceThreshold: Patch<IndividualParameter> := Unset,
    pm10Threshold: Patch<IndividualParameter> := Unset,
    pm25Threshold: Patch<IndividualParameter> := Unset,
    allergens: Patch<IndividualParameter> := Unset)

  function CoordinateEntry(p: Patch<real>): Option<FieldValue>
  {
    match p
    case Unset => None
    case Set(v) => Some(Coordinate(v))
  }

  function ParameterEntry(p: Patch<IndividualParameter>): Option<FieldValue>
  {
    match p
    case Unset => None
    case Set(v) => Some(Parameter(v))
  }

  /** The entry of `model_dump(exclude_unset=True)` for one field: present exactly when the field was set. */
  function Entry(u: UserParameterUpdate, f: ParamField): (e: Option<FieldValue>)
    ensures e.Some? ==> Fits(f, e.value)
  {
    match f
    case PreferredLat => CoordinateEntry(u.preferredLat)
    case PreferredLon => CoordinateEntry(u.preferredLon)
    case ThresholdField(t) =>
      match t
      case UvIndex => ParameterEntry(u.uvIndexThreshold)
      case Aqi => ParameterEntry(u.aqiThreshold)
      case WindSpeed => ParameterEntry(u.windSpeedThreshold)
      case RainChance => ParameterEntry(u.rainChanceThreshold)
      case Pm10 => ParameterEntry(u.pm10Threshold)
      case Pm25 => ParameterEntry(u.pm25Threshold)
      case Allergens => ParameterEntry(u.allergens)
  }

  /** The value `model_dump()` gives a field: its set value, or the `None` default. */
  function DumpedValue(u: UserParameterUpdate, f: ParamField): (v: FieldValue)
    ensures Fits(f, v)
    ensures Entry(u, f).Some? ==> v == Entry(u, f).value
    ensures Entry(u, f).None? ==> v == (if f.ThresholdField? then Parameter(None) else Coordinate(None))
  {
    match Entry(u, f)
    case Some(v) => v
    case None => if f.ThresholdField? then Parameter(None) else Coordinate(None)
  }

  /** An update built with no arguments has no field set and dumps `None` everywhere. */
  lemma UpdateDefaults()
    ensures forall f :: Entry(UserParameterUpdate(), f) == None
    ensures forall f :: DumpedValue(UserParameterUpdate(), f).Coordinate? ==> DumpedValue(UserParameterUpdate(), f).coordinate == None
    ensures forall f :: DumpedValue(UserParameterUpdate(), f).Parameter? ==> DumpedValue(UserParameterUpdate(), f).parameter == None
  {
  }

  type Item = (ParamField, FieldValue)

  predicate ItemsFit(items: seq<Item>)
  {
    forall i :: 0 <= i < |items| ==> Fits(items[i].0, items[i].1)
  }

  /** The set fields among `fields`, in that order, with their values. */
  function DumpFields(u: UserParameterUpdate, fields: seq<ParamField>): (items: seq<Item>)
    ensures ItemsFit(items)
  {
    if fields == [] then []
    else
      var f := fields[|fields| - 1];
      DumpFields(u, fields[..|fields| - 1]) + (if Entry(u, f).Some? then [(f, Entry(u, f).value)] else [])
  }

  /** `patch_params.model_dump(exclude_unset=True).items()`, in field declaration order. */
  function ModelDumpExcludeUnset(u: UserParameterUpdate): (items: seq<Item>)
    ensures ItemsFit(items)
  {
    DumpFields(u, AllFields)
  }

  /** The value the last item for `f` carries, if any item names `f`. */
  function LastFor(items: seq<Item>, f: ParamField): Option<FieldValue>
  {
    if items == [] then None
    else if items[|items| - 1].0 == f then Some(items[|items| - 1].1)
    else LastFor(items[..|items| - 1], f)
  }

  lemma {:induction false} DumpFieldsLastFor(u: UserParameterUpdate, fields: seq<ParamField>, f: ParamField)
    ensures LastFor(DumpFields(u, fields), f) == if f in fields then Entry(u, f) else None
  {
    if fields != [] {
      var init, g := fields[..|fields| - 1], fields[|fields| - 1];
      assert fields == init + [g];
      DumpFieldsLastFor(u, init, f);
      var prefix := DumpFields(u, init);
      if Entry(u, g).Some? {
        var items := prefix + [(g, Entry(u, g).value)];
        assert items[..|items| - 1] == prefix;
      } else {
        assert DumpFields(u, fields) == prefix;
      }
    }
  }

  /** The dump names exactly the set fields, each with its set value. */
  lemma ModelDumpLastFor(u: UserParameterUpdate, f: ParamField)
    ensures LastFor(ModelDumpExcludeUnset(u), f) == Entry(u, f)
  {
    AllFieldsListed(f);
    DumpFieldsLastFor(u, AllFields, f);
  }

  /** The `setattr` loop applied to a prefix of the items. */
  function ApplyItems(row: UserParameter, items: seq<Item>): (r: UserParameter)
    requires ItemsFit(items)
    ensures r.userId == row.userId
  {
    if items == [] then row
    else SetAttr(ApplyItems(row, items[..|items| - 1]), items[|items| - 1].0, items[|items| - 1].1)
  }

  lemma {:induction false} ApplyItemsGet(row: UserParameter, items: seq<Item>, f: ParamField)
    requires ItemsFit(items)
    ensures Get(ApplyItems(row, items), f) == match LastFor(items, f) case Some(v) => v case None => Get(row, f)
  {
    if items != [] {
      ApplyItemsGet(row, items[..|items| - 1], f);
    }
  }

  /**
   * The merge the update route performs: every field set in the patch takes
   * the patch value (`None` included), every other field keeps its value.
   */
  function ApplyPatch(row: UserParameter, u: UserParameterUpdate): (r: UserParameter)
    ensures r.userId == row.userId
    ensures forall f :: Entry(u, f).Some? ==> Get(r, f) == Entry(u, f).value
    ensures forall f :: Entry(u, f).None? ==> Get(r, f) == Get(row, f)
  {
    var items := ModelDumpExcludeUnset(u);
    var r := ApplyItems(row, items);
    assert forall f :: Get(r, f) == match Entry(u, f) case Some(v) => v case None => Get(row, f) by {
      forall f ensures Get(r, f) == match Entry(u, f) case Some(v) => v case None => Get(row, f) {
        ApplyItemsGet(row, items, f);
        ModelDumpLastFor(u, f);
      }
    }
    r
  }

  /** Applying the same patch twice gives the row that applying it once gives. */
  lemma ApplyPatchIdempotent(row: UserParameter, u: UserParameterUpdate)
    ensures ApplyPatch(ApplyPatch(row, u), u) == ApplyPatch(row, u)
  {
    var once := ApplyPatch(row, u);
    RowExtensionality(ApplyPatch(once, u), once);
  }

  /** An empty patch changes nothing. */
  lemma EmptyPatchIsIdentity(row: UserParameter)
    ensures ApplyPatch(row, UserParameterUpdate()) == row
  {
    RowExtensionality(ApplyPatch(row, UserParameterUpdate()), row);
  }
}
