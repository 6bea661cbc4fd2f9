/**
 * The typed dependency graph produced by `pb mcp models`: entities and models, built from the
 * command's decoded JSON with defaulting `from_dict` constructors, and the linear lookup and
 * filter queries the validator walks it with.
 *
 * The decoded JSON is given as `Raw*` records whose `Option` fields are the keys that may be
 * absent; the all-string sub-objects (`materialization`, `feature_data`) are `StringDict`s.
 */
module PbModels {
  import opened Wrappers

  /** A JSON object whose values are all strings. */
  type StringDict = map<string, string>

  /** `d.get(key, default)`. */
  function GetOr(d: StringDict, key: string, default: string): string {
    if key in d then d[key] else default
  }

  function OptOr<T>(o: Option<T>, default: T): T {
    match o
    case Some(v) => v
    case None => default
  }

  // ---------------------------------------------------------------------------------------------
  // Records

  datatype Materialization = Materialization(outputType: string, runType: string, sqlType: Option<string>)

  datatype FeatureData = FeatureData(
    name: string,
    description: string,
    modelName: string,
    modelType: string,
    entity: string,
    cohortPath: string,
    pathRef: string,
    warehouseColumnName: string,
    yaml: string)

  datatype Entity = Entity(
    name: string,
    description: string,
    idColumnName: string,
    idModelRef: string,
    idTypes: seq<string>,
    pathRef: string,
    defaultCohortPathRef: string)

  datatype Model = Model(
    name: string,
    displayName: string,
    modelType: string,
    pathRef: string,
    materialization: Materialization,
    warehouseViewName: string,
    dependencies: seq<string>,
    isFeature: bool,
    isEventStream: bool,
    entity: Option<string>,
    entityKey: Option<string>,
    cohortPathRef: Option<string>,
    featureViewIdColumnName: Option<string>,
    featureData: Option<FeatureData>)

  datatype PBModelsData = PBModelsData(entities: seq<Entity>, models: seq<Model>)

  // ---------------------------------------------------------------------------------------------
  // Decoded JSON, before defaulting

  datatype RawEntity = RawEntity(
    name: Option<string>,
    description: Option<string>,
    idColumnName: Option<string>,
    idModelRef: Option<string>,
    idTypes: Option<seq<string>>,
    pathRef: Option<string>,
    defaultCohortPathRef: Option<string>)

  datatype RawModel = RawModel(
    name: Option<string>,
    displayName: Option<string>,
    modelType: Option<string>,
    pathRef: Option<string>,
    materialization: Option<StringDict>,
    warehouseViewName: Option<string>,
    dependencies: Option<seq<string>>,
    isFeature: Option<bool>,
    isEventStream: Option<bool>,
    entity: Option<string>,
    entityKey: Option<string>,
    cohortPathRef: Option<string>,
    featureViewIdColumnName: Option<string>,
    featureData: Option<StringDict>)

  datatype RawPBModels = RawPBModels(entities: Option<seq<RawEntity>>, models: Option<seq<RawModel>>)

  // ---------------------------------------------------------------------------------------------
  // from_dict constructors

  /** `Materialization.from_dict`: absent `output_type`/`run_type` become "", an absent `sql_type` None. */
  function MaterializationFromDict(d: StringDict): (m: Materialization)
    ensures "output_type" !in d ==> m.outputType == ""
    ensures "run_type" !in d ==> m.runType == ""
    ensures "sql_type" !in d <==> m.sqlType.None?
    ensures "output_type" in d ==> m.outputType == d["output_type"]
    ensures "run_type" in d ==> m.runType == d["run_type"]
    ensures "sql_type" in d ==> m.sqlType == Some(d["sql_type"])
  {
    Materialization(
      GetOr(d, "output_type", ""),
      GetOr(d, "run_type", ""),
      if "sql_type" in d then Some(d["sql_type"]) else None)
  }

  /** The JSON object a `Materialization` serialises to (`sql_type` omitted when None). */
  function MaterializationToDict(m: Materialization): StringDict {
    var base := map["output_type" := m.outputType, "run_type" := m.runType];
    match m.sqlType
    case Some(t) => base["sql_type" := t]
    case None => base
  }

  lemma MaterializationRoundTrip(m: Materialization)
    ensures MaterializationFromDict(MaterializationToDict(m)) == m
  {
  }

  /** `FeatureData.from_dict`: every absent key becomes "". */
  function FeatureDataFromDict(d: StringDict): (f: FeatureData)
    ensures "yaml" in d ==> f.yaml == d["yaml"]
    ensures "yaml" !in d ==> f.yaml == ""
    ensures "name" in d ==> f.name == d["name"]
    ensures "name" !in d ==> f.name == ""
  {
    FeatureData(
      GetOr(d, "name", ""),
      GetOr(d, "description", ""),
      GetOr(d, "model_name", ""),
      GetOr(d, "model_type", ""),
      GetOr(d, "entity", ""),
      GetOr(d, "cohort_path", ""),
      GetOr(d, "path_ref", ""),
      GetOr(d, "warehouse_column_name", ""),
      GetOr(d, "yaml", ""))
  }

  function FeatureDataToDict(f: FeatureData): (d: StringDict)
    ensures d != map[]
  {
    var d := map[
      "name" := f.name,
      "description" := f.description,
      "model_name" := f.modelName,
      "model_type" := f.modelType,
      "entity" := f.entity,
      "cohort_path" := f.cohortPath,
      "path_ref" := f.pathRef,
      "warehouse_column_name" := f.warehouseColumnName,
      "yaml" := f.yaml];
    assert "name" in d;
    d
  }

  /** `Entity.from_dict`: absent strings become "", absent `id_types` the empty list. */
  function EntityFromDict(e: RawEntity): (r: Entity)
    ensures e.name.None? ==> r.name == ""
    ensures e.name.Some? ==> r.name == e.name.value
    ensures e.idTypes.None? ==> r.idTypes == []
    ensures e.idTypes.Some? ==> r.idTypes == e.idTypes.value
  {
    Entity(
      OptOr(e.name, ""),
      OptOr(e.description, ""),
      OptOr(e.idColumnName, ""),
      OptOr(e.idModelRef, ""),
      OptOr(e.idTypes, []),
      OptOr(e.pathRef, ""),
      OptOr(e.defaultCohortPathRef, ""))
  }

  function EntityToDict(e: Entity): RawEntity {
    RawEntity(Some(e.name), Some(e.description), Some(e.idColumnName), Some(e.idModelRef),
      Some(e.idTypes), Some(e.pathRef), Some(e.defaultCohortPathRef))
  }

  lemma EntityRoundTrip(e: Entity)
    ensures EntityFromDict(EntityToDict(e)) == e
  {
  }

  /**
   * `Model.from_dict`. `feature_data` is decoded only when it is present and truthy
   * (a non-empty object); an absent `materialization` decodes as the empty object.
   */
  function ModelFromDict(r: RawModel): Model {
    Model(
      OptOr(r.name, ""),
      OptOr(r.displayName, ""),
      OptOr(r.modelType, ""),
      OptOr(r.pathRef, ""),
      MaterializationFromDict(OptOr(r.materialization, map[])),
      OptOr(r.warehouseViewName, ""),
      OptOr(r.dependencies, []),
      OptOr(r.isFeature, false),
      OptOr(r.isEventStream, false),
      r.entity,
      r.entityKey,
      r.cohortPathRef,
      r.featureViewIdColumnName,
      match r.featureData
      case Some(fd) => if fd != map[] then Some(FeatureDataFromDict(fd)) else None
      case None => None)
  }

  /** The defaults `Model.from_dict` fills in for absent keys. */
  lemma ModelFromDictDefaults(r: RawModel)
    ensures r.dependencies.None? ==> ModelFromDict(r).dependencies == []
    ensures r.isFeature.None? ==> !ModelFromDict(r).isFeature
    ensures r.isEventStream.None? ==> !ModelFromDict(r).isEventStream
    ensures r.entity.None? ==> ModelFromDict(r).entity.None?
    ensures r.entityKey.None? ==> ModelFromDict(r).entityKey.None?
    ensures r.cohortPathRef.None? ==> ModelFromDict(r).cohortPathRef.None?
    ensures r.featureViewIdColumnName.None? ==> ModelFromDict(r).featureViewIdColumnName.None?
    ensures r.materialization.None? ==> ModelFromDict(r).materialization == Materialization("", "", None)
    ensures r.name.None? ==> ModelFromDict(r).name == ""
    ensures r.pathRef.None? ==> ModelFromDict(r).pathRef == ""
  {
  }

  /** `feature_data` is None exactly when the input's `feature_data` is absent or an empty object. */
  lemma ModelFeatureDataPresence(r: RawModel)
    ensures ModelFromDict(r).featureData.None? <==> (r.featureData.None? || r.featureData.value == map[])
    ensures r.featureData.Some? && r.featureData.value != map[] ==>
      ModelFromDict(r).featureData == Some(FeatureDataFromDict(r.featureData.value))
  {
  }

  /** The JSON object a `Model` serialises to: every key present. */
  function ModelToDict(m: Model): RawModel {
    RawModel(
      Some(m.name), Some(m.displayName), Some(m.modelType), Some(m.pathRef),
      Some(MaterializationToDict(m.materialization)), Some(m.warehouseViewName),
      Some(m.dependencies), Some(m.isFeature), Some(m.isEventStream),
      m.entity, m.entityKey, m.cohortPathRef, m.featureViewIdColumnName,
      match m.featureData
      case Some(f) => Some(FeatureDataToDict(f))
      case None => None)
  }

  /** Decoding what a model serialises to gives the model back. */
  lemma ModelRoundTrip(m: Model)
    ensures ModelFromDict(ModelToDict(m)) == m
  {
    MaterializationRoundTrip(m.materialization);
  }

  /** `PBModelsData.from_dict`: one decoded entity and model per input record, in input order. */
  function PBModelsDataFromDict(raw: RawPBModels): (d: PBModelsData)
    ensures |d.entities| == |OptOr(raw.entities, [])|
    ensures |d.models| == |OptOr(raw.models, [])|
    ensures forall i :: 0 <= i < |d.entities| ==> d.entities[i] == EntityFromDict(OptOr(raw.entities, [])[i])
    ensures forall i :: 0 <= i < |d.models| ==> d.models[i] == ModelFromDict(OptOr(raw.models, [])[i])
  {
    var es := OptOr(raw.entities, []);
    var ms := OptOr(raw.models, []);
    PBModelsData(
      seq(|es|, i requires 0 <= i < |es| => EntityFromDict(es[i])),
      seq(|ms|, i requires 0 <= i < |ms| => ModelFromDict(ms[i])))
  }

  // ---------------------------------------------------------------------------------------------
  // Generic first-match and filter

  /** The index of the first element satisfying `p`, or `|xs|` when there is none. */
  function FirstIndexWhere<T>(xs: seq<T>, p: T -> bool): (k: nat)
    ensures k <= |xs|
    ensures forall j :: 0 <= j < k ==> !p(xs[j])
    ensures k < |xs| ==> p(xs[k])
  {
    if xs == [] then 0
    else if p(xs[0]) then 0
    else 1 + FirstIndexWhere(xs[1..], p)
  }

  /** The elements satisfying `p`, in their original order (a list comprehension with a filter). */
  function Filter<T(!new)>(xs: seq<T>, p: T -> bool): (r: seq<T>)
    ensures |r| <= |xs|
    ensures forall x :: x in r <==> x in xs && p(x)
    ensures forall x :: multiset(r)[x] == if p(x) then multiset(xs)[x] else 0
  {
    if xs == [] then []
    else
      var rest := Filter(xs[1..], p);
      assert xs == [xs[0]] + xs[1..];
      if p(xs[0]) then [xs[0]] + rest else rest
  }

  /** Filtering distributes over concatenation: the original relative order is kept. */
  lemma {:induction false} FilterConcat<T(!new)>(xs: seq<T>, ys: seq<T>, p: T -> bool)
    ensures Filter(xs + ys, p) == Filter(xs, p) + Filter(ys, p)
  {
    if xs == [] {
      assert xs + ys == ys;
    } else {
      var zs := xs + ys;
      assert zs[0] == xs[0];
      assert zs[1..] == xs[1..] + ys;
      FilterConcat(xs[1..], ys, p);
      if p(xs[0]) {
        calc {
          Filter(zs, p);
          [xs[0]] + Filter(xs[1..] + ys, p);
          [xs[0]] + (Filter(xs[1..], p) + Filter(ys, p));
          ([xs[0]] + Filter(xs[1..], p)) + Filter(ys, p);
        }
      }
    }
  }

  // ---------------------------------------------------------------------------------------------
  // PBModelsData queries

  /** `get_entity_by_name`: the first entity with that name, or None. */
  function GetEntityByName(d: PBModelsData, name: string): (r: Option<Entity>)
    ensures r.None? <==> forall i :: 0 <= i < |d.entities| ==> d.entities[i].name != name
    ensures r.Some? ==> exists i :: (0 <= i < |d.entities| && d.entities[i] == r.value && r.value.name == name
      && forall j :: 0 <= j < i ==> d.entities[j].name != name)
  {
    var k := FirstIndexWhere(d.entities, (e: Entity) => e.name == name);
    if k < |d.entities| then Some(d.entities[k]) else None
  }

  /** `get_model_by_name_and_type`: the first model with that name and type, or None. */
  function GetModelByNameAndType(d: PBModelsData, name: string, modelType: string): (r: Option<Model>)
    ensures r.None? <==> forall i :: 0 <= i < |d.models| ==> !(d.models[i].name == name && d.models[i].modelType == modelType)
    ensures r.Some? ==> exists i :: (0 <= i < |d.models| && d.models[i] == r.value
      && r.value.name == name && r.value.modelType == modelType
      && forall j :: 0 <= j < i ==> !(d.models[j].name == name && d.models[j].modelType == modelType))
  {
    var k := FirstIndexWhere(d.models, (m: Model) => m.name == name && m.modelType == modelType);
    if k < |d.models| then Some(d.models[k]) else None
  }

  /** `get_model_by_name`: the first model with that name, or None. */
  function GetModelByName(d: PBModelsData, name: string): (r: Option<Model>)
    ensures r.None? <==> forall i :: 0 <= i < |d.models| ==> d.models[i].name != name
    ensures r.Some? ==> exists i :: (0 <= i < |d.models| && d.models[i] == r.value && r.value.name == name
      && forall j :: 0 <= j < i ==> d.models[j].name != name)
  {
    var k := FirstIndexWhere(d.models, (m: Model) => m.name == name);
    if k < |d.models| then Some(d.models[k]) else None
  }

  /** `get_models_by_type`: exactly the models of that type, in original order. */
  function GetModelsByType(d: PBModelsData, modelType: string): (r: seq<Model>)
    ensures forall m :: m in r <==> m in d.models && m.modelType == modelType
    ensures forall m: Model :: m.modelType == modelType ==> multiset(r)[m] == multiset(d.models)[m]
  {
    Filter(d.models, (m: Model) => m.modelType == modelType)
  }

  /** Models listed earlier come out earlier: the query distributes over a split of the model list. */
  lemma GetModelsByTypeKeepsOrder(es: seq<Entity>, xs: seq<Model>, ys: seq<Model>, modelType: string)
    ensures GetModelsByType(PBModelsData(es, xs + ys), modelType)
         == GetModelsByType(PBModelsData(es, xs), modelType) + GetModelsByType(PBModelsData(es, ys), modelType)
  {
    FilterConcat(xs, ys, (m: Model) => m.modelType == modelType);
  }

  /** `get_models_by_entity`: exactly the models whose `entity` is that name. */
  function GetModelsByEntity(d: PBModelsData, entityName: string): (r: seq<Model>)
    ensures forall m :: m in r <==> m in d.models && m.entity == Some(entityName)
    ensures forall m: Model :: m.entity == Some(entityName) ==> multiset(r)[m] == multiset(d.models)[m]
  {
    Filter(d.models, (m: Model) => m.entity == Some(entityName))
  }

  /** `get_feature_models`: exactly the models flagged `is_feature`. */
  function GetFeatureModels(d: PBModelsData): (r: seq<Model>)
    ensures forall m :: m in r <==> m in d.models && m.isFeature
    ensures forall m: Model :: m.isFeature ==> multiset(r)[m] == multiset(d.models)[m]
  {
    Filter(d.models, (m: Model) => m.isFeature)
  }

  /** `get_input_models`: the models of type "input". */
  function GetInputModels(d: PBModelsData): (r: seq<Model>)
    ensures forall m :: m in r <==> m in d.models && m.modelType == "input"
  {
    GetModelsByType(d, "input")
  }

  /** `get_id_stitcher_models`: the models of type "id_stitcher". */
  function GetIdStitcherModels(d: PBModelsData): (r: seq<Model>)
    ensures forall m :: m in r <==> m in d.models && m.modelType == "id_stitcher"
  {
    GetModelsByType(d, "id_stitcher")
  }

  /** `get_feature_views`: the models of type "feature_view". */
  function GetFeatureViews(d: PBModelsData): (r: seq<Model>)
    ensures forall m :: m in r <==> m in d.models && m.modelType == "feature_view"
  {
    GetModelsByType(d, "feature_view")
  }

  /**
   * `get_propensity_models`: despite its name it selects the models of type "python_model",
   * so a model of type "propensity" is never among them.
   */
  function GetPropensityModels(d: PBModelsData): (r: seq<Model>)
    ensures forall m :: m in r <==> m in d.models && m.modelType == "python_model"
    ensures forall m :: m in r ==> m.modelType != "propensity"
  {
    GetModelsByType(d, "python_model")
  }
}
