/**
 * `PropensityValidator`: the object that checks one propensity model. Its fields are the
 * parts of `self.result`; every method updates them in place, as the Python methods do, and
 * is proved to compute the matching step of the reference definition in `ValidationModel`.
 * A method that can raise returns `raised`; the report it leaves behind is the one the
 * exception was raised with.
 */
module Validators {
  import opened Wrappers
  import opened PbModels
  import opened ValidationModel

  /** Where a step ended: normally, or by raising. */
  function AsFlow(raised: bool, r: Report): Flow {
    if raised then Raise(r) else Continue(r)
  }

  class PropensityValidator {
    const modelName: string
    const warehouse: WarehouseClient
    /** The graph handed in by the caller; `None` when the project could not be loaded. */
    const graph: Option<PBModelsData>
    /** What loading the project's YAML configuration gives; `None` when loading raises. */
    const projectConfigs: Option<ProjectConfigs>

    var status: Status
    var errors: seq<Issue>
    var warnings: seq<Issue>
    var suggestions: seq<Issue>
    var tableStats: map<string, TableStats>
    var configs: Option<ProjectConfigs>
    var propensityModel: Option<ConfigModel>

    /** `self.result`. */
    function Result(): Report
      reads this
    {
      Report(modelName, status, errors, warnings, suggestions, tableStats)
    }

    /** The context the graph pass works in, given the input tables map. */
    function Context(inputTables: map<string, InputTableConfig>): RunContext
      requires graph.Some?
      reads this
    {
      RunContext(graph.value, warehouse, Threshold(propensityModel), inputTables)
    }

    constructor(modelName: string, warehouse: WarehouseClient, graph: Option<PBModelsData>, projectConfigs: Option<ProjectConfigs>)
      ensures this.modelName == modelName && this.warehouse == warehouse
      ensures this.graph == graph && this.projectConfigs == projectConfigs
      ensures Result() == InitialReport(modelName)
    {
      this.modelName := modelName;
      this.warehouse := warehouse;
      this.graph := graph;
      this.projectConfigs := projectConfigs;
      status := Passed;
      errors := [];
      warnings := [];
      suggestions := [];
      tableStats := map[];
      configs := None;
      propensityModel := None;
    }

    /** `validate`: the whole run, from whatever report the validator already holds. */
    method Validate() returns (report: Report)
      modifies this
      ensures report == ValidationModel.Validate(old(Result()), graph, projectConfigs, warehouse)
      ensures Result() == report
    {
      if graph.None? {
        errors := errors + [Issue(NoModelsData, None, None, "")];
        status := Failed;
        return Result();
      }
      var raised := InitializeConfigs();
      if !raised {
        raised := ValidatePropensityModelSpec();
        if !raised {
          var inputTables := CreateInputTablesMap(configs.value.inputs);
          raised := ValidateUsingGraph(inputTables);
          if !raised {
            SetFinalStatus();
          }
        }
      }
      if raised {
        HandleValidationError();
      }
      report := Result();
    }

    /** `_initialize_configs`: load the configuration (which may raise) and look up the propensity model. */
    method InitializeConfigs() returns (raised: bool)
      modifies this
      ensures raised <==> projectConfigs.None?
      ensures Result() == old(Result())
      ensures !raised ==> (configs == projectConfigs
        && propensityModel == FindConfigModel(projectConfigs.value.models, modelName, "propensity"))
    {
      if projectConfigs.None? {
        return true;
      }
      configs := projectConfigs;
      propensityModel := FindConfigModel(configs.value.models, modelName, "propensity");
      return false;
    }

    /** `_validate_propensity_model_spec`. */
    method ValidatePropensityModelSpec() returns (raised: bool)
      modifies this
      ensures AsFlow(raised, Result()) == SpecCheck(old(Result()), propensityModel)
      ensures propensityModel == old(propensityModel) && configs == old(configs)
    {
      if propensityModel.None? {
        errors := errors + [Issue(ModelNotFound, None, None, modelName)];
        status := Failed;
        return false;
      }
      raised := ValidatePredictWindowDays();
    }

    /**
     * `_validate_propensity_model_predict_window_days`: reading `model_spec.training` of a
     * model without one raises.
     */
    method ValidatePredictWindowDays() returns (raised: bool)
      modifies this
      ensures propensityModel == old(propensityModel) && configs == old(configs)
      ensures propensityModel.Some? && propensityModel.value.training.Training? ==>
        !raised && Result() == PredictWindowDaysCheck(old(Result()), propensityModel.value.training.predictWindowDays)
      ensures !(propensityModel.Some? && propensityModel.value.training.Training?) ==> raised && Result() == old(Result())
    {
      if propensityModel.None? || propensityModel.value.training.MissingTraining? {
        return true;
      }
      var pwd := propensityModel.value.training.predictWindowDays;
      if pwd.None? {
        errors := errors + [Issue(PredictWindowDaysNotFound, None, None, modelName)];
        status := Failed;
      } else if pwd.value <= 0 {
        errors := errors + [Issue(PredictWindowDaysNotPositive, None, None, modelName)];
        status := Failed;
      }
      return false;
    }

    /** `_create_input_tables_map`. */
    method CreateInputTablesMap(inputs: seq<InputTableConfig>) returns (m: map<string, InputTableConfig>)
      ensures m == InputTablesMap(inputs)
    {
      m := map[];
      for i := 0 to |inputs|
        invariant m == InputTablesMap(inputs[..i])
      {
        assert inputs[..i + 1][..i] == inputs[..i];
        if inputs[i].name != "" {
          m := m[inputs[i].name := inputs[i]];
        }
      }
      assert inputs[..|inputs|] == inputs;
    }

    /** `_find_model_by_path`. */
    method FindModelByPath(path: string) returns (r: Option<Model>)
      requires graph.Some?
      ensures r == ValidationModel.FindModelByPath(graph.value, path)
    {
      var models := graph.value.models;
      for i := 0 to |models|
        invariant forall j :: 0 <= j < i ==> models[j].pathRef != path
      {
        if models[i].pathRef == path {
          FindModelByPathFirst(graph.value, path, i);
          return Some(models[i]);
        }
      }
      return None;
    }

    /** `_validate_using_pb_models_data`. */
    method ValidateUsingGraph(inputTables: map<string, InputTableConfig>) returns (raised: bool)
      requires graph.Some?
      modifies this
      ensures AsFlow(raised, Result()) == GraphPass(old(Result()), old(Context(inputTables)))
      ensures propensityModel == old(propensityModel) && configs == old(configs)
    {
      var props := GetModelsByType(graph.value, "propensity");
      if props == [] {
        errors := errors + [Issue(NoPropensityModels, None, None, "")];
        return false;
      }
      if modelName != "" {
        props := Filter(props, (m: Model) => m.name == modelName);
        if props == [] {
          errors := errors + [Issue(ModelNotFound, None, None, modelName)];
          return false;
        }
      }
      raised := ValidateEach(props, inputTables);
    }

    /** The loop of `_validate_using_pb_models_data` over the selected propensity models. */
    method ValidateEach(props: seq<Model>, inputTables: map<string, InputTableConfig>) returns (raised: bool)
      requires graph.Some?
      modifies this
      ensures AsFlow(raised, Result()) == SetChecks(old(Result()), old(Context(inputTables)), props)
      ensures propensityModel == old(propensityModel) && configs == old(configs)
    {
      ghost var ctx := Context(inputTables);
      ghost var r0 := Result();
      for i := 0 to |props|
        invariant Context(inputTables) == ctx
        invariant propensityModel == old(propensityModel) && configs == old(configs)
        invariant SetChecks(r0, ctx, props) == SetChecks(Result(), ctx, props[i..])
      {
        raised := ValidatePropensityModelSet(props[i], inputTables);
        if raised {
          return true;
        }
      }
      return false;
    }

    /** `_validate_propensity_model_set_combined`. */
    method ValidatePropensityModelSet(p: Model, inputTables: map<string, InputTableConfig>) returns (raised: bool)
      requires graph.Some?
      modifies this
      ensures AsFlow(raised, Result()) == SetCheck(old(Result()), old(Context(inputTables)), p)
      ensures propensityModel == old(propensityModel) && configs == old(configs)
    {
      var training := GetModelByName(graph.value, p.name + "_training");
      if training.None? {
        return true;
      }
      ValidateDirectInputFeatures(training.value);
      ghost var ctx := Context(inputTables);
      ghost var r1 := Result();
      var deps := training.value.dependencies;
      var validated: set<string> := {};
      for i := 0 to |deps|
        invariant Context(inputTables) == ctx
        invariant propensityModel == old(propensityModel) && configs == old(configs)
        invariant TrainingDepChecks(r1, ctx, p.name, deps, {}) == TrainingDepChecks(Result(), ctx, p.name, deps[i..], validated)
      {
        var dep := FindModelByPath(deps[i]);
        if dep.None? {
          errors := errors + [Issue(DependencyNotFound, None, None, deps[i])];
        } else if dep.value.modelType == "entity_var_item" && dep.value.pathRef !in validated {
          validated := validated + {dep.value.pathRef};
          ValidateEntityVarTimeFunctions(dep.value);
          ValidateEntityVarDirectDependencies(dep.value);
          ValidateEntityVarLeafInputs(dep.value, p.name, inputTables);
        }
      }
      return false;
    }

    /** `_validate_direct_input_features`. */
    method ValidateDirectInputFeatures(model: Model)
      requires graph.Some?
      modifies this
      ensures errors == old(errors) + NonFeatureIssues(graph.value, model.dependencies)
      ensures status == old(status) && warnings == old(warnings) && suggestions == old(suggestions) && tableStats == old(tableStats)
      ensures propensityModel == old(propensityModel) && configs == old(configs)
    {
      var deps := model.dependencies;
      for i := 0 to |deps|
        invariant status == old(status) && warnings == old(warnings)
        invariant suggestions == old(suggestions) && tableStats == old(tableStats)
        invariant propensityModel == old(propensityModel) && configs == old(configs)
        invariant errors == old(errors) + NonFeatureIssues(graph.value, deps[..i])
      {
        CheckDirectInput(deps[i]);
        NonFeatureIssuesPrefix(graph.value, deps, i, old(errors));
      }
      assert deps[..|deps|] == deps;
    }

    /** The body of the loop in `_validate_direct_input_features`, for one dependency. */
    method CheckDirectInput(d: string)
      requires graph.Some?
      modifies this
      ensures errors == old(errors) + InputIssues(graph.value, d)
      ensures status == old(status) && warnings == old(warnings) && suggestions == old(suggestions) && tableStats == old(tableStats)
      ensures propensityModel == old(propensityModel) && configs == old(configs)
    {
      var dep := FindModelByPath(d);
      if dep.Some? && IsNonFeatureModel(dep.value) {
        errors := errors + [Issue(NonFeatureInput, Some(dep.value.name), None, "")];
      }
    }

    /** `_validate_entity_var_time_functions`. */
    method ValidateEntityVarTimeFunctions(ev: Model)
      modifies this
      ensures errors == old(errors) + TimeFunctionIssues(ev)
      ensures status == old(status) && warnings == old(warnings) && suggestions == old(suggestions) && tableStats == old(tableStats)
      ensures propensityModel == old(propensityModel) && configs == old(configs)
    {
      if ev.featureData.None? || ev.featureData.value.yaml == "" {
        return;
      }
      var text := ev.featureData.value.yaml;
      assert DefinitionText(ev) == Some(text);
      ReportTimeFunction(ev.name, text, "current_date");
      ReportTimeFunction(ev.name, text, "datediff");
    }

    /** One of the two pattern searches of `_validate_entity_var_time_functions`. */
    method ReportTimeFunction(feature: string, text: string, name: string)
      modifies this
      ensures errors == old(errors) + CallIssue(feature, text, name)
      ensures status == old(status) && warnings == old(warnings) && suggestions == old(suggestions) && tableStats == old(tableStats)
      ensures propensityModel == old(propensityModel) && configs == old(configs)
    {
      if ContainsCall(text, name) {
        errors := errors + [Issue(TimeFunctionInFeature, Some(feature), None, name)];
      }
    }

    /** `_validate_entity_var_direct_dependencies`. */
    method ValidateEntityVarDirectDependencies(ev: Model)
      requires graph.Some?
      modifies this
      ensures errors == old(errors) + EventStreamIssues(graph.value, ev, ev.dependencies)
      ensures status == old(status) && warnings == old(warnings) && suggestions == old(suggestions) && tableStats == old(tableStats)
      ensures propensityModel == old(propensityModel) && configs == old(configs)
    {
      var deps := ev.dependencies;
      ghost var g := graph.value;
      for i := 0 to |deps|
        invariant status == old(status) && warnings == old(warnings)
        invariant suggestions == old(suggestions) && tableStats == old(tableStats)
        invariant propensityModel == old(propensityModel) && configs == old(configs)
        invariant errors == old(errors) + EventStreamIssues(g, ev, deps[..i])
      {
        CheckDirectSource(ev, deps[i]);
        EventStreamIssuesPrefix(g, ev, deps, i, old(errors));
      }
      assert deps[..|deps|] == deps;
    }

    /** The body of the loop in `_validate_entity_var_direct_dependencies`, for one dependency. */
    method CheckDirectSource(ev: Model, d: string)
      requires graph.Some?
      modifies this
      ensures errors == old(errors) + SourceIssues(graph.value, ev, d)
      ensures status == old(status) && warnings == old(warnings) && suggestions == old(suggestions) && tableStats == old(tableStats)
      ensures propensityModel == old(propensityModel) && configs == old(configs)
    {
      var dep := FindModelByPath(d);
      if dep.None? {
        errors := errors + [Issue(DependencyNotFound, None, None, d)];
      } else if IsNonEventStreamModel(dep.value) {
        errors := errors + [Issue(NonEventStreamInput, Some(ev.name), Some(dep.value.name), "")];
      }
    }

    /** `_validate_entity_var_leaf_inputs`: walk to the leaves, then check each configured leaf table. */
    method ValidateEntityVarLeafInputs(ev: Model, propName: string, inputTables: map<string, InputTableConfig>)
      requires graph.Some? && ev in graph.value.models
      modifies this
      ensures Result() == LeafChecks(old(Result()), old(Context(inputTables)), propName, ev.name, LeafInputs(graph.value, ev))
      ensures propensityModel == old(propensityModel) && configs == old(configs)
    {
      var visited, leaves := Traverse(ev, {}, []);
      ghost var ctx := Context(inputTables);
      ghost var r0 := Result();
      for i := 0 to |leaves|
        invariant Context(inputTables) == ctx
        invariant propensityModel == old(propensityModel) && configs == old(configs)
        invariant LeafChecks(r0, ctx, propName, ev.name, leaves) == LeafChecks(Result(), ctx, propName, ev.name, leaves[i..])
      {
        var leaf := leaves[i];
        if leaf.name in inputTables {
          var propModel := FindModelByPath("models/" + propName);
          if propModel.Some? {
            ValidateHistoricData(inputTables[leaf.name], Some(ev.name), false);
          }
        }
      }
    }

    /** `traverse`, the recursive walk inside `_validate_entity_var_leaf_inputs`. */
    method Traverse(m: Model, visited: set<string>, leaves: seq<Model>) returns (visited': set<string>, leaves': seq<Model>)
      requires graph.Some? && m in graph.value.models
      ensures WalkState(visited', leaves') == Walk(graph.value, m, WalkState(visited, leaves))
      decreases |AllPaths(graph.value) - visited|, 0
    {
      if m.pathRef in visited {
        return visited, leaves;
      }
      assert m.pathRef in AllPaths(graph.value);
      VisitShrinks(AllPaths(graph.value), visited, m.pathRef);
      visited' := visited + {m.pathRef};
      leaves' := leaves;
      if m.dependencies == [] {
        if m.modelType == "input" {
          leaves' := leaves' + [m];
        }
        return;
      }
      var deps := m.dependencies;
      var hasValidDependency := false;
      ghost var s1 := WalkState(visited', leaves');
      for i := 0 to |deps|
        invariant visited + {m.pathRef} <= visited'
        invariant WalkDeps(graph.value, deps, s1, false) == WalkDeps(graph.value, deps[i..], WalkState(visited', leaves'), hasValidDependency)
      {
        var dep := FindModelByPath(deps[i]);
        if dep.Some? {
          hasValidDependency := true;
          GrowShrinks(AllPaths(graph.value), visited + {m.pathRef}, visited');
          visited', leaves' := Traverse(dep.value, visited', leaves');
        }
      }
      if !hasValidDependency && m.modelType == "input" {
        leaves' := leaves' + [m];
      }
    }

    /** `_validate_historic_data`. */
    method ValidateHistoricData(cfg: InputTableConfig, feature: Option<string>, isFallback: bool)
      modifies this
      ensures Result() == HistoricStep(old(Result()), warehouse, Threshold(propensityModel), cfg, feature, isFallback)
      ensures propensityModel == old(propensityModel) && configs == old(configs)
    {
      if cfg.name in tableStats {
        return;
      }
      if !Truthy(cfg.appDefaults.occurredAtCol) {
        return;
      }
      var col := cfg.appDefaults.occurredAtCol.value;
      var outcome := warehouse.respond(StatsQuery(cfg.appDefaults.table, col, DateRangeExpr(warehouse.warehouseType, col)));
      var raised := false;
      if outcome.QueryFailed? {
        raised := true;
      } else if outcome.rows != [] {
        raised := ProcessTableStats(outcome.rows[0], cfg, feature, isFallback);
      }
      if raised {
        if isFallback {
          warnings := warnings + [Issue(FallbackDataValidationSkipped, None, Some(cfg.name), "")];
        } else {
          suggestions := suggestions + [Issue(DataValidationSkipped, feature, Some(cfg.name), "")];
        }
      }
    }

    /** `_process_table_stats`; reading a window that is not configured raises. */
    method ProcessTableStats(row: StatsRow, cfg: InputTableConfig, feature: Option<string>, isFallback: bool) returns (raised: bool)
      requires Truthy(cfg.appDefaults.occurredAtCol)
      modifies this
      ensures AsFlow(raised, Result()) == ValidationModel.ProcessTableStats(old(Result()), row, cfg,
        cfg.appDefaults.occurredAtCol.value, Threshold(propensityModel), feature, isFallback)
      ensures propensityModel == old(propensityModel) && configs == old(configs)
    {
      var days := OptOr(row.dateRangeDays, 0);
      var totalRows := OptOr(row.totalRows, 0);
      tableStats := tableStats[cfg.name := TableStats(DateText(row.minDate), DateText(row.maxDate), days, totalRows,
                                                       cfg.appDefaults.occurredAtCol.value)];
      var threshold := Threshold(propensityModel);
      if threshold.None? {
        return true;
      }
      if days < threshold.value {
        if isFallback {
          warnings := warnings + [Issue(FallbackInsufficientHistoricData, None, Some(cfg.name), "")];
        } else {
          errors := errors + [Issue(InsufficientHistoricData, feature, Some(cfg.name), "")];
        }
      }
      return false;
    }

    /** `_set_final_status`. */
    method SetFinalStatus()
      modifies this
      ensures Result() == ValidationModel.SetFinalStatus(old(Result()))
    {
      if errors != [] {
        status := Failed;
      } else if warnings != [] {
        status := Warnings;
      } else {
        status := Passed;
      }
    }

    /** `_handle_validation_error`. */
    method HandleValidationError()
      modifies this
      ensures Result() == ValidationModel.HandleValidationError(old(Result()))
    {
      errors := errors + [Issue(ValidationError, None, None, "")];
      status := Failed;
    }
  }
}
