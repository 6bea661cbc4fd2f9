/**
 * The propensity-model validator as a pure reference definition.
 *
 * Every step of `PropensityValidator.validate` is a function from the report built so far
 * (`Report`, the `self.result` dictionary) to the next one. A Python exception that escapes
 * a step is `Raise(r)`, carrying the report as it stood when the exception was raised;
 * `validate` turns it into one `VALIDATION_ERROR`. The imperative class in module
 * `Validators` is proved to compute exactly these functions, and the lemmas below state
 * what the source promises about them.
 */
module ValidationModel {
  import opened Wrappers
  import opened Text
  import opened PbModels

  // ---------------------------------------------------------------------------------------------
  // Report

  /** The `type` field of an issue. */
  datatype IssueKind =
    | NoModelsData
    | ModelNotFound
    | PredictWindowDaysNotFound
    | PredictWindowDaysNotPositive
    | NoPropensityModels
    | DependencyNotFound
    | NonFeatureInput
    | TimeFunctionInFeature
    | NonEventStreamInput
    | InsufficientHistoricData
    | FallbackInsufficientHistoricData
    | DataValidationSkipped
    | FallbackDataValidationSkipped
    | ValidationError

  /**
   * One entry of `errors`, `warnings` or `suggestions`: its `type`, the `feature` and `table`
   * keys when the entry has them, and `subject`, the one datum its message is about (the
   * unresolved dependency path, the forbidden function's name, the model name), or "".
   */
  datatype Issue = Issue(kind: IssueKind, feature: Option<string>, table: Option<string>, subject: string)

  datatype Status = Passed | Warnings | Failed

  /** One `table_stats` entry. */
  datatype TableStats = TableStats(
    minDate: Option<string>,
    maxDate: Option<string>,
    dateRangeDays: int,
    totalRows: int,
    occurredAtCol: string)

  /** The `self.result` dictionary. */
  datatype Report = Report(
    modelName: string,
    status: Status,
    errors: seq<Issue>,
    warnings: seq<Issue>,
    suggestions: seq<Issue>,
    tableStats: map<string, TableStats>)

  /** `_initialize_result`. */
  function InitialReport(modelName: string): Report {
    Report(modelName, Passed, [], [], [], map[])
  }

  /** A step either finishes normally or raises, carrying the report as it stood at the raise. */
  datatype Flow = Continue(report: Report) | Raise(report: Report)

  function AddError(r: Report, i: Issue): Report {
    r.(errors := r.errors + [i])
  }

  /** How many entries of `issues` have the given kind. */
  function CountKind(issues: seq<Issue>, kind: IssueKind): nat {
    if issues == [] then 0
    else (if issues[0].kind == kind then 1 else 0) + CountKind(issues[1..], kind)
  }

  lemma {:induction false} CountKindConcat(a: seq<Issue>, b: seq<Issue>, kind: IssueKind)
    ensures CountKind(a + b, kind) == CountKind(a, kind) + CountKind(b, kind)
  {
    if a != [] {
      assert (a + b)[1..] == a[1..] + b;
      CountKindConcat(a[1..], b, kind);
    } else {
      assert a + b == b;
    }
  }

  // ---------------------------------------------------------------------------------------------
  // Configuration (what the YAML loader hands over) and the warehouse oracle

  /** The `training` section of a propensity model's `model_spec`, or its absence. */
  datatype TrainingSection = MissingTraining | Training(predictWindowDays: Option<int>)

  /** One entry of the models configuration's `models` list. */
  datatype ConfigModel = ConfigModel(name: Option<string>, modelType: Option<string>, training: TrainingSection)

  /** An input table's `app_defaults`. */
  datatype AppDefaults = AppDefaults(table: Option<string>, occurredAtCol: Option<string>)

  /** One entry of the inputs configuration; `name` is "" when the key is absent or empty. */
  datatype InputTableConfig = InputTableConfig(name: string, appDefaults: AppDefaults)

  /** What `load_all_configs` returns: the combined `inputs` and `models` lists. */
  datatype ProjectConfigs = ProjectConfigs(inputs: seq<InputTableConfig>, models: seq<ConfigModel>)

  /** The aggregate query for one table: its warehouse table, event column and day-difference expression. */
  datatype StatsQuery = StatsQuery(table: Option<string>, occurredAtCol: string, dateRangeExpr: string)

  /** The first row of the answer; any column may be NULL. */
  datatype StatsRow = StatsRow(
    minDate: Option<string>,
    maxDate: Option<string>,
    dateRangeDays: Option<int>,
    totalRows: Option<int>)

  /** `raw_query` either raises or returns a (possibly empty) frame of rows. */
  datatype QueryOutcome = QueryFailed | QueryRows(rows: seq<StatsRow>)

  /** The warehouse client: its declared type and the answer it gives to each query. */
  datatype WarehouseClient = WarehouseClient(warehouseType: string, respond: StatsQuery -> QueryOutcome)

  /** `find_model`: the first configured model with that name and type. */
  function FindConfigModel(models: seq<ConfigModel>, name: string, modelType: string): (r: Option<ConfigModel>)
    ensures r.None? <==> forall i :: 0 <= i < |models| ==> !(models[i].name == Some(name) && models[i].modelType == Some(modelType))
    ensures r.Some? ==> exists i :: (0 <= i < |models| && models[i] == r.value
      && r.value.name == Some(name) && r.value.modelType == Some(modelType)
      && forall j :: 0 <= j < i ==> !(models[j].name == Some(name) && models[j].modelType == Some(modelType)))
  {
    var k := FirstIndexWhere(models, (m: ConfigModel) => m.name == Some(name) && m.modelType == Some(modelType));
    if k < |models| then Some(models[k]) else None
  }

  /** The `predict_window_days` that `_process_table_stats` reads, when reading it does not raise. */
  function Threshold(pm: Option<ConfigModel>): Option<int> {
    match pm
    case Some(ConfigModel(_, _, Training(Some(days)))) => Some(days)
    case _ => None
  }

  // ---------------------------------------------------------------------------------------------
  // Graph lookups

  /** `_find_model_by_path`: the first model whose `path_ref` is `path`. */
  function FindModelByPath(g: PBModelsData, path: string): (r: Option<Model>)
    ensures r.None? <==> forall i :: 0 <= i < |g.models| ==> g.models[i].pathRef != path
    ensures r.Some? ==> r.value in g.models && r.value.pathRef == path
  {
    var k := FirstIndexWhere(g.models, (m: Model) => m.pathRef == path);
    if k < |g.models| then Some(g.models[k]) else None
  }

  /** The lookup returns the first model carrying the path. */
  lemma FindModelByPathFirst(g: PBModelsData, path: string, i: nat)
    requires i < |g.models| && g.models[i].pathRef == path
    requires forall j :: 0 <= j < i ==> g.models[j].pathRef != path
    ensures FindModelByPath(g, path) == Some(g.models[i])
  {
    var k := FirstIndexWhere(g.models, (m: Model) => m.pathRef == path);
  }

  /** The model is the one its own path resolves to. */
  predicate Resolves(g: PBModelsData, m: Model) {
    FindModelByPath(g, m.pathRef) == Some(m)
  }

  lemma FoundModelResolves(g: PBModelsData, path: string)
    requires FindModelByPath(g, path).Some?
    ensures Resolves(g, FindModelByPath(g, path).value)
  {
  }

  // ---------------------------------------------------------------------------------------------
  // Spec check

  /** `_validate_propensity_model_predict_window_days`. */
  function PredictWindowDaysCheck(r: Report, pwd: Option<int>): Report {
    match pwd
    case None => AddError(r, Issue(PredictWindowDaysNotFound, None, None, r.modelName)).(status := Failed)
    case Some(days) =>
      if days <= 0 then AddError(r, Issue(PredictWindowDaysNotPositive, None, None, r.modelName)).(status := Failed)
      else r
  }

  /**
   * `_validate_propensity_model_spec`: a missing model is an error that does not stop the run;
   * a model without `model_spec.training` raises a KeyError.
   */
  function SpecCheck(r: Report, pm: Option<ConfigModel>): Flow {
    match pm
    case None => Continue(AddError(r, Issue(ModelNotFound, None, None, r.modelName)).(status := Failed))
    case Some(m) =>
      match m.training
      case MissingTraining => Raise(r)
      case Training(pwd) => Continue(PredictWindowDaysCheck(r, pwd))
  }

  /** A missing or non-positive window is reported by exactly one of the two errors, and fails the run. */
  lemma PredictWindowDaysErrorsExclusive(r: Report, pwd: Option<int>)
    ensures var r' := PredictWindowDaysCheck(r, pwd);
      && r'.warnings == r.warnings && r'.suggestions == r.suggestions && r'.tableStats == r.tableStats
      && (pwd.None? ==> r'.errors == r.errors + [Issue(PredictWindowDaysNotFound, None, None, r.modelName)] && r'.status == Failed)
      && (pwd.Some? && pwd.value <= 0 ==>
            r'.errors == r.errors + [Issue(PredictWindowDaysNotPositive, None, None, r.modelName)] && r'.status == Failed)
      && (pwd.Some? && pwd.value > 0 ==> r' == r)
      && CountKind(r'.errors, PredictWindowDaysNotFound) + CountKind(r'.errors, PredictWindowDaysNotPositive)
         == CountKind(r.errors, PredictWindowDaysNotFound) + CountKind(r.errors, PredictWindowDaysNotPositive)
            + (if pwd.None? || pwd.value <= 0 then 1 else 0)
  {
    var i := if pwd.None? then Issue(PredictWindowDaysNotFound, None, None, r.modelName)
             else Issue(PredictWindowDaysNotPositive, None, None, r.modelName);
    CountKindConcat(r.errors, [i], PredictWindowDaysNotFound);
    CountKindConcat(r.errors, [i], PredictWindowDaysNotPositive);
  }

  // ---------------------------------------------------------------------------------------------
  // Input tables map

  /** `_create_input_tables_map`: named tables by name; a later entry with the same name wins. */
  function InputTablesMap(inputs: seq<InputTableConfig>): map<string, InputTableConfig> {
    if inputs == [] then map[]
    else
      var m := InputTablesMap(inputs[..|inputs| - 1]);
      var last := inputs[|inputs| - 1];
      if last.name != "" then m[last.name := last] else m
  }

  /** Configuration `i` carries the name `n` and no later configuration does. */
  predicate LastNamed(inputs: seq<InputTableConfig>, i: int, n: string) {
    0 <= i < |inputs| && inputs[i].name == n && forall j :: i < j < |inputs| ==> inputs[j].name != n
  }

  /** The map holds exactly the non-empty names that some configuration carries. */
  lemma {:induction false} InputTablesMapKeys(inputs: seq<InputTableConfig>, n: string)
    ensures n in InputTablesMap(inputs) <==> n != "" && exists i :: 0 <= i < |inputs| && inputs[i].name == n
  {
    if inputs != [] {
      var init := inputs[..|inputs| - 1];
      InputTablesMapKeys(init, n);
      if n != "" && exists i :: 0 <= i < |inputs| && inputs[i].name == n {
        var i :| 0 <= i < |inputs| && inputs[i].name == n;
        if i < |inputs| - 1 {
          assert init[i].name == n;
        }
      }
      if n in InputTablesMap(inputs) && n != inputs[|inputs| - 1].name {
        assert n in InputTablesMap(init);
        var i :| 0 <= i < |init| && init[i].name == n;
        assert inputs[i].name == n;
      }
    }
  }

  /** Each name is bound to the LAST configuration that carries it. */
  lemma {:induction false} InputTablesMapLastWins(inputs: seq<InputTableConfig>, n: string)
    requires n in InputTablesMap(inputs)
    ensures exists i :: LastNamed(inputs, i, n) && inputs[i] == InputTablesMap(inputs)[n]
  {
    var init := inputs[..|inputs| - 1];
    var last := inputs[|inputs| - 1];
    if n == last.name {
      InputTablesMapKeys(inputs, n);
      assert LastNamed(inputs, |inputs| - 1, n);
    } else {
      assert n in InputTablesMap(init) && InputTablesMap(inputs)[n] == InputTablesMap(init)[n];
      InputTablesMapLastWins(init, n);
      var i :| LastNamed(init, i, n) && init[i] == InputTablesMap(init)[n];
      assert inputs[i] == init[i];
      assert LastNamed(inputs, i, n);
    }
  }

  // ---------------------------------------------------------------------------------------------
  // Rule: direct inputs must be features

  /** The dependency resolves to an `entity_var_item` or `nested_column` that is not a feature. */
  predicate IsNonFeatureInput(g: PBModelsData, dep: string) {
    var m := FindModelByPath(g, dep);
    m.Some? && IsNonFeatureModel(m.value)
  }

  /** An entity var or nested column that is not marked as a feature. */
  predicate IsNonFeatureModel(m: Model) {
    m.modelType in {"entity_var_item", "nested_column"} && !m.isFeature
  }

  /**
   * The errors `_validate_direct_input_features` appends for the training model's dependency
   * list: one `NON_FEATURE_INPUT` naming each offending dependency; unresolved paths are
   * skipped silently.
   */
  function NonFeatureIssues(g: PBModelsData, deps: seq<string>): seq<Issue>
  {
    if deps == [] then [] else InputIssues(g, deps[0]) + NonFeatureIssues(g, deps[1..])
  }

  /** The error one dependency contributes: one when it offends, none otherwise. */
  function InputIssues(g: PBModelsData, d: string): seq<Issue> {
    if IsNonFeatureInput(g, d) then [Issue(NonFeatureInput, Some(FindModelByPath(g, d).value.name), None, "")] else []
  }

  /** Every error names the offending feature and has the `NON_FEATURE_INPUT` kind. */
  lemma {:induction false} NonFeatureIssuesShape(g: PBModelsData, deps: seq<string>)
    ensures |NonFeatureIssues(g, deps)| <= |deps|
    ensures forall k :: 0 <= k < |NonFeatureIssues(g, deps)| ==>
      NonFeatureIssues(g, deps)[k].kind == NonFeatureInput && NonFeatureIssues(g, deps)[k].feature.Some?
  {
    if deps != [] {
      NonFeatureIssuesShape(g, deps[1..]);
    }
  }

  /** No error is reported exactly when no dependency offends. */
  lemma {:induction false} NonFeatureIssuesEmptyIff(g: PBModelsData, deps: seq<string>)
    ensures NonFeatureIssues(g, deps) == [] <==> forall i :: 0 <= i < |deps| ==> !IsNonFeatureInput(g, deps[i])
  {
    if deps != [] {
      NonFeatureIssuesEmptyIff(g, deps[1..]);
      assert forall i :: 1 <= i < |deps| ==> deps[i] == deps[1..][i - 1];
    }
  }

  /** The errors follow the dependency list: those of `a + b` are those of `a`, then those of `b`. */
  lemma {:induction false} NonFeatureIssuesConcat(g: PBModelsData, a: seq<string>, b: seq<string>)
    ensures NonFeatureIssues(g, a + b) == NonFeatureIssues(g, a) + NonFeatureIssues(g, b)
  {
    if a == [] {
      assert a + b == b;
    } else {
      var ab := a + b;
      assert ab[0] == a[0];
      assert ab[1..] == a[1..] + b;
      NonFeatureIssuesConcat(g, a[1..], b);
    }
  }

  /** The errors of one more dependency come after those of the earlier ones. */
  lemma NonFeatureIssuesPrefix(g: PBModelsData, deps: seq<string>, i: nat, before: seq<Issue>)
    requires i < |deps|
    ensures NonFeatureIssues(g, deps[..i + 1]) == NonFeatureIssues(g, deps[..i]) + InputIssues(g, deps[i])
    ensures before + NonFeatureIssues(g, deps[..i + 1]) == before + NonFeatureIssues(g, deps[..i]) + InputIssues(g, deps[i])
  {
    assert deps[..i + 1] == deps[..i] + [deps[i]];
    NonFeatureIssuesConcat(g, deps[..i], [deps[i]]);
    assert [deps[i]][1..] == [];
  }

  // ---------------------------------------------------------------------------------------------
  // Rule: no time functions in a feature's stored definition

  /** Index of the first non-whitespace character at or after `j`. */
  function SkipSpaces(text: string, j: nat): (k: nat)
    requires j <= |text|
    ensures j <= k <= |text|
    ensures forall m :: j <= m < k ==> IsSpace(text[m])
    ensures k < |text| ==> !IsSpace(text[k])
    decreases |text| - j
  {
    if j < |text| && IsSpace(text[j]) then SkipSpaces(text, j + 1) else j
  }

  /**
   * The regex `\b<name>\s*\(` (case-insensitive, `name` in lower case) matches at index `i`:
   * a word boundary, the name in any case, optional whitespace, an opening parenthesis.
   */
  predicate CallAt(text: string, name: string, i: int) {
    && 0 <= i && i + |name| <= |text|
    && (i == 0 || !IsWordChar(text[i - 1]))
    && LowerMatchesAt(text, i, name)
    && var j := SkipSpaces(text, i + |name|); j < |text| && text[j] == '('
  }

  /** `re.search(r'\b<name>\s*\(', text, re.IGNORECASE)` finds a match. */
  predicate ContainsCall(text: string, name: string) {
    exists i | 0 <= i <= |text| :: CallAt(text, name, i)
  }

  /** The stored definition text of a model, when it has a non-empty one. */
  function DefinitionText(m: Model): Option<string> {
    match m.featureData
    case Some(fd) => if fd.yaml != "" then Some(fd.yaml) else None
    case None => None
  }

  /** One `TIME_FUNCTION_IN_FEATURE` error when `text` calls `name`, none otherwise. */
  function CallIssue(feature: string, text: string, name: string): (r: seq<Issue>)
    ensures r != [] <==> ContainsCall(text, name)
    ensures r == [] || r == [Issue(TimeFunctionInFeature, Some(feature), None, name)]
  {
    if ContainsCall(text, name) then [Issue(TimeFunctionInFeature, Some(feature), None, name)] else []
  }

  /**
   * The errors `_validate_entity_var_time_functions` appends: one per forbidden function found
   * (`current_date` first, then `datediff`), none when the model has no definition text.
   */
  function TimeFunctionIssues(m: Model): (r: seq<Issue>)
    ensures |r| <= 2
    ensures DefinitionText(m).None? ==> r == []
    ensures forall k :: 0 <= k < |r| ==> r[k].kind == TimeFunctionInFeature && r[k].feature == Some(m.name)
  {
    match DefinitionText(m)
    case None => []
    case Some(text) => CallIssue(m.name, text, "current_date") + CallIssue(m.name, text, "datediff")
  }

  /** Of two differently named call checks, a name's error is present exactly when its call is. */
  lemma CallIssuesIff(feature: string, text: string, first: string, second: string, name: string)
    requires first != second && (name == first || name == second)
    ensures Issue(TimeFunctionInFeature, Some(feature), None, name) in CallIssue(feature, text, first) + CallIssue(feature, text, second)
        <==> ContainsCall(text, name)
  {
  }

  /** A forbidden function is reported exactly when the definition text calls it. */
  lemma TimeFunctionReportedIffCalled(m: Model, name: string)
    requires DefinitionText(m).Some?
    requires name == "current_date" || name == "datediff"
    ensures Issue(TimeFunctionInFeature, Some(m.name), None, name) in TimeFunctionIssues(m)
        <==> ContainsCall(DefinitionText(m).value, name)
  {
    assert |"current_date"| != |"datediff"|;
    CallIssuesIff(m.name, DefinitionText(m).value, "current_date", "datediff", name);
  }

  /** A name matched at a word boundary and followed by blanks and `(` is a call. */
  lemma {:induction false} CallFoundInAnyCase(pre: string, word: string, spaces: string, post: string, name: string)
    requires |word| == |name| && LowerMatchesAt(word, 0, name)
    requires pre == [] || !IsWordChar(pre[|pre| - 1])
    requires IsBlank(spaces)
    ensures ContainsCall(pre + word + spaces + "(" + post, name)
  {
    var text := pre + word + spaces + "(" + post;
    LowerMatchesShift(pre, word, spaces + "(" + post, 0, name);
    assert pre + word + (spaces + "(" + post) == text;
    var j := |pre| + |word|;
    assert text[j..j + |spaces|] == spaces;
    SkipBlank(text, j, spaces);
    assert text[j + |spaces|] == '(';
    if pre != [] {
      assert text[|pre| - 1] == pre[|pre| - 1];
    }
    assert CallAt(text, name, |pre|);
  }

  lemma {:induction false} LowerMatchesShift(a: string, s: string, b: string, i: nat, w: string)
    requires LowerMatchesAt(s, i, w)
    ensures LowerMatchesAt(a + s + b, |a| + i, w)
    decreases |w|
  {
    if w != [] {
      LowerMatchesShift(a, s, b, i + 1, w[1..]);
      assert (a + s + b)[|a| + i] == s[i];
    }
  }

  lemma {:induction false} SkipBlank(text: string, j: nat, spaces: string)
    requires j + |spaces| < |text| && text[j..j + |spaces|] == spaces && IsBlank(spaces)
    requires !IsSpace(text[j + |spaces|])
    ensures SkipSpaces(text, j) == j + |spaces|
    decreases |spaces|
  {
    if spaces != [] {
      assert text[j] == spaces[0];
      assert text[j + 1..j + 1 + |spaces[1..]|] == spaces[1..];
      SkipBlank(text, j + 1, spaces[1..]);
    }
  }

  /** The upper-case spelling of a lower-case name matches it: the search ignores case. */
  lemma {:induction false} UpperSpellingMatches(name: string)
    requires forall k :: 0 <= k < |name| ==> !IsUpperAscii(name[k])
    ensures LowerMatchesAt(Upper(name), 0, name)
  {
    UpperSpellingMatchesFrom(name, 0);
  }

  lemma {:induction false} UpperSpellingMatchesFrom(name: string, i: nat)
    requires forall k :: 0 <= k < |name| ==> !IsUpperAscii(name[k])
    requires i <= |name|
    ensures LowerMatchesAt(Upper(name), i, name[i..])
    decreases |name| - i
  {
    if i < |name| {
      UpperSpellingMatchesFrom(name, i + 1);
      assert name[i..][1..] == name[i + 1..];
      assert LowerChar(Upper(name)[i]) == name[i];
    }
  }

  /**
   * So an upper-case call such as `CURRENT_DATE(` after a non-word character (or at the
   * start) is reported.
   */
  lemma UpperCaseCallIsCaught(pre: string, name: string, post: string)
    requires forall k :: 0 <= k < |name| ==> !IsUpperAscii(name[k])
    requires pre == [] || !IsWordChar(pre[|pre| - 1])
    ensures ContainsCall(pre + Upper(name) + "(" + post, name)
  {
    UpperSpellingMatches(name);
    CallFoundInAnyCase(pre, Upper(name), "", post, name);
    assert pre + Upper(name) + "" == pre + Upper(name);
  }

  // ---------------------------------------------------------------------------------------------
  // Rule: direct sources of a feature must be event streams

  /** The dependency resolves to an `input` or `sql_template` that is not an event stream. */
  predicate IsNonEventStreamSource(g: PBModelsData, dep: string) {
    var m := FindModelByPath(g, dep);
    m.Some? && IsNonEventStreamModel(m.value)
  }

  /** An input or SQL template that is not marked as an event stream. */
  predicate IsNonEventStreamModel(m: Model) {
    m.modelType in {"input", "sql_template"} && !m.isEventStream
  }

  /**
   * The errors `_validate_entity_var_direct_dependencies` appends for the entity var `ev`:
   * `DEPENDENCY_NOT_FOUND` for each unresolved path and `NON_EVENT_STREAM_INPUT` for each
   * resolved `input`/`sql_template` that is not an event stream.
   */
  function EventStreamIssues(g: PBModelsData, ev: Model, deps: seq<string>): seq<Issue>
  {
    if deps == [] then [] else SourceIssues(g, ev, deps[0]) + EventStreamIssues(g, ev, deps[1..])
  }

  /** The errors one dependency `d` of `ev` contributes. */
  function SourceIssues(g: PBModelsData, ev: Model, d: string): seq<Issue> {
    match FindModelByPath(g, d)
    case None => [Issue(DependencyNotFound, None, None, d)]
    case Some(m) => if IsNonEventStreamModel(m) then [Issue(NonEventStreamInput, Some(ev.name), Some(m.name), "")] else []
  }

  /** No error is reported exactly when every dependency exists and none is a non-event-stream source. */
  lemma {:induction false} EventStreamIssuesEmptyIff(g: PBModelsData, ev: Model, deps: seq<string>)
    ensures EventStreamIssues(g, ev, deps) == [] <==> forall i :: 0 <= i < |deps| ==>
      FindModelByPath(g, deps[i]).Some? && !IsNonEventStreamSource(g, deps[i])
  {
    if deps != [] {
      EventStreamIssuesEmptyIff(g, ev, deps[1..]);
      SourceIssuesEmptyIff(g, ev, deps[0]);
      assert forall i :: 1 <= i < |deps| ==> deps[i] == deps[1..][i - 1];
    }
  }

  lemma SourceIssuesEmptyIff(g: PBModelsData, ev: Model, d: string)
    ensures SourceIssues(g, ev, d) == [] <==> FindModelByPath(g, d).Some? && !IsNonEventStreamSource(g, d)
  {
  }

  /** Every error is a missing dependency or a non-event-stream source of `ev`. */
  lemma {:induction false} EventStreamIssuesShape(g: PBModelsData, ev: Model, deps: seq<string>)
    ensures |EventStreamIssues(g, ev, deps)| <= |deps|
    ensures forall k :: 0 <= k < |EventStreamIssues(g, ev, deps)| ==>
      var i := EventStreamIssues(g, ev, deps)[k];
      i.kind == DependencyNotFound || (i.kind == NonEventStreamInput && i.feature == Some(ev.name))
  {
    if deps != [] {
      EventStreamIssuesShape(g, ev, deps[1..]);
    }
  }

  /** Each dependency contributes its own errors, in list order. */
  lemma {:induction false} EventStreamIssuesPerDependency(g: PBModelsData, ev: Model, a: seq<string>, b: seq<string>)
    ensures EventStreamIssues(g, ev, a + b) == EventStreamIssues(g, ev, a) + EventStreamIssues(g, ev, b)
  {
    if a == [] {
      assert a + b == b;
    } else {
      assert (a + b)[0] == a[0];
      assert (a + b)[1..] == a[1..] + b;
      EventStreamIssuesPerDependency(g, ev, a[1..], b);
    }
  }

  /** The errors of one more dependency come after those of the earlier ones. */
  lemma EventStreamIssuesPrefix(g: PBModelsData, ev: Model, deps: seq<string>, i: nat, before: seq<Issue>)
    requires i < |deps|
    ensures EventStreamIssues(g, ev, deps[..i + 1]) == EventStreamIssues(g, ev, deps[..i]) + SourceIssues(g, ev, deps[i])
    ensures before + EventStreamIssues(g, ev, deps[..i + 1]) == before + EventStreamIssues(g, ev, deps[..i]) + SourceIssues(g, ev, deps[i])
  {
    assert deps[..i + 1] == deps[..i] + [deps[i]];
    EventStreamIssuesPerDependency(g, ev, deps[..i], [deps[i]]);
    assert [deps[i]][1..] == [];
  }

  // ---------------------------------------------------------------------------------------------
  // Leaf walk (`traverse` inside `_validate_entity_var_leaf_inputs`)

  /** The paths of all models in the graph: the walk can visit no others. */
  function AllPaths(g: PBModelsData): set<string> {
    set m | m in g.models :: m.pathRef
  }

  /** What `traverse` threads through its recursion: the `visited` set and the `leaf_input_nodes` list. */
  datatype WalkState = WalkState(visited: set<string>, leaves: seq<Model>)

  lemma VisitShrinks(all: set<string>, visited: set<string>, p: string)
    requires p in all && p !in visited
    ensures |all - (visited + {p})| < |all - visited|
  {
    var a := all - (visited + {p});
    assert all - visited == a + {p};
  }

  lemma GrowShrinks(all: set<string>, v1: set<string>, v2: set<string>)
    requires v1 <= v2
    ensures |all - v2| <= |all - v1|
  {
    var a, b := all - v2, all - v1;
    assert b == a + (b - a);
    assert a * (b - a) == {};
  }

  /**
   * `traverse(m)`: an already visited model is skipped; otherwise it is marked visited and its
   * resolvable dependencies are walked in order; an `input` is recorded as a leaf, after its
   * dependencies, when none of them resolves.
   */
  function Walk(g: PBModelsData, m: Model, s: WalkState): (t: WalkState)
    requires m in g.models
    ensures s.visited <= t.visited
    decreases |AllPaths(g) - s.visited|, 0
  {
    if m.pathRef in s.visited then s
    else
      assert m.pathRef in AllPaths(g);
      VisitShrinks(AllPaths(g), s.visited, m.pathRef);
      var s1 := s.(visited := s.visited + {m.pathRef});
      if m.dependencies == [] then
        (if m.modelType == "input" then s1.(leaves := s1.leaves + [m]) else s1)
      else
        var (t, found) := WalkDeps(g, m.dependencies, s1, false);
        if !found && m.modelType == "input" then t.(leaves := t.leaves + [m]) else t
  }

  /** The loop over one model's dependencies; the flag records whether any of them resolved. */
  function WalkDeps(g: PBModelsData, deps: seq<string>, s: WalkState, found: bool): (res: (WalkState, bool))
    ensures s.visited <= res.0.visited
    decreases |AllPaths(g) - s.visited|, |deps| + 1
  {
    if deps == [] then (s, found)
    else
      match FindModelByPath(g, deps[0])
      case None => WalkDeps(g, deps[1..], s, found)
      case Some(d) =>
        var t := Walk(g, d, s);
        GrowShrinks(AllPaths(g), s.visited, t.visited);
        WalkDeps(g, deps[1..], t, true)
  }

  /** The walk from the entity var, started with nothing visited. */
  function LeafInputs(g: PBModelsData, ev: Model): seq<Model>
    requires ev in g.models
  {
    Walk(g, ev, WalkState({}, [])).leaves
  }

  /** An `input` none of whose dependencies resolves: what the walk records as a leaf. */
  predicate IsLeafInput(g: PBModelsData, m: Model) {
    m.modelType == "input" && forall i :: 0 <= i < |m.dependencies| ==> FindModelByPath(g, m.dependencies[i]).None?
  }

  /** Some leaf appended between `s` and `t` has path `p`. */
  ghost predicate Appended(s: WalkState, t: WalkState, p: string) {
    exists k :: |s.leaves| <= k < |t.leaves| && t.leaves[k].pathRef == p
  }

  /** From `s` to `t` the walk only visits paths of the graph and only appends leaves. */
  ghost predicate Extends(g: PBModelsData, s: WalkState, t: WalkState) {
    && s.visited <= t.visited
    && |s.leaves| <= |t.leaves| && t.leaves[..|s.leaves|] == s.leaves
    && (forall p :: p in t.visited - s.visited ==> FindModelByPath(g, p).Some?)
  }

  /** Each leaf appended from `s` to `t` is the model its path resolves to, visited in this stretch, and appended once. */
  ghost predicate AppendsVisited(g: PBModelsData, s: WalkState, t: WalkState) {
    && (forall k :: |s.leaves| <= k < |t.leaves| ==>
          t.leaves[k].pathRef in t.visited - s.visited && Resolves(g, t.leaves[k]))
    && (forall k, k' :: |s.leaves| <= k < k' < |t.leaves| ==> t.leaves[k].pathRef != t.leaves[k'].pathRef)
  }

  /** A path newly visited from `s` to `t` is appended exactly when it resolves to a leaf input. */
  ghost predicate AppendsLeaves(g: PBModelsData, s: WalkState, t: WalkState)
    requires Extends(g, s, t)
  {
    forall p :: p in t.visited - s.visited ==> (IsLeafInput(g, FindModelByPath(g, p).value) <==> Appended(s, t, p))
  }

  /** Everything the walk promises about the stretch from `s` to `t`. */
  ghost predicate WalkGrows(g: PBModelsData, s: WalkState, t: WalkState) {
    Extends(g, s, t) && AppendsVisited(g, s, t) && AppendsLeaves(g, s, t)
  }

  lemma WalkGrowsRefl(g: PBModelsData, s: WalkState)
    ensures WalkGrows(g, s, s)
  {
  }

  lemma WalkGrowsTrans(g: PBModelsData, s: WalkState, t: WalkState, u: WalkState)
    requires WalkGrows(g, s, t) && WalkGrows(g, t, u)
    ensures WalkGrows(g, s, u)
  {
    ExtendsTrans(g, s, t, u);
    AppendsVisitedTrans(g, s, t, u);
    AppendsLeavesTrans(g, s, t, u);
  }

  lemma ExtendsTrans(g: PBModelsData, s: WalkState, t: WalkState, u: WalkState)
    requires Extends(g, s, t) && Extends(g, t, u)
    ensures Extends(g, s, u)
    ensures forall k :: |s.leaves| <= k < |t.leaves| ==> u.leaves[k] == t.leaves[k]
  {
    assert u.leaves[..|s.leaves|] == t.leaves[..|t.leaves|][..|s.leaves|];
    forall k | |s.leaves| <= k < |t.leaves| ensures u.leaves[k] == t.leaves[k] {
      assert u.leaves[..|t.leaves|][k] == t.leaves[k];
    }
  }

  lemma AppendsVisitedTrans(g: PBModelsData, s: WalkState, t: WalkState, u: WalkState)
    requires Extends(g, s, t) && Extends(g, t, u)
    requires AppendsVisited(g, s, t) && AppendsVisited(g, t, u)
    ensures AppendsVisited(g, s, u)
  {
    ExtendsTrans(g, s, t, u);
  }

  lemma AppendsLeavesTrans(g: PBModelsData, s: WalkState, t: WalkState, u: WalkState)
    requires WalkGrows(g, s, t) && WalkGrows(g, t, u)
    ensures Extends(g, s, u) && AppendsLeaves(g, s, u)
  {
    ExtendsTrans(g, s, t, u);
    forall p | p in u.visited - s.visited
      ensures IsLeafInput(g, FindModelByPath(g, p).value) <==> Appended(s, u, p)
    {
      if p in t.visited {
        AppendedEarlier(g, s, t, u, p);
      } else {
        AppendedLater(g, s, t, u, p);
      }
    }
  }

  lemma AppendedEarlier(g: PBModelsData, s: WalkState, t: WalkState, u: WalkState, p: string)
    requires WalkGrows(g, s, t) && WalkGrows(g, t, u)
    requires p in t.visited - s.visited
    ensures Appended(s, u, p) <==> Appended(s, t, p)
  {
    ExtendsTrans(g, s, t, u);
    if Appended(s, u, p) {
      var k :| |s.leaves| <= k < |u.leaves| && u.leaves[k].pathRef == p;
      if k >= |t.leaves| {
        assert false;
      }
      assert t.leaves[k].pathRef == p;
    }
    if Appended(s, t, p) {
      var k :| |s.leaves| <= k < |t.leaves| && t.leaves[k].pathRef == p;
      assert u.leaves[k].pathRef == p;
    }
  }

  lemma AppendedLater(g: PBModelsData, s: WalkState, t: WalkState, u: WalkState, p: string)
    requires WalkGrows(g, s, t) && WalkGrows(g, t, u)
    requires p in u.visited - t.visited
    ensures Appended(s, u, p) <==> Appended(t, u, p)
  {
    ExtendsTrans(g, s, t, u);
    if Appended(s, u, p) {
      var k :| |s.leaves| <= k < |u.leaves| && u.leaves[k].pathRef == p;
      if k < |t.leaves| {
        assert false;
      }
    }
  }

  /** Marking a leaf input visited and appending it after the walk of its dependencies keeps the walk's facts. */
  lemma WalkGrowsAppend(g: PBModelsData, s: WalkState, t: WalkState, m: Model)
    requires WalkGrows(g, s.(visited := s.visited + {m.pathRef}), t)
    requires m.pathRef !in s.visited && Resolves(g, m)
    requires IsLeafInput(g, m)
    ensures WalkGrows(g, s, t.(leaves := t.leaves + [m]))
  {
    var s1 := s.(visited := s.visited + {m.pathRef});
    var t' := t.(leaves := t.leaves + [m]);
    AppendExtends(g, s, t, m);
    AppendVisited(g, s, t, m);
    forall p | p in t'.visited - s.visited
      ensures IsLeafInput(g, FindModelByPath(g, p).value) <==> Appended(s, t', p)
    {
      if p == m.pathRef {
        assert t'.leaves[|t.leaves|].pathRef == p;
      } else {
        assert p in t.visited - s1.visited;
        if Appended(s, t', p) {
          var k :| |s.leaves| <= k < |t'.leaves| && t'.leaves[k].pathRef == p;
          assert k < |t.leaves|;
          assert t.leaves[k].pathRef == p;
          assert Appended(s1, t, p);
        }
        if Appended(s1, t, p) {
          var k :| |s1.leaves| <= k < |t.leaves| && t.leaves[k].pathRef == p;
          assert t'.leaves[k] == t.leaves[k];
        }
      }
    }
  }

  lemma AppendExtends(g: PBModelsData, s: WalkState, t: WalkState, m: Model)
    requires Extends(g, s.(visited := s.visited + {m.pathRef}), t)
    requires Resolves(g, m)
    ensures Extends(g, s, t.(leaves := t.leaves + [m]))
  {
    var t' := t.(leaves := t.leaves + [m]);
    assert t'.leaves[..|t.leaves|] == t.leaves;
    assert t'.leaves[..|s.leaves|] == t.leaves[..|s.leaves|];
  }

  lemma AppendVisited(g: PBModelsData, s: WalkState, t: WalkState, m: Model)
    requires Extends(g, s.(visited := s.visited + {m.pathRef}), t)
    requires AppendsVisited(g, s.(visited := s.visited + {m.pathRef}), t)
    requires m.pathRef !in s.visited && Resolves(g, m)
    ensures AppendsVisited(g, s, t.(leaves := t.leaves + [m]))
  {
    var t' := t.(leaves := t.leaves + [m]);
    forall k | |s.leaves| <= k < |t.leaves| ensures t'.leaves[k] == t.leaves[k] && t.leaves[k].pathRef != m.pathRef {
    }
  }

  /** Marking a model visited that is not a leaf input adds nothing to what must be appended. */
  lemma WalkGrowsVisit(g: PBModelsData, s: WalkState, t: WalkState, m: Model)
    requires WalkGrows(g, s.(visited := s.visited + {m.pathRef}), t)
    requires m.pathRef !in s.visited && Resolves(g, m)
    requires !IsLeafInput(g, m)
    ensures WalkGrows(g, s, t)
  {
    var s1 := s.(visited := s.visited + {m.pathRef});
    forall k | |s.leaves| <= k < |t.leaves| ensures t.leaves[k].pathRef != m.pathRef {
    }
    forall p | p in t.visited - s.visited
      ensures IsLeafInput(g, FindModelByPath(g, p).value) <==> Appended(s, t, p)
    {
      if p == m.pathRef {
        assert FindModelByPath(g, p).value == m;
        assert !Appended(s, t, p);
      } else {
        assert p in t.visited - s1.visited;
      }
    }
  }

  /** The walk's facts for one call of `traverse` on a model its path resolves to. */
  lemma {:induction false} WalkFacts(g: PBModelsData, m: Model, s: WalkState)
    requires m in g.models && Resolves(g, m)
    ensures WalkGrows(g, s, Walk(g, m, s))
    ensures m.pathRef in Walk(g, m, s).visited
    decreases |AllPaths(g) - s.visited|, 0
  {
    if m.pathRef !in s.visited {
      assert m.pathRef in AllPaths(g);
      VisitShrinks(AllPaths(g), s.visited, m.pathRef);
      var s1 := s.(visited := s.visited + {m.pathRef});
      if m.dependencies == [] {
        WalkGrowsRefl(g, s1);
        if m.modelType == "input" {
          WalkGrowsAppend(g, s, s1, m);
        } else {
          WalkGrowsVisit(g, s, s1, m);
        }
      } else {
        var (t, found) := WalkDeps(g, m.dependencies, s1, false);
        WalkDepsFacts(g, m.dependencies, s1, false);
        if !found && m.modelType == "input" {
          WalkGrowsAppend(g, s, t, m);
        } else {
          WalkGrowsVisit(g, s, t, m);
        }
      }
    }
  }

  lemma {:induction false} WalkDepsFacts(g: PBModelsData, deps: seq<string>, s: WalkState, found: bool)
    ensures WalkGrows(g, s, WalkDeps(g, deps, s, found).0)
    ensures WalkDeps(g, deps, s, found).1 <==> found || exists i :: 0 <= i < |deps| && FindModelByPath(g, deps[i]).Some?
    decreases |AllPaths(g) - s.visited|, |deps| + 1
  {
    if deps == [] {
      WalkGrowsRefl(g, s);
    } else {
      match FindModelByPath(g, deps[0])
      case None =>
        WalkDepsFacts(g, deps[1..], s, found);
        SomeDependencyResolves(g, deps);
      case Some(d) =>
        var t := Walk(g, d, s);
        GrowShrinks(AllPaths(g), s.visited, t.visited);
        WalkFacts(g, d, s);
        WalkDepsFacts(g, deps[1..], t, true);
        WalkGrowsTrans(g, s, t, WalkDeps(g, deps[1..], t, true).0);
    }
  }

  lemma SomeDependencyResolves(g: PBModelsData, deps: seq<string>)
    requires deps != [] && FindModelByPath(g, deps[0]).None?
    ensures (exists i :: 0 <= i < |deps| && FindModelByPath(g, deps[i]).Some?)
        <==> exists i :: 0 <= i < |deps[1..]| && FindModelByPath(g, deps[1..][i]).Some?
  {
    if exists i :: 0 <= i < |deps| && FindModelByPath(g, deps[i]).Some? {
      var i :| 0 <= i < |deps| && FindModelByPath(g, deps[i]).Some?;
      assert deps[1..][i - 1] == deps[i];
    }
  }

  /**
   * The leaves the walk from an entity var collects are distinct leaf inputs of the graph, and
   * every model the walk visits is among them exactly when it is a leaf input.
   */
  lemma LeafInputsAreTheReachedLeaves(g: PBModelsData, ev: Model)
    requires ev in g.models && Resolves(g, ev)
    ensures forall k :: 0 <= k < |LeafInputs(g, ev)| ==>
      LeafInputs(g, ev)[k] in g.models && Resolves(g, LeafInputs(g, ev)[k]) && IsLeafInput(g, LeafInputs(g, ev)[k])
    ensures forall k, k' :: 0 <= k < k' < |LeafInputs(g, ev)| ==> LeafInputs(g, ev)[k].pathRef != LeafInputs(g, ev)[k'].pathRef
    ensures forall p :: p in Walk(g, ev, WalkState({}, [])).visited ==>
      FindModelByPath(g, p).Some? &&
      (IsLeafInput(g, FindModelByPath(g, p).value) <==> exists k :: 0 <= k < |LeafInputs(g, ev)| && LeafInputs(g, ev)[k].pathRef == p)
  {
    var t := Walk(g, ev, WalkState({}, []));
    WalkFacts(g, ev, WalkState({}, []));
    assert t.visited - {} == t.visited;
    assert LeafInputs(g, ev) == t.leaves;
    forall p | p in t.visited
      ensures FindModelByPath(g, p).Some?
      ensures IsLeafInput(g, FindModelByPath(g, p).value) <==> exists k :: 0 <= k < |t.leaves| && t.leaves[k].pathRef == p
    {
      assert p in t.visited - WalkState({}, []).visited;
      assert IsLeafInput(g, FindModelByPath(g, p).value) <==> Appended(WalkState({}, []), t, p);
    }
    forall k | 0 <= k < |t.leaves| ensures IsLeafInput(g, t.leaves[k]) {
      var p := t.leaves[k].pathRef;
      assert FindModelByPath(g, p).value == t.leaves[k];
    }
  }

  // ---------------------------------------------------------------------------------------------
  // Which paths the walk visits: exactly those reachable from the entity var

  /** `q` is a dependency of the model at path `p`, and both paths resolve in the graph. */
  ghost predicate DependsOn(g: PBModelsData, p: string, q: string) {
    FindModelByPath(g, p).Some? && q in FindModelByPath(g, p).value.dependencies && FindModelByPath(g, q).Some?
  }

  /** `ps` starts at the entity var's own path, and each path is a resolving dependency of the one before. */
  ghost predicate IsChain(g: PBModelsData, ev: Model, ps: seq<string>) {
    && ps != [] && ps[0] == ev.pathRef && FindModelByPath(g, ev.pathRef).Some?
    && forall i :: 0 <= i < |ps| - 1 ==> DependsOn(g, ps[i], ps[i + 1])
  }

  /** `p` is the entity var's path, or a resolving dependency of a reachable path. */
  ghost predicate Reachable(g: PBModelsData, ev: Model, p: string) {
    exists ps :: IsChain(g, ev, ps) && ps[|ps| - 1] == p
  }

  /** Every resolving dependency of a path in `from` lies in `into`. */
  ghost predicate ClosedOver(g: PBModelsData, from: set<string>, into: set<string>) {
    forall p, q :: p in from && DependsOn(g, p, q) ==> q in into
  }

  lemma ReachableStart(g: PBModelsData, ev: Model)
    requires Resolves(g, ev)
    ensures Reachable(g, ev, ev.pathRef)
  {
    assert IsChain(g, ev, [ev.pathRef]);
  }

  lemma ReachableStep(g: PBModelsData, ev: Model, p: string, q: string)
    requires Reachable(g, ev, p) && DependsOn(g, p, q)
    ensures Reachable(g, ev, q)
  {
    var ps :| IsChain(g, ev, ps) && ps[|ps| - 1] == p;
    var qs := ps + [q];
    forall i | 0 <= i < |qs| - 1 ensures DependsOn(g, qs[i], qs[i + 1]) {
      if i < |ps| - 1 {
        assert DependsOn(g, ps[i], ps[i + 1]);
      }
    }
    assert IsChain(g, ev, qs);
  }

  /** A reachable path resolves in the graph. */
  lemma ReachableResolves(g: PBModelsData, ev: Model, p: string)
    requires Reachable(g, ev, p)
    ensures FindModelByPath(g, p).Some?
  {
    var ps :| IsChain(g, ev, ps) && ps[|ps| - 1] == p;
    if |ps| > 1 {
      assert DependsOn(g, ps[|ps| - 2], ps[|ps| - 1]);
    }
  }

  /** What one call of `traverse` on an unvisited model does to the visited set. */
  lemma WalkVisitedUnfold(g: PBModelsData, m: Model, s: WalkState)
    requires m in g.models && m.pathRef !in s.visited
    ensures var s1 := s.(visited := s.visited + {m.pathRef});
      Walk(g, m, s).visited == if m.dependencies == [] then s1.visited else WalkDeps(g, m.dependencies, s1, false).0.visited
  {
  }

  /** What one step of the dependency loop does to the visited set. */
  lemma WalkDepsVisitedUnfold(g: PBModelsData, deps: seq<string>, s: WalkState, found: bool)
    requires deps != []
    ensures FindModelByPath(g, deps[0]).None? ==>
      WalkDeps(g, deps, s, found).0.visited == WalkDeps(g, deps[1..], s, found).0.visited
    ensures FindModelByPath(g, deps[0]).Some? ==>
      var d := FindModelByPath(g, deps[0]).value;
      d in g.models && WalkDeps(g, deps, s, found).0.visited == WalkDeps(g, deps[1..], Walk(g, d, s), true).0.visited
  {
  }

  lemma ClosedOverUnion(g: PBModelsData, a: set<string>, b: set<string>, into: set<string>, into': set<string>)
    requires ClosedOver(g, a, into) && ClosedOver(g, b, into') && into <= into'
    ensures ClosedOver(g, a + b, into')
  {
  }

  /**
   * When `traverse` returns, every path it newly visited has all its resolving dependencies
   * visited: a model is left only after each of its dependencies was walked or already seen.
   */
  lemma {:induction false} WalkCloses(g: PBModelsData, m: Model, s: WalkState)
    requires m in g.models && Resolves(g, m)
    ensures ClosedOver(g, Walk(g, m, s).visited - s.visited, Walk(g, m, s).visited)
    decreases |AllPaths(g) - s.visited|, 0
  {
    if m.pathRef !in s.visited {
      assert m.pathRef in AllPaths(g);
      VisitShrinks(AllPaths(g), s.visited, m.pathRef);
      var s1 := s.(visited := s.visited + {m.pathRef});
      WalkVisitedUnfold(g, m, s);
      var visited := Walk(g, m, s).visited;
      if m.dependencies != [] {
        WalkDepsCloses(g, m.dependencies, s1, false);
        WalkDepsVisitsDeps(g, m.dependencies, s1, false);
      }
      assert ClosedOver(g, visited - s1.visited, visited);
      forall q | DependsOn(g, m.pathRef, q) ensures q in visited {
        assert FindModelByPath(g, m.pathRef).value == m;
        var i :| 0 <= i < |m.dependencies| && m.dependencies[i] == q;
      }
      assert ClosedOver(g, {m.pathRef}, visited);
      ClosedOverUnion(g, visited - s1.visited, {m.pathRef}, visited, visited);
      assert visited - s.visited == (visited - s1.visited) + {m.pathRef};
    }
  }

  lemma {:induction false} WalkDepsCloses(g: PBModelsData, deps: seq<string>, s: WalkState, found: bool)
    ensures ClosedOver(g, WalkDeps(g, deps, s, found).0.visited - s.visited, WalkDeps(g, deps, s, found).0.visited)
    decreases |AllPaths(g) - s.visited|, |deps| + 1
  {
    if deps != [] {
      var res := WalkDeps(g, deps, s, found).0.visited;
      WalkDepsVisitedUnfold(g, deps, s, found);
      match FindModelByPath(g, deps[0])
      case None =>
        WalkDepsCloses(g, deps[1..], s, found);
      case Some(d) =>
        var t := Walk(g, d, s);
        GrowShrinks(AllPaths(g), s.visited, t.visited);
        WalkCloses(g, d, s);
        WalkDepsCloses(g, deps[1..], t, true);
        ClosedOverUnion(g, t.visited - s.visited, res - t.visited, t.visited, res);
        assert res - s.visited == (t.visited - s.visited) + (res - t.visited);
    }
  }

  /** The dependency loop visits every dependency that resolves. */
  lemma {:induction false} WalkDepsVisitsDeps(g: PBModelsData, deps: seq<string>, s: WalkState, found: bool)
    ensures forall i :: 0 <= i < |deps| && FindModelByPath(g, deps[i]).Some? ==> deps[i] in WalkDeps(g, deps, s, found).0.visited
    decreases |AllPaths(g) - s.visited|, |deps| + 1
  {
    if deps != [] {
      WalkDepsVisitedUnfold(g, deps, s, found);
      assert forall i :: 1 <= i < |deps| ==> deps[i] == deps[1..][i - 1];
      match FindModelByPath(g, deps[0])
      case None =>
        WalkDepsVisitsDeps(g, deps[1..], s, found);
      case Some(d) =>
        var t := Walk(g, d, s);
        GrowShrinks(AllPaths(g), s.visited, t.visited);
        if d.pathRef !in s.visited {
          WalkVisitedUnfold(g, d, s);
        }
        assert deps[0] in t.visited;
        WalkDepsVisitsDeps(g, deps[1..], t, true);
    }
  }

  /** Every path of a chain lies in a set that holds the entity var's path and is closed over itself. */
  lemma {:induction false} ChainInClosedSet(g: PBModelsData, ev: Model, ps: seq<string>, visited: set<string>)
    requires IsChain(g, ev, ps) && ev.pathRef in visited && ClosedOver(g, visited, visited)
    ensures ps[|ps| - 1] in visited
    decreases |ps|
  {
    if |ps| > 1 {
      var front := ps[..|ps| - 1];
      forall i | 0 <= i < |front| - 1 ensures DependsOn(g, front[i], front[i + 1]) {
        assert DependsOn(g, ps[i], ps[i + 1]);
      }
      assert IsChain(g, ev, front);
      ChainInClosedSet(g, ev, front, visited);
      assert DependsOn(g, ps[|ps| - 2], ps[|ps| - 1]);
    }
  }

  /** The resolving dependencies of a reachable model are reachable. */
  lemma DependenciesReachable(g: PBModelsData, ev: Model, m: Model)
    requires Resolves(g, m) && Reachable(g, ev, m.pathRef)
    ensures forall i :: 0 <= i < |m.dependencies| && FindModelByPath(g, m.dependencies[i]).Some? ==> Reachable(g, ev, m.dependencies[i])
  {
    forall i | 0 <= i < |m.dependencies| && FindModelByPath(g, m.dependencies[i]).Some?
      ensures Reachable(g, ev, m.dependencies[i])
    {
      assert DependsOn(g, m.pathRef, m.dependencies[i]);
      ReachableStep(g, ev, m.pathRef, m.dependencies[i]);
    }
  }

  /** Starting from reachable paths, `traverse` visits only reachable paths. */
  lemma {:induction false} WalkStaysReachable(g: PBModelsData, ev: Model, m: Model, s: WalkState)
    requires m in g.models && Resolves(g, m) && Reachable(g, ev, m.pathRef)
    requires forall p :: p in s.visited ==> Reachable(g, ev, p)
    ensures forall p :: p in Walk(g, m, s).visited ==> Reachable(g, ev, p)
    decreases |AllPaths(g) - s.visited|, 0
  {
    if m.pathRef !in s.visited {
      assert m.pathRef in AllPaths(g);
      VisitShrinks(AllPaths(g), s.visited, m.pathRef);
      var s1 := s.(visited := s.visited + {m.pathRef});
      WalkVisitedUnfold(g, m, s);
      if m.dependencies != [] {
        DependenciesReachable(g, ev, m);
        WalkDepsStaysReachable(g, ev, m.dependencies, s1, false);
      }
    }
  }

  lemma {:induction false} WalkDepsStaysReachable(g: PBModelsData, ev: Model, deps: seq<string>, s: WalkState, found: bool)
    requires forall i :: 0 <= i < |deps| && FindModelByPath(g, deps[i]).Some? ==> Reachable(g, ev, deps[i])
    requires forall p :: p in s.visited ==> Reachable(g, ev, p)
    ensures forall p :: p in WalkDeps(g, deps, s, found).0.visited ==> Reachable(g, ev, p)
    decreases |AllPaths(g) - s.visited|, |deps| + 1
  {
    if deps != [] {
      WalkDepsVisitedUnfold(g, deps, s, found);
      assert forall i :: 1 <= i < |deps| ==> deps[i] == deps[1..][i - 1];
      match FindModelByPath(g, deps[0])
      case None =>
        WalkDepsStaysReachable(g, ev, deps[1..], s, found);
      case Some(d) =>
        var t := Walk(g, d, s);
        GrowShrinks(AllPaths(g), s.visited, t.visited);
        WalkStaysReachable(g, ev, d, s);
        WalkDepsStaysReachable(g, ev, deps[1..], t, true);
    }
  }

  /**
   * The walk from an entity var visits exactly the paths reachable from it, and collects
   * exactly the reachable leaf inputs: the dependency tree is traversed down to every leaf.
   */
  lemma WalkVisitsExactlyTheReachable(g: PBModelsData, ev: Model)
    requires ev in g.models && Resolves(g, ev)
    ensures forall p :: p in Walk(g, ev, WalkState({}, [])).visited <==> Reachable(g, ev, p)
    ensures forall p :: Reachable(g, ev, p) ==>
      && FindModelByPath(g, p).Some?
      && (IsLeafInput(g, FindModelByPath(g, p).value) <==> exists k :: 0 <= k < |LeafInputs(g, ev)| && LeafInputs(g, ev)[k].pathRef == p)
  {
    var s0 := WalkState({}, []);
    var t := Walk(g, ev, s0);
    WalkCloses(g, ev, s0);
    WalkFacts(g, ev, s0);
    assert t.visited - s0.visited == t.visited;
    ReachableStart(g, ev);
    WalkStaysReachable(g, ev, ev, s0);
    forall p | Reachable(g, ev, p) ensures p in t.visited {
      var ps :| IsChain(g, ev, ps) && ps[|ps| - 1] == p;
      ChainInClosedSet(g, ev, ps, t.visited);
    }
    LeafInputsAreTheReachedLeaves(g, ev);
  }

  // ---------------------------------------------------------------------------------------------
  // Historic data (`_validate_historic_data`, `_process_table_stats`)

  /** What the graph pass works against: the graph, the warehouse, the configured window and the input tables. */
  datatype RunContext = RunContext(
    graph: PBModelsData,
    warehouse: WarehouseClient,
    threshold: Option<int>,
    inputTables: map<string, InputTableConfig>)

  /** The day-difference expression in the warehouse's dialect: BigQuery's `DATE_DIFF`, otherwise `DATEDIFF`. */
  function DateRangeExpr(warehouseType: string, col: string): string {
    if Lower(warehouseType) == "bigquery" then "DATE_DIFF(DATE(MAX(" + col + ")), DATE(MIN(" + col + ")), DAY)"
    else "DATEDIFF(day, MIN(" + col + "), MAX(" + col + "))"
  }

  /** The aggregate query sent for an input table whose event column is `col`. */
  function StatsQueryFor(wh: WarehouseClient, cfg: InputTableConfig, col: string): StatsQuery {
    StatsQuery(cfg.appDefaults.table, col, DateRangeExpr(wh.warehouseType, col))
  }

  /** Python truthiness of an optional string. */
  predicate Truthy(s: Option<string>) {
    s.Some? && s.value != ""
  }

  /** `str(d) if d else None`. */
  function DateText(d: Option<string>): Option<string> {
    if Truthy(d) then d else None
  }

  /** The report of a table whose data could not be checked: a warning in fallback mode, else a suggestion. */
  function SkipIssue(r: Report, table: string, feature: Option<string>, isFallback: bool): Report {
    if isFallback then r.(warnings := r.warnings + [Issue(FallbackDataValidationSkipped, None, Some(table), "")])
    else r.(suggestions := r.suggestions + [Issue(DataValidationSkipped, feature, Some(table), "")])
  }

  /** The report of a table with too short a history: a warning in fallback mode, else an error. */
  function ShortfallIssue(r: Report, table: string, feature: Option<string>, isFallback: bool): Report {
    if isFallback then r.(warnings := r.warnings + [Issue(FallbackInsufficientHistoricData, None, Some(table), "")])
    else AddError(r, Issue(InsufficientHistoricData, feature, Some(table), ""))
  }

  /**
   * `_process_table_stats`: the first row's statistics are recorded under the table's name,
   * THEN the range is compared with `predict_window_days`; reading a window that is not
   * configured raises, after the statistics were recorded.
   */
  function ProcessTableStats(r: Report, row: StatsRow, cfg: InputTableConfig, col: string, threshold: Option<int>,
                             feature: Option<string>, isFallback: bool): Flow
  {
    var days := OptOr(row.dateRangeDays, 0);
    var stats := TableStats(DateText(row.minDate), DateText(row.maxDate), days, OptOr(row.totalRows, 0), col);
    var r1 := r.(tableStats := r.tableStats[cfg.name := stats]);
    match threshold
    case None => Raise(r1)
    case Some(t) => Continue(if days < t then ShortfallIssue(r1, cfg.name, feature, isFallback) else r1)
  }

  /**
   * `_validate_historic_data`: a table that already has statistics, or has no event column, is
   * skipped; otherwise the warehouse is queried; a failed query (or a failure while processing
   * the answer) is reported as skipped, an empty answer is ignored.
   */
  function HistoricStep(r: Report, wh: WarehouseClient, threshold: Option<int>, cfg: InputTableConfig,
                        feature: Option<string>, isFallback: bool): Report
  {
    if cfg.name in r.tableStats then r
    else if !Truthy(cfg.appDefaults.occurredAtCol) then r
    else
      var col := cfg.appDefaults.occurredAtCol.value;
      match wh.respond(StatsQueryFor(wh, cfg, col))
      case QueryFailed => SkipIssue(r, cfg.name, feature, isFallback)
      case QueryRows(rows) =>
        if rows == [] then r
        else
          match ProcessTableStats(r, rows[0], cfg, col, threshold, feature, isFallback)
          case Continue(r1) => r1
          case Raise(r1) => SkipIssue(r1, cfg.name, feature, isFallback)
  }

  /** The warehouse answered the table's query with at least one row. */
  predicate AnsweredWithRows(wh: WarehouseClient, cfg: InputTableConfig) {
    Truthy(cfg.appDefaults.occurredAtCol)
    && var q := wh.respond(StatsQueryFor(wh, cfg, cfg.appDefaults.occurredAtCol.value));
       q.QueryRows? && q.rows != []
  }

  /** The first row of that answer. */
  function AnswerRow(wh: WarehouseClient, cfg: InputTableConfig): StatsRow
    requires AnsweredWithRows(wh, cfg)
  {
    wh.respond(StatsQueryFor(wh, cfg, cfg.appDefaults.occurredAtCol.value)).rows[0]
  }

  /**
   * Statistics for a new table are recorded exactly when it has an event column and the
   * warehouse answered with rows, and then they are the first row's, with NULL counts read as 0.
   */
  lemma HistoricStatsRecordedIff(r: Report, wh: WarehouseClient, threshold: Option<int>, cfg: InputTableConfig,
                                 feature: Option<string>, isFallback: bool)
    requires cfg.name !in r.tableStats
    ensures var r' := HistoricStep(r, wh, threshold, cfg, feature, isFallback);
      && (cfg.name in r'.tableStats <==> AnsweredWithRows(wh, cfg))
      && (AnsweredWithRows(wh, cfg) ==>
            r'.tableStats[cfg.name].dateRangeDays == OptOr(AnswerRow(wh, cfg).dateRangeDays, 0)
            && r'.tableStats[cfg.name].totalRows == OptOr(AnswerRow(wh, cfg).totalRows, 0)
            && r'.tableStats[cfg.name].occurredAtCol == cfg.appDefaults.occurredAtCol.value)
      && (forall t :: t in r.tableStats ==> t in r'.tableStats && r'.tableStats[t] == r.tableStats[t])
  {
  }

  /**
   * Once a table has statistics, checking it again (for any feature, in any mode) changes
   * nothing: a table that already has statistics is not queried again.
   */
  lemma HistoricStepOncePerTable(r: Report, wh: WarehouseClient, threshold: Option<int>, cfg: InputTableConfig,
                                 feature: Option<string>, isFallback: bool,
                                 cfg2: InputTableConfig, feature2: Option<string>, isFallback2: bool)
    requires cfg2.name == cfg.name
    requires cfg.name in HistoricStep(r, wh, threshold, cfg, feature, isFallback).tableStats
    ensures var r' := HistoricStep(r, wh, threshold, cfg, feature, isFallback);
      HistoricStep(r', wh, threshold, cfg2, feature2, isFallback2) == r'
  {
  }

  /**
   * With a window configured, a new table with rows gets an `INSUFFICIENT_HISTORIC_DATA`
   * error exactly when its range is strictly shorter than the window; an equal range passes.
   */
  lemma HistoricShortfallIff(r: Report, wh: WarehouseClient, t: int, cfg: InputTableConfig, feature: Option<string>)
    requires cfg.name !in r.tableStats && AnsweredWithRows(wh, cfg)
    ensures var r' := HistoricStep(r, wh, Some(t), cfg, feature, false);
      var days := OptOr(AnswerRow(wh, cfg).dateRangeDays, 0);
      && r'.warnings == r.warnings && r'.suggestions == r.suggestions
      && (days < t ==> r'.errors == r.errors + [Issue(InsufficientHistoricData, feature, Some(cfg.name), "")])
      && (days >= t ==> r'.errors == r.errors)
  {
  }

  /**
   * Without a readable window the comparison raises after the statistics were recorded, so
   * the table ends up both with statistics and with a `DATA_VALIDATION_SKIPPED` suggestion.
   */
  lemma HistoricWithoutWindowSkips(r: Report, wh: WarehouseClient, cfg: InputTableConfig, feature: Option<string>)
    requires cfg.name !in r.tableStats && AnsweredWithRows(wh, cfg)
    ensures var r' := HistoricStep(r, wh, None, cfg, feature, false);
      && cfg.name in r'.tableStats
      && r'.errors == r.errors
      && r'.suggestions == r.suggestions + [Issue(DataValidationSkipped, feature, Some(cfg.name), "")]
  {
  }

  /** A failed query leaves the statistics alone and yields one skip notice naming the table. */
  lemma HistoricQueryFailureSkips(r: Report, wh: WarehouseClient, threshold: Option<int>, cfg: InputTableConfig,
                                  feature: Option<string>, isFallback: bool)
    requires cfg.name !in r.tableStats && Truthy(cfg.appDefaults.occurredAtCol)
    requires wh.respond(StatsQueryFor(wh, cfg, cfg.appDefaults.occurredAtCol.value)).QueryFailed?
    ensures var r' := HistoricStep(r, wh, threshold, cfg, feature, isFallback);
      && r'.tableStats == r.tableStats && r'.errors == r.errors
      && (isFallback ==> r'.warnings == r.warnings + [Issue(FallbackDataValidationSkipped, None, Some(cfg.name), "")]
                         && r'.suggestions == r.suggestions)
      && (!isFallback ==> r'.suggestions == r.suggestions + [Issue(DataValidationSkipped, feature, Some(cfg.name), "")]
                          && r'.warnings == r.warnings)
  {
  }

  // ---------------------------------------------------------------------------------------------
  // The graph pass (`_validate_using_pb_models_data` and what it calls)

  /**
   * The loop over the leaves in `_validate_entity_var_leaf_inputs`: a leaf with a configured
   * input table is checked, provided the propensity model's own path `models/<name>` exists.
   */
  function LeafChecks(r: Report, ctx: RunContext, propName: string, feature: string, leaves: seq<Model>): Report
    decreases |leaves|
  {
    if leaves == [] then r
    else
      var leaf := leaves[0];
      var r1 :=
        if leaf.name in ctx.inputTables && FindModelByPath(ctx.graph, "models/" + propName).Some? then
          HistoricStep(r, ctx.warehouse, ctx.threshold, ctx.inputTables[leaf.name], Some(feature), false)
        else r;
      LeafChecks(r1, ctx, propName, feature, leaves[1..])
  }

  /** Rules 2 to 4 for one entity var: time functions, direct sources, then the leaves' history. */
  function EntityVarChecks(r: Report, ctx: RunContext, propName: string, ev: Model): Report
    requires ev in ctx.graph.models
  {
    var r1 := r.(errors := r.errors + TimeFunctionIssues(ev));
    var r2 := r1.(errors := r1.errors + EventStreamIssues(ctx.graph, ev, ev.dependencies));
    LeafChecks(r2, ctx, propName, ev.name, LeafInputs(ctx.graph, ev))
  }

  /**
   * The loop over the training model's dependencies in `_validate_propensity_model_set_combined`:
   * an unresolved path is an error; each distinct `entity_var_item` is checked once.
   */
  function TrainingDepChecks(r: Report, ctx: RunContext, propName: string, deps: seq<string>, validated: set<string>): Report
    decreases |deps|
  {
    if deps == [] then r
    else
      match FindModelByPath(ctx.graph, deps[0])
      case None =>
        TrainingDepChecks(AddError(r, Issue(DependencyNotFound, None, None, deps[0])), ctx, propName, deps[1..], validated)
      case Some(m) =>
        if m.modelType != "entity_var_item" || m.pathRef in validated then
          TrainingDepChecks(r, ctx, propName, deps[1..], validated)
        else
          TrainingDepChecks(EntityVarChecks(r, ctx, propName, m), ctx, propName, deps[1..], validated + {m.pathRef})
  }

  /** The entity vars' paths checked after the dependencies `deps`, starting from `validated`. */
  function ValidatedAfter(g: PBModelsData, deps: seq<string>, validated: set<string>): set<string>
    decreases |deps|
  {
    if deps == [] then validated
    else
      match FindModelByPath(g, deps[0])
      case Some(m) =>
        if m.modelType == "entity_var_item" then ValidatedAfter(g, deps[1..], validated + {m.pathRef})
        else ValidatedAfter(g, deps[1..], validated)
      case None => ValidatedAfter(g, deps[1..], validated)
  }

  /** The dependency loop can be run in two stretches. */
  lemma {:induction false} TrainingDepChecksSplit(r: Report, ctx: RunContext, propName: string, a: seq<string>, b: seq<string>, validated: set<string>)
    ensures TrainingDepChecks(r, ctx, propName, a + b, validated)
         == TrainingDepChecks(TrainingDepChecks(r, ctx, propName, a, validated), ctx, propName, b, ValidatedAfter(ctx.graph, a, validated))
    ensures validated <= ValidatedAfter(ctx.graph, a, validated)
    decreases |a|
  {
    if a == [] {
      assert a + b == b;
    } else {
      assert (a + b)[0] == a[0];
      assert (a + b)[1..] == a[1..] + b;
      match FindModelByPath(ctx.graph, a[0])
      case None =>
        TrainingDepChecksSplit(AddError(r, Issue(DependencyNotFound, None, None, a[0])), ctx, propName, a[1..], b, validated);
      case Some(m) =>
        if m.modelType != "entity_var_item" || m.pathRef in validated {
          TrainingDepChecksSplit(r, ctx, propName, a[1..], b, validated);
          if m.modelType == "entity_var_item" {
            assert validated + {m.pathRef} == validated;
          }
        } else {
          TrainingDepChecksSplit(EntityVarChecks(r, ctx, propName, m), ctx, propName, a[1..], b, validated + {m.pathRef});
        }
    }
  }

  lemma {:induction false} ValidatedAfterHasEntityVars(g: PBModelsData, deps: seq<string>, validated: set<string>, i: nat)
    requires i < |deps| && FindModelByPath(g, deps[i]).Some? && FindModelByPath(g, deps[i]).value.modelType == "entity_var_item"
    ensures FindModelByPath(g, deps[i]).value.pathRef in ValidatedAfter(g, deps, validated)
    decreases |deps|
  {
    if i == 0 {
      var m := FindModelByPath(g, deps[0]).value;
      TrainingDepChecksGrowsValidated(g, deps[1..], validated + {m.pathRef});
    } else {
      assert deps[1..][i - 1] == deps[i];
      match FindModelByPath(g, deps[0])
      case Some(m) =>
        if m.modelType == "entity_var_item" {
          ValidatedAfterHasEntityVars(g, deps[1..], validated + {m.pathRef}, i - 1);
        } else {
          ValidatedAfterHasEntityVars(g, deps[1..], validated, i - 1);
        }
      case None =>
        ValidatedAfterHasEntityVars(g, deps[1..], validated, i - 1);
    }
  }

  lemma {:induction false} TrainingDepChecksGrowsValidated(g: PBModelsData, deps: seq<string>, validated: set<string>)
    ensures validated <= ValidatedAfter(g, deps, validated)
    decreases |deps|
  {
    if deps != [] {
      match FindModelByPath(g, deps[0])
      case Some(m) =>
        if m.modelType == "entity_var_item" {
          TrainingDepChecksGrowsValidated(g, deps[1..], validated + {m.pathRef});
        } else {
          TrainingDepChecksGrowsValidated(g, deps[1..], validated);
        }
      case None =>
        TrainingDepChecksGrowsValidated(g, deps[1..], validated);
    }
  }

  /** Running the dependency loop over `a + b` validates what `a` validates, then what `b` adds. */
  lemma {:induction false} ValidatedAfterConcat(g: PBModelsData, a: seq<string>, b: seq<string>, validated: set<string>)
    ensures ValidatedAfter(g, a + b, validated) == ValidatedAfter(g, b, ValidatedAfter(g, a, validated))
    decreases |a|
  {
    if a == [] {
      assert a + b == b;
    } else {
      assert (a + b)[0] == a[0];
      assert (a + b)[1..] == a[1..] + b;
      match FindModelByPath(g, a[0])
      case Some(m) =>
        if m.modelType == "entity_var_item" {
          ValidatedAfterConcat(g, a[1..], b, validated + {m.pathRef});
        } else {
          ValidatedAfterConcat(g, a[1..], b, validated);
        }
      case None =>
        ValidatedAfterConcat(g, a[1..], b, validated);
    }
  }

  /**
   * Listing an entity var again, anywhere after its first listing, changes nothing: each
   * distinct `entity_var_item` is checked at most once per propensity model set.
   */
  lemma RepeatedEntityVarIgnored(r: Report, ctx: RunContext, propName: string, a: seq<string>, i: nat, b: seq<string>)
    requires i < |a| && FindModelByPath(ctx.graph, a[i]).Some?
    requires FindModelByPath(ctx.graph, a[i]).value.modelType == "entity_var_item"
    ensures TrainingDepChecks(r, ctx, propName, a + [a[i]] + b, {}) == TrainingDepChecks(r, ctx, propName, a + b, {})
  {
    var d := a[i];
    TrainingDepChecksSplit(r, ctx, propName, a, [d] + b, {});
    TrainingDepChecksSplit(r, ctx, propName, a, b, {});
    ValidatedAfterHasEntityVars(ctx.graph, a, {}, i);
    var r1 := TrainingDepChecks(r, ctx, propName, a, {});
    var v := ValidatedAfter(ctx.graph, a, {});
    assert ([d] + b)[0] == d;
    assert ([d] + b)[1..] == b;
    assert TrainingDepChecks(r1, ctx, propName, [d] + b, v) == TrainingDepChecks(r1, ctx, propName, b, v);
    assert a + [d] + b == a + ([d] + b);
  }

  /** An unresolved path, by contrast, is reported every time it is listed. */
  lemma RepeatedMissingDependencyReportedEachTime(r: Report, ctx: RunContext, propName: string, deps: seq<string>, d: string, validated: set<string>)
    requires FindModelByPath(ctx.graph, d).None?
    ensures TrainingDepChecks(r, ctx, propName, deps + [d], validated)
         == AddError(TrainingDepChecks(r, ctx, propName, deps, validated), Issue(DependencyNotFound, None, None, d))
  {
    TrainingDepChecksSplit(r, ctx, propName, deps, [d], validated);
    var r1 := TrainingDepChecks(r, ctx, propName, deps, validated);
    var v := ValidatedAfter(ctx.graph, deps, validated);
    assert [d][1..] == [];
    assert TrainingDepChecks(r1, ctx, propName, [d], v)
        == TrainingDepChecks(AddError(r1, Issue(DependencyNotFound, None, None, d)), ctx, propName, [], v);
  }

  /**
   * `_validate_propensity_model_set_combined`: the `<name>_training` model must exist (reading
   * a missing one raises); rule 1 runs on its direct dependencies, then the dependency loop.
   */
  function SetCheck(r: Report, ctx: RunContext, p: Model): Flow {
    match GetModelByName(ctx.graph, p.name + "_training")
    case None => Raise(r)
    case Some(t) =>
      var r1 := r.(errors := r.errors + NonFeatureIssues(ctx.graph, t.dependencies));
      Continue(TrainingDepChecks(r1, ctx, p.name, t.dependencies, {}))
  }

  /** The loop over the propensity models; the first raise ends it. */
  function SetChecks(r: Report, ctx: RunContext, props: seq<Model>): Flow
    decreases |props|
  {
    if props == [] then Continue(r)
    else
      match SetCheck(r, ctx, props[0])
      case Raise(r1) => Raise(r1)
      case Continue(r1) => SetChecks(r1, ctx, props[1..])
  }

  /**
   * `_validate_using_pb_models_data`: no propensity model in the graph, or none with the
   * requested name, is one error; otherwise every selected model set is checked.
   */
  function GraphPass(r: Report, ctx: RunContext): Flow {
    var props := GetModelsByType(ctx.graph, "propensity");
    if props == [] then Continue(AddError(r, Issue(NoPropensityModels, None, None, "")))
    else if r.modelName != "" then
      var named := Filter(props, (m: Model) => m.name == r.modelName);
      if named == [] then Continue(AddError(r, Issue(ModelNotFound, None, None, r.modelName)))
      else SetChecks(r, ctx, named)
    else SetChecks(r, ctx, props)
  }

  // ---------------------------------------------------------------------------------------------
  // The run (`validate`)

  /** `_set_final_status`. */
  function SetFinalStatus(r: Report): (r': Report)
    ensures r' == r.(status := r'.status)
    ensures r'.status == Failed <==> r.errors != []
    ensures r'.status == Warnings <==> r.errors == [] && r.warnings != []
    ensures r'.status == Passed <==> r.errors == [] && r.warnings == []
  {
    r.(status := if r.errors != [] then Failed else if r.warnings != [] then Warnings else Passed)
  }

  /** `_handle_validation_error`. */
  function HandleValidationError(r: Report): Report {
    AddError(r, Issue(ValidationError, None, None, "")).(status := Failed)
  }

  /**
   * The body of the `try` in `validate`, from the report `r` the validator holds: `configs`
   * is what loading the project's YAML gives, `None` when loading raises.
   */
  function Run(r: Report, graph: Option<PBModelsData>, configs: Option<ProjectConfigs>, wh: WarehouseClient): Flow {
    match graph
    case None => Continue(AddError(r, Issue(NoModelsData, None, None, "")).(status := Failed))
    case Some(g) =>
      match configs
      case None => Raise(r)
      case Some(c) =>
        var pm := FindConfigModel(c.models, r.modelName, "propensity");
        match SpecCheck(r, pm)
        case Raise(r1) => Raise(r1)
        case Continue(r1) =>
          match GraphPass(r1, RunContext(g, wh, Threshold(pm), InputTablesMap(c.inputs)))
          case Raise(r2) => Raise(r2)
          case Continue(r2) => Continue(SetFinalStatus(r2))
  }

  /** `validate`: an exception escaping the run becomes one `VALIDATION_ERROR`. */
  function Validate(r: Report, graph: Option<PBModelsData>, configs: Option<ProjectConfigs>, wh: WarehouseClient): Report {
    match Run(r, graph, configs, wh)
    case Continue(r') => r'
    case Raise(r') => HandleValidationError(r')
  }

  // ---------------------------------------------------------------------------------------------
  // What every step of the graph pass preserves

  const SpecErrorKinds: set<IssueKind> := {ModelNotFound, PredictWindowDaysNotFound, PredictWindowDaysNotPositive}

  const GraphErrorKinds: set<IssueKind> := {
    NoPropensityModels, ModelNotFound, DependencyNotFound, NonFeatureInput,
    TimeFunctionInFeature, NonEventStreamInput, InsufficientHistoricData}

  const GraphWarningKinds: set<IssueKind> := {FallbackInsufficientHistoricData, FallbackDataValidationSkipped}

  const GraphSuggestionKinds: set<IssueKind> := {DataValidationSkipped}

  /** `ys` is `xs` with entries of the given kinds appended. */
  ghost predicate AppendsOnly(xs: seq<Issue>, ys: seq<Issue>, kinds: set<IssueKind>) {
    |xs| <= |ys| && ys[..|xs|] == xs && forall k :: |xs| <= k < |ys| ==> ys[k].kind in kinds
  }

  /**
   * A step of the graph pass only appends issues of its own kinds, never touches the model
   * name or the status, never rewrites a table's statistics, and records statistics only for
   * the given tables.
   */
  ghost predicate GraphStep(r: Report, r': Report, tables: set<string>) {
    && r'.modelName == r.modelName && r'.status == r.status
    && AppendsOnly(r.errors, r'.errors, GraphErrorKinds)
    && AppendsOnly(r.warnings, r'.warnings, GraphWarningKinds)
    && AppendsOnly(r.suggestions, r'.suggestions, GraphSuggestionKinds)
    && (forall t :: t in r.tableStats ==> t in r'.tableStats && r'.tableStats[t] == r.tableStats[t])
    && (forall t :: t in r'.tableStats && t !in r.tableStats ==> t in tables)
  }

  /** Every configured input table is stored under its own name. */
  predicate TablesNamed(ctx: RunContext) {
    forall n :: n in ctx.inputTables ==> ctx.inputTables[n].name == n
  }

  lemma AppendsOnlyTrans(xs: seq<Issue>, ys: seq<Issue>, zs: seq<Issue>, kinds: set<IssueKind>)
    requires AppendsOnly(xs, ys, kinds) && AppendsOnly(ys, zs, kinds)
    ensures AppendsOnly(xs, zs, kinds)
  {
    assert zs[..|xs|] == zs[..|ys|][..|xs|];
    forall k | |xs| <= k < |zs| ensures zs[k].kind in kinds {
      if k < |ys| {
        assert zs[k] == zs[..|ys|][k];
      }
    }
  }

  lemma AppendsOnlyConcat(xs: seq<Issue>, extra: seq<Issue>, kinds: set<IssueKind>)
    requires forall k :: 0 <= k < |extra| ==> extra[k].kind in kinds
    ensures AppendsOnly(xs, xs + extra, kinds)
  {
    assert (xs + extra)[..|xs|] == xs;
  }

  lemma GraphStepRefl(r: Report, tables: set<string>)
    ensures GraphStep(r, r, tables)
  {
    assert r.errors[..|r.errors|] == r.errors;
    assert r.warnings[..|r.warnings|] == r.warnings;
    assert r.suggestions[..|r.suggestions|] == r.suggestions;
  }

  lemma GraphStepTrans(r: Report, r': Report, r'': Report, tables: set<string>)
    requires GraphStep(r, r', tables) && GraphStep(r', r'', tables)
    ensures GraphStep(r, r'', tables)
  {
    AppendsOnlyTrans(r.errors, r'.errors, r''.errors, GraphErrorKinds);
    AppendsOnlyTrans(r.warnings, r'.warnings, r''.warnings, GraphWarningKinds);
    AppendsOnlyTrans(r.suggestions, r'.suggestions, r''.suggestions, GraphSuggestionKinds);
  }

  lemma HistoricStepIsGraphStep(r: Report, wh: WarehouseClient, threshold: Option<int>, cfg: InputTableConfig,
                                feature: Option<string>, isFallback: bool, tables: set<string>)
    requires cfg.name in tables
    ensures GraphStep(r, HistoricStep(r, wh, threshold, cfg, feature, isFallback), tables)
  {
    GraphStepRefl(r, tables);
    if cfg.name !in r.tableStats && Truthy(cfg.appDefaults.occurredAtCol) {
      var col := cfg.appDefaults.occurredAtCol.value;
      SkipIssueIsGraphStep(r, cfg.name, feature, isFallback, tables);
      match wh.respond(StatsQueryFor(wh, cfg, col))
      case QueryFailed =>
      case QueryRows(rows) =>
        if rows != [] {
          ProcessTableStatsIsGraphStep(r, rows[0], cfg, col, threshold, feature, isFallback, tables);
        }
    }
  }

  lemma SkipIssueIsGraphStep(r: Report, table: string, feature: Option<string>, isFallback: bool, tables: set<string>)
    ensures GraphStep(r, SkipIssue(r, table, feature, isFallback), tables)
  {
    GraphStepRefl(r, tables);
    AppendsOnlyConcat(r.warnings, [Issue(FallbackDataValidationSkipped, None, Some(table), "")], GraphWarningKinds);
    AppendsOnlyConcat(r.suggestions, [Issue(DataValidationSkipped, feature, Some(table), "")], GraphSuggestionKinds);
  }

  /** Processing an answer is a step, and so is reporting a skip after processing raised. */
  lemma ProcessTableStatsIsGraphStep(r: Report, row: StatsRow, cfg: InputTableConfig, col: string, threshold: Option<int>,
                                     feature: Option<string>, isFallback: bool, tables: set<string>)
    requires cfg.name in tables && cfg.name !in r.tableStats
    ensures GraphStep(r, ProcessTableStats(r, row, cfg, col, threshold, feature, isFallback).report, tables)
    ensures GraphStep(r, SkipIssue(ProcessTableStats(r, row, cfg, col, threshold, feature, isFallback).report, cfg.name, feature, isFallback), tables)
  {
    var r1 := ProcessTableStats(r, row, cfg, col, threshold, feature, isFallback).report;
    var recorded := r.(tableStats := r1.tableStats);
    assert GraphStep(r, recorded, tables);
    GraphStepRefl(recorded, tables);
    ShortfallIssueIsGraphStep(recorded, cfg.name, feature, isFallback, tables);
    GraphStepTrans(r, recorded, r1, tables);
    SkipIssueIsGraphStep(r1, cfg.name, feature, isFallback, tables);
    GraphStepTrans(r, r1, SkipIssue(r1, cfg.name, feature, isFallback), tables);
  }

  lemma ShortfallIssueIsGraphStep(r: Report, table: string, feature: Option<string>, isFallback: bool, tables: set<string>)
    ensures GraphStep(r, ShortfallIssue(r, table, feature, isFallback), tables)
  {
    GraphStepRefl(r, tables);
    AppendsOnlyConcat(r.errors, [Issue(InsufficientHistoricData, feature, Some(table), "")], GraphErrorKinds);
    AppendsOnlyConcat(r.warnings, [Issue(FallbackInsufficientHistoricData, None, Some(table), "")], GraphWarningKinds);
  }

  lemma {:induction false} LeafChecksIsGraphStep(r: Report, ctx: RunContext, propName: string, feature: string, leaves: seq<Model>)
    requires TablesNamed(ctx)
    ensures GraphStep(r, LeafChecks(r, ctx, propName, feature, leaves), ctx.inputTables.Keys)
    decreases |leaves|
  {
    var tables := ctx.inputTables.Keys;
    if leaves == [] {
      GraphStepRefl(r, tables);
    } else {
      var leaf := leaves[0];
      var r1 :=
        if leaf.name in ctx.inputTables && FindModelByPath(ctx.graph, "models/" + propName).Some? then
          HistoricStep(r, ctx.warehouse, ctx.threshold, ctx.inputTables[leaf.name], Some(feature), false)
        else r;
      if leaf.name in ctx.inputTables {
        HistoricStepIsGraphStep(r, ctx.warehouse, ctx.threshold, ctx.inputTables[leaf.name], Some(feature), false, tables);
      }
      GraphStepRefl(r, tables);
      LeafChecksIsGraphStep(r1, ctx, propName, feature, leaves[1..]);
      GraphStepTrans(r, r1, LeafChecks(r1, ctx, propName, feature, leaves[1..]), tables);
    }
  }

  lemma EntityVarChecksIsGraphStep(r: Report, ctx: RunContext, propName: string, ev: Model)
    requires ev in ctx.graph.models && TablesNamed(ctx)
    ensures GraphStep(r, EntityVarChecks(r, ctx, propName, ev), ctx.inputTables.Keys)
  {
    var tables := ctx.inputTables.Keys;
    var r1 := r.(errors := r.errors + TimeFunctionIssues(ev));
    var r2 := r1.(errors := r1.errors + EventStreamIssues(ctx.graph, ev, ev.dependencies));
    GraphStepRefl(r, tables);
    AppendsOnlyConcat(r.errors, TimeFunctionIssues(ev), GraphErrorKinds);
    assert GraphStep(r, r1, tables);
    GraphStepRefl(r1, tables);
    EventStreamIssuesShape(ctx.graph, ev, ev.dependencies);
    AppendsOnlyConcat(r1.errors, EventStreamIssues(ctx.graph, ev, ev.dependencies), GraphErrorKinds);
    assert GraphStep(r1, r2, tables);
    LeafChecksIsGraphStep(r2, ctx, propName, ev.name, LeafInputs(ctx.graph, ev));
    GraphStepTrans(r, r1, r2, tables);
    GraphStepTrans(r, r2, EntityVarChecks(r, ctx, propName, ev), tables);
  }

  lemma {:induction false} TrainingDepChecksIsGraphStep(r: Report, ctx: RunContext, propName: string, deps: seq<string>, validated: set<string>)
    requires TablesNamed(ctx)
    ensures GraphStep(r, TrainingDepChecks(r, ctx, propName, deps, validated), ctx.inputTables.Keys)
    decreases |deps|
  {
    var tables := ctx.inputTables.Keys;
    if deps == [] {
      GraphStepRefl(r, tables);
    } else {
      match FindModelByPath(ctx.graph, deps[0])
      case None =>
        var r1 := AddError(r, Issue(DependencyNotFound, None, None, deps[0]));
        GraphStepRefl(r, tables);
        AppendsOnlyConcat(r.errors, [Issue(DependencyNotFound, None, None, deps[0])], GraphErrorKinds);
        TrainingDepChecksIsGraphStep(r1, ctx, propName, deps[1..], validated);
        GraphStepTrans(r, r1, TrainingDepChecks(r1, ctx, propName, deps[1..], validated), tables);
      case Some(m) =>
        if m.modelType != "entity_var_item" || m.pathRef in validated {
          TrainingDepChecksIsGraphStep(r, ctx, propName, deps[1..], validated);
        } else {
          var r1 := EntityVarChecks(r, ctx, propName, m);
          EntityVarChecksIsGraphStep(r, ctx, propName, m);
          TrainingDepChecksIsGraphStep(r1, ctx, propName, deps[1..], validated + {m.pathRef});
          GraphStepTrans(r, r1, TrainingDepChecks(r1, ctx, propName, deps[1..], validated + {m.pathRef}), tables);
        }
    }
  }

  lemma SetCheckIsGraphStep(r: Report, ctx: RunContext, p: Model)
    requires TablesNamed(ctx)
    ensures GraphStep(r, SetCheck(r, ctx, p).report, ctx.inputTables.Keys)
  {
    var tables := ctx.inputTables.Keys;
    GraphStepRefl(r, tables);
    match GetModelByName(ctx.graph, p.name + "_training")
    case None =>
    case Some(t) =>
      var r1 := r.(errors := r.errors + NonFeatureIssues(ctx.graph, t.dependencies));
      NonFeatureIssuesShape(ctx.graph, t.dependencies);
      AppendsOnlyConcat(r.errors, NonFeatureIssues(ctx.graph, t.dependencies), GraphErrorKinds);
      assert GraphStep(r, r1, tables);
      TrainingDepChecksIsGraphStep(r1, ctx, p.name, t.dependencies, {});
      GraphStepTrans(r, r1, TrainingDepChecks(r1, ctx, p.name, t.dependencies, {}), tables);
  }

  lemma {:induction false} SetChecksIsGraphStep(r: Report, ctx: RunContext, props: seq<Model>)
    requires TablesNamed(ctx)
    ensures GraphStep(r, SetChecks(r, ctx, props).report, ctx.inputTables.Keys)
    decreases |props|
  {
    var tables := ctx.inputTables.Keys;
    if props == [] {
      GraphStepRefl(r, tables);
    } else {
      SetCheckIsGraphStep(r, ctx, props[0]);
      match SetCheck(r, ctx, props[0])
      case Raise(r1) =>
      case Continue(r1) =>
        SetChecksIsGraphStep(r1, ctx, props[1..]);
        GraphStepTrans(r, r1, SetChecks(r1, ctx, props[1..]).report, tables);
    }
  }

  lemma GraphPassIsGraphStep(r: Report, ctx: RunContext)
    requires TablesNamed(ctx)
    ensures GraphStep(r, GraphPass(r, ctx).report, ctx.inputTables.Keys)
  {
    var tables := ctx.inputTables.Keys;
    var props := GetModelsByType(ctx.graph, "propensity");
    GraphStepRefl(r, tables);
    AppendsOnlyConcat(r.errors, [Issue(NoPropensityModels, None, None, "")], GraphErrorKinds);
    AppendsOnlyConcat(r.errors, [Issue(ModelNotFound, None, None, r.modelName)], GraphErrorKinds);
    if props != [] {
      if r.modelName != "" {
        SetChecksIsGraphStep(r, ctx, Filter(props, (m: Model) => m.name == r.modelName));
      } else {
        SetChecksIsGraphStep(r, ctx, props);
      }
    }
  }

  lemma InputTablesNamed(inputs: seq<InputTableConfig>)
    ensures forall n :: n in InputTablesMap(inputs) ==> InputTablesMap(inputs)[n].name == n
  {
    forall n | n in InputTablesMap(inputs)
      ensures InputTablesMap(inputs)[n].name == n
    {
      InputTablesMapLastWins(inputs, n);
    }
  }

  // ---------------------------------------------------------------------------------------------
  // What `validate` promises

  /** The status always agrees with the lists: FAILED iff errors, WARNINGS iff only warnings. */
  lemma ValidateStatusMatchesIssues(r: Report, graph: Option<PBModelsData>, configs: Option<ProjectConfigs>, wh: WarehouseClient)
    ensures var v := Validate(r, graph, configs, wh);
      && (v.status == Failed <==> v.errors != [])
      && (v.status == Warnings <==> v.errors == [] && v.warnings != [])
      && (v.status == Passed <==> v.errors == [] && v.warnings == [])
  {
  }

  /** Without a graph the report carries the single `NO_MODELS_DATA` error and fails. */
  lemma NoModelsDataReport(modelName: string, configs: Option<ProjectConfigs>, wh: WarehouseClient)
    ensures Validate(InitialReport(modelName), None, configs, wh)
         == Report(modelName, Failed, [Issue(NoModelsData, None, None, "")], [], [], map[])
  {
  }

  /** When loading the configuration raises, the report carries the single `VALIDATION_ERROR` and fails. */
  lemma ConfigLoadFailureReport(modelName: string, g: PBModelsData, wh: WarehouseClient)
    ensures Validate(InitialReport(modelName), Some(g), None, wh)
         == Report(modelName, Failed, [Issue(ValidationError, None, None, "")], [], [], map[])
  {
  }

  lemma CountKindNone(xs: seq<Issue>, kind: IssueKind)
    requires forall k :: 0 <= k < |xs| ==> xs[k].kind != kind
    ensures CountKind(xs, kind) == 0
  {
    if xs != [] {
      CountKindNone(xs[1..], kind);
    }
  }

  lemma AppendsOnlyCount(xs: seq<Issue>, ys: seq<Issue>, kinds: set<IssueKind>, kind: IssueKind)
    requires AppendsOnly(xs, ys, kinds) && kind !in kinds
    ensures CountKind(ys, kind) == CountKind(xs, kind)
  {
    assert ys == xs + ys[|xs|..];
    CountKindConcat(xs, ys[|xs|..], kind);
    CountKindNone(ys[|xs|..], kind);
  }

  /**
   * A run that starts without a `VALIDATION_ERROR` ends with exactly one when an exception
   * escaped it and with none otherwise; when there is one, it is the last error and the run
   * failed.
   */
  lemma ValidationErrorIffRaised(r: Report, graph: Option<PBModelsData>, configs: Option<ProjectConfigs>, wh: WarehouseClient)
    requires CountKind(r.errors, ValidationError) == 0
    ensures var v := Validate(r, graph, configs, wh);
      && CountKind(v.errors, ValidationError) == (if Run(r, graph, configs, wh).Raise? then 1 else 0)
      && (Run(r, graph, configs, wh).Raise? ==> v.errors[|v.errors| - 1].kind == ValidationError && v.status == Failed)
  {
    var ve := Issue(ValidationError, None, None, "");
    match graph
    case None =>
      CountKindConcat(r.errors, [Issue(NoModelsData, None, None, "")], ValidationError);
    case Some(g) =>
      match configs
      case None =>
        CountKindConcat(r.errors, [ve], ValidationError);
      case Some(c) =>
        ValidationErrorIffRaisedConfigured(r, g, c, wh);
  }

  lemma ValidationErrorIffRaisedConfigured(r: Report, g: PBModelsData, c: ProjectConfigs, wh: WarehouseClient)
    requires CountKind(r.errors, ValidationError) == 0
    ensures var v := Validate(r, Some(g), Some(c), wh);
      && CountKind(v.errors, ValidationError) == (if Run(r, Some(g), Some(c), wh).Raise? then 1 else 0)
      && (Run(r, Some(g), Some(c), wh).Raise? ==> v.errors[|v.errors| - 1].kind == ValidationError && v.status == Failed)
  {
    var ve := Issue(ValidationError, None, None, "");
    var pm := FindConfigModel(c.models, r.modelName, "propensity");
    var r1 := SpecCheck(r, pm).report;
    SpecCheckKeepsCount(r, pm);
    var ctx := RunContext(g, wh, Threshold(pm), InputTablesMap(c.inputs));
    if SpecCheck(r, pm).Raise? {
      assert Validate(r, Some(g), Some(c), wh) == HandleValidationError(r1);
      CountKindConcat(r1.errors, [ve], ValidationError);
    } else {
      var f := GraphPass(r1, ctx);
      var r2 := f.report;
      InputTablesNamed(c.inputs);
      GraphPassKeepsCount(r1, ctx);
      if f.Raise? {
        assert Validate(r, Some(g), Some(c), wh) == HandleValidationError(r2);
        CountKindConcat(r2.errors, [ve], ValidationError);
      } else {
        assert Validate(r, Some(g), Some(c), wh) == SetFinalStatus(r2);
      }
    }
  }

  lemma SpecCheckKeepsCount(r: Report, pm: Option<ConfigModel>)
    ensures CountKind(SpecCheck(r, pm).report.errors, ValidationError) == CountKind(r.errors, ValidationError)
  {
    SpecCheckAppendsOnly(r, pm);
    AppendsOnlyCount(r.errors, SpecCheck(r, pm).report.errors, SpecErrorKinds, ValidationError);
  }

  lemma GraphPassKeepsCount(r: Report, ctx: RunContext)
    requires TablesNamed(ctx)
    ensures CountKind(GraphPass(r, ctx).report.errors, ValidationError) == CountKind(r.errors, ValidationError)
  {
    GraphPassIsGraphStep(r, ctx);
    GraphStepKeepsCount(r, GraphPass(r, ctx).report, ctx.inputTables.Keys);
  }

  lemma GraphStepKeepsCount(r: Report, r': Report, tables: set<string>)
    requires GraphStep(r, r', tables)
    ensures CountKind(r'.errors, ValidationError) == CountKind(r.errors, ValidationError)
  {
    AppendsOnlyCount(r.errors, r'.errors, GraphErrorKinds, ValidationError);
  }

  lemma SpecCheckAppendsOnly(r: Report, pm: Option<ConfigModel>)
    ensures AppendsOnly(r.errors, SpecCheck(r, pm).report.errors, SpecErrorKinds)
  {
    assert r.errors[..|r.errors|] == r.errors;
    AppendsOnlyConcat(r.errors, [Issue(ModelNotFound, None, None, r.modelName)], SpecErrorKinds);
    AppendsOnlyConcat(r.errors, [Issue(PredictWindowDaysNotFound, None, None, r.modelName)], SpecErrorKinds);
    AppendsOnlyConcat(r.errors, [Issue(PredictWindowDaysNotPositive, None, None, r.modelName)], SpecErrorKinds);
  }

  /** A fresh run records statistics only for configured, named input tables. */
  lemma TableStatsOnlyForConfiguredInputs(modelName: string, g: PBModelsData, c: ProjectConfigs, wh: WarehouseClient)
    ensures forall t :: t in Validate(InitialReport(modelName), Some(g), Some(c), wh).tableStats ==>
      t != "" && exists i :: 0 <= i < |c.inputs| && c.inputs[i].name == t
  {
    var r := InitialReport(modelName);
    var pm := FindConfigModel(c.models, modelName, "propensity");
    var ctx := RunContext(g, wh, Threshold(pm), InputTablesMap(c.inputs));
    InputTablesNamed(c.inputs);
    forall n | n in InputTablesMap(c.inputs)
      ensures n != "" && exists i :: 0 <= i < |c.inputs| && c.inputs[i].name == n
    {
      InputTablesMapKeys(c.inputs, n);
    }
    if SpecCheck(r, pm).Continue? {
      GraphPassIsGraphStep(SpecCheck(r, pm).report, ctx);
    }
  }

  /**
   * A spec error does not stop the run: with a non-positive window and no propensity model
   * in the graph, both errors are reported, in that order.
   */
  lemma SpecErrorDoesNotStopTheRun(modelName: string, g: PBModelsData, c: ProjectConfigs, wh: WarehouseClient, days: int)
    requires FindConfigModel(c.models, modelName, "propensity").Some?
    requires FindConfigModel(c.models, modelName, "propensity").value.training == Training(Some(days))
    requires days <= 0
    requires GetModelsByType(g, "propensity") == []
    ensures Validate(InitialReport(modelName), Some(g), Some(c), wh).errors
         == [Issue(PredictWindowDaysNotPositive, None, None, modelName), Issue(NoPropensityModels, None, None, "")]
    ensures Validate(InitialReport(modelName), Some(g), Some(c), wh).status == Failed
  {
  }

  /**
   * A spec check that does not raise never ends the run, whatever the graph holds: the spec
   * check only appends its own errors, the graph pass then runs on its report, those errors
   * stay at the head of the final report, and the run finishes as the graph pass does.
   */
  lemma SpecCheckContinuesIntoGraphPass(r: Report, g: PBModelsData, c: ProjectConfigs, wh: WarehouseClient, r1: Report)
    requires SpecCheck(r, FindConfigModel(c.models, r.modelName, "propensity")) == Continue(r1)
    ensures var pm := FindConfigModel(c.models, r.modelName, "propensity");
      var gp := GraphPass(r1, RunContext(g, wh, Threshold(pm), InputTablesMap(c.inputs)));
      var v := Validate(r, Some(g), Some(c), wh);
      && AppendsOnly(r.errors, r1.errors, SpecErrorKinds)
      && |r1.errors| <= |v.errors| && v.errors[..|r1.errors|] == r1.errors
      && (gp.Continue? ==> v == SetFinalStatus(gp.report))
      && (gp.Raise? ==> v == HandleValidationError(gp.report))
  {
    var pm := FindConfigModel(c.models, r.modelName, "propensity");
    var ctx := RunContext(g, wh, Threshold(pm), InputTablesMap(c.inputs));
    SpecCheckAppendsOnly(r, pm);
    InputTablesNamed(c.inputs);
    GraphPassIsGraphStep(r1, ctx);
    var e := GraphPass(r1, ctx).report.errors;
    assert (e + [Issue(ValidationError, None, None, "")])[..|r1.errors|] == e[..|r1.errors|];
  }
}
