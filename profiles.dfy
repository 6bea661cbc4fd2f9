/**
 * The algorithmic helpers of the tool layer (`ProfilesTools` in `src/tools/profiles.py`):
 * the status roll-up of a project analysis, the brace-matching extraction of the JSON object
 * printed by `pb show models`, the grouping of its models per entity, the knowledge and
 * user-confirmation gates of the workflow guide, the feature and table reference parsers, the
 * complex-dependency scan and the month arithmetic of the pilot run.
 */
module Profiles {
  import opened Wrappers
  import opened Text

  // ---------------------------------------------------------------------------------------------
  // Status roll-up of `analyze_and_validate_project`
  // ---------------------------------------------------------------------------------------------

  datatype AnalysisStatus = StatusError | StatusWarning | StatusSuccess

  /** What `_analyze_project_structure` gives: its errors and warnings, or the message of what it raised. */
  datatype StructureOutcome = Analyzed(errors: seq<string>, warnings: seq<string>) | AnalysisRaised(message: string)

  datatype ProjectAnalysis = ProjectAnalysis(errors: seq<string>, warnings: seq<string>, status: AnalysisStatus)

  /** `analyze_and_validate_project`: roll the issues up into one status; a raise becomes a single error. */
  function AnalyzeAndValidateProject(outcome: StructureOutcome): (r: ProjectAnalysis)
    ensures outcome.Analyzed? ==> r.errors == outcome.errors && r.warnings == outcome.warnings
    ensures outcome.AnalysisRaised? ==> |r.errors| == 1 && r.warnings == [] && r.status == StatusError
  {
    match outcome
    case Analyzed(errors, warnings) =>
      var status := if errors != [] then StatusError else if warnings != [] then StatusWarning else StatusSuccess;
      ProjectAnalysis(errors, warnings, status)
    case AnalysisRaised(message) =>
      ProjectAnalysis(["Failed to analyze project: " + message], [], StatusError)
  }

  /** Whatever happens, the status is "error" exactly when there are errors, "success" exactly when nothing was found. */
  lemma AnalysisStatusMatchesIssues(outcome: StructureOutcome)
    ensures var r := AnalyzeAndValidateProject(outcome);
      && (r.status == StatusError <==> r.errors != [])
      && (r.status == StatusWarning <==> r.errors == [] && r.warnings != [])
      && (r.status == StatusSuccess <==> r.errors == [] && r.warnings == [])
  {
  }

  // ---------------------------------------------------------------------------------------------
  // `extract_json_from_output`
  // ---------------------------------------------------------------------------------------------

  /** How one character moves the brace count. */
  function BraceDelta(c: char): int {
    if c == '{' then 1 else if c == '}' then -1 else 0
  }

  /** Opening braces minus closing braces in `s`. */
  function BraceBalance(s: string): int
    decreases |s|
  {
    if s == [] then 0 else BraceBalance(s[..|s| - 1]) + BraceDelta(s[|s| - 1])
  }

  lemma BraceBalanceStep(s: string, start: nat, i: nat)
    requires start <= i < |s|
    ensures BraceBalance(s[start..i + 1]) == BraceBalance(s[start..i]) + BraceDelta(s[i])
  {
    assert s[start..i + 1][..i - start] == s[start..i];
  }

  /** `s.find(c)`: the index of the first occurrence of `c`, or `|s|` when there is none. */
  function IndexOf(s: string, c: char): (k: nat)
    ensures k <= |s|
    ensures forall j :: 0 <= j < k ==> s[j] != c
    ensures k < |s| ==> s[k] == c
    ensures k == |s| <==> c !in s
    decreases |s|
  {
    if s == [] then 0 else if s[0] == c then 0 else IndexOf(s[1..], c) + 1
  }

  /**
   * `obj` is the text from the first `{` of `text` up to the first point where the braces
   * balance again: it starts there, is balanced, and no shorter non-empty piece from there is.
   */
  ghost predicate IsFirstObject(text: string, obj: string) {
    var start := IndexOf(text, '{');
    && start + |obj| <= |text|
    && obj == text[start..start + |obj|]
    && obj != []
    && BraceBalance(obj) == 0
    && forall k :: start < k < start + |obj| ==> BraceBalance(text[start..k]) > 0
  }

  datatype JsonError = NoJsonObject | NoClosingBrace

  /**
   * `extract_json_from_output`, up to `json.loads`: the object text it would decode. A text
   * without `{` and a text whose braces never balance again are the two `ValueError`s.
   */
  method ExtractJsonObject(text: string) returns (r: Result<string, JsonError>)
    ensures r == Failure(NoJsonObject) <==> '{' !in text
    ensures r.Success? ==> IsFirstObject(text, r.value)
    ensures r == Failure(NoClosingBrace) ==> ('{' in text &&
      forall k :: IndexOf(text, '{') < k <= |text| ==> BraceBalance(text[IndexOf(text, '{')..k]) > 0)
  {
    var start := IndexOf(text, '{');
    if start == |text| {
      return Failure(NoJsonObject);
    }
    var count := 0;
    var i := start;
    while i < |text|
      invariant start <= i <= |text|
      invariant count == BraceBalance(text[start..i])
      invariant forall k :: start < k <= i ==> BraceBalance(text[start..k]) > 0
    {
      BraceBalanceStep(text, start, i);
      if text[i] == '{' {
        count := count + 1;
      } else if text[i] == '}' {
        count := count - 1;
        if count == 0 {
          FirstObjectAt(text, start, i + 1);
          return Success(text[start..i + 1]);
        }
      }
      i := i + 1;
    }
    return Failure(NoClosingBrace);
  }

  lemma FirstObjectAt(text: string, start: nat, end: nat)
    requires start == IndexOf(text, '{') && start < end <= |text|
    requires BraceBalance(text[start..end]) == 0
    requires forall k :: start < k < end ==> BraceBalance(text[start..k]) > 0
    ensures IsFirstObject(text, text[start..end])
  {
    var obj := text[start..end];
    assert start + |obj| == end;
  }

  /** A text without `{`, or whose braces never balance again after the first, has no first object. */
  lemma NoObjectWithoutBrace(text: string, obj: string)
    requires '{' !in text
    ensures !IsFirstObject(text, obj)
  {
  }

  lemma NoObjectWhenUnbalanced(text: string, obj: string)
    requires forall k :: IndexOf(text, '{') < k <= |text| ==> BraceBalance(text[IndexOf(text, '{')..k]) > 0
    ensures !IsFirstObject(text, obj)
  {
    var start := IndexOf(text, '{');
    if start + |obj| <= |text| && obj == text[start..start + |obj|] && obj != [] {
      assert BraceBalance(text[start..start + |obj|]) > 0;
    }
  }

  /** There is only one first object: the extraction's answer is determined by the text. */
  lemma FirstObjectUnique(text: string, a: string, b: string)
    requires IsFirstObject(text, a) && IsFirstObject(text, b)
    ensures a == b
  {
  }

  // ---------------------------------------------------------------------------------------------
  // `get_profiles_models_details`: models grouped per entity
  // ---------------------------------------------------------------------------------------------

  /** One entry of the `pb show models` JSON object. */
  datatype ModelInfo = ModelInfo(modelType: Option<string>, modelPath: string, materialName: string)

  /** The feature views and the chosen id stitcher of one entity, each as `<SCHEMA>.<MATERIAL>`. */
  datatype EntityTables = EntityTables(featureViews: seq<string>, idStitcher: string)

  datatype ModelsDetails = ModelsDetails(outputSchema: string, tablesInfo: map<string, EntityTables>)

  /** `model_path.split("/")[0]`. */
  function EntityOf(path: string): string {
    Split(path, '/')[0]
  }

  function QualifiedName(schema: string, material: string): string {
    schema + "." + Upper(material)
  }

  predicate IsFeatureView(m: ModelInfo) {
    m.modelType == Some("feature_view")
  }

  /** An id stitcher that is grouped: the ones of the project-level `models` entity are skipped. */
  predicate IsGroupedIdStitcher(m: ModelInfo) {
    m.modelType == Some("id_stitcher") && EntityOf(m.modelPath) != "models"
  }

  predicate IsDefaultStitcher(m: ModelInfo) {
    Contains(Upper(m.materialName), "DEFAULT")
  }

  function SlotOf(tables: map<string, EntityTables>, e: string): EntityTables {
    if e in tables then tables[e] else EntityTables([], "")
  }

  /** One turn of the grouping loop. */
  function GroupStep(schema: string, tables: map<string, EntityTables>, m: ModelInfo): map<string, EntityTables> {
    var e := EntityOf(m.modelPath);
    var slot := SlotOf(tables, e);
    if IsFeatureView(m) then
      tables[e := slot.(featureViews := slot.featureViews + [QualifiedName(schema, m.materialName)])]
    else if IsGroupedIdStitcher(m) then
      if !IsDefaultStitcher(m) || slot.idStitcher == "" then
        tables[e := slot.(idStitcher := QualifiedName(schema, m.materialName))]
      else tables[e := slot]
    else tables
  }

  /** The grouping loop over the models in the order of the JSON object. */
  function Grouped(schema: string, models: seq<ModelInfo>): map<string, EntityTables>
    decreases |models|
  {
    if models == [] then map[]
    else GroupStep(schema, Grouped(schema, models[..|models| - 1]), models[|models| - 1])
  }

  /** The loop of `get_profiles_models_details`. */
  method GroupModels(schema: string, models: seq<ModelInfo>) returns (tables: map<string, EntityTables>)
    ensures tables == Grouped(schema, models)
  {
    tables := map[];
    for i := 0 to |models|
      invariant tables == Grouped(schema, models[..i])
    {
      assert models[..i + 1][..i] == models[..i];
      var m := models[i];
      var e := EntityOf(m.modelPath);
      if m.modelType == Some("feature_view") {
        if e !in tables {
          tables := tables[e := EntityTables([], "")];
        }
        tables := tables[e := tables[e].(featureViews := tables[e].featureViews + [schema + "." + Upper(m.materialName)])];
      } else if m.modelType == Some("id_stitcher") {
        if e == "models" {
          continue;
        }
        if e !in tables {
          tables := tables[e := EntityTables([], "")];
        }
        var name := Upper(m.materialName);
        if !Contains(name, "DEFAULT") || tables[e].idStitcher == "" {
          tables := tables[e := tables[e].(idStitcher := schema + "." + name)];
        }
      }
    }
    assert models[..|models|] == models;
  }

  /** Reference: the qualified names of the feature views of entity `e`, in model order. */
  function FeatureViewsOf(schema: string, models: seq<ModelInfo>, e: string): seq<string> {
    if models == [] then []
    else
      var m := models[0];
      (if IsFeatureView(m) && EntityOf(m.modelPath) == e then [QualifiedName(schema, m.materialName)] else [])
      + FeatureViewsOf(schema, models[1..], e)
  }

  /** Reference: the id stitchers of entity `e` that are grouped, in model order. */
  function StitchersOf(models: seq<ModelInfo>, e: string): seq<ModelInfo> {
    if models == [] then []
    else
      var m := models[0];
      (if IsGroupedIdStitcher(m) && EntityOf(m.modelPath) == e then [m] else []) + StitchersOf(models[1..], e)
  }

  /** Reference: the last id stitcher whose name lacks `DEFAULT`, if any. */
  function LastNonDefault(stitchers: seq<ModelInfo>): Option<ModelInfo> {
    if stitchers == [] then None
    else if !IsDefaultStitcher(stitchers[|stitchers| - 1]) then Some(stitchers[|stitchers| - 1])
    else LastNonDefault(stitchers[..|stitchers| - 1])
  }

  /**
   * Reference: the id stitcher an entity ends up with: the last one without `DEFAULT` in its
   * name, else the first one, else none.
   */
  function ChosenStitcher(schema: string, stitchers: seq<ModelInfo>): string {
    match LastNonDefault(stitchers)
    case Some(m) => QualifiedName(schema, m.materialName)
    case None => if stitchers == [] then "" else QualifiedName(schema, stitchers[0].materialName)
  }

  lemma FeatureViewsOfSnoc(schema: string, models: seq<ModelInfo>, m: ModelInfo, e: string)
    ensures FeatureViewsOf(schema, models + [m], e) == FeatureViewsOf(schema, models, e)
      + (if IsFeatureView(m) && EntityOf(m.modelPath) == e then [QualifiedName(schema, m.materialName)] else [])
  {
    if models != [] {
      assert (models + [m])[1..] == models[1..] + [m];
      FeatureViewsOfSnoc(schema, models[1..], m, e);
    }
  }

  lemma StitchersOfSnoc(models: seq<ModelInfo>, m: ModelInfo, e: string)
    ensures StitchersOf(models + [m], e) == StitchersOf(models, e)
      + (if IsGroupedIdStitcher(m) && EntityOf(m.modelPath) == e then [m] else [])
  {
    if models != [] {
      assert (models + [m])[1..] == models[1..] + [m];
      StitchersOfSnoc(models[1..], m, e);
    }
  }

  /** What one turn of the loop does to the entry of entity `e`. */
  lemma GroupStepSlot(schema: string, g: map<string, EntityTables>, m: ModelInfo, e: string)
    ensures var slot := SlotOf(g, e);
      SlotOf(GroupStep(schema, g, m), e) ==
        if EntityOf(m.modelPath) != e then slot
        else if IsFeatureView(m) then slot.(featureViews := slot.featureViews + [QualifiedName(schema, m.materialName)])
        else if IsGroupedIdStitcher(m) && (!IsDefaultStitcher(m) || slot.idStitcher == "") then
          slot.(idStitcher := QualifiedName(schema, m.materialName))
        else slot
    ensures e in GroupStep(schema, g, m) <==>
      e in g || (EntityOf(m.modelPath) == e && (IsFeatureView(m) || IsGroupedIdStitcher(m)))
  {
  }

  /**
   * After the loop, an entity is present exactly when one of its feature views or grouped id
   * stitchers was seen; its feature views are all of them in order, and its id stitcher is the
   * last one without `DEFAULT` in its name, else the first one.
   */
  lemma GroupedMatchesReference(schema: string, models: seq<ModelInfo>, e: string)
    ensures e in Grouped(schema, models) <==> FeatureViewsOf(schema, models, e) != [] || StitchersOf(models, e) != []
    ensures SlotOf(Grouped(schema, models), e)
      == EntityTables(FeatureViewsOf(schema, models, e), ChosenStitcher(schema, StitchersOf(models, e)))
  {
    GroupedFeatureViews(schema, models, e);
    GroupedStitcher(schema, models, e);
  }

  lemma {:induction false} GroupedFeatureViews(schema: string, models: seq<ModelInfo>, e: string)
    ensures e in Grouped(schema, models) <==> FeatureViewsOf(schema, models, e) != [] || StitchersOf(models, e) != []
    ensures SlotOf(Grouped(schema, models), e).featureViews == FeatureViewsOf(schema, models, e)
    decreases |models|
  {
    if models != [] {
      var prefix := models[..|models| - 1];
      var m := models[|models| - 1];
      assert models == prefix + [m];
      GroupedFeatureViews(schema, prefix, e);
      FeatureViewsOfSnoc(schema, prefix, m, e);
      StitchersOfSnoc(prefix, m, e);
      GroupStepSlot(schema, Grouped(schema, prefix), m, e);
    }
  }

  lemma {:induction false} GroupedStitcher(schema: string, models: seq<ModelInfo>, e: string)
    ensures SlotOf(Grouped(schema, models), e).idStitcher == ChosenStitcher(schema, StitchersOf(models, e))
    decreases |models|
  {
    if models != [] {
      var prefix := models[..|models| - 1];
      var m := models[|models| - 1];
      assert models == prefix + [m];
      GroupedStitcher(schema, prefix, e);
      assert Grouped(schema, models) == GroupStep(schema, Grouped(schema, prefix), m);
      StitchersOfSnoc(prefix, m, e);
      var stitchers := StitchersOf(prefix, e);
      ChosenStitcherEmpty(schema, stitchers);
      GroupStepSlot(schema, Grouped(schema, prefix), m, e);
      if IsGroupedIdStitcher(m) && EntityOf(m.modelPath) == e {
        ChosenStitcherSnoc(schema, stitchers, m);
        assert StitchersOf(models, e) == stitchers + [m];
        var slot := SlotOf(Grouped(schema, prefix), e);
        assert slot.idStitcher == ChosenStitcher(schema, stitchers);
        assert !IsFeatureView(m);
        assert (slot.idStitcher == "") == (stitchers == []);
        if !IsDefaultStitcher(m) || stitchers == [] {
          assert SlotOf(Grouped(schema, models), e).idStitcher == QualifiedName(schema, m.materialName);
        } else {
          assert SlotOf(Grouped(schema, models), e).idStitcher == slot.idStitcher;
        }
      } else {
        assert StitchersOf(models, e) == stitchers;
        assert SlotOf(Grouped(schema, models), e).idStitcher == SlotOf(Grouped(schema, prefix), e).idStitcher;
      }
    }
  }

  lemma ChosenStitcherEmpty(schema: string, stitchers: seq<ModelInfo>)
    ensures ChosenStitcher(schema, stitchers) == "" <==> stitchers == []
  {
    match LastNonDefault(stitchers)
    case Some(m) =>
      assert QualifiedName(schema, m.materialName)[|schema|] == '.';
    case None =>
      if stitchers != [] {
        assert QualifiedName(schema, stitchers[0].materialName)[|schema|] == '.';
      }
  }

  /** A new id stitcher takes the slot unless its name holds `DEFAULT` and an earlier one is there. */
  lemma ChosenStitcherSnoc(schema: string, stitchers: seq<ModelInfo>, m: ModelInfo)
    ensures ChosenStitcher(schema, stitchers + [m]) ==
      if !IsDefaultStitcher(m) || stitchers == [] then QualifiedName(schema, m.materialName)
      else ChosenStitcher(schema, stitchers)
  {
    var s := stitchers + [m];
    assert s[|s| - 1] == m && s[..|s| - 1] == stitchers;
    assert LastNonDefault(s) == if !IsDefaultStitcher(m) then Some(m) else LastNonDefault(stitchers);
    if stitchers != [] {
      assert s[0] == stitchers[0];
    } else {
      assert LastNonDefault(stitchers) == None;
    }
  }

  datatype DetailsError = UnparsableOutput

  /**
   * `get_profiles_models_details`, after the file reads: the schema and the raw `pb show models`
   * output are given, and `decode` stands for `json.loads`. A failure to find or decode the
   * object becomes the error answer.
   */
  method GetProfilesModelsDetails(schema: string, output: string, decode: string -> Option<seq<ModelInfo>>)
    returns (r: Result<ModelsDetails, DetailsError>)
    ensures '{' !in output ==> r.Failure?
    ensures r.Success? ==> r.value.outputSchema == Upper(schema)
    ensures r.Success? ==> exists obj :: (IsFirstObject(output, obj) && decode(obj).Some?
      && r.value.tablesInfo == Grouped(Upper(schema), decode(obj).value))
    ensures r.Failure? ==> forall obj :: IsFirstObject(output, obj) ==> decode(obj).None?
  {
    var outputSchema := Upper(schema);
    var obj := ExtractJsonObject(output);
    if obj.Failure? {
      assert obj.error == NoJsonObject || obj.error == NoClosingBrace;
      assert obj == Failure(obj.error);
      forall o | true
        ensures !IsFirstObject(output, o)
      {
        if obj.error == NoJsonObject {
          NoObjectWithoutBrace(output, o);
        } else {
          NoObjectWhenUnbalanced(output, o);
        }
      }
      return Failure(UnparsableOutput);
    }
    var models := decode(obj.value);
    if models.None? {
      forall o | IsFirstObject(output, o)
        ensures decode(o).None?
      {
        FirstObjectUnique(output, o, obj.value);
      }
      return Failure(UnparsableOutput);
    }
    var tables := GroupModels(outputSchema, models.value);
    return Success(ModelsDetails(outputSchema, tables));
  }

  // ---------------------------------------------------------------------------------------------
  // `_has_complex_dependencies`
  // ---------------------------------------------------------------------------------------------

  /** An `entity_var` definition, reduced to its `from` field. */
  datatype EntityVarDef = EntityVarDef(from: Option<string>)

  /**
   * One propensity input whose feature cannot be traced to an input table: it names an
   * entity var that has no `from`, or whose `from` is not an `inputs/<table>` reference.
   */
  predicate IsComplexInput(input: string, entityVars: map<string, EntityVarDef>) {
    match ParseFeatureReference(input)
    case None => false
    case Some(f) =>
      f.featureName in entityVars &&
      match entityVars[f.featureName].from
      case None => true
      case Some(from) => from == [] || ParseTableReference(from).None?
  }

  /** `_has_complex_dependencies`, given the propensity model's `inputs` list. */
  method HasComplexDependencies(inputs: seq<string>, entityVars: map<string, EntityVarDef>) returns (r: bool)
    ensures r <==> exists i :: 0 <= i < |inputs| && IsComplexInput(inputs[i], entityVars)
  {
    for i := 0 to |inputs|
      invariant forall j :: 0 <= j < i ==> !IsComplexInput(inputs[j], entityVars)
    {
      var featureInfo := ParseFeatureReference(inputs[i]);
      if featureInfo.None? {
        continue;
      }
      if featureInfo.value.featureName !in entityVars {
        continue;
      }
      var from := entityVars[featureInfo.value.featureName].from;
      if from.None? || from.value == [] {
        return true;
      }
      var tableRef := ParseTableReference(from.value);
      if tableRef.None? || tableRef.value.sourceType != "inputs" {
        return true;
      }
    }
    return false;
  }

  // ---------------------------------------------------------------------------------------------
  // Gates of the workflow guide: `_validate_knowledge_phase` and `_validate_user_confirmations`
  // ---------------------------------------------------------------------------------------------

  /** The workflow actions the gates distinguish; every other action is `OtherAction`. */
  datatype Action = CreateInputsYaml | CreateModelsYaml | CreateEntityVars | OtherAction

  /** The three actions that write YAML configuration, the only ones the gates can block. */
  predicate IsConfigAction(a: Action) {
    !a.OtherAction?
  }

  /** The `about_profiles` topics each configuration action needs first, in the order they are asked for. */
  function RequiredKnowledge(a: Action): seq<string> {
    match a
    case CreateInputsYaml => ["profiles", "inputs"]
    case CreateModelsYaml => ["profiles", "inputs", "models", "macros"]
    case CreateEntityVars => ["profiles", "models", "macros"]
    case OtherAction => []
  }

  /** The non-blank comma-separated entries, stripped and lower-cased. */
  function CompletedTopicList(parts: seq<string>): seq<string> {
    if parts == [] then []
    else
      var rest := CompletedTopicList(parts[1..]);
      if Strip(parts[0]) != [] then [Lower(Strip(parts[0]))] + rest else rest
  }

  /** Entry `k` is non-blank and, stripped and lower-cased, spells `t`. */
  predicate SpellsTopic(parts: seq<string>, k: int, t: string) {
    0 <= k < |parts| && Strip(parts[k]) != [] && t == Lower(Strip(parts[k]))
  }

  /** A topic counts as completed exactly when some non-blank entry, stripped and lower-cased, spells it. */
  lemma {:induction false} CompletedTopicListMembers(parts: seq<string>, t: string)
    ensures t in CompletedTopicList(parts) <==> exists k :: SpellsTopic(parts, k, t)
  {
    if parts != [] {
      var rest := parts[1..];
      CompletedTopicListMembers(rest, t);
      var head := Strip(parts[0]);
      assert CompletedTopicList(parts) == (if head != [] then [Lower(head)] else []) + CompletedTopicList(rest);
      if t in CompletedTopicList(parts) {
        if head != [] && t == Lower(head) {
          assert SpellsTopic(parts, 0, t);
        } else {
          assert t in CompletedTopicList(rest);
          var k :| SpellsTopic(rest, k, t);
          assert rest[k] == parts[k + 1];
          assert SpellsTopic(parts, k + 1, t);
        }
      }
      if exists k :: SpellsTopic(parts, k, t) {
        var k :| SpellsTopic(parts, k, t);
        if k > 0 {
          assert rest[k - 1] == parts[k];
          assert SpellsTopic(rest, k - 1, t);
        }
      }
    }
  }

  /** `[k.strip().lower() for k in knowledge_phase_completed.split(",") if k.strip()]`. */
  function CompletedTopics(completed: string): seq<string> {
    CompletedTopicList(Split(completed, ','))
  }

  /** The required topics not among the completed ones, in the order of `required`. */
  function MissingTopics(required: seq<string>, completed: seq<string>): (r: seq<string>)
    ensures |r| <= |required|
    ensures forall t :: t in r <==> t in required && t !in completed
  {
    if required == [] then []
    else
      var rest := MissingTopics(required[1..], completed);
      assert required == [required[0]] + required[1..];
      if required[0] !in completed then [required[0]] + rest else rest
  }

  /**
   * One workflow step of a blocked answer: learning a topic (every such step is numbered 1), or
   * calling the guide again, numbered after them, listing every required topic.
   */
  datatype Step = LearnTopic(number: nat, topic: string) | CallGuideAgain(number: nat, topics: seq<string>)

  datatype KnowledgeGate = KnowledgePass | KnowledgeBlocked(missing: seq<string>, steps: seq<Step>)

  /** `_validate_knowledge_phase`. */
  function ValidateKnowledgePhase(a: Action, completed: string): (r: KnowledgeGate)
    ensures !IsConfigAction(a) ==> r == KnowledgePass
    ensures r.KnowledgeBlocked? ==>
      && r.missing != []
      && |r.steps| == |r.missing| + 1
      && (forall i :: 0 <= i < |r.missing| ==> r.steps[i] == LearnTopic(1, r.missing[i]))
      && r.steps[|r.missing|] == CallGuideAgain(|r.missing| + 1, RequiredKnowledge(a))
  {
    if !IsConfigAction(a) then KnowledgePass
    else
      var required := RequiredKnowledge(a);
      var missing := MissingTopics(required, CompletedTopics(completed));
      if missing == [] then KnowledgePass
      else
        var learn := seq(|missing|, i requires 0 <= i < |missing| => LearnTopic(1, missing[i]));
        KnowledgeBlocked(missing, learn + [CallGuideAgain(|missing| + 1, required)])
  }

  /**
   * A configuration action is blocked exactly when some required topic is not among the
   * completed ones, and then the missing list holds exactly those topics.
   */
  lemma KnowledgeGateBlocksIffMissing(a: Action, completed: string)
    requires IsConfigAction(a)
    ensures var r := ValidateKnowledgePhase(a, completed);
      && (r.KnowledgeBlocked? <==> exists t :: t in RequiredKnowledge(a) && t !in CompletedTopics(completed))
      && (r.KnowledgeBlocked? ==> forall t :: t in r.missing <==> t in RequiredKnowledge(a) && t !in CompletedTopics(completed))
  {
    var missing := MissingTopics(RequiredKnowledge(a), CompletedTopics(completed));
    if missing != [] {
      assert missing[0] in missing;
    }
  }

  /** A topic name that survives stripping and lower-casing and holds no comma. */
  predicate IsPlainTopic(t: string) {
    t != [] && forall i :: 0 <= i < |t| ==> IsLowerAscii(t[i])
  }

  lemma PlainTopicParsesAsItself(t: string)
    requires IsPlainTopic(t)
    ensures Strip(t) == t && Lower(t) == t
  {
    assert StripLeft(t) == t by {
      assert !IsSpace(t[0]);
    }
    assert StripRight(t) == t by {
      assert !IsSpace(t[|t| - 1]);
    }
  }

  /** Topics joined with commas parse back to themselves. */
  lemma {:induction false} JoinedTopicsParseBack(topics: seq<string>)
    requires |topics| >= 1
    requires forall i :: 0 <= i < |topics| ==> IsPlainTopic(topics[i])
    ensures CompletedTopics(Join(topics, ',')) == topics
  {
    forall i | 0 <= i < |topics|
      ensures ',' !in topics[i]
    {
    }
    SplitJoin(topics, ',');
    TopicListParsesBack(topics);
  }

  lemma {:induction false} TopicListParsesBack(topics: seq<string>)
    requires forall i :: 0 <= i < |topics| ==> IsPlainTopic(topics[i])
    ensures CompletedTopicList(topics) == topics
  {
    if topics != [] {
      PlainTopicParsesAsItself(topics[0]);
      TopicListParsesBack(topics[1..]);
      assert topics == [topics[0]] + topics[1..];
    }
  }

  /**
   * Following the blocked answer's last step (calling the guide again with the listed topics as
   * completed) passes the gate.
   */
  lemma KnowledgeGateRetryPasses(a: Action)
    requires IsConfigAction(a)
    ensures ValidateKnowledgePhase(a, Join(RequiredKnowledge(a), ',')) == KnowledgePass
  {
    var required := RequiredKnowledge(a);
    forall i | 0 <= i < |required|
      ensures IsPlainTopic(required[i])
    {
    }
    JoinedTopicsParseBack(required);
    NothingMissing(required, required);
  }

  lemma {:induction false} NothingMissing(required: seq<string>, completed: seq<string>)
    requires forall t :: t in required ==> t in completed
    ensures MissingTopics(required, completed) == []
  {
    if required != [] {
      assert required[0] in required;
      NothingMissing(required[1..], completed);
    }
  }

  /** `FAKE_NAME_PATTERNS`: fragments that mark a name as a placeholder rather than a real one. */
  const FakeNamePatterns: seq<string> := [
    "my_database", "my_schema", "my_table", "my_connection", "example_db", "sample_schema",
    "test_table", "demo_", "your_database", "your_schema", "your_table", "database_name",
    "schema_name", "table_name", "connection_name", "user_confirmed", "user_chosen"]

  /** `detect_fake_names`: some pattern occurs in the lower-cased text. */
  predicate HasPlaceholder(text: string) {
    exists i :: 0 <= i < |FakeNamePatterns| && Contains(Lower(text), FakeNamePatterns[i])
  }

  datatype Confirmations = ConfirmationsValid | MissingTables | MissingConnection | PlaceholderTables | PlaceholderConnection

  /** `_validate_user_confirmations`: the first failing check, in the source's order, blocks. */
  function ValidateUserConfirmations(a: Action, tables: string, connection: string): (r: Confirmations)
    ensures !IsConfigAction(a) ==> r == ConfirmationsValid
  {
    if !IsConfigAction(a) then ConfirmationsValid
    else if Strip(tables) == [] then MissingTables
    else if Strip(connection) == [] then MissingConnection
    else if HasPlaceholder(tables) then PlaceholderTables
    else if HasPlaceholder(connection) then PlaceholderConnection
    else ConfirmationsValid
  }

  /**
   * For a configuration action: the confirmations pass exactly when both answers have
   * non-space text and neither holds a placeholder; blank tables are reported before anything
   * about the connection, and blanks before placeholders.
   */
  lemma UserConfirmationsOrder(a: Action, tables: string, connection: string)
    requires IsConfigAction(a)
    ensures var r := ValidateUserConfirmations(a, tables, connection);
      && (r == MissingTables <==> IsBlank(tables))
      && (r == MissingConnection <==> !IsBlank(tables) && IsBlank(connection))
      && (r == PlaceholderTables <==> !IsBlank(tables) && !IsBlank(connection) && HasPlaceholder(tables))
      && (r == ConfirmationsValid <==>
            !IsBlank(tables) && !IsBlank(connection) && !HasPlaceholder(tables) && !HasPlaceholder(connection))
  {
    StripEmptyIffBlank(tables);
    StripEmptyIffBlank(connection);
  }

  /** Placeholder detection ignores letter case. */
  lemma PlaceholderIgnoresCase(text: string)
    ensures HasPlaceholder(Upper(text)) == HasPlaceholder(text)
    ensures HasPlaceholder(Lower(text)) == HasPlaceholder(text)
  {
    LowerUpper(text);
    LowerLower(text);
  }

  // ---------------------------------------------------------------------------------------------
  // `_parse_feature_reference` and `_parse_table_reference`
  // ---------------------------------------------------------------------------------------------

  datatype FeatureRef = FeatureRef(entityType: string, entityName: string, featureName: string)

  datatype TableRef = TableRef(sourceType: string, tableName: string)

  /** `entity/<entity>/<feature>`: exactly three `/`-separated parts, the first `entity`. */
  function ParseFeatureReference(s: string): (r: Option<FeatureRef>)
    ensures r.Some? ==> r.value.entityType == "entity"
  {
    var parts := Split(s, '/');
    if |parts| == 3 && parts[0] == "entity" then Some(FeatureRef(parts[0], parts[1], parts[2])) else None
  }

  /** `inputs/<table>`: exactly two `/`-separated parts, the first `inputs`. */
  function ParseTableReference(s: string): (r: Option<TableRef>)
    ensures r.Some? ==> r.value.sourceType == "inputs"
  {
    var parts := Split(s, '/');
    if |parts| == 2 && parts[0] == "inputs" then Some(TableRef(parts[0], parts[1])) else None
  }

  /** A parsed feature reference spells out the text it came from, and none of its names holds a `/`. */
  lemma FeatureReferenceRoundTrip(s: string)
    requires ParseFeatureReference(s).Some?
    ensures var f := ParseFeatureReference(s).value;
      && Join([f.entityType, f.entityName, f.featureName], '/') == s
      && '/' !in f.entityName && '/' !in f.featureName
  {
    var parts := Split(s, '/');
    JoinSplit(s, '/');
    SplitPartsHaveNoSeparator(s, '/');
    assert parts == [parts[0], parts[1], parts[2]];
  }

  /** Conversely, any entity and feature name without a `/` parse back from their reference. */
  lemma FeatureReferenceParsesBack(entityName: string, featureName: string)
    requires '/' !in entityName && '/' !in featureName
    ensures ParseFeatureReference(Join(["entity", entityName, featureName], '/'))
      == Some(FeatureRef("entity", entityName, featureName))
  {
    var parts := ["entity", entityName, featureName];
    assert forall i :: 0 <= i < 3 ==> '/' !in parts[i];
    SplitJoin(parts, '/');
  }

  /** A parsed table reference spells out the text it came from, and the table name holds no `/`. */
  lemma TableReferenceRoundTrip(s: string)
    requires ParseTableReference(s).Some?
    ensures var t := ParseTableReference(s).value;
      Join([t.sourceType, t.tableName], '/') == s && '/' !in t.tableName
  {
    var parts := Split(s, '/');
    JoinSplit(s, '/');
    SplitPartsHaveNoSeparator(s, '/');
    assert parts == [parts[0], parts[1]];
  }

  /** Conversely, any table name without a `/` parses back from its reference. */
  lemma TableReferenceParsesBack(tableName: string)
    requires '/' !in tableName
    ensures ParseTableReference(Join(["inputs", tableName], '/')) == Some(TableRef("inputs", tableName))
  {
    var parts := ["inputs", tableName];
    assert forall i :: 0 <= i < 2 ==> '/' !in parts[i];
    SplitJoin(parts, '/');
  }

  // ---------------------------------------------------------------------------------------------
  // Date arithmetic of `_handle_run_pilot_test_action`
  // ---------------------------------------------------------------------------------------------

  /** `(current_month - 2) % 12 + 1`, Python's floor modulo (the same as Dafny's for a positive divisor). */
  function PilotBeginMonth(currentMonth: int): (r: int)
    requires 1 <= currentMonth <= 12
    ensures 1 <= r <= 12
    ensures r == if currentMonth == 1 then 12 else currentMonth - 1
  {
    (currentMonth - 2) % 12 + 1
  }

  /**
   * How many months the pilot's begin date (`current_year - 1`, the month above, day 1) lies
   * before the first day of the current month: thirteen, except in January, where it is one.
   */
  lemma PilotLookBack(currentYear: int, currentMonth: int)
    requires 1 <= currentMonth <= 12
    ensures (currentYear * 12 + currentMonth) - ((currentYear - 1) * 12 + PilotBeginMonth(currentMonth))
      == if currentMonth == 1 then 1 else 13
  {
  }

  /** `f"{n:02d}"` for a number below 100. */
  function TwoDigits(n: nat): (r: string)
    requires n < 100
    ensures |r| == 2 && forall i :: 0 <= i < 2 ==> IsDigit(r[i])
  {
    [DigitChar(n / 10), DigitChar(n % 10)]
  }

  lemma TwoDigitsValue(n: nat)
    requires n < 100
    ensures DigitsValue(TwoDigits(n)) == n
  {
    var r := TwoDigits(n);
    assert DigitValue(r[0]) == n / 10 && DigitValue(r[1]) == n % 10;
    var p := r[..1];
    assert p[..0] == [] && p[0] == r[0];
    assert DigitsValue(p) == DigitsValue(p[..0]) * 10 + DigitValue(p[0]);
    assert r[..|r| - 1] == p;
    assert DigitsValue(r) == DigitsValue(p) * 10 + DigitValue(r[1]);
  }

  /** The `--begin_time` argument of the pilot example: `<year - 1>-<MM>-01T00:00:00Z`. */
  function PilotBeginTime(currentYear: int, currentMonth: int): (r: string)
    requires 1 <= currentMonth <= 12
    ensures var y := IntToString(currentYear - 1); |r| == |y| + 16 && r[..|y|] == y && r[|y|] == '-'
    ensures var y := IntToString(currentYear - 1); forall i :: |y| + 1 <= i < |y| + 3 ==> IsDigit(r[i])
    ensures var y := IntToString(currentYear - 1); DigitsValue(r[|y| + 1..|y| + 3]) == PilotBeginMonth(currentMonth)
    ensures var y := IntToString(currentYear - 1); r[|y| + 3..] == "-01T00:00:00Z"
  {
    var year := IntToString(currentYear - 1);
    var month := TwoDigits(PilotBeginMonth(currentMonth));
    TwoDigitsValue(PilotBeginMonth(currentMonth));
    var r := year + "-" + month + "-01T00:00:00Z";
    assert r[|year| + 1..|year| + 3] == month;
    assert r[|year| + 3..] == "-01T00:00:00Z";
    r
  }
}
