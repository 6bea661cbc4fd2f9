# profiles-mcp core, modelled in Dafny

This project models the decision logic of the RudderStack Profiles MCP server and proves properties about it. The modelled parts are:

- **`PropensityValidator`** (`src/validators/propensity_validator.py`) checks one propensity model of a Profiles project against the project's model graph, its YAML configuration and warehouse statistics. It fills a report with errors, warnings, suggestions, per-table statistics and a final status.
  - `ValidationModel` (`validation_model.dfy`) is a pure reference definition of the whole run. It covers each rule, the recursive walk to the leaf inputs, the historic-data check and the exception flow.
  - `Validators.PropensityValidator` (`validators.dfy`) is a class whose fields are the parts of `self.result`. Its methods update those fields in place, and each method is proved to compute the matching step of the reference definition.
- **The `pb mcp models` data model** (`src/utils/pb_models_parser.py`) is in `PbModels` (`pb_models.dfy`). It covers the `from_dict` decoders with their defaults and the graph queries.
- **The pure helpers of the Profiles tool** (`src/tools/profiles.py`) are in `Profiles` (`profiles.dfy`):
  - the project-analysis status roll-up;
  - the first-JSON-object extraction;
  - the grouping of `pb show models` output per entity;
  - `_has_complex_dependencies`;
  - the knowledge-phase and user-confirmation gates of the workflow guide;
  - the feature- and table-reference parsers;
  - the date arithmetic of the pilot-run example.
- **The warehouse factory and connection manager** (`src/tools/warehouse_factory.py`) are in `Warehouses` (`warehouse_factory.dfy`). Both are classes whose registry, connections and active selection are updated in place.

`Wrappers` (`wrappers.dfy`) holds `Option` and `Result`. `Text` (`text.dfy`) models the Python string operations the code relies on: ASCII `lower`/`upper`, `split`/`join` (with their round-trip lemmas), `strip`, substring tests and decimal formatting.

Behaviours of the code that the model keeps on purpose:

- A spec error does not stop the run. A missing propensity model or a bad `predict_window_days` is reported, and the graph pass still runs (`ValidationModel.SpecCheckContinuesIntoGraphPass`).
- The feature rule and the event-stream rule look only at direct dependencies: those of the training model and of each entity var.
- The leaf walk starts with an empty visited set for every entity var. Statistics are recorded at most once per table, because a table that already has statistics is skipped. A table whose query failed or returned nothing is queried again at every later reference, and each failure adds another skip notice.
- A history exactly as long as `predict_window_days` passes: the comparison is strict.
- `get_propensity_models` selects models of type `python_model`, not `propensity`.
- The pilot example's begin date is thirteen months back, except in January, where it is one.

## Model

| member | source | states |
|---|---|---|
| PbModels.MaterializationFromDict | src/utils/pb_models_parser.py:37-44 | absent `output_type`/`run_type` give "", and `sql_type` is None exactly when absent; present keys are copied |
| PbModels.MaterializationRoundTrip | src/utils/pb_models_parser.py:37-44 | decoding the dict a materialization serialises to gives it back |
| PbModels.FeatureDataFromDict | src/utils/pb_models_parser.py:60-73 | an absent `name` or `yaml` becomes "", and a present one is copied |
| PbModels.EntityFromDict | src/utils/pb_models_parser.py:87-98 | an absent `name` becomes "" and an absent `id_types` the empty list; present values are copied |
| PbModels.ModelFromDict | src/utils/pb_models_parser.py:121-144 | `Model.from_dict`; its defaults are stated by `ModelFromDictDefaults`, its feature-data test by `ModelFeatureDataPresence`, and `ModelRoundTrip` shows it loses nothing |
| PbModels.EntityRoundTrip | src/utils/pb_models_parser.py:87-98 | decoding a serialised entity gives it back |
| PbModels.ModelFromDictDefaults | src/utils/pb_models_parser.py:121-144 | the defaults `Model.from_dict` fills in for absent keys: [], False, None, the empty materialization, "" |
| PbModels.ModelFeatureDataPresence | src/utils/pb_models_parser.py:124-127 | `feature_data` is None exactly when the input's is absent or an empty object, else it is the decoded object |
| PbModels.ModelRoundTrip | src/utils/pb_models_parser.py:121-144 | decoding a serialised model gives it back |
| PbModels.PBModelsDataFromDict | src/utils/pb_models_parser.py:158-163 | one decoded entity and model per input record, in input order; absent lists are empty |
| PbModels.FilterConcat | src/utils/pb_models_parser.py:179-181 | a filtering comprehension distributes over concatenation, so order is kept |
| PbModels.GetEntityByName | src/utils/pb_models_parser.py:165-170 | None exactly when no entity has the name; otherwise the first one that does |
| PbModels.GetModelByNameAndType | src/utils/pb_models_parser.py:172-177 | None exactly when no model matches both; otherwise the first match |
| PbModels.GetModelsByType | src/utils/pb_models_parser.py:179-181 | exactly the models of that type, each as often as in the graph |
| PbModels.GetModelByName | src/utils/pb_models_parser.py:183-188 | None exactly when no model has the name; otherwise the first one |
| PbModels.GetModelsByTypeKeepsOrder | src/utils/pb_models_parser.py:179-181 | models listed earlier come out earlier |
| PbModels.GetModelsByEntity | src/utils/pb_models_parser.py:190-192 | exactly the models whose entity is the name, with multiplicity |
| PbModels.GetFeatureModels | src/utils/pb_models_parser.py:194-196 | exactly the models flagged `is_feature`, with multiplicity |
| PbModels.GetInputModels | src/utils/pb_models_parser.py:198-200 | exactly the models of type `input` |
| PbModels.GetIdStitcherModels | src/utils/pb_models_parser.py:202-204 | exactly the models of type `id_stitcher` |
| PbModels.GetFeatureViews | src/utils/pb_models_parser.py:206-208 | exactly the models of type `feature_view` |
| PbModels.GetPropensityModels | src/utils/pb_models_parser.py:210-212 | exactly the `python_model` models, so never a model of type `propensity` |
| ValidationModel.FindConfigModel | src/utils/pb_config_parser.py:94-103 | None exactly when no configured model has that name and type; else the first configured one that does |
| ValidationModel.FindModelByPath | src/validators/propensity_validator.py:581-594 | None exactly when no model has the path; else a graph model with that path |
| ValidationModel.FindModelByPathFirst | src/validators/propensity_validator.py:591-593 | the lookup returns the first model carrying the path |
| ValidationModel.FoundModelResolves | src/validators/propensity_validator.py:581-594 | a found model is the one its own path resolves to |
| ValidationModel.CountKindConcat | src/validators/propensity_validator.py:540-550 | counting issues of one kind adds up over appended lists |
| ValidationModel.PredictWindowDaysErrorsExclusive | src/validators/propensity_validator.py:120-142 | a missing window adds `PREDICT_WINDOW_DAYS_NOT_FOUND`, a non-positive one adds `..._NOT_POSITIVE`, each failing the run; a positive one changes nothing; exactly one of the two is added |
| ValidationModel.PredictWindowDaysCheck | src/validators/propensity_validator.py:124-142 | the window check; `PredictWindowDaysErrorsExclusive` states its three cases |
| ValidationModel.SpecCheck | src/validators/propensity_validator.py:103-142 | `MODEL_NOT_FOUND` for a missing propensity model, otherwise the window check, raising when the model has no training section; `SpecCheckAppendsOnly` states that it only appends those errors |
| ValidationModel.InputTablesMap | src/validators/propensity_validator.py:175-183 | the input-table dict; `InputTablesMapKeys`, `InputTablesMapLastWins` and `InputTablesNamed` state its keys and values |
| ValidationModel.InputTablesMapKeys | src/validators/propensity_validator.py:175-183 | the map's keys are exactly the non-empty names of configured inputs |
| ValidationModel.InputTablesMapLastWins | src/validators/propensity_validator.py:179-182 | each name maps to the last configuration carrying it |
| ValidationModel.InputTablesNamed | src/validators/propensity_validator.py:179-182 | every configuration is stored under its own name |
| ValidationModel.NonFeatureIssues | src/validators/propensity_validator.py:553-579 | the non-feature rule over a dependency list; its shape, emptiness and order are stated by the `NonFeatureIssues*` lemmas |
| ValidationModel.NonFeatureIssuesShape | src/validators/propensity_validator.py:553-579 | at most one error per dependency, each `NON_FEATURE_INPUT` naming a feature |
| ValidationModel.NonFeatureIssuesEmptyIff | src/validators/propensity_validator.py:566-579 | no error exactly when no direct dependency is a non-feature `entity_var_item`/`nested_column` |
| ValidationModel.NonFeatureIssuesConcat | src/validators/propensity_validator.py:566-579 | errors follow the dependency order |
| ValidationModel.NonFeatureIssuesPrefix | src/validators/propensity_validator.py:566-579 | one more dependency appends exactly its own errors |
| ValidationModel.SkipSpaces | src/validators/propensity_validator.py:271-272 | the `\s*` of the patterns: the first non-whitespace index at or after a position |
| ValidationModel.CallIssue | src/validators/propensity_validator.py:275-290 | one `TIME_FUNCTION_IN_FEATURE` error exactly when the text matches `\bname\s*\(` ignoring case |
| ValidationModel.TimeFunctionIssues | src/validators/propensity_validator.py:265-290 | at most two errors, all naming the feature; none without definition text |
| ValidationModel.CallIssuesIff | src/validators/propensity_validator.py:275-290 | of the two checks, a function's error is present exactly when the text calls it |
| ValidationModel.TimeFunctionReportedIffCalled | src/validators/propensity_validator.py:265-290 | `current_date`/`datediff` is reported exactly when the definition calls it |
| ValidationModel.CallFoundInAnyCase | src/validators/propensity_validator.py:271-272 | a name at a word boundary, in any letter case, followed by blanks and `(` matches |
| ValidationModel.UpperCaseCallIsCaught | src/validators/propensity_validator.py:271-275 | an upper-case `CURRENT_DATE (` in a definition is reported |
| ValidationModel.EventStreamIssues | src/validators/propensity_validator.py:292-324 | the event-stream rule over an entity var's dependencies; stated by the `EventStreamIssues*` lemmas |
| ValidationModel.EventStreamIssuesEmptyIff | src/validators/propensity_validator.py:302-324 | no error exactly when every direct dependency exists and none is a non-event-stream `input`/`sql_template` |
| ValidationModel.SourceIssuesEmptyIff | src/validators/propensity_validator.py:306-324 | one dependency adds nothing exactly when it exists and is not a non-event-stream source |
| ValidationModel.EventStreamIssuesShape | src/validators/propensity_validator.py:305-324 | at most one error per dependency, each `DEPENDENCY_NOT_FOUND` or `NON_EVENT_STREAM_INPUT` naming the entity var |
| ValidationModel.EventStreamIssuesPerDependency | src/validators/propensity_validator.py:305-324 | errors follow the dependency order |
| ValidationModel.EventStreamIssuesPrefix | src/validators/propensity_validator.py:305-324 | one more dependency appends exactly its own errors |
| ValidationModel.Walk | src/validators/propensity_validator.py:340-361 | the walk never forgets a visited path |
| ValidationModel.WalkDeps | src/validators/propensity_validator.py:352-361 | the dependency loop never forgets a visited path |
| ValidationModel.WalkDepsFacts | src/validators/propensity_validator.py:352-361 | the dependency loop visits only graph paths and appends newly visited leaf inputs once; its flag is set exactly when it was set before or some dependency resolves |
| ValidationModel.WalkFacts | src/validators/propensity_validator.py:340-361 | from any state the walk visits only graph paths and appends each newly visited leaf input exactly once |
| ValidationModel.WalkGrowsTrans | src/validators/propensity_validator.py:352-357 | two stretches of the walk compose into one |
| ValidationModel.SomeDependencyResolves | src/validators/propensity_validator.py:352-360 | an unresolved first dependency does not change whether some dependency resolves |
| ValidationModel.WalkVisitsExactlyTheReachable | src/validators/propensity_validator.py:326-364 | the walk from an entity var visits exactly the paths reachable from it through resolving dependencies, and collects exactly the reachable leaf inputs |
| ValidationModel.WalkCloses | src/validators/propensity_validator.py:340-361 | when `traverse` returns, every path it newly visited has all its resolving dependencies visited |
| ValidationModel.WalkDepsCloses | src/validators/propensity_validator.py:352-361 | the dependency loop visits every resolving dependency and keeps that closure |
| ValidationModel.WalkStaysReachable | src/validators/propensity_validator.py:340-361 | starting from reachable paths, `traverse` visits only reachable paths |
| ValidationModel.WalkDepsStaysReachable | src/validators/propensity_validator.py:352-361 | the same for the dependency loop |
| ValidationModel.ChainInClosedSet | src/validators/propensity_validator.py:340-361 | a set holding the entity var that is closed under dependencies holds every reachable path |
| ValidationModel.ReachableStep | src/validators/propensity_validator.py:352-357 | a resolving dependency of a reachable path is reachable |
| ValidationModel.LeafInputsAreTheReachedLeaves | src/validators/propensity_validator.py:337-364 | the collected leaves are distinct graph models that are leaf inputs, and a visited model is collected exactly when it is a leaf input |
| ValidationModel.DateRangeExpr | src/validators/propensity_validator.py:415-424 | `DATE_DIFF` over dates for a BigQuery client, in any letter case, `DATEDIFF(day, …)` otherwise; it only shapes the query the warehouse oracle answers |
| ValidationModel.ProcessTableStats | src/validators/propensity_validator.py:471-529 | `_process_table_stats`; `HistoricStatsRecordedIff`, `HistoricShortfallIff` and `HistoricWithoutWindowSkips` state what it records and reports |
| ValidationModel.HistoricStep | src/validators/propensity_validator.py:382-469 | `_validate_historic_data`; the `Historic*` lemmas state when it records, reports, skips or changes nothing |
| ValidationModel.HistoricStatsRecordedIff | src/validators/propensity_validator.py:382-529 | statistics for a new table are recorded exactly when it has an event column and the warehouse answered with rows; they are the first row's, with a missing count read as 0; existing statistics are kept |
| ValidationModel.HistoricStepOncePerTable | src/validators/propensity_validator.py:382-469 | once a table has statistics, checking it again changes nothing |
| ValidationModel.HistoricShortfallIff | src/validators/propensity_validator.py:471-529 | `INSUFFICIENT_HISTORIC_DATA` is added exactly when the range is strictly shorter than the window |
| ValidationModel.HistoricWithoutWindowSkips | src/validators/propensity_validator.py:471-529 | without a readable window the statistics stay recorded and `DATA_VALIDATION_SKIPPED` is suggested |
| ValidationModel.HistoricQueryFailureSkips | src/validators/propensity_validator.py:382-469 | a failed query leaves statistics and errors alone and adds one skip notice, a warning in fallback mode |
| ValidationModel.LeafChecks | src/validators/propensity_validator.py:367-380 | the loop over the leaves; `LeafChecksIsGraphStep` states what it may change |
| ValidationModel.EntityVarChecks | src/validators/propensity_validator.py:245-253 | rules 2-4 for one entity var; `EntityVarChecksIsGraphStep` states what they may change |
| ValidationModel.TrainingDepChecks | src/validators/propensity_validator.py:229-253 | the training-dependency loop; stated by `TrainingDepChecksSplit`, `RepeatedEntityVarIgnored`, `RepeatedMissingDependencyReportedEachTime` and `TrainingDepChecksIsGraphStep` |
| ValidationModel.SetCheck | src/validators/propensity_validator.py:204-253 | raises when `<name>_training` is missing, else the non-feature rule and the dependency loop; `SetCheckIsGraphStep` states what it may change |
| ValidationModel.SetChecks | src/validators/propensity_validator.py:172-173 | the loop over the propensity models, ended by the first raise; `SetChecksIsGraphStep` |
| ValidationModel.GraphPass | src/validators/propensity_validator.py:144-173 | `NO_PROPENSITY_MODELS`, `MODEL_NOT_FOUND` or the set checks; `GraphPassIsGraphStep` and `GraphPassKeepsCount` |
| ValidationModel.TrainingDepChecksSplit | src/validators/propensity_validator.py:229-253 | the dependency loop can be run in two stretches, carrying the validated set |
| ValidationModel.ValidatedAfterHasEntityVars | src/validators/propensity_validator.py:241-244 | every listed entity var ends up in the validated set |
| ValidationModel.ValidatedAfterConcat | src/validators/propensity_validator.py:220-244 | the set of checked entity vars after `a + b` is what `b` adds to the set after `a` |
| ValidationModel.RepeatedEntityVarIgnored | src/validators/propensity_validator.py:220-244 | listing an entity var again, at any later position and with any dependencies after it, changes nothing: each distinct `entity_var_item` is checked at most once |
| ValidationModel.RepeatedMissingDependencyReportedEachTime | src/validators/propensity_validator.py:231-238 | appending an unresolved path to any dependency list appends exactly one more `DEPENDENCY_NOT_FOUND` for it, so it is reported every time it is listed |
| ValidationModel.GraphPassIsGraphStep | src/validators/propensity_validator.py:144-173 | the graph pass only appends issues of its own kinds, keeps model name, status and earlier statistics, and records statistics only for configured tables |
| ValidationModel.HistoricStepIsGraphStep | src/validators/propensity_validator.py:382-529 | the historic check of a configured table is such a step |
| ValidationModel.LeafChecksIsGraphStep | src/validators/propensity_validator.py:367-380 | so is the loop over the leaves |
| ValidationModel.EntityVarChecksIsGraphStep | src/validators/propensity_validator.py:245-253 | so are the checks of one entity var |
| ValidationModel.TrainingDepChecksIsGraphStep | src/validators/propensity_validator.py:229-253 | so is the loop over the training model's dependencies |
| ValidationModel.SetChecksIsGraphStep | src/validators/propensity_validator.py:172-173 | so is the loop over the propensity models, raise or not |
| ValidationModel.SpecCheckAppendsOnly | src/validators/propensity_validator.py:103-142 | the spec check only appends `MODEL_NOT_FOUND` and window errors |
| ValidationModel.GraphPassKeepsCount | src/validators/propensity_validator.py:144-173 | the graph pass adds no `VALIDATION_ERROR` |
| ValidationModel.TrainingDepChecksGrowsValidated | src/validators/propensity_validator.py:241-244 | the validated set only grows |
| ValidationModel.GraphStepTrans | src/validators/propensity_validator.py:172-173 | such steps compose |
| ValidationModel.SetFinalStatus | src/validators/propensity_validator.py:531-538 | only the status changes: FAILED exactly when there are errors, WARNINGS exactly when only warnings, PASSED otherwise |
| ValidationModel.HandleValidationError | src/validators/propensity_validator.py:540-550 | appends `VALIDATION_ERROR` and fails; `ValidationErrorIffRaised` states when it runs |
| ValidationModel.Run | src/validators/propensity_validator.py:54-80 | the body of the `try` in `validate`; `SpecCheckContinuesIntoGraphPass` and `ConfigLoadFailureReport` state its paths |
| ValidationModel.Validate | src/validators/propensity_validator.py:41-82 | the whole run; `ValidateStatusMatchesIssues`, `ValidationErrorIffRaised`, `NoModelsDataReport` and `TableStatsOnlyForConfiguredInputs` state its promises |
| ValidationModel.ValidateStatusMatchesIssues | src/validators/propensity_validator.py:531-550 | the final status is FAILED exactly when there are errors, WARNINGS exactly when only warnings, PASSED exactly when neither |
| ValidationModel.NoModelsDataReport | src/validators/propensity_validator.py:55-63 | without a graph the report holds the single `NO_MODELS_DATA` error and fails |
| ValidationModel.ConfigLoadFailureReport | src/validators/propensity_validator.py:65-80 | when loading the configuration raises, the report holds the single `VALIDATION_ERROR` and fails |
| ValidationModel.ValidationErrorIffRaised | src/validators/propensity_validator.py:54-82 | a run ends with exactly one `VALIDATION_ERROR` when an exception escaped, as the last error of a failed report, and with none otherwise |
| ValidationModel.ValidationErrorIffRaisedConfigured | src/validators/propensity_validator.py:65-82 | the same, for a run with a graph and a loaded configuration |
| ValidationModel.TableStatsOnlyForConfiguredInputs | src/validators/propensity_validator.py:367-380 | a fresh run records statistics only for configured, named input tables |
| ValidationModel.SpecCheckContinuesIntoGraphPass | src/validators/propensity_validator.py:66-80 | for every graph and configuration: a spec check that does not raise only appends its own errors, those stay at the head of the final report, and the run ends as the graph pass does, with the final status or with the handler |
| ValidationModel.SpecErrorDoesNotStopTheRun | src/validators/propensity_validator.py:66-75 | a non-positive window and a graph without propensity models give both errors, in that order |
| Validators.PropensityValidator.constructor | src/validators/propensity_validator.py:84-93 | the report starts PASSED and empty |
| Validators.PropensityValidator.Validate | src/validators/propensity_validator.py:41-82 | the report is the reference run's, and the validator holds it |
| Validators.PropensityValidator.InitializeConfigs | src/validators/propensity_validator.py:95-101 | raises exactly when loading fails; otherwise stores the configuration and the propensity model `find_model` returns |
| Validators.PropensityValidator.ValidatePropensityModelSpec | src/validators/propensity_validator.py:103-118 | the report and raise flag are the reference spec check's |
| Validators.PropensityValidator.ValidatePredictWindowDays | src/validators/propensity_validator.py:120-142 | raises exactly when the model has no training section; otherwise the reference window check |
| Validators.PropensityValidator.CreateInputTablesMap | src/validators/propensity_validator.py:175-183 | the loop builds the reference map |
| Validators.PropensityValidator.FindModelByPath | src/validators/propensity_validator.py:581-594 | the loop returns the reference lookup's answer |
| Validators.PropensityValidator.ValidateUsingGraph | src/validators/propensity_validator.py:144-173 | the report and raise flag are the reference graph pass's |
| Validators.PropensityValidator.ValidateEach | src/validators/propensity_validator.py:172-173 | the loop over the selected models stops at the first raise and matches the reference |
| Validators.PropensityValidator.ValidatePropensityModelSet | src/validators/propensity_validator.py:204-253 | raises exactly when the training model is missing; otherwise the reference set check, with its validated set |
| Validators.PropensityValidator.ValidateDirectInputFeatures | src/validators/propensity_validator.py:553-579 | appends exactly the reference non-feature errors and changes nothing else |
| Validators.PropensityValidator.CheckDirectInput | src/validators/propensity_validator.py:567-579 | one dependency's non-feature error, if any |
| Validators.PropensityValidator.ValidateEntityVarTimeFunctions | src/validators/propensity_validator.py:255-290 | appends exactly the reference time-function errors |
| Validators.PropensityValidator.ReportTimeFunction | src/validators/propensity_validator.py:275-290 | appends one error exactly when the text calls the function |
| Validators.PropensityValidator.ValidateEntityVarDirectDependencies | src/validators/propensity_validator.py:292-324 | appends exactly the reference event-stream errors and changes nothing else |
| Validators.PropensityValidator.CheckDirectSource | src/validators/propensity_validator.py:306-324 | one dependency's missing or non-event-stream error, if any |
| Validators.PropensityValidator.ValidateEntityVarLeafInputs | src/validators/propensity_validator.py:326-380 | the reference leaf checks over the walk's leaves |
| Validators.PropensityValidator.Traverse | src/validators/propensity_validator.py:340-361 | the recursion computes the reference walk |
| Validators.PropensityValidator.ValidateHistoricData | src/validators/propensity_validator.py:382-469 | the reference historic step |
| Validators.PropensityValidator.ProcessTableStats | src/validators/propensity_validator.py:471-529 | records the statistics, then compares with the window or raises |
| Validators.PropensityValidator.SetFinalStatus | src/validators/propensity_validator.py:531-538 | the status from the lists |
| Validators.PropensityValidator.HandleValidationError | src/validators/propensity_validator.py:540-550 | appends `VALIDATION_ERROR` and fails |
| Profiles.AnalyzeAndValidateProject | src/tools/profiles.py:51-97 | the issues are passed through; a raise becomes one error, no warnings and status error |
| Profiles.AnalysisStatusMatchesIssues | src/tools/profiles.py:66-95 | status is error exactly when there are errors, warning exactly when only warnings, success exactly when neither |
| Profiles.IndexOf | src/tools/profiles.py:313-338 | `find`: the first occurrence, or the length when absent |
| Profiles.ExtractJsonObject | src/tools/profiles.py:313-338 | no object exactly when the text has no `{`; a success is the text from the first `{` to where the braces first balance; no closing brace means they never balance |
| Profiles.FirstObjectUnique | src/tools/profiles.py:313-338 | the extracted object is determined by the text |
| Profiles.NoObjectWithoutBrace | src/tools/profiles.py:322-324 | a text without `{` has no object |
| Profiles.NoObjectWhenUnbalanced | src/tools/profiles.py:326-338 | a text whose braces never balance again has no object |
| Profiles.GroupModels | src/tools/profiles.py:353-376 | the loop computes the left fold of the grouping step |
| Profiles.Grouped | src/tools/profiles.py:353-376 | the grouping as a left fold; `GroupedMatchesReference` relates it to the per-entity reference |
| Profiles.GroupedMatchesReference | src/tools/profiles.py:353-376 | per entity: the feature views in model order, and the last id stitcher without `DEFAULT`, else the first one; `models`-entity stitchers are skipped |
| Profiles.ChosenStitcherSnoc | src/tools/profiles.py:367-376 | a new id stitcher takes the slot unless its name holds `DEFAULT` and one is already there |
| Profiles.ChosenStitcherEmpty | src/tools/profiles.py:365-376 | an entity's stitcher is empty exactly when it has none |
| Profiles.GetProfilesModelsDetails | src/tools/profiles.py:340-378 | the schema is upper-cased; a success groups the decoded first object; a failure means no first object decodes |
| Profiles.HasComplexDependencies | src/tools/profiles.py:1956-1991 | true exactly when some input names an entity var with no `from`, or one that is not an `inputs/<table>` reference |
| Profiles.CompletedTopics | src/tools/profiles.py:1190-1192 | split on commas, stripped, lower-cased, blanks dropped; `CompletedTopicListMembers` and `JoinedTopicsParseBack` state it |
| Profiles.CompletedTopicListMembers | src/tools/profiles.py:1190-1192 | a topic is completed exactly when some non-blank entry, stripped and lower-cased, spells it |
| Profiles.TopicListParsesBack | src/tools/profiles.py:1190-1192 | a list of plain lower-case topics is its own completed list |
| Profiles.MissingTopics | src/tools/profiles.py:1194-1196 | exactly the required topics not completed |
| Profiles.ValidateKnowledgePhase | src/tools/profiles.py:1171-1226 | non-configuration actions pass; a blocked answer has one learn step per missing topic, then a final numbered step listing all required topics |
| Profiles.KnowledgeGateBlocksIffMissing | src/tools/profiles.py:1181-1198 | blocked exactly when some required topic is not completed, and the missing list is exactly those |
| Profiles.KnowledgeGateRetryPasses | src/tools/profiles.py:1221-1223 | calling again with the listed topics as completed passes |
| Profiles.JoinedTopicsParseBack | src/tools/profiles.py:1190-1192 | plain topics joined with commas parse back to themselves |
| Profiles.UserConfirmationsOrder | src/tools/profiles.py:1228-1328 | blank tables first, then blank connection, then placeholder tables; valid exactly when both are non-blank and placeholder-free |
| Profiles.HasPlaceholder | src/tools/profiles.py:1245-1248 | some fake-name pattern occurs in the lower-cased text; `PlaceholderIgnoresCase` states that case does not matter |
| Profiles.PlaceholderIgnoresCase | src/tools/profiles.py:1245-1248 | placeholder detection ignores letter case |
| Profiles.ValidateUserConfirmations | src/tools/profiles.py:1241-1242 | non-configuration actions pass |
| Profiles.ParseFeatureReference | src/tools/profiles.py:1673-1682 | a parsed reference starts with `entity` |
| Profiles.FeatureReferenceRoundTrip | src/tools/profiles.py:1673-1682 | a parsed feature reference spells out its text, and its names hold no `/` |
| Profiles.FeatureReferenceParsesBack | src/tools/profiles.py:1673-1682 | names without `/` parse back from their reference |
| Profiles.ParseTableReference | src/tools/profiles.py:1723-1728 | a parsed reference starts with `inputs` |
| Profiles.TableReferenceRoundTrip | src/tools/profiles.py:1723-1728 | a parsed table reference spells out its text |
| Profiles.TableReferenceParsesBack | src/tools/profiles.py:1723-1728 | a table name without `/` parses back |
| Profiles.PilotBeginMonth | src/tools/profiles.py:1042 | a month 1..12, the previous month, December for January |
| Profiles.PilotLookBack | src/tools/profiles.py:1029-1042 | the begin date is thirteen months back, or one in January |
| Profiles.TwoDigitsValue | src/tools/profiles.py:1042 | the two digits read back as the month |
| Profiles.PilotBeginTime | src/tools/profiles.py:1042 | the begin time is the previous year, `-`, two digits whose value is the begin month, then `-01T00:00:00Z` |
| Warehouses.WarehouseFactory.constructor | src/tools/warehouse_factory.py:18-21 | the registry holds `snowflake` and `bigquery`, keys in lower case |
| Warehouses.WarehouseFactory.CreateWarehouse | src/tools/warehouse_factory.py:23-49 | succeeds exactly for a supported type, with a fresh unconnected instance of the registered class; otherwise the unsupported-type error |
| Warehouses.WarehouseFactory.RegisterWarehouse | src/tools/warehouse_factory.py:74-97 | a class outside the interface is refused and the registry unchanged; otherwise it is stored under the lower-case type |
| Warehouses.WarehouseFactory.IsSupported | src/tools/warehouse_factory.py:61-72 | the lower-cased type is registered; `SupportIgnoresCase` states that case does not matter |
| Warehouses.SupportIgnoresCase | src/tools/warehouse_factory.py:61-72 | `is_supported` ignores letter case |
| Warehouses.WarehouseManager.constructor | src/tools/warehouse_factory.py:108-111 | no connections, nothing active |
| Warehouses.WarehouseManager.InitializeWarehouse | src/tools/warehouse_factory.py:113-147 | a missing or empty type, an unsupported type and a failed connection leave the manager as it was; otherwise the warehouse is stored under its name and becomes active |
| Warehouses.WarehouseManager.GetWarehouse | src/tools/warehouse_factory.py:149-161 | with a name, that connection if stored; without, the active warehouse |
| Warehouses.WarehouseManager.SetActiveWarehouse | src/tools/warehouse_factory.py:172-188 | true exactly for a stored name, which becomes active; otherwise nothing changes |
| Warehouses.WarehouseManager.CloseWarehouse | src/tools/warehouse_factory.py:208-238 | true exactly for a stored name, which is removed; the active selection is cleared only if it named it |
| Warehouses.WarehouseManager.CloseAllWarehouses | src/tools/warehouse_factory.py:240-245 | no connections remain and nothing is active |

## Left out

- File and process I/O are not modelled: reading `pb_project.yaml`, the YAML files, the `pb show models` output file and `pb` itself. The loaded configuration, the output text and the schema are parameters.
- `_analyze_project_structure` is not modelled. Its outcome is a parameter of `Profiles.AnalyzeAndValidateProject`.
- `json.loads` is not modelled. `Profiles.GetProfilesModelsDetails` takes a `decode` parameter that stands for it. Braces inside JSON strings count like any other brace, as in the source.
- Malformed entries that raise outside the source's `try` are not modelled. An example is a model without `model_path` or `material_name`.
- The warehouse is an oracle (`WarehouseClient`) from a query to rows or a failure. SQL text beyond the date-range expression, vendor clients and sessions are not modelled.
- `Warehouses.WarehouseManager.InitializeWarehouse`: whether the vendor's `initialize_connection` succeeds is the `connects` parameter. What it raises is folded into one `ConnectionFailed`.
- `Warehouses.WarehouseManager.CloseWarehouse` does not model closing the vendor session. The source logs and ignores errors from it.
- The read-only getters are not modelled: `get_supported_types`, `get_active_warehouse`, `get_connection_names` and `get_active_warehouse_name`. Each returns a field of the classes as it is.
- Message, remediation and log texts are not modelled. Issues carry their type and the feature, table or name they mention.
- The clock is not modelled: the current year and month are parameters of the pilot date functions. The rest of the workflow guide's actions build fixed texts and are not modelled.
- `PBModelsParser.from_json_file` and `from_json_string` are not modelled. They read a file or call `json.loads` before the modelled `from_dict`.
- Case folding and `\w` are ASCII only. Python's Unicode `lower`, `upper` and word characters are not modelled.
- `ValidationModel.TimeFunctionIssues`, `ValidationModel.CallIssue`: `re.search` is modelled only for the two fixed patterns `\bname\s*\(` with `IGNORECASE`.
- `src/utils/pb_config_parser.py` is not part of this model beyond `find_model`.
- Profiles.HasComplexDependencies: an entity var that is an empty mapping counts as present. The source skips it because an empty dict is falsy. Entity vars read from YAML always carry a name, so none is empty.
- Profiles.ExtractJsonObject, Profiles.GetProfilesModelsDetails: the text is taken after the removal of ANSI escape sequences, which is not modelled. The final-byte class of that pattern includes `{` and `}`, so on a text such as `"\x1b[{"` the model finds a `{` that the source removes first.
- ValidationModel.ProcessTableStats, ValidationModel.HistoricStep: a statistics row holds optional counts, and a missing one is read as 0. The source reads a pandas frame. There a SQL NULL becomes NaN in a numeric column, which `or 0` keeps and which never compares below the window. In an object column it becomes the string "Null", whose comparison raises and gives a skip notice. So for a table with no non-NULL event timestamps, the model reports `INSUFFICIENT_HISTORIC_DATA` where the source does not. The upper-case column names that `_process_table_stats` reads are not modelled either. On a warehouse that returns the aliases in lower case, the lookup raises before any statistics are stored; the model reaches that outcome only through a failed query.
