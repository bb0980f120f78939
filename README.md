# Air-quality alerts and seeding, modelled in Dafny

A model of the alert side of the air-quality demo of django-ai-blocks, with
the seeding and reconciliation routines around it, and proofs about that
model. It covers:

- **threshold rules and site alerts** (`air_quality/models.py`): the
  inclusive threshold test, rule/measurement matching, the active-alert
  filter and the status label, and `SiteAlert.get_default_workflow`,
  `get_active_state` and `mark_active`;
- **alert evaluation** (`air_quality/services.py`): `SiteAlertEvaluationService`
  evaluating one measurement or a recent window, its alert upsert (refresh
  the locked active alert, else get or create by rule and measurement), and
  `ensure_demo_alert_rules`;
- **the alert lifecycle workflow** (migration `0003_sitealert_workflow`):
  the seeded workflow, its states and transitions, and the attachment of
  unattached alerts;
- **the active-alerts block** (`air_quality/blocks/alerts.py`): the alerts
  shown and their workflow actions, and the cached content type;
- **block and column-config seeding** (`blocks/services/seeding.py`);
- **the demo dashboard layout** (`air_quality/blocks/layouts.py`);
- **the `sync_air_quality` command**: the paginated fetch, the site pass,
  the measurement pass and the final counters.

The database is a `Tables` value: one map per table from primary key to
row, and one auto-increment counter per table. Every key of a table is
below its counter. A `class` holding that value (`Db`, `SeedingDb`,
`LayoutDb`) stands for the database that the source's methods change in
place. `.first()` and `get()` look at keys in ascending order. Decimal
fields with three decimal places are integers in thousandths, and times
are whole seconds.

Each state-changing operation is a `method` proved against a function of
the old state. For example, the result and new database of
`SiteAlertEvaluationService.EvaluateMeasurement` are those of `Evaluated`,
and the database after `SeedSiteAlertWorkflow` is `Seeded` of the one
before. Lemmas then state what the source promises about those functions:
the outcomes of a get-or-create, idempotence, what an atomic operation
leaves on failure, which tables and rows are touched, and what the counters
count.

Some behaviour comes from outside the code and is an input to the model:

- whether the row lock on a rule's active alert is obtained
  (`lockedElsewhere`, a set of rule keys);
- the clock (`now`);
- the datetime parser and the decimal parser for text (`env`);
- the pages the OpenAQ API answers (`pages`, and `api` from the window
  start to the measurement pages);
- the transitions the workflow engine allows for an alert (`allowed`);
- SiteAlert's content type.

## Model

| member | source | states |
|---|---|---|
| Common.GetOrCreate | examples/demo_project/air_quality/migrations/0003_sitealert_workflow.py:13-16 | The key returned matches `k` and is in the table; when it was created it is the old counter and the new row is `row`; two matching rows are an error that leaves the table as it was |
| Common.GetOrCreateCases | examples/demo_project/air_quality/migrations/0003_sitealert_workflow.py:13-16 | The three outcomes: the only match is returned and nothing changes; with no match `row` is created under the counter; with several matches the call fails and the table is unchanged |
| Common.GetOrCreateAgain | examples/demo_project/air_quality/migrations/0003_sitealert_workflow.py:13-16 | After a successful call exactly its row matches, so the same call again returns that row and changes nothing |
| Common.GetOrCreateFound | examples/demo_project/air_quality/migrations/0003_sitealert_workflow.py:13-16 | When exactly one row matches, that row is returned and the table is unchanged |
| Common.GetOrCreateGrows | examples/demo_project/air_quality/migrations/0003_sitealert_workflow.py:13-16 | Every old row stays as it was; a row that was not there before is `row` |
| Common.GetOrCreateOther | examples/demo_project/air_quality/migrations/0003_sitealert_workflow.py:13-16 | The rows of every other key are left untouched |
| Common.Lookup | examples/demo_project/air_quality/management/commands/sync_air_quality.py:216-224 | `Model.objects.get`: the only matching row, `None` when no row matches (DoesNotExist), an error when several match |
| Common.OrderedKeys | examples/demo_project/air_quality/services.py:108-112 | An `order_by("-rank")` query: every key it lists is one of the selected rows |
| Common.OrderedKeysExact | examples/demo_project/air_quality/services.py:108-112 | The ordered query lists every selected key below the counter exactly once, and no other key, by non-increasing rank |
| Common.IntToString | examples/demo_project/air_quality/services.py:120 | `str()` of an integer: non-empty, and it starts with a minus sign exactly when the number is negative |
| Common.NatToString | examples/demo_project/air_quality/services.py:120 | Decimal digits of a natural number: non-empty and digits only |
| Common.NatToStringRoundTrip | examples/demo_project/air_quality/services.py:120 | Reading the digits back gives the number, so distinct ids give distinct strings |
| PyValue.Or | examples/demo_project/air_quality/management/commands/sync_air_quality.py:82 | Python `a or b`: `a` when it is truthy, else `b`; the result is truthy exactly when one operand is |
| PyValue.PyStr | examples/demo_project/air_quality/management/commands/sync_air_quality.py:86 | The text of a payload value: a string is itself, an int its decimal digits, None is "None" and a bool "True" or "False" (other values are a placeholder, see Left out) |
| Text.TitleAt | examples/demo_project/air_quality/blocks/alerts.py:65 | `str.title()` character by character: a cased character is upper-case at the start of a word and lower-case inside one; every other character is kept |
| Text.TitleKeepsCased | examples/demo_project/air_quality/blocks/alerts.py:65 | Title-casing keeps which characters are cased |
| Text.TitleIdempotent | examples/demo_project/air_quality/blocks/alerts.py:65 | Title-casing a title-cased string changes nothing |
| Text.Humanize | examples/demo_project/air_quality/blocks/alerts.py:65 | `name.replace("_", " ").title()`: the label has the name's length |
| Text.HumanizeNoUnderscore | examples/demo_project/air_quality/blocks/alerts.py:65 | No underscore survives in a label |
| Text.HumanizeAt | examples/demo_project/air_quality/blocks/alerts.py:65 | Character by character: an underscore becomes a space, a cased character after an uncased one is upper-cased, one after a cased one lower-cased, any other character is kept |
| Text.HumanizeLowerWord | examples/demo_project/air_quality/blocks/alerts.py:65 | A lower-case word without underscores is labelled by capitalising its first letter only |
| Text.HumanizeMute | examples/demo_project/air_quality/blocks/alerts.py:65 | The label of `mute` is "Mute" |
| Text.HumanizeAcknowledge | examples/demo_project/air_quality/blocks/alerts.py:65 | The label of `acknowledge` is "Acknowledge" |
| AirQualityModels.ThresholdInclusive | examples/demo_project/air_quality/models.py:224-232 | A missing value triggers no rule; at the threshold itself both an above and a below rule trigger, and only there; every value triggers one of the two |
| AirQualityModels.TriggeredMonotone | examples/demo_project/air_quality/models.py:224-232 | A larger value keeps an above rule triggered, and a smaller one keeps any other rule triggered |
| AirQualityModels.ThresholdExamples | examples/demo_project/air_quality/tests/test_alerts.py:35-56 | 15 triggers "above 10" and 5 does not; 10 triggers "below 20" and 25 does not |
| AirQualityModels.ApplicableRulesExact | examples/demo_project/air_quality/models.py:18-26 | `active().for_measurement(m)` lists exactly the active rules of the measurement's site and pollutant, each once, in increasing key order |
| AirQualityModels.ApplicableMeasurements | examples/demo_project/air_quality/models.py:234-242 | `applicable_measurements` yields exactly the input measurements of the rule's site and pollutant, in input order |
| AirQualityModels.ApplicableMeasurementsExact | examples/demo_project/air_quality/models.py:234-250 | What is yielded is the matching subsequence: a measurement is in it exactly when it is in the input and `matches_measurement` holds, which means it has the rule's site and the rule's pollutant |
| AirQualityModels.StatusLabel | examples/demo_project/air_quality/models.py:299-301 | `status_label` is the name of the alert's state when it has one, and "" when the alert has no state |
| AirQualityModels.ActiveIffLabel | examples/demo_project/air_quality/models.py:32-37 | An alert is listed by `active()` exactly when its status label reads "Active" |
| AirQualityModels.ActiveAlertKeysExact | examples/demo_project/air_quality/models.py:32-37 | `SiteAlert.objects.active()` holds exactly the alerts whose state is named "Active" |
| AirQualityModels.FirstWorkflowNamed | examples/demo_project/air_quality/models.py:307 | `filter(name=...).first()`: the lowest key of that name, or none when no workflow has it |
| AirQualityModels.FirstStateOf | examples/demo_project/air_quality/models.py:322 | `workflow.states.filter(...).first()`: the lowest-keyed state of that workflow the query selects, or none |
| AirQualityModels.ActiveStateFor | examples/demo_project/air_quality/models.py:329-334 | The state given to an alert without one: a state of the default workflow, named "Active" or a start state, or none |
| AirQualityModels.ActiveStateForChoice | examples/demo_project/air_quality/models.py:329-334 | The state named "Active" is preferred; a start state is taken only when there is none; with neither no state is given |
| AirQualityModels.InstallDefaultWorkflow | examples/demo_project/air_quality/models.py:304-317 | The workflow table after `get_default_workflow`: a workflow of the default name exists and has a content type, and no other workflow changes |
| AirQualityModels.DefaultWorkflowKey | examples/demo_project/air_quality/models.py:304-317 | The key returned is the first workflow of the default name after installation |
| AirQualityModels.InstallDefaultWorkflowEffect | examples/demo_project/air_quality/models.py:304-317 | The workflow is created only when no workflow has the name; a missing content type is filled in; a content type that is set is never replaced; no other workflow is touched |
| AirQualityModels.InstallDefaultWorkflowIdempotent | examples/demo_project/air_quality/models.py:304-317 | Installing again changes nothing, so repeated calls return the same workflow |
| AirQualityModels.ValidWithAlerts | examples/demo_project/air_quality/models.py:289-294 | Replacing the alert table by one that keeps its references and `unique_alert_per_rule_measurement` keeps the database valid |
| AirQualityModels.WithDefaultWorkflow | examples/demo_project/air_quality/models.py:304-317 | The database after `get_default_workflow`: only the workflow table and its counter change |
| AirQualityModels.WithDefaultWorkflowValid | examples/demo_project/air_quality/models.py:304-317 | Installing the default workflow only adds workflows or fills a content type, so every reference still resolves |
| AirQualityModels.WithDefaultWorkflowIdempotent | examples/demo_project/air_quality/models.py:304-317 | Installing the default workflow twice is installing it once |
| AirQualityModels.DefaultWorkflowOf | examples/demo_project/air_quality/models.py:304-317 | In a database where it is installed, the key of the default workflow, which exists and has a content type |
| AirQualityModels.Db.GetDefaultWorkflow | examples/demo_project/air_quality/models.py:303-317 | Returns the default workflow's key and leaves the database as the installation makes it |
| AirQualityModels.Db.GetActiveState | examples/demo_project/air_quality/models.py:319-322 | Returns the default workflow and its first state named "Active", after installing the workflow |
| AirQualityModels.Db.MarkActive | examples/demo_project/air_quality/models.py:324-334 | The alert is moved to the default workflow; only an alert without a state gets one, the one `ActiveStateFor` chooses; the database changes only by the installation |
| AirQualityModels.FirstNamedAfterInsert | examples/demo_project/air_quality/models.py:307-313 | After a failed name lookup, a row added under a fresh key with that name is the first row of the name |
| AirQualityModels.FirstNamedAfterUpdate | examples/demo_project/air_quality/models.py:314-316 | Saving a row without changing its name keeps the first row of every name |
| AlertServices.LatestActiveAlert | examples/demo_project/air_quality/services.py:66-71 | `active().filter(rule=rule).first()` under the ordering by `-triggered_at`, `-pk`: an active alert of the rule that no other active alert of the rule follows in that order, or none when the rule has no active alert |
| AlertServices.AlertFor | examples/demo_project/air_quality/services.py:80-88 | The lowest-keyed alert of the pair (rule, measurement), or none when no alert has that pair |
| AlertServices.AlertForUnique | examples/demo_project/air_quality/models.py:289-294 | Under `unique_alert_per_rule_measurement` the alert found is the only alert of its pair |
| AlertServices.Refreshed | examples/demo_project/air_quality/services.py:72-78 | The refreshed alert points at the measurement, takes its time and value and the default workflow, keeps its rule, state and note; no other alert changes and no key is added |
| AlertServices.GotOrCreated | examples/demo_project/air_quality/services.py:80-93 | The alert returned has the rule, the measurement and the default workflow; an existing alert of the pair is reused and keeps its state when it has one; a missing one is created under the counter with the measurement's time and value and the state `mark_active` chooses; no other alert changes |
| AlertServices.GotOrCreatedIdempotent | examples/demo_project/air_quality/services.py:80-93 | Repeating the get-or-create path for the same pair returns the same alert, adds no row and changes nothing |
| AlertServices.LockedAlert | examples/demo_project/air_quality/services.py:66-71 | The alert to refresh is the rule's latest active alert when the row lock was obtained, and none otherwise |
| AlertServices.RefreshedValid | examples/demo_project/air_quality/services.py:72-78 | Refreshing without a clash keeps the alert table's references and `unique_alert_per_rule_measurement` |
| AlertServices.GotOrCreatedValid | examples/demo_project/air_quality/services.py:80-93 | The get-or-create path keeps the alert table's references, its uniqueness and the counter above every key |
| AlertServices.Upsert | examples/demo_project/air_quality/services.py:61-93 | `_upsert_alert` is atomic: it fails with the integrity error of `unique_alert_per_rule_measurement` exactly when the refresh would give the pair a second alert, and then nothing changes; otherwise it returns an alert of (rule, measurement); only the workflow and alert tables change |
| AlertServices.UpsertValid | examples/demo_project/air_quality/services.py:61-93 | The upsert keeps every table reference and unique constraint of the database |
| AlertServices.UpsertKeepsAlerts | examples/demo_project/air_quality/services.py:61-93 | The upsert deletes no alert and moves no alert to another rule |
| AlertServices.UpsertFrame | examples/demo_project/air_quality/services.py:61-93 | The alerts of every other rule are left untouched |
| AlertServices.UpsertInDefaultWorkflow | examples/demo_project/air_quality/services.py:65-93 | A successful upsert adds at most the returned alert, changes nothing but the alert table after installing the default workflow, and leaves the returned alert in that workflow |
| AlertServices.UpsertRefreshes | examples/demo_project/air_quality/services.py:72-78 | With the lock on the rule's latest active alert, that alert is refreshed in place: it takes the measurement, `triggered_at` from `measured_at` and the value, keeps its active state, and no row is added |
| AlertServices.UpsertGetsOrCreates | examples/demo_project/air_quality/services.py:80-93 | Without an alert to refresh, the alert of (rule, measurement) is got or created; a new one is stamped with the measurement's time and value and put in the default workflow's active state |
| AlertServices.UpsertIdempotent | examples/demo_project/air_quality/services.py:80-93 | Repeating an upsert of the same pair without an alert to refresh adds no second row and changes nothing |
| AlertServices.GotOrCreatedKeepsState | examples/demo_project/air_quality/services.py:89-91 | An alert that already has a state keeps it on the get-or-create path |
| AlertServices.FiringExact | examples/demo_project/air_quality/services.py:36-38 | The rules kept are exactly the given rules that fire on the value, and an increasing sequence stays increasing |
| AlertServices.TriggeringRulesExact | examples/demo_project/air_quality/services.py:35-38 | A rule fires on a measurement exactly when it is active, belongs to the measurement's site and pollutant and its threshold is breached; each fires once, in key order |
| AlertServices.MeasuredSince | examples/demo_project/air_quality/services.py:48-54 | Exactly the measurements taken at or after `since`, each ranked by its `measured_at` |
| AlertServices.RecentMeasurements | examples/demo_project/air_quality/services.py:48-54 | The window query lists stored measurements only |
| AlertServices.RecentMeasurementsExact | examples/demo_project/air_quality/services.py:48-54 | The window query lists exactly the measurements taken at or after `since`, each once, newest first |
| AlertServices.TracksStep | examples/demo_project/air_quality/services.py:36-40 | One more successful upsert, for a rule not evaluated yet, extends the record of fired rules and their alerts by that rule and its alert |
| AlertServices.Evaluated | examples/demo_project/air_quality/services.py:31-41 | The evaluation loop keeps the preconditions of the upsert on the database it leaves |
| AlertServices.EvaluatedStopsOnError | examples/demo_project/air_quality/services.py:36-40 | Once an upsert has failed, evaluating further rules changes nothing |
| AlertServices.EvaluatedFrame | examples/demo_project/air_quality/services.py:31-41 | Evaluation changes only the workflow and alert tables |
| AlertServices.EvaluatedValid | examples/demo_project/air_quality/services.py:31-41 | Evaluation keeps the database valid, also when it fails part-way |
| AlertServices.EvaluatedTracks | examples/demo_project/air_quality/services.py:31-41 | A successful evaluation of distinct rules upserts one alert per rule that fires, in order, each an alert of that rule for the measurement; no alert is lost and the alerts of other rules are untouched |
| AlertServices.EvaluatedFails | examples/demo_project/air_quality/services.py:31-41 | An evaluation fails only with the `unique_alert_per_rule_measurement` error of refreshing a locked alert of a fired rule |
| AlertServices.EvaluatedOne | examples/demo_project/air_quality/services.py:31-41 | `evaluate_measurement` changes only the alert side and, on success, returns exactly one alert per rule that fires |
| AlertServices.EvaluatedAll | examples/demo_project/air_quality/services.py:43-59 | `evaluate_recent_measurements` over a sequence of measurements changes only the alert side |
| AlertServices.KeptStep | examples/demo_project/air_quality/services.py:57-58 | A result is kept exactly when it has an alert, and every kept result has one alert per rule that fires |
| AlertServices.EvaluatedAllStopsOnError | examples/demo_project/air_quality/services.py:55-58 | Once an evaluation has failed, the later measurements are not visited |
| AlertServices.EvaluatedAllAlerting | examples/demo_project/air_quality/services.py:43-59 | A successful run keeps exactly the measurements that some rule fires on, in the order visited, each with one alert per rule that fires |
| AlertServices.SiteAlertEvaluationService.constructor | examples/demo_project/air_quality/services.py:28-29 | The reference time is the one given, or the clock reading when none is given |
| AlertServices.SiteAlertEvaluationService.EvaluateMeasurement | examples/demo_project/air_quality/services.py:31-41 | The database and result are those of evaluating the applicable rules in key order, so the result has one alert per breached rule |
| AlertServices.SiteAlertEvaluationService.EvaluateRecentMeasurements | examples/demo_project/air_quality/services.py:43-59 | The result and database are those of evaluating the measurements of the window before the reference time, newest first, keeping the results with alerts |
| AlertServices.SiteAlertEvaluationService.EvaluateAndKeep | examples/demo_project/air_quality/services.py:55-58 | One turn of the window loop: the measurement is evaluated and its result joins those kept when it has an alert; an error is passed on |
| AlertServices.SiteAlertEvaluationService.UpsertAlert | examples/demo_project/air_quality/services.py:61-93 | The alert key and the database are those of the atomic upsert |
| AlertServices.SiteAlertEvaluationService.RefreshAlert | examples/demo_project/air_quality/services.py:72-78 | With the lock obtained on the rule's latest active alert, the result is that of the upsert's refresh path |
| AlertServices.SiteAlertEvaluationService.GetOrCreateAlert | examples/demo_project/air_quality/services.py:80-93 | The default workflow is installed, then the alert of the pair is got or created and given the default workflow and, when it has none, a state |
| DemoAlertRules.DemoRuleKeys | examples/demo_project/air_quality/services.py:99 | Exactly the rules whose external id starts with `demo-alert` |
| DemoAlertRules.DemoPairs | examples/demo_project/air_quality/services.py:104-106 | Exactly the (site, pollutant) pairs of the demo rules |
| DemoAlertRules.DemoExternalId | examples/demo_project/air_quality/services.py:120 | The external id starts with `demo-alert`, so a created rule is itself a demo rule |
| DemoAlertRules.DemoExternalIdInjective | examples/demo_project/air_quality/services.py:120 | Distinct (site, pollutant) pairs get distinct external ids |
| DemoAlertRules.DemoThreshold | examples/demo_project/air_quality/services.py:121-123 | Nine tenths of the value rounded half up to thousandths: for v at least zero, 10r lies in (9v - 5, 9v + 5], which is `(9v + 5) div 10`; a negative value rounds half away from zero |
| DemoAlertRules.DemoThresholdExamples | examples/demo_project/air_quality/services.py:121-123 | 42 gives 37.8, 10.005 gives 9.005 (9.0045 rounded up), and 0 gives 0 |
| DemoAlertRules.RuleNamed | examples/demo_project/air_quality/services.py:124-134 | The lowest-keyed rule with that site, pollutant and name, or none when there is no such rule |
| DemoAlertRules.RuleGotOrCreated | examples/demo_project/air_quality/services.py:124-134 | Keeps every rule key below the counter; its outcomes are stated by `RuleGotOrCreatedCases` |
| DemoAlertRules.RuleGotOrCreatedCases | examples/demo_project/air_quality/services.py:124-134 | An existing rule of that site, pollutant and name is returned untouched; otherwise one is created under the next key, unless its external id is taken, which is an integrity error leaving the table as it was |
| DemoAlertRules.RuleGotOrCreatedUnique | examples/demo_project/air_quality/models.py:214-219 | The get-or-create keeps `unique_alert_rule_per_site_pollutant_name` and the uniqueness of external ids |
| DemoAlertRules.DemoRuleOf | examples/demo_project/air_quality/services.py:119-134 | The rule a measurement gives is a demo rule (its external id has the prefix), compares "above" and is active |
| DemoAlertRules.DemoStep | examples/demo_project/air_quality/services.py:114-138 | One iteration keeps every rule key below the counter; its outcomes are stated by `DemoStepCases` |
| DemoAlertRules.DemoFold | examples/demo_project/air_quality/services.py:114-138 | The loop keeps every rule key below the counter |
| DemoAlertRules.DemoFoldSettled | examples/demo_project/air_quality/services.py:137-138 | Once `max_rules` rules were created or an error occurred, the remaining measurements change nothing |
| DemoAlertRules.NewestFirst | examples/demo_project/air_quality/services.py:108-112 | The newest-first query lists stored measurements only |
| DemoAlertRules.DemoRulesEnsured | examples/demo_project/air_quality/services.py:96-140 | `ensure_demo_alert_rules` changes only the rule table and its counter |
| DemoAlertRules.EnsureDemoAlertRules | examples/demo_project/air_quality/services.py:96-140 | The count and the database are those of `ensure_demo_alert_rules` as a function |
| DemoAlertRules.VisitMeasurement | examples/demo_project/air_quality/services.py:115-136 | One loop turn on the database: only the rules change, and the rules, seen pairs, count and error after it are those of one iteration |
| DemoAlertRules.GetOrCreateRule | examples/demo_project/air_quality/services.py:124-134 | The rule, the created flag and the rule table are those of the get-or-create by site, pollutant and name |
| DemoAlertRules.DemoStepCases | examples/demo_project/air_quality/services.py:115-136 | The four outcomes of one iteration: pair seen, existing rule found, rule created, external id clash |
| DemoAlertRules.DemoStepProgress | examples/demo_project/air_quality/services.py:114-138 | One iteration keeps the loop's invariant: created rules are demo rules of first occurrences of uncovered pairs, and the seen pairs are covered |
| DemoAlertRules.DemoFoldProgress | examples/demo_project/air_quality/services.py:114-138 | The whole loop keeps that invariant |
| DemoAlertRules.DemoFoldValid | examples/demo_project/air_quality/services.py:114-138 | The loop keeps the database valid |
| DemoAlertRules.DemoRulesEnsuredValid | examples/demo_project/air_quality/services.py:96-140 | A run keeps the database valid, whether it succeeds or fails |
| DemoAlertRules.DemoRulesEnsuredCount | examples/demo_project/air_quality/services.py:96-140 | The count returned is the number of rules added and at most `max_rules`; the only error is the external id clash of a create; the old rules are kept and the new ones take consecutive keys; with `max_rules` demo rules already there nothing changes |
| DemoAlertRules.FirstIsNewest | examples/demo_project/air_quality/services.py:108-118 | In the newest-first order the first measurement of a pair is a newest one of that pair |
| DemoAlertRules.DemoRulesEnsuredNewest | examples/demo_project/air_quality/services.py:108-136 | Every created rule is the demo rule of a newest measurement of a pair that had no demo rule, and no two created rules share a pair |
| DemoAlertRules.DemoRulesEnsuredCovers | examples/demo_project/air_quality/services.py:114-138 | A run ending below `max_rules` without error leaves every measured pair with a demo rule or a rule of its demo name |
| WorkflowSeed.SeedWorkflow | examples/demo_project/air_quality/migrations/0003_sitealert_workflow.py:13-19 | The workflow step: the workflow returned is named "Air Quality Alert Lifecycle" and carries SiteAlert's content type; with no workflow of that name it is created under the counter |
| WorkflowSeed.SeedStates | examples/demo_project/air_quality/migrations/0003_sitealert_workflow.py:21-35 | The state step: for a workflow without states the three states are created under the next three keys |
| WorkflowSeed.SeedTransitions | examples/demo_project/air_quality/migrations/0003_sitealert_workflow.py:37-48 | The transition step: for a workflow without transitions the two transitions are created under the next two keys |
| WorkflowSeed.AttachUnattached | examples/demo_project/air_quality/migrations/0003_sitealert_workflow.py:50-53 | Every alert without a workflow gets the workflow and the Active state; every other alert is unchanged; no alert is added or removed |
| WorkflowSeed.Seeded | examples/demo_project/air_quality/migrations/0003_sitealert_workflow.py:4-53 | The migration keeps every table's keys below its counter |
| WorkflowSeed.SeedWorkflowCases | examples/demo_project/air_quality/migrations/0003_sitealert_workflow.py:13-19 | With no workflow of the name one is created under the counter; with exactly one, that one ends with SiteAlert's content type and nothing else changes; with several the step fails and leaves the table as it was |
| WorkflowSeed.SeedWorkflowGrows | examples/demo_project/air_quality/migrations/0003_sitealert_workflow.py:13-19 | The workflow step keeps every key and changes no other workflow |
| WorkflowSeed.SeedWorkflowAgain | examples/demo_project/air_quality/migrations/0003_sitealert_workflow.py:13-19 | After the workflow step its workflow is the only one of the name, and repeating the step changes nothing |
| WorkflowSeed.SeedStatesGrows | examples/demo_project/air_quality/migrations/0003_sitealert_workflow.py:21-35 | The state step keeps every old state, never moves its counter back, and fails only with MultipleObjectsReturned |
| WorkflowSeed.SeedStatesOwn | examples/demo_project/air_quality/migrations/0003_sitealert_workflow.py:21-35 | Every state the state step adds belongs to the seeded workflow |
| WorkflowSeed.SeedStatesAgain | examples/demo_project/air_quality/migrations/0003_sitealert_workflow.py:21-35 | After the state step each seeded state is the only state of its workflow and name, and repeating the step changes nothing |
| WorkflowSeed.SeedStatesNamed | examples/demo_project/air_quality/migrations/0003_sitealert_workflow.py:21-35 | The three keys returned hold the states Active, Acknowledged and Muted of the workflow |
| WorkflowSeed.SeedTransitionsGrows | examples/demo_project/air_quality/migrations/0003_sitealert_workflow.py:37-48 | The transition step keeps every old transition, and every transition it adds is `acknowledge` (Active to Acknowledged) or `mute` (Active to Muted) of the workflow |
| WorkflowSeed.SeedTransitionsAgain | examples/demo_project/air_quality/migrations/0003_sitealert_workflow.py:37-48 | After the transition step each transition is stored once, and repeating the step changes nothing |
| WorkflowSeed.AttachUnattachedIdempotent | examples/demo_project/air_quality/migrations/0003_sitealert_workflow.py:50-53 | Attaching a second time changes nothing |
| WorkflowSeed.SeededShape | examples/demo_project/air_quality/migrations/0003_sitealert_workflow.py:4-53 | On an error the database is as it was; on success only the workflow, state, transition and alert tables change, the workflow has SiteAlert's content type, the states are Active, Acknowledged and Muted of it, both transitions are stored, and unattached alerts are attached in state Active |
| WorkflowSeed.SeededFrame | examples/demo_project/air_quality/migrations/0003_sitealert_workflow.py:4-53 | A failed migration leaves the database as it was; a successful one writes only the workflow, state, transition and alert tables |
| WorkflowSeed.SeededRows | examples/demo_project/air_quality/migrations/0003_sitealert_workflow.py:11-48 | After a successful migration the workflow, its three states and both transitions are stored with their names and endpoints |
| WorkflowSeed.SeededAlerts | examples/demo_project/air_quality/migrations/0003_sitealert_workflow.py:50-53 | After a successful migration no alert is added or removed, alerts without a workflow are attached to the workflow in state Active, and attached alerts are untouched |
| WorkflowSeed.SeededFresh | examples/demo_project/air_quality/migrations/0003_sitealert_workflow.py:4-53 | On a database without the lifecycle workflow the migration succeeds and creates the workflow, the states Active (start), Acknowledged and Muted (end) and both transitions under the next keys, attaches the unattached alerts and leaves the other tables alone |
| WorkflowSeed.SeededStatesOnEmpty | examples/demo_project/air_quality/migrations/0003_sitealert_workflow.py:21-35 | Added to an empty table the seeded states are exactly three, with Active the only start state and the other two end states |
| WorkflowSeed.SeededTransitionsOnEmpty | examples/demo_project/air_quality/migrations/0003_sitealert_workflow.py:37-48 | Added to an empty table the seeded transitions are exactly two, and both leave Active |
| WorkflowSeed.SeededIdempotent | examples/demo_project/air_quality/migrations/0003_sitealert_workflow.py:4-53 | After a successful run, running the migration again returns the same rows and changes nothing, so nothing is duplicated |
| WorkflowSeed.SeedWorkflowIsDefault | examples/demo_project/air_quality/models.py:304-317 | After the workflow step the seeded workflow is the first of the default workflow's name and has a content type |
| WorkflowSeed.SeededIsDefault | examples/demo_project/air_quality/models.py:303-334 | After the migration `get_default_workflow` finds the seeded workflow without changing anything, and `mark_active` gives an unstated alert the seeded Active state |
| WorkflowSeed.SeedSiteAlertWorkflow | examples/demo_project/air_quality/migrations/0003_sitealert_workflow.py:4-53 | The result and database are those of the atomic migration function |
| AlertsBlock.ActionForShape | examples/demo_project/air_quality/blocks/alerts.py:61-76 | An action keeps the transition's name; its label is the humanised name, has no underscore and the name's length; its URL arguments are the content type's app label and model, the alert key and the transition name, in that order |
| AlertsBlock.SeededActionLabels | examples/demo_project/air_quality/blocks/alerts.py:65 | The seeded transitions are labelled "Acknowledge" and "Mute" |
| AlertsBlock.ActiveTriggeredAt | examples/demo_project/air_quality/blocks/alerts.py:46-56 | Exactly the active alerts, each with its `triggered_at` |
| AlertsBlock.ActiveNewestFirstExact | examples/demo_project/air_quality/blocks/alerts.py:46-56 | The query lists every active alert exactly once, and no other, by non-increasing `triggered_at` |
| AlertsBlock.BuildActions | examples/demo_project/air_quality/blocks/alerts.py:60-76 | One action per allowed transition, in the order the transitions are given |
| AlertsBlock.ActiveSiteAlertsBlock.constructor | examples/demo_project/air_quality/blocks/alerts.py:35-37 | The block is named by its code and has no content type cached |
| AlertsBlock.ActiveSiteAlertsBlock.GetContentType | examples/demo_project/air_quality/blocks/alerts.py:82-85 | A cached content type is returned and kept; otherwise the looked-up one is cached and returned; the lookup happens at most once per block |
| AlertsBlock.ActiveSiteAlertsBlock.GetData | examples/demo_project/air_quality/blocks/alerts.py:44-80 | One presentation per active alert, newest first, each with one action per allowed transition in the given order, built from the (cached) content type |
| Seeding.ValidateMapping | django_ai_blocks/blocks/services/seeding.py:85-88 | Fails exactly when the payload is not a mapping, with a TypeError carrying the caller's message; otherwise gives the mapping's entries |
| Seeding.NormaliseFields | django_ai_blocks/blocks/services/seeding.py:91-96 | A falsy value gives no fields; a list gives each item's text (`PyStr`), in order; a mapping gives its keys in order; any other truthy value (a string, bytes, a number, a model instance) is the ValueError, and only those fail |
| Seeding.Strs | django_ai_blocks/blocks/services/seeding.py:95 | One string per item, each the item's text (`PyStr`), in order |
| Seeding.GetById | django_ai_blocks/blocks/services/seeding.py:109-112 | Succeeds with the single row whose identifying field matches; fails with the ValueError `... does not exist.` exactly when no row matches, and otherwise with MultipleObjectsReturned |
| Seeding.Resolve | django_ai_blocks/blocks/services/seeding.py:99-128 | An instance of the model resolves to itself; an int or a bool is looked up as a primary key; anything else, by its text (`PyStr`), against the identifying field |
| Seeding.Upsert | django_ai_blocks/blocks/services/seeding.py:74-79 | `update_or_create` keeps every key below the counter; its outcomes are stated by `UpsertCases` |
| Seeding.UpsertCases | django_ai_blocks/blocks/services/seeding.py:74-79 | With no row of the identifier one is created under the counter with the defaults; with exactly one, the defaults overwrite its fields and nothing else changes; several rows fail with MultipleObjectsReturned, and only then, leaving the table as it was |
| Seeding.UpsertHolds | django_ai_blocks/blocks/services/seeding.py:74-79 | After a successful upsert its row is the only one of the identifier, and holds every default given |
| Seeding.UpsertIdempotent | django_ai_blocks/blocks/services/seeding.py:74-79 | Repeating a successful upsert finds the same row, creates nothing and changes nothing |
| Seeding.UpsertKeepsIds | django_ai_blocks/blocks/services/seeding.py:74-79 | An upsert removes no row, changes no row's identifier, and never moves the counter back |
| Seeding.UpsertOthers | django_ai_blocks/blocks/services/seeding.py:74-79 | An upsert leaves every row of another identifier as it was |
| Seeding.BlockDefinition | django_ai_blocks/blocks/services/seeding.py:31-34 | A non-mapping is the TypeError; a mapping without a truthy `code` is the ValueError; exactly the others succeed, giving the code's text (`PyStr`) and every other key as defaults |
| Seeding.BlocksFold | django_ai_blocks/blocks/services/seeding.py:28-39 | The block loop keeps every block key below the counter |
| Seeding.BlockStep | django_ai_blocks/blocks/services/seeding.py:30-37 | A turn of the block loop keeps every block key below the counter; what it writes is stated by `BlockStepShape` and `BlockStepWrites` |
| Seeding.BlocksSeeded | django_ai_blocks/blocks/services/seeding.py:17-39 | `create_or_update_blocks` is atomic: on an error the store is as it was; it never changes the users or the column configs |
| Seeding.BlockKey | django_ai_blocks/blocks/services/seeding.py:32-34 | A definition has a code exactly when it is a valid block definition |
| Seeding.BlocksFoldKeepsIds | django_ai_blocks/blocks/services/seeding.py:30-37 | The block loop removes no block, changes no block's code, and never moves the counter back |
| Seeding.BlockStepShape | django_ai_blocks/blocks/services/seeding.py:36-37 | A successful turn appends one block, with the definition's code, to those returned so far, and keeps every earlier block and its code |
| Seeding.BlockStepWrites | django_ai_blocks/blocks/services/seeding.py:36 | The block a successful turn writes holds the definition's defaults; every block of another code is as it was |
| Seeding.BlocksFoldShape | django_ai_blocks/blocks/services/seeding.py:28-39 | A successful batch returns one block per definition, in input order, each the block with that definition's code |
| Seeding.BlocksFoldDefaults | django_ai_blocks/blocks/services/seeding.py:30-37 | After a successful batch, the block of a definition whose code no later definition repeats holds that definition's defaults |
| Seeding.BlocksFoldRejects | django_ai_blocks/blocks/services/seeding.py:31-34 | A batch holding an invalid block definition fails, wherever that definition stands |
| Seeding.BlocksFoldFrom | django_ai_blocks/blocks/services/seeding.py:30-34 | Once the block loop has failed, the remaining definitions change nothing |
| Seeding.ConfigChecks | django_ai_blocks/blocks/services/seeding.py:51-69 | A non-mapping is the TypeError; the rest of its outcomes are stated by `ConfigChecksOrder`, `ConfigChecksIds` and `ConfigChecksDefaults` |
| Seeding.ConfigChecksOrder | django_ai_blocks/blocks/services/seeding.py:55-69 | The checks come in the source's order: a missing `block`, then a missing `user`, then a falsy `name`, then `fields` that cannot be normalised, each with its own ValueError |
| Seeding.ConfigChecksIds | django_ai_blocks/blocks/services/seeding.py:55-65 | A checked definition keeps the given `block`, `user` and (truthy) `name`, none of which stays among the defaults |
| Seeding.ConfigChecksDefaults | django_ai_blocks/blocks/services/seeding.py:63-69 | Every other key of the definition is a default with its value; `fields`, when given and not None, is replaced by its normalised list of strings |
| Seeding.ConfigDefinition | django_ai_blocks/blocks/services/seeding.py:51-72 | The checks' error, else the block's resolution error, else the user's; on success the key is (block, user, the name's text (`PyStr`)) and the defaults are the checked ones |
| Seeding.ConfigsFold | django_ai_blocks/blocks/services/seeding.py:48-82 | The config loop keeps every config key below the counter |
| Seeding.ConfigStep | django_ai_blocks/blocks/services/seeding.py:50-80 | A turn of the config loop keeps every config key below the counter; what it writes is stated by `ConfigStepShape` and `ConfigStepWrites` |
| Seeding.ConfigsSeeded | django_ai_blocks/blocks/services/seeding.py:42-82 | `create_or_update_block_column_configs` is atomic: on an error the store is as it was; blocks and users are only read |
| Seeding.ConfigKeyOf | django_ai_blocks/blocks/services/seeding.py:71-79 | A definition has a key exactly when it passes its checks and both its block and user resolve |
| Seeding.ConfigsFoldKeepsIds | django_ai_blocks/blocks/services/seeding.py:50-80 | The config loop removes no config, changes no config's key, and never moves the counter back |
| Seeding.ConfigStepShape | django_ai_blocks/blocks/services/seeding.py:74-80 | A successful turn appends one config, with the definition's key, to those returned so far, and keeps every earlier config and its key |
| Seeding.ConfigStepWrites | django_ai_blocks/blocks/services/seeding.py:74-79 | The config a successful turn writes holds the definition's defaults; every config of another key is as it was |
| Seeding.ConfigsFoldShape | django_ai_blocks/blocks/services/seeding.py:48-82 | A successful batch returns one config per definition, in input order, each the config with that definition's block, user and name |
| Seeding.ConfigsFoldDefaults | django_ai_blocks/blocks/services/seeding.py:50-80 | After a successful batch, the config of a definition whose key no later definition repeats holds that definition's defaults |
| Seeding.ConfigsFoldRejects | django_ai_blocks/blocks/services/seeding.py:50-72 | A batch holding a definition that fails its checks or its resolution fails, wherever that definition stands |
| Seeding.ConfigsFoldFrom | django_ai_blocks/blocks/services/seeding.py:50-72 | Once the config loop has failed, the remaining definitions change nothing |
| Seeding.SeedingDb.CreateOrUpdateBlocks | django_ai_blocks/blocks/services/seeding.py:17-39 | The loop over the definitions returns and stores what the atomic block seeding gives |
| Seeding.SeedingDb.CreateOrUpdateBlockColumnConfigs | django_ai_blocks/blocks/services/seeding.py:42-82 | The loop over the definitions returns and stores what the atomic config seeding gives |
| Layouts.Codes | examples/demo_project/air_quality/blocks/layouts.py:98 | `desired_codes` holds the code of every spec and nothing else |
| Layouts.BlockSpecsDistinct | examples/demo_project/air_quality/blocks/layouts.py:46-81 | The demo layout has four specs, with four different block codes |
| Layouts.FirstKey | examples/demo_project/air_quality/blocks/layouts.py:144-148 | The lowest key below the counter whose row matches, or none when no row below the counter matches |
| Layouts.Existing | examples/demo_project/air_quality/blocks/layouts.py:99-102 | `existing.get(code)` is the last layout block, in key order (the model's choice of reading order), that belongs to the layout and shows a block of that code, or none when there is none |
| Layouts.SpecStep | examples/demo_project/air_quality/blocks/layouts.py:104-134 | A turn of the spec loop changes only the layout blocks; its effects are stated by `SpecStepFrame`, `SpecStepUpdates` and `SpecStepCreates` |
| Layouts.SpecsFold | examples/demo_project/air_quality/blocks/layouts.py:104-134 | The spec loop changes only the layout blocks |
| Layouts.Prune | examples/demo_project/air_quality/blocks/layouts.py:135 | Exactly the layout blocks of the layout whose block's code is outside the desired codes are deleted; no other row changes |
| Layouts.OpenLayout | examples/demo_project/air_quality/blocks/layouts.py:89-97 | Only the layouts change; two layouts of the user and name are MultipleObjectsReturned with nothing changed; on success the layout returned belongs to the user and has the demo's name |
| Layouts.Ensured | examples/demo_project/air_quality/blocks/layouts.py:87-137 | `ensure` is atomic: an error leaves the store as it was; on success the layout returned belongs to the user and has the demo's name; blocks and users are only read |
| Layouts.SpecStepFrame | examples/demo_project/air_quality/blocks/layouts.py:104-134 | A turn keeps every layout block where it is, changes none that shows another code, and creates at most one, under the counter, for its own code |
| Layouts.SpecsFoldAnchored | examples/demo_project/air_quality/blocks/layouts.py:104-134 | The spec loop keeps every layout block where it is |
| Layouts.SpecsFoldUntouched | examples/demo_project/air_quality/blocks/layouts.py:104-134 | The spec loop changes no layout block of another layout or of a code outside the specs |
| Layouts.SpecsFoldAdds | examples/demo_project/air_quality/blocks/layouts.py:129-134 | Every layout block the loop adds is above the old counter and shows a block of one of the specs' codes in the layout |
| Layouts.SpecsFoldOther | examples/demo_project/air_quality/blocks/layouts.py:104-134 | For a code outside the specs the loop changes neither `existing.get` nor the layout block it finds |
| Layouts.SpecStepOther | examples/demo_project/air_quality/blocks/layouts.py:104-134 | A turn changes neither `existing.get` of another code nor the layout block it finds |
| Layouts.SpecStepPlaces | examples/demo_project/air_quality/blocks/layouts.py:104-134 | The turn of a spec whose code has a block leaves a layout block of that code, found by `existing.get`, with the spec's position, geometry and texts |
| Layouts.SpecStepUpdates | examples/demo_project/air_quality/blocks/layouts.py:120-128 | When the layout block exists, the turn keeps it as the one found and gives it the spec's fields |
| Layouts.SpecStepCreates | examples/demo_project/air_quality/blocks/layouts.py:129-134 | When the layout block is missing, the turn creates it under the counter with the spec's fields, and it is the one found thereafter |
| Layouts.SpecsFoldPlaces | examples/demo_project/air_quality/blocks/layouts.py:104-134 | After the loop, with distinct codes, every spec whose code has a block has its layout block, the one `existing.get` finds, at the spec's index with the spec's fields |
| Layouts.PruneKeeps | examples/demo_project/air_quality/blocks/layouts.py:135 | Pruning changes neither `existing.get` of a desired code nor the layout block it finds |
| Layouts.EnsuredPlaces | examples/demo_project/air_quality/blocks/layouts.py:87-137 | After `ensure`, with distinct codes, every spec whose code has a block has a layout block of the layout showing that block, at the spec's index with the spec's fields |
| Layouts.EnsuredPrunes | examples/demo_project/air_quality/blocks/layouts.py:98-135 | After `ensure` the layout shows no block whose code is outside the specs |
| Layouts.EnsuredSkips | examples/demo_project/air_quality/blocks/layouts.py:105-108 | A spec whose code has no block is skipped: afterwards no layout block shows a block of that code |
| Layouts.EnsuredLayout | examples/demo_project/air_quality/blocks/layouts.py:89-97 | An existing layout of the user and name is left as it was; a missing one is created under the counter, private, with the demo's description and category; two of them are the error, and only they |
| Layouts.EnsuredOthers | examples/demo_project/air_quality/blocks/layouts.py:87-137 | `ensure` changes no layout block of another layout and adds layout blocks only to its own layout |
| Layouts.SpecStepAgain | examples/demo_project/air_quality/blocks/layouts.py:120-128 | A turn changes nothing when its code has no block or its layout block already has the spec's fields |
| Layouts.SpecsFoldAgain | examples/demo_project/air_quality/blocks/layouts.py:104-134 | A loop whose every turn changes nothing changes nothing |
| Layouts.EnsuredReopens | examples/demo_project/air_quality/blocks/layouts.py:89-97 | After `ensure`, the same `get_or_create` finds its layout and changes nothing |
| Layouts.EnsuredSettled | examples/demo_project/air_quality/blocks/layouts.py:120-128 | After `ensure`, with distinct codes, no turn of the loop has anything left to write |
| Layouts.EnsuredPruned | examples/demo_project/air_quality/blocks/layouts.py:135 | After `ensure` nothing is left to delete |
| Layouts.PruneNothing | examples/demo_project/air_quality/blocks/layouts.py:135 | Pruning a layout that shows only desired codes changes nothing |
| Layouts.EnsuredIdempotent | examples/demo_project/air_quality/blocks/layouts.py:87-137 | With distinct codes a second `ensure` finds the same layout and changes nothing |
| Layouts.AirQualityDashboardLayout.constructor | examples/demo_project/air_quality/blocks/layouts.py:83-85 | The builder is for the given user, with the demo's four specs and no layout yet |
| Layouts.AirQualityDashboardLayout.Ensure | examples/demo_project/air_quality/blocks/layouts.py:87-137 | The layout and store are those of the atomic `ensure`; on success the layout is remembered, on an error the remembered one is kept |
| Layouts.EnsureDefaultLayout | examples/demo_project/air_quality/blocks/layouts.py:140-154 | With no superuser nothing changes and nothing is returned; otherwise the demo layout is ensured for the superuser with the lowest key |
| SyncAirQuality.PageAt | examples/demo_project/air_quality/management/commands/sync_air_quality.py:274-275 | The response to request number `page` is the given one, and a page past those given is an empty 200 response |
| SyncAirQuality.Iterated | examples/demo_project/air_quality/management/commands/sync_air_quality.py:282-286 | `for item in results` yields a list's items, one item per key of a dict and one per character of a string; None, booleans, numbers and model instances are not iterable |
| SyncAirQuality.PageItems | examples/demo_project/air_quality/management/commands/sync_air_quality.py:276-286 | A status other than 200 is CommandError; a body that is no JSON object has no `.get`; otherwise the page succeeds exactly when its `results` (default: empty) is iterable, and gives what iterating it yields, else CommandError |
| SyncAirQuality.FetchFrom | examples/demo_project/air_quality/management/commands/sync_air_quality.py:273-291 | At least one request is made; what the fetch yields is stated by `FetchFromUnfold`, `FetchStops` and `FetchConcatenates` |
| SyncAirQuality.FetchPaginated | examples/demo_project/air_quality/management/commands/sync_air_quality.py:268-291 | The request loop yields the items, the error and the number of requests of fetching from page 1 |
| SyncAirQuality.FetchFromUnfold | examples/demo_project/air_quality/management/commands/sync_air_quality.py:273-291 | A refused page ends the fetch with its error and nothing of its own; a page of fewer than PAGE_LIMIT results ends it with them; a full page, one of those given, is followed by the next |
| SyncAirQuality.FetchStops | examples/demo_project/air_quality/management/commands/sync_air_quality.py:288-289 | Pages are requested in order; every page before the last requested was accepted and full; the last was refused, which is the error, or accepted with fewer than PAGE_LIMIT results; at most one page past those given is requested |
| SyncAirQuality.FetchConcatenates | examples/demo_project/air_quality/management/commands/sync_air_quality.py:285-291 | After a full page the items are that page's results followed by those of the pages after it, with one request more |
| SyncAirQuality.FetchRefused | examples/demo_project/air_quality/management/commands/sync_air_quality.py:276-279 | A status other than 200 ends the fetch with CommandError after one request and yields nothing |
| SyncAirQuality.LocationKey | examples/demo_project/air_quality/management/commands/sync_air_quality.py:82-86 | A payload is skipped exactly when its `id` is falsy and its `locationId` is None; otherwise its external id is the text (`PyStr`) of a truthy `id`, else of `locationId` |
| SyncAirQuality.FirstTruthy | examples/demo_project/air_quality/management/commands/sync_air_quality.py:88-117 | The first of the two keys' values that is truthy, as text, else the default when neither is |
| SyncAirQuality.RegionName | examples/demo_project/air_quality/management/commands/sync_air_quality.py:88 | The city when truthy, else the country when truthy, else "Unknown" |
| SyncAirQuality.RegionKeyCountry | examples/demo_project/air_quality/management/commands/sync_air_quality.py:89 | The key's country part is "XX" only when the payload has no `country` key; a string country is itself, and a `country` of None is "None" |
| SyncAirQuality.RegionKeyInjective | examples/demo_project/air_quality/management/commands/sync_air_quality.py:89 | When neither country text holds the separator character, two payloads share a region key only when they agree on the country text and the region name |
| SyncAirQuality.SiteName | examples/demo_project/air_quality/management/commands/sync_air_quality.py:113 | The payload's `name` when truthy, else its `location` when truthy, else the region's name |
| SyncAirQuality.SiteDescription | examples/demo_project/air_quality/management/commands/sync_air_quality.py:115-117 | The payload's `description` when truthy, else its `address` when truthy, else empty |
| SyncAirQuality.RegionSynced | examples/demo_project/air_quality/management/commands/sync_air_quality.py:90-110 | On success the region has the payload's name and key, the cache maps the key to it, no other region and no site changes; an error is MultipleObjectsReturned of an uncached key |
| SyncAirQuality.RegionCounted | examples/demo_project/air_quality/management/commands/sync_air_quality.py:97-110 | A cached region is kept; it is written and counted exactly when its name differs; a region not cached yet always counts |
| SyncAirQuality.RegionCreatedOnlyWhenNew | examples/demo_project/air_quality/management/commands/sync_air_quality.py:93-96 | An uncached region is created, under the counter, exactly when no region has its key; otherwise the region of that key is reused and no key is used up |
| SyncAirQuality.SiteSynced | examples/demo_project/air_quality/management/commands/sync_air_quality.py:112-161 | On success the site of the key is cached and stored, no site is removed, and the regions and the region cache are untouched; an error is MultipleObjectsReturned of an uncached key |
| SyncAirQuality.SiteWritten | examples/demo_project/air_quality/management/commands/sync_air_quality.py:112-161 | After the site step the site of the key has exactly the payload's region, name, id and description, every other site is unchanged, and the cache gained the key |
| SyncAirQuality.SiteCounted | examples/demo_project/air_quality/management/commands/sync_air_quality.py:119-161 | A cached site is written and counted exactly when its name, description or region differs; a site not cached yet always counts |
| SyncAirQuality.LocationStep | examples/demo_project/air_quality/management/commands/sync_air_quality.py:81-161 | A turn of the locations loop keeps the caches consistent with the tables and removes no site |
| SyncAirQuality.LocationStepSkips | examples/demo_project/air_quality/management/commands/sync_air_quality.py:82-85 | A payload without an id changes nothing |
| SyncAirQuality.LocationStepWrites | examples/demo_project/air_quality/management/commands/sync_air_quality.py:82-161 | An accepted location leaves its region, cached under its region key, with the region name, and its site, cached under its id, with the site name, the description and that region |
| SyncAirQuality.LocationStepAgain | examples/demo_project/air_quality/management/commands/sync_air_quality.py:90-161 | Within one run, the same location payload a second time writes nothing and counts nothing |
| SyncAirQuality.SitesFold | examples/demo_project/air_quality/management/commands/sync_air_quality.py:81-163 | The locations loop keeps the caches consistent with the tables and removes no site |
| SyncAirQuality.SitesFoldStopsOnError | examples/demo_project/air_quality/management/commands/sync_air_quality.py:81-163 | After an error the remaining payloads change nothing |
| SyncAirQuality.SitesSynced | examples/demo_project/air_quality/management/commands/sync_air_quality.py:73-163 | `sync_sites` writes only the region and site tables, removes no site, and on success returns caches consistent with them |
| SyncAirQuality.SyncSites | examples/demo_project/air_quality/management/commands/sync_air_quality.py:73-163 | The method's result and database are those of the site pass |
| SyncAirQuality.SyncLocation | examples/demo_project/air_quality/management/commands/sync_air_quality.py:81-161 | The loop body's result and site tables are those of one turn of the locations loop |
| SyncAirQuality.SyncRegion | examples/demo_project/air_quality/management/commands/sync_air_quality.py:88-110 | The region part of the loop body returns and saves what the region step gives; an error leaves the database as it was |
| SyncAirQuality.SiteStep | examples/demo_project/air_quality/management/commands/sync_air_quality.py:112-161 | The field-by-field site update gives what the site step gives |
| SyncAirQuality.SyncSite | examples/demo_project/air_quality/management/commands/sync_air_quality.py:112-161 | The site part of the loop body returns and saves what the site step gives; an error leaves the database as it was |
| SyncAirQuality.FetchStartIsNewest | examples/demo_project/air_quality/management/commands/sync_air_quality.py:168-172 | The window starts at the newest stored measurement time: one stored measurement has it and none is later; only an empty table falls back to seven days before now |
| SyncAirQuality.RawTime | examples/demo_project/air_quality/management/commands/sync_air_quality.py:199 | The `utc` value when truthy, else the `local` value |
| SyncAirQuality.Screen | examples/demo_project/air_quality/management/commands/sync_air_quality.py:193-211 | A payload or `date` that is no JSON object has no `.get`; a payload is skipped exactly when a key is missing, the value is None or the time is missing or unparseable; an out-of-range time raises ValueError; an accepted payload keeps its fields and parsed time |
| SyncAirQuality.SiteResolved | examples/demo_project/air_quality/management/commands/sync_air_quality.py:213-225 | A cached site is used as it is; an uncached one is looked up by external id and cached; it is skipped exactly when no site has that id; several are MultipleObjectsReturned |
| SyncAirQuality.ParameterText | examples/demo_project/air_quality/management/commands/sync_air_quality.py:227-229 | Only a string parameter can be used, and it is used as given |
| SyncAirQuality.PollutantIndexMirrors | examples/demo_project/air_quality/management/commands/sync_air_quality.py:184-187 | The cache built from the pollutant table maps every external id to a pollutant of that id, and misses no pollutant |
| SyncAirQuality.NewPollutant | examples/demo_project/air_quality/management/commands/sync_air_quality.py:228-231 | A new pollutant carries the parameter as its external id |
| SyncAirQuality.PollutantSynced | examples/demo_project/air_quality/management/commands/sync_air_quality.py:227-246 | The pollutant returned has the parameter as its external id and is cached under it; no pollutant is removed, and a cache that mirrors the table keeps mirroring it |
| SyncAirQuality.PollutantMissCreates | examples/demo_project/air_quality/management/commands/sync_air_quality.py:232-238 | With a cache that mirrors the table, an uncached parameter is created once, under the counter, named by the humanised parameter, with an empty unit when none is given |
| SyncAirQuality.PollutantUnitRule | examples/demo_project/air_quality/management/commands/sync_air_quality.py:239-246 | A cached pollutant is never created; it changes only its unit, and only to a given unit that differs |
| SyncAirQuality.DecimalOf | examples/demo_project/air_quality/management/commands/sync_air_quality.py:252 | An int is exact, a decimal number is itself, text is what the decimal parser reads, and anything else or unreadable text is InvalidOperation |
| SyncAirQuality.MeasurementUpserted | examples/demo_project/air_quality/management/commands/sync_air_quality.py:254-257 | On success the measurement holds the row, no other measurement changes, it is created exactly when its key is new, and no other measurement shares its site, pollutant and time; an error is MultipleObjectsReturned or the uniqueness violation |
| SyncAirQuality.MeasurementCreatedOnlyWhenNew | examples/demo_project/air_quality/management/commands/sync_air_quality.py:254-259 | A measurement is created exactly when no measurement has its external id; otherwise the one with that id is updated |
| SyncAirQuality.PollutantOf | examples/demo_project/air_quality/management/commands/sync_air_quality.py:227-246 | A string parameter is synced as a pollutant; any other parameter fails |
| SyncAirQuality.RowUpserted | examples/demo_project/air_quality/management/commands/sync_air_quality.py:248-257 | The row written holds the site, the pollutant, the parsed time, the converted value and the payload id's text (`PyStr`), upserted by that id |
| SyncAirQuality.ReadingWritten | examples/demo_project/air_quality/management/commands/sync_air_quality.py:227-259 | A written reading's measurement is in the table |
| SyncAirQuality.Recorded | examples/demo_project/air_quality/management/commands/sync_air_quality.py:213-259 | A written payload's measurement is in the table; the row it holds is stated by `RecordedRow` |
| SyncAirQuality.PollutantCount | examples/demo_project/air_quality/management/commands/sync_air_quality.py:232-238 | The pollutant step adds a row exactly when it reports a creation, and removes none |
| SyncAirQuality.PollutantAgain | examples/demo_project/air_quality/management/commands/sync_air_quality.py:227-246 | Syncing the same parameter and unit a second time finds the same pollutant and changes nothing |
| SyncAirQuality.UpsertedCount | examples/demo_project/air_quality/management/commands/sync_air_quality.py:254-259 | The upsert adds a row exactly when it reports a creation, and removes none |
| SyncAirQuality.UpsertedAgain | examples/demo_project/air_quality/management/commands/sync_air_quality.py:254-257 | Upserting the same row a second time finds the row it wrote and leaves the table as it is |
| SyncAirQuality.RecordedCounts | examples/demo_project/air_quality/management/commands/sync_air_quality.py:237-259 | The created-pollutants and written-measurements counters grow by the numbers of rows added to those tables, and no row goes away |
| SyncAirQuality.RecordedRow | examples/demo_project/air_quality/management/commands/sync_air_quality.py:213-259 | The written row has the payload's id, time and value, the site of its location and the pollutant of its parameter |
| SyncAirQuality.RecordedAgain | examples/demo_project/air_quality/management/commands/sync_air_quality.py:213-259 | A payload already written in this run is written again without creating anything or changing any table or cache |
| SyncAirQuality.RecordEvaluated | examples/demo_project/air_quality/management/commands/sync_air_quality.py:261 | Evaluating the written measurement changes only the alert side, and keeps the counters and the measurement tables |
| SyncAirQuality.MeasurementStep | examples/demo_project/air_quality/management/commands/sync_air_quality.py:193-261 | A turn writes only the measurement and alert side; a skipped payload changes nothing; a screening error is raised as it is |
| SyncAirQuality.MeasurementStepCounts | examples/demo_project/air_quality/management/commands/sync_air_quality.py:237-259 | A turn's counters grow by the numbers of pollutant and measurement rows it adds |
| SyncAirQuality.MeasurementStepWrites | examples/demo_project/air_quality/management/commands/sync_air_quality.py:248-257 | An accepted payload of a known site leaves a measurement with its id, time and value in the table |
| SyncAirQuality.MeasurementsFold | examples/demo_project/air_quality/management/commands/sync_air_quality.py:189-261 | The measurement loop writes only the measurement and alert side |
| SyncAirQuality.MeasurementsFoldStopsOnError | examples/demo_project/air_quality/management/commands/sync_air_quality.py:189-261 | After an error the remaining payloads change nothing |
| SyncAirQuality.MeasurementsFoldCounts | examples/demo_project/air_quality/management/commands/sync_air_quality.py:181-261 | Over the loop the counters grow by the numbers of pollutant and measurement rows added |
| SyncAirQuality.FirstMeasurementRun | examples/demo_project/air_quality/management/commands/sync_air_quality.py:181-187 | The pass starts with both counters at zero and caches consistent with the tables |
| SyncAirQuality.RulesEnsured | examples/demo_project/air_quality/management/commands/sync_air_quality.py:263-264 | After the transaction only the rules, workflows and alerts may change, and on success the pass's two counters are returned |
| SyncAirQuality.MeasurementsSyncedFrame | examples/demo_project/air_quality/management/commands/sync_air_quality.py:165-266 | The measurement pass (`MeasurementsSynced`) writes only pollutants, measurements, rules and the alert side; a failed payload or a refused page rolls the whole transaction back |
| SyncAirQuality.MeasurementsSyncedCounts | examples/demo_project/air_quality/management/commands/sync_air_quality.py:165-266 | The two counters returned are the numbers of pollutant and measurement rows the pass added |
| SyncAirQuality.SyncPollutant | examples/demo_project/air_quality/management/commands/sync_air_quality.py:227-246 | The pollutant part of the loop body returns and saves what the pollutant step gives; an error leaves the database as it was |
| SyncAirQuality.UpsertMeasurement | examples/demo_project/air_quality/management/commands/sync_air_quality.py:254-257 | The measurement upsert returns and saves what the upsert gives; an error leaves the database as it was |
| SyncAirQuality.WritePollutant | examples/demo_project/air_quality/management/commands/sync_air_quality.py:227-246 | Returns and saves the pollutant of the payload's parameter |
| SyncAirQuality.WriteRow | examples/demo_project/air_quality/management/commands/sync_air_quality.py:248-257 | Returns and saves the upsert of the payload's measurement row |
| SyncAirQuality.WriteReading | examples/demo_project/air_quality/management/commands/sync_air_quality.py:227-259 | Returns and saves the pollutant and measurement of an accepted payload |
| SyncAirQuality.RecordReading | examples/demo_project/air_quality/management/commands/sync_air_quality.py:213-259 | Returns and saves what writing the payload gives; a skipped payload changes nothing |
| SyncAirQuality.SyncMeasurement | examples/demo_project/air_quality/management/commands/sync_air_quality.py:193-261 | The loop body's result and database are those of one turn of the measurement loop |
| SyncAirQuality.SyncPayloads | examples/demo_project/air_quality/management/commands/sync_air_quality.py:189-261 | The payload loop's result and database are those of the measurement loop |
| SyncAirQuality.EnsureRulesAndEvaluate | examples/demo_project/air_quality/management/commands/sync_air_quality.py:263-264 | The demo rules are ensured and, when some were created, the last day is evaluated, as the post-transaction step states |
| SyncAirQuality.SyncMeasurements | examples/demo_project/air_quality/management/commands/sync_air_quality.py:165-266 | The method's result and database are those of the measurement pass, `MeasurementsSynced` |
| SyncAirQuality.SyncStats.constructor | examples/demo_project/air_quality/management/commands/sync_air_quality.py:30-37 | Every counter starts at zero |
| SyncAirQuality.SyncStats.AddSites | examples/demo_project/air_quality/management/commands/sync_air_quality.py:62-63 | Adds the region and site updates to their counters and leaves the others |
| SyncAirQuality.SyncStats.AddMeasurements | examples/demo_project/air_quality/management/commands/sync_air_quality.py:67-68 | Adds the created pollutants and written measurements to their counters and leaves the others |
| SyncAirQuality.SitesThenMeasurements | examples/demo_project/air_quality/management/commands/sync_air_quality.py:61-66 | After a successful site pass the measurement pass may start with the site cache it returned |
| SyncAirQuality.HandledCounts | examples/demo_project/air_quality/management/commands/sync_air_quality.py:57-68 | The reported pollutant and measurement counters of both passes (`Handled`) are the numbers of rows the command added to those tables |
| SyncAirQuality.SyncBoth | examples/demo_project/air_quality/management/commands/sync_air_quality.py:57-68 | The result and database are those of both passes, `Handled`: the site pass followed by the measurement pass |
| SyncAirQuality.Report | examples/demo_project/air_quality/management/commands/sync_air_quality.py:58-71 | The success line is "Air quality sync completed: " and the four counters as `key=value`, comma-separated, in the order regions, sites, pollutants, measurements |
| SyncAirQuality.Handle | examples/demo_project/air_quality/management/commands/sync_air_quality.py:57-71 | On success the command writes the success line of its counters; otherwise it raises the error; the database is that of both passes |

## Left out

- HTTP and JSON: `requests.get` and `response.json()` are replaced by the given pages. A request past the last page given answers an empty 200 page. Error texts, and the timeout, are not modelled.
- `parse_datetime`, `timezone.now` and time zones: the parser of timestamps and the parser of decimal text are functions passed in (`env`), and the clock is one integer `now`. The measurement pass reads the clock once; the window start and the alert service share that reading.
- Floating point: payload numbers are ints or exact thousandths. `Decimal(str(value))` of a float is not modelled, and neither is the rounding a float value would need.
- Command output and logging: `Handle` returns the success line instead of writing it to stdout, and the debug logging is not modelled.
- SyncAirQuality.PollutantSynced: its cache is assumed to mirror the pollutant table, which holds for the cache built at the start of the pass. A cache that misses a row of the table is not covered by `PollutantMissCreates`.
- `update_or_create` and `get_or_create` with a default naming a field the model does not have: Django raises for an unknown field, and the model stores the value.
- The integrity-error retry inside Django's `get_or_create`, which looks the row up again after a concurrent insert, is not modelled; no concurrency is.
- Concurrency and row locks: `select_for_update(skip_locked=True)` is the input `lockedElsewhere`. Interleavings and the race that can leave two active alerts for one rule are not modelled. `@transaction.atomic` is modelled as all-or-nothing on an error.
- SyncAirQuality.Handle: the counters go into `SyncStats` once both passes have returned, not after each pass. Nothing reads them in between.
- SyncAirQuality.RegionKeyCountry: a payload whose `country` is None gets the region key "None|...". This follows the code (`payload.get('country', 'XX')`); only a missing key gives "XX".
- `_fetch_paginated` is a generator. The model fetches every page before the payload loop runs, which yields the same payloads in the same order. When a later page is refused, though, the source has already processed the earlier payloads: in the site pass their writes stay, and the model does the same.
- AlertsBlock: `get_config` is not modelled.
- The workflow engine: `get_allowed_transitions` is the input `allowed`, and `perform_transition`, `WorkflowModelMixin` and permission generation are not modelled.
- `reverse()` and `ContentType` lookups: an action's URL is kept as its four path arguments, and SiteAlert's content type is an input.
- DemoAlertRules.NewestFirst: `order_by("-measured_at")` leaves the order of measurements taken at the same time to the database; the model lists them in key order. When `max_rules` runs out among such measurements, this choice decides which (site, pollutant) pairs get a demo rule and which keys the rules get.
- AlertServices.RecentMeasurements: measurements in the window taken at the same time are listed in key order, where the database may use any order. This fixes the order in which the window creates or refreshes alerts, and so the keys new alerts get.
- PyValue.PyStr: a decimal, a list, bytes, a mapping or a model instance is rendered as the placeholder "<object>", not as Python's `str()` of it. Distinct such values therefore have the same text.
- Seeding.NormaliseFields: a list item that is a decimal, list, bytes, mapping or model instance becomes the placeholder text, so two such items give the same field name.
- Seeding.Strs: such items become the placeholder text, as in `PyValue.PyStr`.
- Seeding.Resolve: a reference that is a decimal, a list, bytes, a mapping or an instance of another model is looked up by the placeholder text. A block whose code is "<object>" is then found, where the source would look up the real `str()` and, lacking a match, raise ValueError. Block codes, config names, location keys and upserted rows built from such values collide in the same way (`BlockDefinition`, `ConfigDefinition`, `LocationKey`, `RowUpserted`).
- Layouts.Existing: `layout.blocks.select_related("block").all()` is read in key order, where the database may use LayoutBlock's ordering or no order at all. When a layout holds two layout blocks of one code, this choice decides which of them `ensure` updates and which it leaves alone.
- Field widths: the `max_length` of the CharFields (64, 255, 32 and 8 characters) and the `max_digits=12, decimal_places=3` of `Measurement.value`, `SiteAlertRule.threshold_value` and `SiteAlert.value` are not enforced. Texts and numbers of any size are stored. On save, the source may raise for a value too wide; which error it raises (`decimal.InvalidOperation`, a database `DataError`, or none on a backend that does not check lengths) depends on the Django version and the backend. The error sets stated by the upsert members therefore leave these errors out, as the two lines below say.
- DemoAlertRules.DemoRulesEnsuredCount: its only stated error is the external-id clash. A rule name over 255 characters (from a long site name in `f"{site.name} {pollutant.name} alert"`) may also fail the save in the source, and the model does not show that failure.
- SyncAirQuality.MeasurementUpserted: its stated errors are MultipleObjectsReturned and the unique constraint. A value of 10^9 or more (13 digits at 3 places) or an external id over 64 characters may also fail the save in the source, rolling the measurement transaction back, and the model stores such a row.
- SyncAirQuality.RegionCounted: a cached region is compared by its stored text, where the source compares the value last assigned to the cached instance. After `{"city": 5}` a later `{"city": "5"}` gives the same text "5", so the model counts nothing, while the source finds `5 != "5"`, saves again and counts again.
- SyncAirQuality.SiteCounted: likewise, a cached site's name and description are compared as text. After `{"id": 1, "name": 5}` a later `{"id": 1, "name": "5"}` counts once more in the source and not in the model.
- PyValue.MappingV: a mapping's `order` is assumed to list each key of `entries` exactly once; nothing in the datatype enforces it, so `Iterated` and `NormaliseFields` also accept orders no Python dict has.
- AlertsBlock.ActiveNewestFirstExact: `order_by("-triggered_at")` leaves the order of alerts triggered at the same time to the database; the model lists them in key order.
- AlertServices.EvaluatedOne: the rules are visited in key order, while `SiteAlertRule`'s default ordering is by name. Visiting them by name can change the order of the returned alerts, the keys that new alerts get, and which upserts come before an error.
- AlertServices.SiteAlertEvaluationService.EvaluateRecentMeasurements: the window is a parameter; the default of six hours is the constant `DEFAULT_WINDOW`.
- The reverse migration `unseed_site_alert_workflow` is not modelled: it uses `SiteAlert` without binding it (line 67 of the migration), so it cannot run as written. The migration's permission generation (lines 55-57) is not modelled either.
- `str.title()` is modelled for ASCII letters only. Any other character counts as a non-letter. Unicode case mapping is not modelled.
- The service's example of a measurement at 42 and then at 55 is not a lemma of its own. It is an instance of `UpsertGetsOrCreates` (the first evaluation creates the alert, in state Active) followed by `UpsertRefreshes` (the second refreshes that alert's value).
- `tables.py`, `charts.py`, `details.py`, `block_urls.py`, the admin and app configuration, the signal wiring in `blocks/__init__.py`, migration 0004 (which only calls `ensure_demo_alert_rules`) and the launcher script are not part of this model. They are presentation, wiring and configuration code.
