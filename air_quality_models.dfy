/** The air-quality app's tables (regions, monitoring sites, pollutants,
    measurements, alert rules and site alerts) together with the workflow
    tables the alerts are attached to, and the model-level logic around them:
    threshold tests, rule/measurement matching, the active-alert filter, the
    status label and the attachment of an alert to its default workflow.

    Times are whole seconds; decimal fields (three decimal places) are held
    as integer thousandths, so `Decimal("42.000")` is `42000`. */
module AirQualityModels {
  import opened Common

  const ABOVE: string := "above"
  const BELOW: string := "below"

  const STATE_ACTIVE: string := "Active"
  const STATE_ACKNOWLEDGED: string := "Acknowledged"
  const STATE_MUTED: string := "Muted"

  const DEFAULT_WORKFLOW_NAME: string := "Air Quality Alert Lifecycle"

  datatype Workflow = Workflow(name: string, contentType: Option<nat>)
  datatype State = State(workflow: nat, name: string, isStart: bool, isEnd: bool)
  datatype Transition = Transition(workflow: nat, source: nat, dest: nat, name: string)

  datatype Region = Region(name: string, externalId: string)
  datatype Site = Site(region: nat, name: string, externalId: string, locationDescription: string)
  datatype Pollutant = Pollutant(name: string, externalId: string, unit: string)
  datatype Measurement = Measurement(site: nat, pollutant: nat, measuredAt: int, value: int, externalId: string)
  datatype Rule = Rule(
    site: nat, pollutant: nat, name: string, externalId: string,
    threshold: int, comparison: string, isActive: bool)
  datatype Alert = Alert(
    rule: nat, measurement: nat, triggeredAt: int, value: int, note: string,
    workflow: Option<nat>, workflowState: Option<nat>)

  // ---------------------------------------------------------------- rules

  /** `SiteAlertRule.is_triggered`: no value never triggers; an "above" rule
      triggers at or over its threshold, any other comparison at or under. */
  predicate IsTriggered(rule: Rule, value: Option<int>)
  {
    match value
    case None => false
    case Some(v) => if rule.comparison == ABOVE then v >= rule.threshold else v <= rule.threshold
  }

  /** `SiteAlertRule.matches_measurement`: same site and same pollutant. */
  predicate Matches(rule: Rule, m: Measurement)
  {
    m.site == rule.site && m.pollutant == rule.pollutant
  }

  /** `Matches` as a function value, for filtering. */
  function MatchesRule(rule: Rule): (p: Measurement -> bool)
    ensures forall m :: p(m) <==> Matches(rule, m)
  {
    m => Matches(rule, m)
  }

  /** The threshold is inclusive in both directions: at the threshold itself
      both an "above" and a "below" rule trigger, and every value triggers at
      least one of them. A missing value triggers no rule. */
  lemma ThresholdInclusive(rule: Rule, v: int)
    ensures !IsTriggered(rule, None)
    ensures IsTriggered(rule.(comparison := ABOVE), Some(v)) && IsTriggered(rule.(comparison := BELOW), Some(v))
      <==> v == rule.threshold
    ensures IsTriggered(rule.(comparison := ABOVE), Some(v)) || IsTriggered(rule.(comparison := BELOW), Some(v))
  {
  }

  /** A larger value keeps an "above" rule triggered; a smaller one keeps any
      other rule triggered. */
  lemma TriggeredMonotone(rule: Rule, v: int, w: int)
    requires IsTriggered(rule, Some(v))
    ensures rule.comparison == ABOVE && w >= v ==> IsTriggered(rule, Some(w))
    ensures rule.comparison != ABOVE && w <= v ==> IsTriggered(rule, Some(w))
  {
  }

  /** The rule of the threshold test: 15 triggers "above 10" and 5 does not;
      10 triggers "below 20" and 25 does not. */
  lemma ThresholdExamples(site: nat, pollutant: nat)
    ensures var above := Rule(site, pollutant, "Above Threshold", "rule-above", 10000, ABOVE, true);
      IsTriggered(above, Some(15000)) && !IsTriggered(above, Some(5000))
    ensures var below := Rule(site, pollutant, "Below Threshold", "rule-below", 20000, BELOW, true);
      IsTriggered(below, Some(10000)) && !IsTriggered(below, Some(25000))
  {
  }

  /** `SiteAlertRule.objects.active().for_measurement(m)` over the rules with
      keys below `n`, in key order. */
  function ApplicableRules(rules: map<nat, Rule>, n: nat, m: Measurement): (r: seq<nat>)
  {
    if n == 0 then []
    else
      var r := ApplicableRules(rules, n - 1, m);
      if n - 1 in rules && rules[n - 1].isActive && Matches(rules[n - 1], m) then r + [n - 1] else r
  }

  /** The query lists exactly the active rules of the measurement's site and
      pollutant, each once, in increasing key order. */
  lemma {:induction false} ApplicableRulesExact(rules: map<nat, Rule>, n: nat, m: Measurement)
    ensures var r := ApplicableRules(rules, n, m);
      (forall i :: 0 <= i < |r| ==> r[i] in rules && r[i] < n)
      && (forall k :: k in r <==> k in rules && k < n && rules[k].isActive && Matches(rules[k], m))
      && (forall i, j :: 0 <= i < j < |r| ==> r[i] < r[j])
  {
    if n > 0 {
      ApplicableRulesExact(rules, n - 1, m);
    }
  }

  /** `SiteAlertRule.applicable_measurements`: the measurements of the rule's
      site and pollutant, in the order given. */
  method ApplicableMeasurements(rule: Rule, measurements: seq<Measurement>) returns (r: seq<Measurement>)
    ensures r == Filter(measurements, MatchesRule(rule))
  {
    r := [];
    var i := 0;
    while i < |measurements|
      invariant 0 <= i <= |measurements|
      invariant r == Filter(measurements[..i], MatchesRule(rule))
    {
      var m := measurements[i];
      FilterAppend(measurements[..i], [m], MatchesRule(rule));
      assert measurements[..i + 1] == measurements[..i] + [m];
      if Matches(rule, m) {
        r := r + [m];
      }
      i := i + 1;
    }
    assert measurements[..i] == measurements;
  }

  /** What `applicable_measurements` yields is exactly the matching
      measurements of its input. */
  lemma ApplicableMeasurementsExact(rule: Rule, measurements: seq<Measurement>, m: Measurement)
    ensures m in Filter(measurements, MatchesRule(rule)) <==> m in measurements && Matches(rule, m)
    ensures m in Filter(measurements, MatchesRule(rule)) ==> m.site == rule.site && m.pollutant == rule.pollutant
  {
    FilterMembership(measurements, MatchesRule(rule), m);
  }

  // --------------------------------------------------------------- alerts

  /** `SiteAlert.objects.active()`: the alert's state is a row named "Active"
      (of any workflow). */
  predicate IsActiveAlert(states: map<nat, State>, a: Alert)
  {
    a.workflowState.Some? && a.workflowState.value in states && states[a.workflowState.value].name == STATE_ACTIVE
  }

  /** `SiteAlert.status_label`: the state's name, or "" without a state. */
  function StatusLabel(states: map<nat, State>, a: Alert): (r: string)
    ensures a.workflowState.None? ==> r == ""
    ensures a.workflowState.Some? && a.workflowState.value in states ==> r == states[a.workflowState.value].name
  {
    if a.workflowState.Some? && a.workflowState.value in states then states[a.workflowState.value].name else ""
  }

  /** An alert is listed as active exactly when its status label reads
      "Active". */
  lemma ActiveIffLabel(states: map<nat, State>, a: Alert)
    requires a.workflowState.Some? ==> a.workflowState.value in states
    ensures IsActiveAlert(states, a) <==> StatusLabel(states, a) == STATE_ACTIVE
  {
  }

  /** The keys below `n` of the active alerts, in key order. */
  function ActiveAlertKeys(alerts: map<nat, Alert>, states: map<nat, State>, n: nat): (r: seq<nat>)
  {
    if n == 0 then []
    else
      var r := ActiveAlertKeys(alerts, states, n - 1);
      if n - 1 in alerts && IsActiveAlert(states, alerts[n - 1]) then r + [n - 1] else r
  }

  /** The keys listed are exactly those of the active alerts. */
  lemma {:induction false} ActiveAlertKeysExact(alerts: map<nat, Alert>, states: map<nat, State>, n: nat)
    ensures var r := ActiveAlertKeys(alerts, states, n);
      (forall i :: 0 <= i < |r| ==> r[i] in alerts && r[i] < n)
      && (forall k :: k in r <==> k in alerts && k < n && IsActiveAlert(states, alerts[k]))
  {
    if n > 0 {
      ActiveAlertKeysExact(alerts, states, n - 1);
    }
  }

  // ------------------------------------------------------------ workflows

  /** `Workflow.objects.filter(name=...).first()`: the lowest key. */
  function FirstWorkflowNamed(workflows: map<nat, Workflow>, n: nat, name: string): (r: Option<nat>)
    ensures r.Some? ==> r.value in workflows && r.value < n && workflows[r.value].name == name
    ensures r.Some? ==> forall k :: k in workflows && k < r.value ==> workflows[k].name != name
    ensures r.None? ==> forall k :: k in workflows && k < n ==> workflows[k].name != name
  {
    if n == 0 then None
    else
      var r := FirstWorkflowNamed(workflows, n - 1, name);
      if r.Some? then r
      else if n - 1 in workflows && workflows[n - 1].name == name then Some(n - 1)
      else None
  }

  /** The two state lookups of `get_active_state`: by the name "Active",
      and by `is_start`. */
  datatype StateQuery = NamedActive | StartState

  predicate Selects(q: StateQuery, s: State)
  {
    match q
    case NamedActive => s.name == STATE_ACTIVE
    case StartState => s.isStart
  }

  /** `State.objects.filter(workflow=w, ...).first()` for query `q`: the
      lowest-keyed state of workflow `w` that `q` selects. */
  function FirstStateOf(states: map<nat, State>, n: nat, w: nat, q: StateQuery): (r: Option<nat>)
    ensures r.Some? ==> r.value in states && r.value < n && states[r.value].workflow == w && Selects(q, states[r.value])
    ensures r.Some? ==> forall k :: k in states && k < r.value && states[k].workflow == w ==> !Selects(q, states[k])
    ensures r.None? ==> forall k :: k in states && k < n && states[k].workflow == w ==> !Selects(q, states[k])
  {
    if n == 0 then None
    else
      var r := FirstStateOf(states, n - 1, w, q);
      if r.Some? then r
      else if n - 1 in states && states[n - 1].workflow == w && Selects(q, states[n - 1]) then Some(n - 1)
      else None
  }

  /** The state `mark_active` gives an alert that has none: the workflow's
      state named "Active", else its first start state, else nothing. */
  function ActiveStateFor(states: map<nat, State>, n: nat, w: nat): (r: Option<nat>)
    ensures r.Some? ==> r.value in states && states[r.value].workflow == w
  {
    var named := FirstStateOf(states, n, w, NamedActive);
    if named.Some? then named else FirstStateOf(states, n, w, StartState)
  }

  /** `mark_active` prefers the workflow's state named "Active"; only when
      there is none does it take a start state; with neither it gives no
      state. */
  lemma ActiveStateForChoice(states: map<nat, State>, n: nat, w: nat)
    ensures var r := ActiveStateFor(states, n, w);
      (r.Some? ==>
        states[r.value].name == STATE_ACTIVE
        || (states[r.value].isStart
            && forall k :: k in states && k < n && states[k].workflow == w ==> states[k].name != STATE_ACTIVE))
      && ((exists k :: k in states && k < n && states[k].workflow == w && states[k].name == STATE_ACTIVE)
          ==> r.Some? && states[r.value].name == STATE_ACTIVE)
      && (r.None? <==> forall k :: k in states && k < n && states[k].workflow == w ==>
            states[k].name != STATE_ACTIVE && !states[k].isStart)
  {
  }

  /** The default workflow is installed: a workflow of that name exists and
      the first one has a content type. */
  predicate DefaultWorkflowReady(workflows: map<nat, Workflow>, n: nat)
  {
    var f := FirstWorkflowNamed(workflows, n, DEFAULT_WORKFLOW_NAME);
    f.Some? && workflows[f.value].contentType.Some?
  }

  /** The workflow table and its counter after `get_default_workflow`, with
      `ct` the content type of SiteAlert. */
  function InstallDefaultWorkflow(workflows: map<nat, Workflow>, n: nat, ct: nat): (r: (map<nat, Workflow>, nat))
    requires KeysBelow(workflows, n)
    ensures KeysBelow(r.0, r.1) && n <= r.1 && workflows.Keys <= r.0.Keys
    ensures DefaultWorkflowReady(r.0, r.1)
  {
    var f := FirstWorkflowNamed(workflows, n, DEFAULT_WORKFLOW_NAME);
    if f.None? then
      // get_or_create by name: no row has the name, so one is created.
      FirstNamedAfterInsert(workflows, n, Workflow(DEFAULT_WORKFLOW_NAME, Some(ct)));
      (workflows[n := Workflow(DEFAULT_WORKFLOW_NAME, Some(ct))], n + 1)
    else if workflows[f.value].contentType.None? then
      var updated := workflows[f.value].(contentType := Some(ct));
      FirstNamedAfterUpdate(workflows, n, f.value, updated);
      (workflows[f.value := updated], n)
    else
      (workflows, n)
  }

  /** The key of the default workflow once it is installed. */
  function DefaultWorkflowKey(workflows: map<nat, Workflow>, n: nat): (w: nat)
    requires DefaultWorkflowReady(workflows, n)
    ensures w in workflows && w < n && workflows[w].name == DEFAULT_WORKFLOW_NAME
    ensures workflows[w].contentType.Some?
  {
    FirstWorkflowNamed(workflows, n, DEFAULT_WORKFLOW_NAME).value
  }

  /** `get_default_workflow` creates the workflow only when no workflow has
      its name, fills in a missing content type, never replaces a content type
      that is set, and touches no other workflow. */
  lemma InstallDefaultWorkflowEffect(workflows: map<nat, Workflow>, n: nat, ct: nat)
    requires KeysBelow(workflows, n)
    ensures var f := FirstWorkflowNamed(workflows, n, DEFAULT_WORKFLOW_NAME);
      var r := InstallDefaultWorkflow(workflows, n, ct);
      (f.None? <==> r.1 == n + 1)
      && (f.None? ==> r.0 == workflows[n := Workflow(DEFAULT_WORKFLOW_NAME, Some(ct))] && DefaultWorkflowKey(r.0, r.1) == n)
      && (f.Some? ==>
            r.1 == n && r.0.Keys == workflows.Keys && DefaultWorkflowKey(r.0, r.1) == f.value
            && (forall k :: k in workflows && k != f.value ==> r.0[k] == workflows[k])
            && r.0[f.value].name == workflows[f.value].name
            && r.0[f.value].contentType == if workflows[f.value].contentType.Some? then workflows[f.value].contentType else Some(ct))
  {
  }

  /** Once installed, installing again changes nothing: repeated calls of
      `get_default_workflow` return the same workflow. */
  lemma {:induction false} InstallDefaultWorkflowIdempotent(workflows: map<nat, Workflow>, n: nat, ct: nat)
    requires KeysBelow(workflows, n)
    ensures var r := InstallDefaultWorkflow(workflows, n, ct);
      InstallDefaultWorkflow(r.0, r.1, ct) == r
    ensures DefaultWorkflowReady(workflows, n) ==> InstallDefaultWorkflow(workflows, n, ct) == (workflows, n)
  {
    var r := InstallDefaultWorkflow(workflows, n, ct);
    assert DefaultWorkflowReady(r.0, r.1);
  }

  // --------------------------------------------------------- invariants

  predicate StateRefs(states: map<nat, State>, workflows: map<nat, Workflow>)
  {
    forall k :: k in states ==> states[k].workflow in workflows
  }

  predicate TransitionRefs(transitions: map<nat, Transition>, workflows: map<nat, Workflow>, states: map<nat, State>)
  {
    forall k :: k in transitions ==>
      transitions[k].workflow in workflows && transitions[k].source in states && transitions[k].dest in states
  }

  predicate SiteRefs(sites: map<nat, Site>, regions: map<nat, Region>)
  {
    forall k :: k in sites ==> sites[k].region in regions
  }

  predicate MeasurementRefs(measurements: map<nat, Measurement>, sites: map<nat, Site>, pollutants: map<nat, Pollutant>)
  {
    forall k :: k in measurements ==> measurements[k].site in sites && measurements[k].pollutant in pollutants
  }

  predicate RuleRefs(rules: map<nat, Rule>, sites: map<nat, Site>, pollutants: map<nat, Pollutant>)
  {
    forall k :: k in rules ==> rules[k].site in sites && rules[k].pollutant in pollutants
  }

  predicate AlertRefs(
    alerts: map<nat, Alert>, rules: map<nat, Rule>, measurements: map<nat, Measurement>,
    workflows: map<nat, Workflow>, states: map<nat, State>)
  {
    forall k :: k in alerts ==>
      alerts[k].rule in rules && alerts[k].measurement in measurements
      && (alerts[k].workflow.Some? ==> alerts[k].workflow.value in workflows)
      && (alerts[k].workflowState.Some? ==> alerts[k].workflowState.value in states)
  }

  /** Row `k` of a table: the term the uniqueness constraints below are
      instantiated on, so that they apply only where a proof names it. */
  function Row<T>(m: map<nat, T>, k: nat): T
    requires k in m
  {
    m[k]
  }

  predicate UniqueRegionIds(regions: map<nat, Region>)
  {
    forall i, j {:trigger Row(regions, i), Row(regions, j)} :: i in regions && j in regions && i != j ==>
      Row(regions, i).externalId != Row(regions, j).externalId
  }

  predicate UniqueSiteIds(sites: map<nat, Site>)
  {
    forall i, j {:trigger Row(sites, i), Row(sites, j)} :: i in sites && j in sites && i != j ==>
      Row(sites, i).externalId != Row(sites, j).externalId
  }

  predicate UniquePollutantIds(pollutants: map<nat, Pollutant>)
  {
    forall i, j {:trigger Row(pollutants, i), Row(pollutants, j)} :: i in pollutants && j in pollutants && i != j ==>
      Row(pollutants, i).externalId != Row(pollutants, j).externalId
  }

  /** `unique_measurement_per_site_pollutant_timestamp` and the unique
      external id. */
  predicate UniqueMeasurements(measurements: map<nat, Measurement>)
  {
    forall i, j {:trigger Row(measurements, i), Row(measurements, j)} :: i in measurements && j in measurements && i != j ==>
      Row(measurements, i).externalId != Row(measurements, j).externalId
      && (Row(measurements, i).site, Row(measurements, i).pollutant, Row(measurements, i).measuredAt)
         != (Row(measurements, j).site, Row(measurements, j).pollutant, Row(measurements, j).measuredAt)
  }

  /** `unique_alert_rule_per_site_pollutant_name` and the unique external id. */
  predicate UniqueRules(rules: map<nat, Rule>)
  {
    forall i, j {:trigger Row(rules, i), Row(rules, j)} :: i in rules && j in rules && i != j ==>
      Row(rules, i).externalId != Row(rules, j).externalId
      && (Row(rules, i).site, Row(rules, i).pollutant, Row(rules, i).name)
         != (Row(rules, j).site, Row(rules, j).pollutant, Row(rules, j).name)
  }

  /** `unique_alert_per_rule_measurement`. */
  predicate UniqueAlerts(alerts: map<nat, Alert>)
  {
    forall i, j {:trigger Row(alerts, i), Row(alerts, j)} :: i in alerts && j in alerts && i != j ==>
      (Row(alerts, i).rule, Row(alerts, i).measurement) != (Row(alerts, j).rule, Row(alerts, j).measurement)
  }

  /** The contents of the database: one map per table from primary key to
      row, and one auto-increment counter per table. */
  datatype Tables = Tables(
    workflows: map<nat, Workflow>, nextWorkflow: nat,
    states: map<nat, State>, nextState: nat,
    transitions: map<nat, Transition>, nextTransition: nat,
    regions: map<nat, Region>, nextRegion: nat,
    sites: map<nat, Site>, nextSite: nat,
    pollutants: map<nat, Pollutant>, nextPollutant: nat,
    measurements: map<nat, Measurement>, nextMeasurement: nat,
    rules: map<nat, Rule>, nextRule: nat,
    alerts: map<nat, Alert>, nextAlert: nat)

  /** A freshly migrated database: every table empty, every counter at 1. */
  const EmptyTables: Tables :=
    Tables(map[], 1, map[], 1, map[], 1, map[], 1, map[], 1, map[], 1, map[], 1, map[], 1, map[], 1)

  /** The integrity the database enforces: keys below their counters,
      foreign keys that resolve, and the unique constraints. */
  predicate TablesValid(t: Tables)
  {
    KeysBelow(t.workflows, t.nextWorkflow) && KeysBelow(t.states, t.nextState)
    && KeysBelow(t.transitions, t.nextTransition) && KeysBelow(t.regions, t.nextRegion)
    && KeysBelow(t.sites, t.nextSite) && KeysBelow(t.pollutants, t.nextPollutant)
    && KeysBelow(t.measurements, t.nextMeasurement) && KeysBelow(t.rules, t.nextRule)
    && KeysBelow(t.alerts, t.nextAlert)
    && StateRefs(t.states, t.workflows) && TransitionRefs(t.transitions, t.workflows, t.states)
    && SiteRefs(t.sites, t.regions) && MeasurementRefs(t.measurements, t.sites, t.pollutants)
    && RuleRefs(t.rules, t.sites, t.pollutants) && AlertRefs(t.alerts, t.rules, t.measurements, t.workflows, t.states)
    && UniqueRegionIds(t.regions) && UniqueSiteIds(t.sites) && UniquePollutantIds(t.pollutants)
    && UniqueMeasurements(t.measurements) && UniqueRules(t.rules) && UniqueAlerts(t.alerts)
  }

  lemma EmptyTablesValid()
    ensures TablesValid(EmptyTables)
    ensures EmptyTables.workflows == map[] && EmptyTables.alerts == map[]
  {
  }

  /** Replacing the alert table keeps the database valid when the new table
      is. */
  lemma ValidWithAlerts(t: Tables, alerts: map<nat, Alert>, n: nat)
    requires TablesValid(t)
    requires AlertRefs(alerts, t.rules, t.measurements, t.workflows, t.states) && UniqueAlerts(alerts) && KeysBelow(alerts, n)
    ensures TablesValid(t.(alerts := alerts, nextAlert := n))
  {
  }

  /** Only the workflow and alert tables differ between `t0` and `t1`. */
  predicate AlertSideOnly(t0: Tables, t1: Tables)
  {
    t1 == t0.(workflows := t1.workflows, nextWorkflow := t1.nextWorkflow, alerts := t1.alerts, nextAlert := t1.nextAlert)
  }

  /** The database after `SiteAlert.get_default_workflow`: the workflow table
      has the default workflow, with `ct` the content type of SiteAlert. */
  function WithDefaultWorkflow(t: Tables, ct: nat): (r: Tables)
    requires KeysBelow(t.workflows, t.nextWorkflow)
    ensures r == t.(workflows := r.workflows, nextWorkflow := r.nextWorkflow)
    ensures (r.workflows, r.nextWorkflow) == InstallDefaultWorkflow(t.workflows, t.nextWorkflow, ct)
    ensures KeysBelow(r.workflows, r.nextWorkflow) && t.workflows.Keys <= r.workflows.Keys
    ensures DefaultWorkflowReady(r.workflows, r.nextWorkflow)
  {
    var (workflows, n) := InstallDefaultWorkflow(t.workflows, t.nextWorkflow, ct);
    t.(workflows := workflows, nextWorkflow := n)
  }

  /** Installing the default workflow keeps the database valid: workflows
      are only added, so every reference to one still resolves. */
  lemma WithDefaultWorkflowValid(t: Tables, ct: nat)
    requires TablesValid(t)
    ensures TablesValid(WithDefaultWorkflow(t, ct))
  {
    var r := WithDefaultWorkflow(t, ct);
    assert StateRefs(r.states, r.workflows);
    assert TransitionRefs(r.transitions, r.workflows, r.states);
    assert AlertRefs(r.alerts, r.rules, r.measurements, r.workflows, r.states);
  }

  /** Installing the default workflow twice is installing it once. */
  lemma WithDefaultWorkflowIdempotent(t: Tables, ct: nat)
    requires KeysBelow(t.workflows, t.nextWorkflow)
    ensures WithDefaultWorkflow(WithDefaultWorkflow(t, ct), ct) == WithDefaultWorkflow(t, ct)
  {
    InstallDefaultWorkflowIdempotent(t.workflows, t.nextWorkflow, ct);
  }

  /** The default workflow's key in a database where it is installed. */
  function DefaultWorkflowOf(t: Tables): (w: nat)
    requires DefaultWorkflowReady(t.workflows, t.nextWorkflow)
    ensures w in t.workflows && t.workflows[w].name == DEFAULT_WORKFLOW_NAME
  {
    DefaultWorkflowKey(t.workflows, t.nextWorkflow)
  }

  /** The database, held as one value that the operations replace. */
  class Db {
    var tables: Tables
    /** The id of `ContentType.objects.get_for_model(SiteAlert)`. */
    const alertContentType: nat

    ghost predicate Valid()
      reads this
    {
      TablesValid(tables)
    }

    /** An empty database. */
    constructor(alertContentType: nat)
      ensures Valid()
      ensures this.alertContentType == alertContentType && tables == EmptyTables
    {
      this.alertContentType := alertContentType;
      tables := EmptyTables;
    }

    /** `SiteAlert.get_default_workflow`: the default workflow, got or
        created by name, with its content type filled in when missing. */
    method GetDefaultWorkflow() returns (w: nat)
      requires KeysBelow(tables.workflows, tables.nextWorkflow)
      modifies this
      ensures tables == WithDefaultWorkflow(old(tables), alertContentType)
      ensures w == DefaultWorkflowOf(tables)
    {
      tables := WithDefaultWorkflow(tables, alertContentType);
      w := DefaultWorkflowOf(tables);
    }

    /** `SiteAlert.get_active_state`: the default workflow's first state named
        "Active". */
    method GetActiveState() returns (s: Option<nat>, w: nat)
      requires KeysBelow(tables.workflows, tables.nextWorkflow)
      modifies this
      ensures tables == WithDefaultWorkflow(old(tables), alertContentType)
      ensures w == DefaultWorkflowOf(tables)
      ensures s == FirstStateOf(tables.states, tables.nextState, w, NamedActive)
    {
      w := GetDefaultWorkflow();
      s := FirstStateOf(tables.states, tables.nextState, w, NamedActive);
    }

    /** `SiteAlert.mark_active` on an unsaved alert `a`: the alert is moved to
        the default workflow, and only an alert without a state gets one
        (`ActiveStateFor`). The database changes only by the installation of
        the default workflow. */
    method MarkActive(a: Alert) returns (b: Alert, w: nat)
      requires KeysBelow(tables.workflows, tables.nextWorkflow)
      modifies this
      ensures tables == WithDefaultWorkflow(old(tables), alertContentType)
      ensures w == DefaultWorkflowOf(tables)
      ensures b == a.(workflow := Some(w),
                      workflowState := if a.workflowState.None? then ActiveStateFor(tables.states, tables.nextState, w)
                                       else a.workflowState)
    {
      w := GetDefaultWorkflow();
      b := a.(workflow := Some(w));
      if a.workflowState.None? {
        WithDefaultWorkflowIdempotent(old(tables), alertContentType);
        var active, w2 := GetActiveState();
        if active.None? {
          active := FirstStateOf(tables.states, tables.nextState, w, StartState);
        }
        if active.Some? {
          b := b.(workflowState := active);
        }
      }
    }
  }

  /** Adding a row under a fresh key after a failed name lookup makes it the
      first row of that name. */
  lemma FirstNamedAfterInsert(workflows: map<nat, Workflow>, n: nat, row: Workflow)
    requires KeysBelow(workflows, n)
    requires FirstWorkflowNamed(workflows, n, row.name).None?
    ensures FirstWorkflowNamed(workflows[n := row], n + 1, row.name) == Some(n)
  {
  }

  /** Changing a row without changing its name keeps the first row of each
      name. */
  lemma FirstNamedAfterUpdate(workflows: map<nat, Workflow>, n: nat, k: nat, row: Workflow)
    requires k in workflows && workflows[k].name == row.name
    ensures forall name :: FirstWorkflowNamed(workflows[k := row], n, name) == FirstWorkflowNamed(workflows, n, name)
  {
    forall name ensures FirstWorkflowNamed(workflows[k := row], n, name) == FirstWorkflowNamed(workflows, n, name) {
      var a := FirstWorkflowNamed(workflows[k := row], n, name);
      var b := FirstWorkflowNamed(workflows, n, name);
      assert forall j :: j in workflows ==> workflows[k := row][j].name == workflows[j].name;
      if a.Some? {
        assert workflows[a.value].name == name;
      }
      if b.Some? {
        assert workflows[k := row][b.value].name == name;
      }
    }
  }
}
