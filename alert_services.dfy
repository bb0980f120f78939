/** `SiteAlertEvaluationService` and `ensure_demo_alert_rules`: measurements
    are evaluated against the alert rules of their site and pollutant, and
    every breach upserts a site alert attached to the default workflow. */
module AlertServices {
  import opened Common
  import opened AirQualityModels

  const DEMO_ALERT_EXTERNAL_PREFIX: string := "demo-alert"

  /** The default look-back of `evaluate_recent_measurements`: six hours. */
  const DEFAULT_WINDOW: int := 6 * 60 * 60

  datatype EvaluationResult = EvaluationResult(measurement: nat, alerts: seq<nat>)

  /** `SiteAlert.objects.active().filter(rule=rule).first()` under SiteAlert's
      ordering `("-triggered_at", "-pk")`: the active alert of the rule that
      was triggered last, the higher key among equals. */
  function LatestActiveAlert(alerts: map<nat, Alert>, states: map<nat, State>, n: nat, rule: nat): (r: Option<nat>)
    ensures r.Some? ==> r.value in alerts && r.value < n && alerts[r.value].rule == rule && IsActiveAlert(states, alerts[r.value])
    ensures r.Some? ==> forall k :: k in alerts && k < n && alerts[k].rule == rule && IsActiveAlert(states, alerts[k]) ==>
      alerts[k].triggeredAt < alerts[r.value].triggeredAt
      || (alerts[k].triggeredAt == alerts[r.value].triggeredAt && k <= r.value)
    ensures r.None? ==> forall k :: k in alerts && k < n && alerts[k].rule == rule ==> !IsActiveAlert(states, alerts[k])
  {
    if n == 0 then None
    else
      var r := LatestActiveAlert(alerts, states, n - 1, rule);
      if n - 1 in alerts && alerts[n - 1].rule == rule && IsActiveAlert(states, alerts[n - 1])
         && (r.None? || alerts[r.value].triggeredAt <= alerts[n - 1].triggeredAt)
      then Some(n - 1)
      else r
  }

  /** The alert of the (rule, measurement) pair, if there is one: the lowest
      key, although by `unique_alert_per_rule_measurement` there is at most
      one. */
  function AlertFor(alerts: map<nat, Alert>, n: nat, rule: nat, m: nat): (r: Option<nat>)
    ensures r.Some? ==> r.value in alerts && r.value < n && alerts[r.value].rule == rule && alerts[r.value].measurement == m
    ensures r.Some? ==> forall k :: k in alerts && k < r.value ==> !(alerts[k].rule == rule && alerts[k].measurement == m)
    ensures r.None? ==> forall k :: k in alerts && k < n ==> !(alerts[k].rule == rule && alerts[k].measurement == m)
  {
    if n == 0 then None
    else
      var r := AlertFor(alerts, n - 1, rule, m);
      if r.Some? then r
      else if n - 1 in alerts && alerts[n - 1].rule == rule && alerts[n - 1].measurement == m then Some(n - 1)
      else None
  }

  /** Under `unique_alert_per_rule_measurement` the alert found is the only
      one of its pair. */
  lemma AlertForUnique(alerts: map<nat, Alert>, n: nat, rule: nat, m: nat, k: nat)
    requires UniqueAlerts(alerts) && AlertFor(alerts, n, rule, m).Some?
    requires k in alerts && alerts[k].rule == rule && alerts[k].measurement == m
    ensures k == AlertFor(alerts, n, rule, m).value
  {
    var f := AlertFor(alerts, n, rule, m).value;
    assert Row(alerts, k) == alerts[k] && Row(alerts, f) == alerts[f];
  }

  /** Refreshing alert `k` for measurement `m` (`mm` its row) under the
      default workflow `w`: it is re-pointed at the measurement, takes its
      time and value, and keeps its state. */
  function Refreshed(alerts: map<nat, Alert>, k: nat, m: nat, mm: Measurement, w: nat): (r: map<nat, Alert>)
    requires k in alerts
    ensures r.Keys == alerts.Keys
    ensures r[k].rule == alerts[k].rule && r[k].workflowState == alerts[k].workflowState && r[k].note == alerts[k].note
    ensures r[k].measurement == m && r[k].triggeredAt == mm.measuredAt && r[k].value == mm.value && r[k].workflow == Some(w)
    ensures forall j :: j in alerts && j != k ==> r[j] == alerts[j]
  {
    alerts[k := alerts[k].(measurement := m, triggeredAt := mm.measuredAt, value := mm.value, workflow := Some(w))]
  }

  /** The get-or-create path: the alert of (rule, m), created when missing
      with the measurement's time and value, then moved to workflow `w`; a
      state is given only to an alert that has none. Returns the table, its
      counter and the alert's key. */
  function GotOrCreated(
    alerts: map<nat, Alert>, n: nat, states: map<nat, State>, nStates: nat,
    rule: nat, m: nat, mm: Measurement, w: nat): (r: (map<nat, Alert>, nat, nat))
    requires KeysBelow(alerts, n)
    ensures r.2 in r.0 && r.0[r.2].rule == rule && r.0[r.2].measurement == m && r.0[r.2].workflow == Some(w)
    ensures AlertFor(alerts, n, rule, m).Some? ==> r.1 == n && r.2 == AlertFor(alerts, n, rule, m).value
    ensures AlertFor(alerts, n, rule, m).None? ==>
      r.1 == n + 1 && r.2 == n
      && r.0[n] == Alert(rule, m, mm.measuredAt, mm.value, "", Some(w), ActiveStateFor(states, nStates, w))
    ensures r.0.Keys == alerts.Keys + {r.2}
    ensures forall j :: j in alerts && j != r.2 ==> r.0[j] == alerts[j]
    ensures r.2 in alerts ==>
      r.0[r.2] == alerts[r.2].(workflow := Some(w), workflowState :=
        if alerts[r.2].workflowState.None? then ActiveStateFor(states, nStates, w) else alerts[r.2].workflowState)
  {
    var existing := AlertFor(alerts, n, rule, m);
    var k := if existing.Some? then existing.value else n;
    var a := if existing.Some? then alerts[k] else Alert(rule, m, mm.measuredAt, mm.value, "", Some(w), None);
    var marked := a.(workflow := Some(w),
                     workflowState := if a.workflowState.None? then ActiveStateFor(states, nStates, w) else a.workflowState);
    (alerts[k := marked], if existing.Some? then n else n + 1, k)
  }

  /** Repeating the get-or-create path for the same pair adds no second row
      and changes nothing more. */
  lemma GotOrCreatedIdempotent(
    alerts: map<nat, Alert>, n: nat, states: map<nat, State>, nStates: nat,
    rule: nat, m: nat, mm: Measurement, mm2: Measurement, w: nat)
    requires KeysBelow(alerts, n) && UniqueAlerts(alerts)
    ensures var once := GotOrCreated(alerts, n, states, nStates, rule, m, mm, w);
      KeysBelow(once.0, once.1)
      && GotOrCreated(once.0, once.1, states, nStates, rule, m, mm2, w) == once
  {
    var once := GotOrCreated(alerts, n, states, nStates, rule, m, mm, w);
    var existing := AlertFor(alerts, n, rule, m);
    assert KeysBelow(once.0, once.1);
    var again := AlertFor(once.0, once.1, rule, m);
    assert again == Some(once.2) by {
      if again.None? {
        assert false;
      } else if again.value != once.2 {
        assert false;
      }
    }
    var marked := once.0[once.2];
    assert marked.workflowState.None? ==> marked.workflowState == ActiveStateFor(states, nStates, w);
    assert once.0[once.2 := marked] == once.0;
  }

  /** Refreshing `found` for measurement `m` would make a second alert of the
      pair (rule, m). */
  predicate RefreshClashes(alerts: map<nat, Alert>, n: nat, found: Option<nat>, rule: nat, m: nat)
  {
    var other := AlertFor(alerts, n, rule, m);
    found.Some? && other.Some? && other.value != found.value
  }

  /** The alert `_upsert_alert` refreshes: the rule's latest active alert,
      when its row lock is obtained. */
  function LockedAlert(alerts: map<nat, Alert>, states: map<nat, State>, n: nat, rule: nat, lockAcquired: bool): (r: Option<nat>)
    ensures r.Some? ==> lockAcquired && r == LatestActiveAlert(alerts, states, n, rule)
    ensures lockAcquired ==> r == LatestActiveAlert(alerts, states, n, rule)
  {
    if lockAcquired then LatestActiveAlert(alerts, states, n, rule) else None
  }

  /** Refreshing keeps the alert table's references and its uniqueness. */
  lemma RefreshedValid(
    alerts: map<nat, Alert>, k: nat, m: nat, mm: Measurement, w: nat,
    rules: map<nat, Rule>, measurements: map<nat, Measurement>, workflows: map<nat, Workflow>, states: map<nat, State>, n: nat)
    requires AlertRefs(alerts, rules, measurements, workflows, states) && UniqueAlerts(alerts) && KeysBelow(alerts, n)
    requires k in alerts && m in measurements && w in workflows
    requires !RefreshClashes(alerts, n, Some(k), alerts[k].rule, m)
    ensures AlertRefs(Refreshed(alerts, k, m, mm, w), rules, measurements, workflows, states)
    ensures UniqueAlerts(Refreshed(alerts, k, m, mm, w))
  {
    var r := Refreshed(alerts, k, m, mm, w);
    forall i, j | i in r && j in r && i != j
      ensures (Row(r, i).rule, Row(r, i).measurement) != (Row(r, j).rule, Row(r, j).measurement)
    {
      if i == k || j == k {
        var o := if i == k then j else i;
        assert o in alerts && r[o] == alerts[o];
        if alerts[o].rule == alerts[k].rule && alerts[o].measurement == m {
          AlertForUnique(alerts, n, alerts[k].rule, m, o);
        }
      } else {
        assert Row(alerts, i) == r[i] && Row(alerts, j) == r[j];
      }
    }
  }

  /** The get-or-create path keeps the alert table's references and its
      uniqueness, and the counter above every key. */
  lemma GotOrCreatedValid(
    alerts: map<nat, Alert>, n: nat, states: map<nat, State>, nStates: nat,
    rule: nat, m: nat, mm: Measurement, w: nat,
    rules: map<nat, Rule>, measurements: map<nat, Measurement>, workflows: map<nat, Workflow>)
    requires AlertRefs(alerts, rules, measurements, workflows, states) && UniqueAlerts(alerts) && KeysBelow(alerts, n)
    requires rule in rules && m in measurements && w in workflows
    ensures var g := GotOrCreated(alerts, n, states, nStates, rule, m, mm, w);
      AlertRefs(g.0, rules, measurements, workflows, states) && UniqueAlerts(g.0) && KeysBelow(g.0, g.1)
  {
    var g := GotOrCreated(alerts, n, states, nStates, rule, m, mm, w);
    forall i, j | i in g.0 && j in g.0 && i != j
      ensures (Row(g.0, i).rule, Row(g.0, i).measurement) != (Row(g.0, j).rule, Row(g.0, j).measurement)
    {
      if i == g.2 || j == g.2 {
        var o := if i == g.2 then j else i;
        assert o in alerts && g.0[o] == alerts[o];
        if o in alerts && g.2 in alerts {
          assert Row(alerts, o) == alerts[o] && Row(alerts, g.2) == alerts[g.2];
        }
      } else {
        assert Row(alerts, i) == g.0[i] && Row(alerts, j) == g.0[j];
      }
    }
  }

  /** `_upsert_alert(rule, m)` as a function of the database: the alert's key
      (or the integrity error) and the database afterwards. `lockAcquired`
      says whether the row lock on the rule's latest active alert was
      obtained (`skip_locked` skips a locked row). With the lock, that alert
      is refreshed in place; without an alert to refresh, the alert of
      (rule, m) is got or created. The call is atomic: when refreshing would
      give a second alert of the pair (rule, m), the save fails on
      `unique_alert_per_rule_measurement` and nothing changes, not even the
      installation of the default workflow. */
  function Upsert(t: Tables, ct: nat, rule: nat, m: nat, lockAcquired: bool): (r: (Result<nat>, Tables))
    requires UpsertReady(t, m)
    ensures AlertSideOnly(t, r.1)
    ensures r.0.Err? <==>
      RefreshClashes(t.alerts, t.nextAlert, LockedAlert(t.alerts, t.states, t.nextAlert, rule, lockAcquired), rule, m)
    ensures r.0.Err? ==> r.0.error == IntegrityError("unique_alert_per_rule_measurement") && r.1 == t
    ensures r.0.Ok? ==>
      r.0.value in r.1.alerts && r.1.alerts[r.0.value].rule == rule && r.1.alerts[r.0.value].measurement == m
  {
    var found := LockedAlert(t.alerts, t.states, t.nextAlert, rule, lockAcquired);
    if RefreshClashes(t.alerts, t.nextAlert, found, rule, m) then
      (Err(IntegrityError("unique_alert_per_rule_measurement")), t)
    else
      var t1 := WithDefaultWorkflow(t, ct);
      var w := DefaultWorkflowOf(t1);
      if found.Some? then
        (Ok(found.value), t1.(alerts := Refreshed(t1.alerts, found.value, m, t1.measurements[m], w)))
      else
        var g := GotOrCreated(t1.alerts, t1.nextAlert, t1.states, t1.nextState, rule, m, t1.measurements[m], w);
        (Ok(g.2), t1.(alerts := g.0, nextAlert := g.1))
  }

  /** What the upsert needs of the database: counters above the keys of the
      tables it adds to, and the measurement. */
  predicate UpsertReady(t: Tables, m: nat)
  {
    KeysBelow(t.workflows, t.nextWorkflow) && KeysBelow(t.alerts, t.nextAlert) && m in t.measurements
  }

  /** The upsert keeps the database valid. */
  lemma UpsertValid(t: Tables, ct: nat, rule: nat, m: nat, lockAcquired: bool)
    requires TablesValid(t) && rule in t.rules && m in t.measurements
    ensures TablesValid(Upsert(t, ct, rule, m, lockAcquired).1)
  {
    var found := LockedAlert(t.alerts, t.states, t.nextAlert, rule, lockAcquired);
    if !RefreshClashes(t.alerts, t.nextAlert, found, rule, m) {
      var t1 := WithDefaultWorkflow(t, ct);
      WithDefaultWorkflowValid(t, ct);
      var w := DefaultWorkflowOf(t1);
      if found.Some? {
        RefreshedValid(t1.alerts, found.value, m, t1.measurements[m], w, t1.rules, t1.measurements, t1.workflows, t1.states, t1.nextAlert);
        ValidWithAlerts(t1, Refreshed(t1.alerts, found.value, m, t1.measurements[m], w), t1.nextAlert);
      } else {
        var g := GotOrCreated(t1.alerts, t1.nextAlert, t1.states, t1.nextState, rule, m, t1.measurements[m], w);
        GotOrCreatedValid(t1.alerts, t1.nextAlert, t1.states, t1.nextState, rule, m, t1.measurements[m], w,
                          t1.rules, t1.measurements, t1.workflows);
        ValidWithAlerts(t1, g.0, g.1);
      }
    }
  }

  /** The upsert deletes no alert and moves none to another rule. */
  lemma UpsertKeepsAlerts(t: Tables, ct: nat, rule: nat, m: nat, lockAcquired: bool)
    requires UpsertReady(t, m)
    ensures var r := Upsert(t, ct, rule, m, lockAcquired);
      forall k :: k in t.alerts ==> k in r.1.alerts && r.1.alerts[k].rule == t.alerts[k].rule
  {
    var found := LockedAlert(t.alerts, t.states, t.nextAlert, rule, lockAcquired);
    if !RefreshClashes(t.alerts, t.nextAlert, found, rule, m) && found.Some? {
      assert t.alerts[found.value].rule == rule;
    }
  }

  /** The upsert leaves the alerts of every other rule untouched. */
  lemma UpsertFrame(t: Tables, ct: nat, rule: nat, m: nat, lockAcquired: bool)
    requires UpsertReady(t, m)
    ensures var r := Upsert(t, ct, rule, m, lockAcquired);
      forall k :: k in t.alerts && t.alerts[k].rule != rule ==> r.1.alerts[k] == t.alerts[k]
  {
    var found := LockedAlert(t.alerts, t.states, t.nextAlert, rule, lockAcquired);
    if !RefreshClashes(t.alerts, t.nextAlert, found, rule, m) && found.Some? {
      assert t.alerts[found.value].rule == rule;
    }
  }

  /** A successful upsert adds at most the returned alert, changes nothing
      but the alert table after installing the default workflow, and leaves
      the returned alert in that workflow. */
  lemma UpsertInDefaultWorkflow(t: Tables, ct: nat, rule: nat, m: nat, lockAcquired: bool)
    requires UpsertReady(t, m)
    ensures var r := Upsert(t, ct, rule, m, lockAcquired);
      r.0.Ok? ==>
        r.1 == WithDefaultWorkflow(t, ct).(alerts := r.1.alerts, nextAlert := r.1.nextAlert)
        && r.1.alerts.Keys <= t.alerts.Keys + {r.0.value}
        && r.1.alerts[r.0.value].workflow == Some(DefaultWorkflowOf(WithDefaultWorkflow(t, ct)))
  {
  }

  /** With the lock on the rule's latest active alert, the upsert refreshes
      that alert: it takes the measurement, its time and its value, stays in
      its (active) state, and no row is added. */
  lemma UpsertRefreshes(t: Tables, ct: nat, rule: nat, m: nat)
    requires UpsertReady(t, m)
    requires LatestActiveAlert(t.alerts, t.states, t.nextAlert, rule).Some?
    ensures var k := LatestActiveAlert(t.alerts, t.states, t.nextAlert, rule).value;
      var r := Upsert(t, ct, rule, m, true);
      r.0.Ok? ==>
        r.0.value == k && r.1.alerts.Keys == t.alerts.Keys && r.1.nextAlert == t.nextAlert
        && r.1.alerts[k].measurement == m && r.1.alerts[k].triggeredAt == t.measurements[m].measuredAt
        && r.1.alerts[k].value == t.measurements[m].value
        && r.1.alerts[k].workflowState == t.alerts[k].workflowState && IsActiveAlert(r.1.states, r.1.alerts[k])
  {
  }

  /** Without an alert to refresh, the upsert gets or creates the alert of
      (rule, m); a new one is stamped with the measurement's time and value
      and put in the default workflow's active state. */
  lemma UpsertGetsOrCreates(t: Tables, ct: nat, rule: nat, m: nat, lockAcquired: bool)
    requires UpsertReady(t, m)
    requires LockedAlert(t.alerts, t.states, t.nextAlert, rule, lockAcquired).None?
    ensures var r := Upsert(t, ct, rule, m, lockAcquired);
      var w := DefaultWorkflowOf(r.1);
      var existing := AlertFor(t.alerts, t.nextAlert, rule, m);
      r.0.Ok?
      && (existing.Some? ==> r.0.value == existing.value && r.1.alerts.Keys == t.alerts.Keys)
      && (existing.None? ==>
            r.0.value == t.nextAlert && r.1.nextAlert == t.nextAlert + 1
            && r.1.alerts[r.0.value] == Alert(rule, m, t.measurements[m].measuredAt, t.measurements[m].value, "",
                                              Some(w), ActiveStateFor(r.1.states, r.1.nextState, w)))
  {
  }

  /** Repeating an upsert of the same pair without an alert to refresh adds
      no second row and changes nothing. */
  lemma UpsertIdempotent(t: Tables, ct: nat, rule: nat, m: nat)
    requires UpsertReady(t, m) && UniqueAlerts(t.alerts)
    ensures var once := Upsert(t, ct, rule, m, false);
      Upsert(once.1, ct, rule, m, false) == once
  {
    var t1 := WithDefaultWorkflow(t, ct);
    WithDefaultWorkflowIdempotent(t, ct);
    var once := Upsert(t, ct, rule, m, false);
    var w := DefaultWorkflowOf(t1);
    GotOrCreatedIdempotent(t1.alerts, t1.nextAlert, t1.states, t1.nextState, rule, m, t1.measurements[m], t1.measurements[m], w);
    assert WithDefaultWorkflow(once.1, ct) == once.1;
  }

  /** An alert that already has a state keeps it on the get-or-create path. */
  lemma GotOrCreatedKeepsState(
    alerts: map<nat, Alert>, n: nat, states: map<nat, State>, nStates: nat,
    rule: nat, m: nat, mm: Measurement, w: nat)
    requires KeysBelow(alerts, n)
    requires AlertFor(alerts, n, rule, m).Some?
    requires alerts[AlertFor(alerts, n, rule, m).value].workflowState.Some?
    ensures var r := GotOrCreated(alerts, n, states, nStates, rule, m, mm, w);
      r.0[r.2].workflowState == alerts[r.2].workflowState
      && r.0[r.2].value == alerts[r.2].value && r.0[r.2].triggeredAt == alerts[r.2].triggeredAt
  {
  }

  // ------------------------------------------------------------ evaluation

  /** Rule `k` exists and its threshold is breached by value `v`. */
  predicate Fires(rules: map<nat, Rule>, v: int, k: nat)
  {
    k in rules && IsTriggered(rules[k], Some(v))
  }

  /** The rules of `s` that fire on value `v`, in their order in `s`. */
  function Firing(rules: map<nat, Rule>, v: int, s: seq<nat>): seq<nat>
  {
    if s == [] then []
    else Firing(rules, v, s[..|s| - 1]) + (if Fires(rules, v, s[|s| - 1]) then [s[|s| - 1]] else [])
  }

  /** Filtering keeps exactly the elements that fire, and keeps an
      increasing sequence increasing. */
  lemma {:induction false} FiringExact(rules: map<nat, Rule>, v: int, s: seq<nat>)
    ensures forall k :: k in Firing(rules, v, s) <==> k in s && Fires(rules, v, k)
    ensures (forall i, j :: 0 <= i < j < |s| ==> s[i] < s[j]) ==>
      forall i, j :: 0 <= i < j < |Firing(rules, v, s)| ==> Firing(rules, v, s)[i] < Firing(rules, v, s)[j]
  {
    if s != [] {
      var p := s[..|s| - 1];
      var x := s[|s| - 1];
      FiringExact(rules, v, p);
      assert s == p + [x];
      var q := Firing(rules, v, p);
      if (forall i, j :: 0 <= i < j < |s| ==> s[i] < s[j]) && Fires(rules, v, x) {
        var r := q + [x];
        forall i, j | 0 <= i < j < |r| ensures r[i] < r[j] {
          if j < |q| {
            assert r[i] == q[i] && r[j] == q[j];
          } else {
            assert r[i] == q[i] && q[i] in p;
            var t :| 0 <= t < |p| && p[t] == q[i];
            assert s[t] == q[i];
          }
        }
      }
    }
  }

  /** The rules `evaluate_measurement` upserts an alert for, in the order it
      visits them: the applicable rules whose threshold the measurement's
      value breaches. */
  function TriggeringRules(t: Tables, m: Measurement): seq<nat>
  {
    Firing(t.rules, m.value, ApplicableRules(t.rules, t.nextRule, m))
  }

  /** A rule is visited and fires exactly when it is active, belongs to the
      measurement's site and pollutant, and its threshold is breached;
      inactive or unbreached rules give nothing. Each fires once, in key
      order. */
  lemma TriggeringRulesExact(t: Tables, m: Measurement)
    ensures forall k :: k in TriggeringRules(t, m) <==>
      k in t.rules && k < t.nextRule && t.rules[k].isActive && Matches(t.rules[k], m) && IsTriggered(t.rules[k], Some(m.value))
    ensures forall i, j :: 0 <= i < j < |TriggeringRules(t, m)| ==> TriggeringRules(t, m)[i] < TriggeringRules(t, m)[j]
  {
    ApplicableRulesExact(t.rules, t.nextRule, m);
    FiringExact(t.rules, m.value, ApplicableRules(t.rules, t.nextRule, m));
  }

  /** The keys of the measurements taken at or after `since`, ranked by
      `measured_at`. */
  function MeasuredSince(measurements: map<nat, Measurement>, since: int): (r: map<nat, int>)
    ensures forall k :: k in r <==> k in measurements && measurements[k].measuredAt >= since
    ensures forall k :: k in r ==> r[k] == measurements[k].measuredAt
  {
    map k | k in measurements && measurements[k].measuredAt >= since :: measurements[k].measuredAt
  }

  /** `Measurement.objects.filter(measured_at__gte=since).order_by("-measured_at")`. */
  function RecentMeasurements(t: Tables, since: int): (r: seq<nat>)
    ensures forall i :: 0 <= i < |r| ==> r[i] in t.measurements
  {
    OrderedKeys(MeasuredSince(t.measurements, since), t.nextMeasurement)
  }

  /** The window query lists exactly the measurements taken at or after
      `since`, each once, newest first. */
  lemma RecentMeasurementsExact(t: Tables, since: int)
    requires KeysBelow(t.measurements, t.nextMeasurement)
    ensures var r := RecentMeasurements(t, since);
      (forall k :: k in r <==> k in t.measurements && t.measurements[k].measuredAt >= since)
      && (forall i, j :: 0 <= i < j < |r| ==> r[i] != r[j])
      && (forall i, j :: 0 <= i < j < |r| ==>
            t.measurements[r[i]].measuredAt >= t.measurements[r[j]].measuredAt)
  {
    var ranks := MeasuredSince(t.measurements, since);
    var r := RecentMeasurements(t, since);
    OrderedKeysExact(ranks, t.nextMeasurement);
    forall i, j | 0 <= i < j < |r|
      ensures t.measurements[r[i]].measuredAt >= t.measurements[r[j]].measuredAt
    {
      assert ranks[r[i]] >= ranks[r[j]];
    }
  }

  /** A measurement on which some rule fires. */
  predicate Alerting(t: Tables, k: nat)
  {
    k in t.measurements && TriggeringRules(t, t.measurements[k]) != []
  }

  /** The measurements of `ms` on which some rule fires, in their order. */
  function AlertingIn(t: Tables, ms: seq<nat>): seq<nat>
  {
    if ms == [] then []
    else AlertingIn(t, ms[..|ms| - 1]) + (if Alerting(t, ms[|ms| - 1]) then [ms[|ms| - 1]] else [])
  }

  function MeasurementsOf(results: seq<EvaluationResult>): seq<nat>
  {
    if results == [] then []
    else MeasurementsOf(results[..|results| - 1]) + [results[|results| - 1].measurement]
  }

  /** After evaluating the rules `fired` for measurement `m`, starting from
      `t0`: `alerts[j]` is an alert of rule `fired[j]` for `m`, no alert was
      lost or moved to another rule, and the alerts of rules outside
      `fired` are untouched. */
  ghost predicate Tracks(t0: Tables, t: Tables, m: nat, fired: seq<nat>, alerts: seq<nat>)
  {
    |alerts| == |fired|
    && (forall j :: 0 <= j < |fired| ==>
          alerts[j] in t.alerts && t.alerts[alerts[j]].rule == fired[j] && t.alerts[alerts[j]].measurement == m)
    && (forall k :: k in t0.alerts ==> k in t.alerts && t.alerts[k].rule == t0.alerts[k].rule)
    && (forall k :: k in t0.alerts && t0.alerts[k].rule !in fired ==> t.alerts[k] == t0.alerts[k])
  }

  /** One more successful upsert, for a rule not yet evaluated, extends the
      tracking by that rule and its alert. */
  lemma TracksStep(t0: Tables, t: Tables, ct: nat, m: nat, fired: seq<nat>, alerts: seq<nat>, rule: nat, lockAcquired: bool)
    requires UpsertReady(t, m) && Tracks(t0, t, m, fired, alerts) && rule !in fired
    ensures var u := Upsert(t, ct, rule, m, lockAcquired);
      u.0.Ok? ==> Tracks(t0, u.1, m, fired + [rule], alerts + [u.0.value])
  {
    var u := Upsert(t, ct, rule, m, lockAcquired);
    UpsertKeepsAlerts(t, ct, rule, m, lockAcquired);
    UpsertFrame(t, ct, rule, m, lockAcquired);
    if u.0.Ok? {
      var f := fired + [rule];
      var a := alerts + [u.0.value];
      forall j | 0 <= j < |f| ensures a[j] in u.1.alerts && u.1.alerts[a[j]].rule == f[j] && u.1.alerts[a[j]].measurement == m {
        if j < |fired| {
          assert f[j] == fired[j] && a[j] == alerts[j];
        }
      }
    }
  }

  /** `evaluate_measurement(m)` over the rules `rules`, in that order, from
      database `t0`: every rule the measurement's value breaches upserts an
      alert. The keys of the alerts upserted, or the error of the first
      upsert that failed, and the database afterwards. The loop is not a
      transaction: the upserts before a failure stay. `locked` holds the
      rules whose latest active alert is locked by another transaction. */
  function Evaluated(t0: Tables, ct: nat, m: nat, rules: seq<nat>, locked: set<nat>): (r: (Result<seq<nat>>, Tables))
    requires UpsertReady(t0, m)
    ensures UpsertReady(r.1, m)
    decreases |rules|
  {
    if rules == [] then (Ok([]), t0)
    else
      var e := Evaluated(t0, ct, m, rules[..|rules| - 1], locked);
      var rule := rules[|rules| - 1];
      if e.0.Err? || !Fires(t0.rules, t0.measurements[m].value, rule) then e
      else
        var u := Upsert(e.1, ct, rule, m, rule !in locked);
        if u.0.Err? then (Err(u.0.error), u.1) else (Ok(e.0.value + [u.0.value]), u.1)
  }

  /** One more rule visited after the first `i`. */
  lemma EvaluatedNext(t0: Tables, ct: nat, m: nat, rules: seq<nat>, locked: set<nat>, i: nat)
    requires UpsertReady(t0, m) && i < |rules|
    requires Evaluated(t0, ct, m, rules[..i], locked).0.Ok?
    ensures var e := Evaluated(t0, ct, m, rules[..i], locked);
      var rule := rules[i];
      Evaluated(t0, ct, m, rules[..i + 1], locked)
        == if !Fires(t0.rules, t0.measurements[m].value, rule) then e
           else var u := Upsert(e.1, ct, rule, m, rule !in locked);
             if u.0.Err? then (Err(u.0.error), u.1) else (Ok(e.0.value + [u.0.value]), u.1)
  {
    assert rules[..i + 1][..i] == rules[..i];
  }

  /** Once an upsert has failed, evaluating further rules changes nothing. */
  lemma {:induction false} EvaluatedStopsOnError(t0: Tables, ct: nat, m: nat, rules: seq<nat>, locked: set<nat>, i: nat)
    requires UpsertReady(t0, m) && i <= |rules|
    requires Evaluated(t0, ct, m, rules[..i], locked).0.Err?
    ensures Evaluated(t0, ct, m, rules, locked) == Evaluated(t0, ct, m, rules[..i], locked)
    decreases |rules| - i
  {
    if i < |rules| {
      assert rules[..|rules| - 1][..i] == rules[..i];
      EvaluatedStopsOnError(t0, ct, m, rules[..|rules| - 1], locked, i);
    } else {
      assert rules[..i] == rules;
    }
  }

  /** Evaluation changes only the workflow and alert tables. */
  lemma {:induction false} EvaluatedFrame(t0: Tables, ct: nat, m: nat, rules: seq<nat>, locked: set<nat>)
    requires UpsertReady(t0, m)
    ensures AlertSideOnly(t0, Evaluated(t0, ct, m, rules, locked).1)
    decreases |rules|
  {
    if rules != [] {
      EvaluatedFrame(t0, ct, m, rules[..|rules| - 1], locked);
    }
  }

  /** Evaluation keeps the database valid. */
  lemma {:induction false} EvaluatedValid(t0: Tables, ct: nat, m: nat, rules: seq<nat>, locked: set<nat>)
    requires TablesValid(t0) && m in t0.measurements
    requires forall i :: 0 <= i < |rules| ==> rules[i] in t0.rules
    ensures TablesValid(Evaluated(t0, ct, m, rules, locked).1)
    decreases |rules|
  {
    if rules != [] {
      var p := rules[..|rules| - 1];
      EvaluatedValid(t0, ct, m, p, locked);
      EvaluatedFrame(t0, ct, m, p, locked);
      EvaluatedValidStep(t0, ct, m, rules, locked);
    }
  }

  /** The upsert for the last rule keeps valid what the rules before it left valid. */
  lemma EvaluatedValidStep(t0: Tables, ct: nat, m: nat, rules: seq<nat>, locked: set<nat>)
    requires UpsertReady(t0, m) && rules != [] && rules[|rules| - 1] in t0.rules
    requires var e := Evaluated(t0, ct, m, rules[..|rules| - 1], locked);
      TablesValid(e.1) && e.1.rules == t0.rules
    ensures TablesValid(Evaluated(t0, ct, m, rules, locked).1)
  {
    var e := Evaluated(t0, ct, m, rules[..|rules| - 1], locked);
    var rule := rules[|rules| - 1];
    if e.0.Ok? && Fires(t0.rules, t0.measurements[m].value, rule) {
      UpsertValid(e.1, ct, rule, m, rule !in locked);
    }
  }

  /** The last rule evaluated, not among the ones before it, extends the
      tracking of the rules before it by its own alert when it fires. */
  lemma EvaluatedTracksStep(t0: Tables, ct: nat, m: nat, rules: seq<nat>, locked: set<nat>)
    requires UpsertReady(t0, m) && rules != []
    requires rules[|rules| - 1] !in rules[..|rules| - 1]
    requires var e := Evaluated(t0, ct, m, rules[..|rules| - 1], locked);
      e.0.Ok? ==> Tracks(t0, e.1, m, Firing(t0.rules, t0.measurements[m].value, rules[..|rules| - 1]), e.0.value)
    ensures var e := Evaluated(t0, ct, m, rules, locked);
      e.0.Ok? ==> Tracks(t0, e.1, m, Firing(t0.rules, t0.measurements[m].value, rules), e.0.value)
  {
    var prefix := rules[..|rules| - 1];
    var rule := rules[|rules| - 1];
    var v := t0.measurements[m].value;
    var e := Evaluated(t0, ct, m, prefix, locked);
    var q := Firing(t0.rules, v, prefix);
    assert Firing(t0.rules, v, rules) == q + (if Fires(t0.rules, v, rule) then [rule] else []);
    if e.0.Ok? && Fires(t0.rules, v, rule) {
      FiringExact(t0.rules, v, prefix);
      TracksStep(t0, e.1, ct, m, q, e.0.value, rule, rule !in locked);
    } else if e.0.Ok? {
      assert q + [] == q;
    }
  }

  /** A successful evaluation of distinct rules upserted one alert per rule
      that fired, in order, for the measurement, lost no alert and left the
      alerts of the other rules untouched. */
  lemma {:induction false} EvaluatedTracks(t0: Tables, ct: nat, m: nat, rules: seq<nat>, locked: set<nat>)
    requires UpsertReady(t0, m)
    requires forall i, j :: 0 <= i < j < |rules| ==> rules[i] != rules[j]
    ensures var e := Evaluated(t0, ct, m, rules, locked);
      e.0.Ok? ==> Tracks(t0, e.1, m, Firing(t0.rules, t0.measurements[m].value, rules), e.0.value)
    decreases |rules|
  {
    if rules == [] {
      assert Tracks(t0, t0, m, [], []);
    } else {
      var prefix := rules[..|rules| - 1];
      var rule := rules[|rules| - 1];
      assert forall i, j :: 0 <= i < j < |prefix| ==> prefix[i] != prefix[j];
      EvaluatedTracks(t0, ct, m, prefix, locked);
      assert rule !in prefix by {
        forall i | 0 <= i < |prefix| ensures prefix[i] != rule {
          assert prefix[i] == rules[i];
        }
      }
      EvaluatedTracksStep(t0, ct, m, rules, locked);
    }
  }

  /** An evaluation fails only on `unique_alert_per_rule_measurement`, when
      refreshing the alert of a fired rule whose lock was obtained. */
  lemma {:induction false} EvaluatedFails(t0: Tables, ct: nat, m: nat, rules: seq<nat>, locked: set<nat>)
    requires UpsertReady(t0, m)
    ensures var e := Evaluated(t0, ct, m, rules, locked);
      e.0.Err? ==>
        e.0.error == IntegrityError("unique_alert_per_rule_measurement")
        && exists i :: 0 <= i < |rules| && rules[i] !in locked && Fires(t0.rules, t0.measurements[m].value, rules[i])
    decreases |rules|
  {
    if rules != [] {
      var prefix := rules[..|rules| - 1];
      var rule := rules[|rules| - 1];
      EvaluatedFails(t0, ct, m, prefix, locked);
      var e := Evaluated(t0, ct, m, prefix, locked);
      if e.0.Err? {
        var i :| 0 <= i < |prefix| && prefix[i] !in locked && Fires(t0.rules, t0.measurements[m].value, prefix[i]);
        assert rules[i] == prefix[i];
      } else {
        assert rules[|rules| - 1] == rule;
      }
    }
  }

  /** `evaluate_measurement(m)` as a function of the database: the rules
      visited are the applicable ones. A successful evaluation upserts
      exactly one alert per rule that fires. */
  function EvaluatedOne(t: Tables, ct: nat, m: nat, locked: set<nat>): (r: (Result<seq<nat>>, Tables))
    requires UpsertReady(t, m)
    ensures UpsertReady(r.1, m)
    ensures AlertSideOnly(t, r.1)
    ensures r.0.Ok? ==> |r.0.value| == |TriggeringRules(t, t.measurements[m])|
  {
    var rules := ApplicableRules(t.rules, t.nextRule, t.measurements[m]);
    ApplicableRulesExact(t.rules, t.nextRule, t.measurements[m]);
    EvaluatedFrame(t, ct, m, rules, locked);
    EvaluatedTracks(t, ct, m, rules, locked);
    Evaluated(t, ct, m, rules, locked)
  }

  /** `evaluate_recent_measurements` over the measurements `ms`, in that
      order: each is evaluated on the database the previous ones left, and
      its result is kept when it has an alert. The first failure ends the
      run; what was upserted before it stays. */
  function EvaluatedAll(t: Tables, ct: nat, ms: seq<nat>, locked: set<nat>): (r: (Result<seq<EvaluationResult>>, Tables))
    requires KeysBelow(t.workflows, t.nextWorkflow) && KeysBelow(t.alerts, t.nextAlert)
    requires forall i :: 0 <= i < |ms| ==> ms[i] in t.measurements
    ensures KeysBelow(r.1.workflows, r.1.nextWorkflow) && KeysBelow(r.1.alerts, r.1.nextAlert)
    ensures AlertSideOnly(t, r.1)
    decreases |ms|
  {
    if ms == [] then (Ok([]), t)
    else
      var e := EvaluatedAll(t, ct, ms[..|ms| - 1], locked);
      var m := ms[|ms| - 1];
      if e.0.Err? then e
      else
        var x := EvaluatedOne(e.1, ct, m, locked);
        if x.0.Err? then (Err(x.0.error), x.1) else (Ok(Kept(e.0.value, m, x.0.value)), x.1)
  }

  /** One more measurement evaluated after the first `i`. */
  lemma EvaluatedAllNext(t: Tables, ct: nat, ms: seq<nat>, locked: set<nat>, i: nat)
    requires KeysBelow(t.workflows, t.nextWorkflow) && KeysBelow(t.alerts, t.nextAlert)
    requires forall j :: 0 <= j < |ms| ==> ms[j] in t.measurements
    requires i < |ms|
    requires EvaluatedAll(t, ct, ms[..i], locked).0.Ok?
    ensures var e := EvaluatedAll(t, ct, ms[..i], locked);
      UpsertReady(e.1, ms[i])
      && var x := EvaluatedOne(e.1, ct, ms[i], locked);
      EvaluatedAll(t, ct, ms[..i + 1], locked)
        == if x.0.Err? then (Err(x.0.error), x.1) else (Ok(Kept(e.0.value, ms[i], x.0.value)), x.1)
  {
    assert ms[..i + 1][..i] == ms[..i];
  }

  /** The results after evaluating `m` with alerts `alerts`: the result is
      kept only when it has an alert. */
  function Kept(results: seq<EvaluationResult>, m: nat, alerts: seq<nat>): seq<EvaluationResult>
  {
    if alerts == [] then results else results + [EvaluationResult(m, alerts)]
  }

  /** Keeping a result records its measurement exactly when it has an
      alert, and keeps one alert per firing rule when it has as many alerts
      as rules fire on `m`. */
  lemma KeptStep(t: Tables, results: seq<EvaluationResult>, m: nat, alerts: seq<nat>)
    requires m in t.measurements && |alerts| == |TriggeringRules(t, t.measurements[m])|
    requires OneAlertPerFiring(t, results)
    ensures MeasurementsOf(Kept(results, m, alerts)) == MeasurementsOf(results) + (if Alerting(t, m) then [m] else [])
    ensures OneAlertPerFiring(t, Kept(results, m, alerts))
  {
    var rs := Kept(results, m, alerts);
    if alerts != [] {
      assert rs[..|rs| - 1] == results;
      assert forall i :: 0 <= i < |results| ==> rs[i] == results[i];
    } else {
      assert MeasurementsOf(results) + [] == MeasurementsOf(results);
    }
  }

  /** Once an evaluation has failed, the later measurements are not visited. */
  lemma {:induction false} EvaluatedAllStopsOnError(t: Tables, ct: nat, ms: seq<nat>, locked: set<nat>, i: nat)
    requires KeysBelow(t.workflows, t.nextWorkflow) && KeysBelow(t.alerts, t.nextAlert)
    requires forall j :: 0 <= j < |ms| ==> ms[j] in t.measurements
    requires i <= |ms| && EvaluatedAll(t, ct, ms[..i], locked).0.Err?
    ensures EvaluatedAll(t, ct, ms, locked) == EvaluatedAll(t, ct, ms[..i], locked)
    decreases |ms| - i
  {
    if i < |ms| {
      assert ms[..|ms| - 1][..i] == ms[..i];
      EvaluatedAllStopsOnError(t, ct, ms[..|ms| - 1], locked, i);
    } else {
      assert ms[..i] == ms;
    }
  }

  /** Each result is of a measurement of `t` and lists one alert per rule
      that fires on it. */
  predicate OneAlertPerFiring(t: Tables, results: seq<EvaluationResult>)
  {
    forall i :: 0 <= i < |results| ==>
      results[i].measurement in t.measurements
      && |results[i].alerts| == |TriggeringRules(t, t.measurements[results[i].measurement])|
  }

  /** A successful run keeps exactly the measurements that some rule fires
      on, in the order visited, each with one alert per rule that fires. */
  lemma {:induction false} EvaluatedAllAlerting(t: Tables, ct: nat, ms: seq<nat>, locked: set<nat>)
    requires KeysBelow(t.workflows, t.nextWorkflow) && KeysBelow(t.alerts, t.nextAlert)
    requires forall i :: 0 <= i < |ms| ==> ms[i] in t.measurements
    ensures var e := EvaluatedAll(t, ct, ms, locked);
      e.0.Ok? ==>
        MeasurementsOf(e.0.value) == AlertingIn(t, ms)
        && OneAlertPerFiring(t, e.0.value)
    decreases |ms|
  {
    if ms != [] {
      var prefix := ms[..|ms| - 1];
      var m := ms[|ms| - 1];
      EvaluatedAllAlerting(t, ct, prefix, locked);
      EvaluatedAllAlertingStep(t, ct, ms, locked);
    }
  }

  /** The last measurement visited extends the results by itself exactly
      when some rule fires on it. */
  lemma EvaluatedAllAlertingStep(t: Tables, ct: nat, ms: seq<nat>, locked: set<nat>)
    requires KeysBelow(t.workflows, t.nextWorkflow) && KeysBelow(t.alerts, t.nextAlert)
    requires forall i :: 0 <= i < |ms| ==> ms[i] in t.measurements
    requires ms != []
    requires var e := EvaluatedAll(t, ct, ms[..|ms| - 1], locked);
      e.0.Ok? ==>
        MeasurementsOf(e.0.value) == AlertingIn(t, ms[..|ms| - 1])
        && OneAlertPerFiring(t, e.0.value)
    ensures var e := EvaluatedAll(t, ct, ms, locked);
      e.0.Ok? ==>
        MeasurementsOf(e.0.value) == AlertingIn(t, ms)
        && OneAlertPerFiring(t, e.0.value)
  {
    var prefix := ms[..|ms| - 1];
    var m := ms[|ms| - 1];
    var e := EvaluatedAll(t, ct, prefix, locked);
    if e.0.Ok? {
      var x := EvaluatedOne(e.1, ct, m, locked);
      assert TriggeringRules(e.1, e.1.measurements[m]) == TriggeringRules(t, t.measurements[m]);
      if x.0.Ok? {
        KeptStep(t, e.0.value, m, x.0.value);
      }
    }
  }

  class SiteAlertEvaluationService {
    const referenceTime: int

    /** `reference_time or timezone.now()`, with `now` the clock reading. */
    constructor(referenceTime: Option<int>, now: int)
      ensures this.referenceTime == if referenceTime.Some? then referenceTime.value else now
    {
      this.referenceTime := if referenceTime.Some? then referenceTime.value else now;
    }

    /** `evaluate_measurement(m)`: the applicable rules are visited in key
        order and every breach upserts an alert. */
    method EvaluateMeasurement(db: Db, m: nat, lockedElsewhere: set<nat>) returns (r: Result<EvaluationResult>)
      requires UpsertReady(db.tables, m)
      modifies db
      ensures var e := Evaluated(old(db.tables), db.alertContentType, m,
                                 ApplicableRules(old(db.tables).rules, old(db.tables).nextRule, old(db.tables).measurements[m]),
                                 lockedElsewhere);
        db.tables == e.1 && r == (if e.0.Ok? then Ok(EvaluationResult(m, e.0.value)) else Err(e.0.error))
    {
      ghost var t0 := db.tables;
      var rules := db.tables.rules;
      var value := db.tables.measurements[m].value;
      var applicable := ApplicableRules(rules, db.tables.nextRule, db.tables.measurements[m]);
      var triggered: Result<seq<nat>> := Ok([]);
      var i := 0;
      while i < |applicable| && triggered.Ok?
        invariant 0 <= i <= |applicable|
        invariant (triggered, db.tables) == Evaluated(t0, db.alertContentType, m, applicable[..i], lockedElsewhere)
      {
        var rule := applicable[i];
        EvaluatedNext(t0, db.alertContentType, m, applicable, lockedElsewhere, i);
        if rule in rules && IsTriggered(rules[rule], Some(value)) {
          var alert := UpsertAlert(db, rule, m, rule !in lockedElsewhere);
          triggered := if alert.Err? then Err(alert.error) else Ok(triggered.value + [alert.value]);
        }
        assert (triggered, db.tables) == Evaluated(t0, db.alertContentType, m, applicable[..i + 1], lockedElsewhere);
        i := i + 1;
      }
      if triggered.Err? {
        EvaluatedStopsOnError(t0, db.alertContentType, m, applicable, lockedElsewhere, i);
        r := Err(triggered.error);
      } else {
        assert applicable[..i] == applicable;
        r := Ok(EvaluationResult(m, triggered.value));
      }
    }

    /** `evaluate_recent_measurements(window)`: the measurements taken no
        earlier than `window` seconds before the reference time, newest
        first, each evaluated; the results with alerts are kept. */
    method EvaluateRecentMeasurements(db: Db, window: int, lockedElsewhere: set<nat>)
      returns (r: Result<seq<EvaluationResult>>)
      requires KeysBelow(db.tables.workflows, db.tables.nextWorkflow) && KeysBelow(db.tables.alerts, db.tables.nextAlert)
      modifies db
      ensures var e := EvaluatedAll(old(db.tables), db.alertContentType,
                                    RecentMeasurements(old(db.tables), referenceTime - window), lockedElsewhere);
        r == e.0 && db.tables == e.1
    {
      ghost var t0 := db.tables;
      var queryset := RecentMeasurements(db.tables, referenceTime - window);
      var results: Result<seq<EvaluationResult>> := Ok([]);
      var i := 0;
      while i < |queryset| && results.Ok?
        invariant 0 <= i <= |queryset|
        invariant (results, db.tables) == EvaluatedAll(t0, db.alertContentType, queryset[..i], lockedElsewhere)
      {
        EvaluatedAllNext(t0, db.alertContentType, queryset, lockedElsewhere, i);
        results := EvaluateAndKeep(db, queryset[i], results.value, lockedElsewhere);
        i := i + 1;
      }
      if results.Err? {
        EvaluatedAllStopsOnError(t0, db.alertContentType, queryset, lockedElsewhere, i);
      } else {
        assert queryset[..i] == queryset;
      }
      r := results;
    }

    /** One pass of the loop of `evaluate_recent_measurements`: `m` is
        evaluated and its result joins `kept` when it has an alert. */
    method EvaluateAndKeep(db: Db, m: nat, kept: seq<EvaluationResult>, lockedElsewhere: set<nat>)
      returns (r: Result<seq<EvaluationResult>>)
      requires UpsertReady(db.tables, m)
      modifies db
      ensures var x := EvaluatedOne(old(db.tables), db.alertContentType, m, lockedElsewhere);
        (r, db.tables) == if x.0.Err? then (Err(x.0.error), x.1) else (Ok(Kept(kept, m, x.0.value)), x.1)
    {
      var result := EvaluateMeasurement(db, m, lockedElsewhere);
      if result.Err? {
        r := Err(result.error);
      } else if result.value.alerts != [] {
        r := Ok(kept + [result.value]);
      } else {
        r := Ok(kept);
      }
    }

    /** `_upsert_alert(rule, m)` on the database, inside its transaction. */
    method UpsertAlert(db: Db, rule: nat, m: nat, lockAcquired: bool) returns (r: Result<nat>)
      requires UpsertReady(db.tables, m)
      modifies db
      ensures (r, db.tables) == Upsert(old(db.tables), db.alertContentType, rule, m, lockAcquired)
    {
      var found := LockedAlert(db.tables.alerts, db.tables.states, db.tables.nextAlert, rule, lockAcquired);
      if found.Some? {
        r := RefreshAlert(db, rule, m, found.value);
      } else {
        r := GetOrCreateAlert(db, rule, m);
      }
    }

    /** The refresh path of `_upsert_alert`: the locked alert `k` takes the
        measurement, its time and its value, and is saved; a save that
        breaks `unique_alert_per_rule_measurement` rolls the transaction
        back. */
    method RefreshAlert(db: Db, rule: nat, m: nat, k: nat) returns (r: Result<nat>)
      requires KeysBelow(db.tables.workflows, db.tables.nextWorkflow) && KeysBelow(db.tables.alerts, db.tables.nextAlert)
      requires m in db.tables.measurements
      requires Some(k) == LatestActiveAlert(db.tables.alerts, db.tables.states, db.tables.nextAlert, rule)
      modifies db
      ensures (r, db.tables) == Upsert(old(db.tables), db.alertContentType, rule, m, true)
    {
      var savepoint := db.tables;
      var w := db.GetDefaultWorkflow();
      var mm := db.tables.measurements[m];
      var other := AlertFor(db.tables.alerts, db.tables.nextAlert, rule, m);
      if other.Some? && other.value != k {
        db.tables := savepoint;
        return Err(IntegrityError("unique_alert_per_rule_measurement"));
      }
      var a := db.tables.alerts[k].(measurement := m, triggeredAt := mm.measuredAt, value := mm.value);
      var marked, _ := db.MarkActive(a);
      WithDefaultWorkflowIdempotent(savepoint, db.alertContentType);
      db.tables := db.tables.(alerts := db.tables.alerts[k := marked]);
      r := Ok(k);
    }

    /** The get-or-create path of `_upsert_alert`: the alert of (rule, m) is
        fetched, or created with the measurement's time and value in the
        default workflow, then marked active and saved. */
    method GetOrCreateAlert(db: Db, rule: nat, m: nat) returns (r: Result<nat>)
      requires KeysBelow(db.tables.workflows, db.tables.nextWorkflow) && KeysBelow(db.tables.alerts, db.tables.nextAlert)
      requires m in db.tables.measurements
      modifies db
      ensures var t1 := WithDefaultWorkflow(old(db.tables), db.alertContentType);
        var g := GotOrCreated(t1.alerts, t1.nextAlert, t1.states, t1.nextState, rule, m, t1.measurements[m], DefaultWorkflowOf(t1));
        r == Ok(g.2) && db.tables == t1.(alerts := g.0, nextAlert := g.1)
    {
      var savepoint := db.tables;
      var w := db.GetDefaultWorkflow();
      var mm := db.tables.measurements[m];
      var existing := AlertFor(db.tables.alerts, db.tables.nextAlert, rule, m);
      var k: nat, a: Alert;
      if existing.Some? {
        k, a := existing.value, db.tables.alerts[existing.value];
      } else {
        k, a := db.tables.nextAlert, Alert(rule, m, mm.measuredAt, mm.value, "", Some(w), None);
      }
      if a.workflow.None? {
        a := a.(workflow := Some(w));
      }
      WithDefaultWorkflowIdempotent(savepoint, db.alertContentType);
      var marked, _ := db.MarkActive(a);
      db.tables := db.tables.(alerts := db.tables.alerts[k := marked],
                              nextAlert := if existing.Some? then db.tables.nextAlert else db.tables.nextAlert + 1);
      r := Ok(k);
    }
  }
}
