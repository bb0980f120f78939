/** The data migration that seeds the site alerts' workflow: the lifecycle
    workflow for SiteAlert, its states Active (start), Acknowledged and Muted
    (both end), the transitions `acknowledge` and `mute` out of Active, and
    the attachment of every alert without a workflow to Active. Every step
    is a `get_or_create`, so the seeding can be repeated. The migration runs
    in one transaction: an error leaves the database as it was. */
module WorkflowSeed {
  import opened Common
  import opened AirQualityModels

  const WORKFLOW_NAME: string := "Air Quality Alert Lifecycle"
  const TRANSITION_ACKNOWLEDGE: string := "acknowledge"
  const TRANSITION_MUTE: string := "mute"

  /** The lookup fields of each `get_or_create`. */
  function WorkflowName(x: Workflow): string { x.name }
  function StateKey(x: State): (nat, string) { (x.workflow, x.name) }
  function TransitionKey(x: Transition): Transition { x }

  /** The keys of the seeded rows. */
  datatype Seed = Seed(workflow: nat, active: nat, acknowledged: nat, muted: nat)

  /** The workflow's `get_or_create` by name, then its content type set to
      SiteAlert's `ct` when it differs. */
  function SeedWorkflow(ws: map<nat, Workflow>, n: nat, ct: nat): (r: (Result<nat>, map<nat, Workflow>, nat))
    requires KeysBelow(ws, n)
    ensures KeysBelow(r.1, r.2)
    ensures r.0.Ok? ==> r.0.value in r.1 && r.1[r.0.value] == Workflow(WORKFLOW_NAME, Some(ct))
    ensures (forall j :: j in ws ==> ws[j].name != WORKFLOW_NAME) ==>
      r == (Ok(n), ws[n := Workflow(WORKFLOW_NAME, Some(ct))], n + 1)
  {
    var g := GetOrCreate(ws, n, WorkflowName, WORKFLOW_NAME, Workflow(WORKFLOW_NAME, Some(ct)));
    if g.0.Err? then (Err(g.0.error), ws, n)
    else
      var w := g.0.value.0;
      if g.1[w].contentType != Some(ct) then (Ok(w), g.1[w := g.1[w].(contentType := Some(ct))], g.2)
      else (Ok(w), g.1, g.2)
  }

  /** The three states' `get_or_create` by (workflow, name). */
  function SeedStates(ss: map<nat, State>, n: nat, w: nat): (r: (Result<(nat, nat, nat)>, map<nat, State>, nat))
    requires KeysBelow(ss, n)
    ensures KeysBelow(r.1, r.2)
    ensures (forall j :: j in ss ==> ss[j].workflow != w) ==>
      r == (Ok((n, n + 1, n + 2)), AddSeededStates(ss, w, n), n + 3)
  {
    var a := GetOrCreate(ss, n, StateKey, (w, STATE_ACTIVE), State(w, STATE_ACTIVE, true, false));
    if a.0.Err? then (Err(a.0.error), ss, n)
    else
      var b := GetOrCreate(a.1, a.2, StateKey, (w, STATE_ACKNOWLEDGED), State(w, STATE_ACKNOWLEDGED, false, true));
      if b.0.Err? then (Err(b.0.error), ss, n)
      else
        var c := GetOrCreate(b.1, b.2, StateKey, (w, STATE_MUTED), State(w, STATE_MUTED, false, true));
        if c.0.Err? then (Err(c.0.error), ss, n)
        else (Ok((a.0.value.0, b.0.value.0, c.0.value.0)), c.1, c.2)
  }

  /** The two transitions' `get_or_create` by all their fields. */
  function SeedTransitions(xs: map<nat, Transition>, n: nat, w: nat, active: nat, ack: nat, muted: nat)
    : (r: (Option<Exception>, map<nat, Transition>, nat))
    requires KeysBelow(xs, n)
    ensures KeysBelow(r.1, r.2)
    ensures (forall j :: j in xs ==> xs[j].workflow != w) && ack == active + 1 && muted == active + 2 ==>
      r == (None, AddSeededTransitions(xs, w, active, n), n + 2)
  {
    var acknowledge := Transition(w, active, ack, TRANSITION_ACKNOWLEDGE);
    var mute := Transition(w, active, muted, TRANSITION_MUTE);
    var a := GetOrCreate(xs, n, TransitionKey, acknowledge, acknowledge);
    if a.0.Err? then (Some(a.0.error), xs, n)
    else
      var b := GetOrCreate(a.1, a.2, TransitionKey, mute, mute);
      if b.0.Err? then (Some(b.0.error), xs, n)
      else (None, b.1, b.2)
  }

  /** `SiteAlert.objects.filter(workflow__isnull=True).update(workflow=w,
      workflow_state=active)`. */
  function AttachUnattached(alerts: map<nat, Alert>, w: nat, active: nat): (r: map<nat, Alert>)
    ensures r.Keys == alerts.Keys
    ensures forall k :: k in alerts && alerts[k].workflow.None? ==>
      r[k] == alerts[k].(workflow := Some(w), workflowState := Some(active))
    ensures forall k :: k in alerts && alerts[k].workflow.Some? ==> r[k] == alerts[k]
  {
    map k | k in alerts :: if alerts[k].workflow.None? then alerts[k].(workflow := Some(w), workflowState := Some(active)) else alerts[k]
  }

  /** The tables the migration writes have their keys below their counters. */
  predicate SeedKeysBelow(t: Tables)
  {
    KeysBelow(t.workflows, t.nextWorkflow) && KeysBelow(t.states, t.nextState)
    && KeysBelow(t.transitions, t.nextTransition)
  }

  /** `seed_site_alert_workflow` as a function of the database, with `ct`
      the content type of SiteAlert. */
  function Seeded(t: Tables, ct: nat): (r: (Result<Seed>, Tables))
    requires SeedKeysBelow(t)
    ensures SeedKeysBelow(r.1)
  {
    var wf := SeedWorkflow(t.workflows, t.nextWorkflow, ct);
    if wf.0.Err? then (Err(wf.0.error), t)
    else
      var w := wf.0.value;
      var st := SeedStates(t.states, t.nextState, w);
      if st.0.Err? then (Err(st.0.error), t)
      else
        var active, ack, muted := st.0.value.0, st.0.value.1, st.0.value.2;
        var tr := SeedTransitions(t.transitions, t.nextTransition, w, active, ack, muted);
        if tr.0.Some? then (Err(tr.0.value), t)
        else
          (Ok(Seed(w, active, ack, muted)),
           t.(workflows := wf.1, nextWorkflow := wf.2, states := st.1, nextState := st.2,
              transitions := tr.1, nextTransition := tr.2, alerts := AttachUnattached(t.alerts, w, active)))
  }

  // ------------------------------------------------------- the workflow

  /** The workflow step: with no workflow of that name, one is created under
      the counter; with exactly one, that one ends with SiteAlert's content
      type and nothing else changes; with several, the step fails and leaves
      the table as it was. */
  lemma SeedWorkflowCases(ws: map<nat, Workflow>, n: nat, ct: nat)
    requires KeysBelow(ws, n)
    ensures var r := SeedWorkflow(ws, n, ct);
      && ((forall j :: j in ws ==> ws[j].name != WORKFLOW_NAME) ==>
            r == (Ok(n), ws[n := Workflow(WORKFLOW_NAME, Some(ct))], n + 1))
      && (r.0.Ok? && r.2 == n ==>
            && r.0.value in ws && ws[r.0.value].name == WORKFLOW_NAME
            && (forall j :: j in ws && ws[j].name == WORKFLOW_NAME ==> j == r.0.value)
            && r.1 == ws[r.0.value := Workflow(WORKFLOW_NAME, Some(ct))])
      && (r.0.Ok? ==> r.2 == n || r.2 == n + 1)
      && (r.0.Err? <==> exists i, j :: i in ws && j in ws && i != j && ws[i].name == WORKFLOW_NAME && ws[j].name == WORKFLOW_NAME)
      && (r.0.Err? ==> r.0.error == MultipleObjectsReturned && r.1 == ws && r.2 == n)
  {
    GetOrCreateCases(ws, n, WorkflowName, WORKFLOW_NAME, Workflow(WORKFLOW_NAME, Some(ct)));
  }

  /** The workflow step keeps every key and changes no other workflow. */
  lemma SeedWorkflowGrows(ws: map<nat, Workflow>, n: nat, ct: nat)
    requires KeysBelow(ws, n)
    ensures var r := SeedWorkflow(ws, n, ct);
      n <= r.2 && ws.Keys <= r.1.Keys
      && (r.0.Ok? ==> forall j :: j in ws && j != r.0.value ==> r.1[j] == ws[j])
  {
    GetOrCreateGrows(ws, n, WorkflowName, WORKFLOW_NAME, Workflow(WORKFLOW_NAME, Some(ct)));
  }

  /** After the workflow step the seeded workflow is the only one of its
      name, and repeating the step changes nothing. */
  lemma SeedWorkflowAgain(ws: map<nat, Workflow>, n: nat, ct: nat)
    requires KeysBelow(ws, n)
    requires SeedWorkflow(ws, n, ct).0.Ok?
    ensures var r := SeedWorkflow(ws, n, ct);
      KeysWith(r.1, r.2, WorkflowName, WORKFLOW_NAME) == [r.0.value]
      && SeedWorkflow(r.1, r.2, ct) == r
  {
    var row := Workflow(WORKFLOW_NAME, Some(ct));
    var g := GetOrCreate(ws, n, WorkflowName, WORKFLOW_NAME, row);
    var r := SeedWorkflow(ws, n, ct);
    GetOrCreateAgain(ws, n, WorkflowName, WORKFLOW_NAME, row, row);
    KeysWithAgree(r.1, g.1, r.2, WorkflowName, WORKFLOW_NAME);
    GetOrCreateFound(r.1, r.2, WorkflowName, WORKFLOW_NAME, row, r.0.value);
  }

  // --------------------------------------------------------- the states

  /** The state step keeps every old state, never moves its counter back,
      and can only fail with MultipleObjectsReturned. */
  lemma SeedStatesGrows(ss: map<nat, State>, n: nat, w: nat)
    requires KeysBelow(ss, n)
    ensures var r := SeedStates(ss, n, w);
      && n <= r.2
      && (forall j :: j in ss ==> j in r.1 && r.1[j] == ss[j])
      && (r.0.Err? ==> r.0.error == MultipleObjectsReturned)
  {
    var a := GetOrCreate(ss, n, StateKey, (w, STATE_ACTIVE), State(w, STATE_ACTIVE, true, false));
    GetOrCreateGrows(ss, n, StateKey, (w, STATE_ACTIVE), State(w, STATE_ACTIVE, true, false));
    if a.0.Ok? {
      var b := GetOrCreate(a.1, a.2, StateKey, (w, STATE_ACKNOWLEDGED), State(w, STATE_ACKNOWLEDGED, false, true));
      GetOrCreateGrows(a.1, a.2, StateKey, (w, STATE_ACKNOWLEDGED), State(w, STATE_ACKNOWLEDGED, false, true));
      if b.0.Ok? {
        GetOrCreateGrows(b.1, b.2, StateKey, (w, STATE_MUTED), State(w, STATE_MUTED, false, true));
      }
    }
  }

  /** Every state the state step adds belongs to `w`. */
  lemma SeedStatesOwn(ss: map<nat, State>, n: nat, w: nat)
    requires KeysBelow(ss, n)
    ensures var r := SeedStates(ss, n, w);
      forall j :: j in r.1 && j !in ss ==> r.1[j].workflow == w
  {
    var a := GetOrCreate(ss, n, StateKey, (w, STATE_ACTIVE), State(w, STATE_ACTIVE, true, false));
    GetOrCreateGrows(ss, n, StateKey, (w, STATE_ACTIVE), State(w, STATE_ACTIVE, true, false));
    if a.0.Ok? {
      assert forall j :: j in a.1 && j !in ss ==> a.1[j].workflow == w;
      var b := GetOrCreate(a.1, a.2, StateKey, (w, STATE_ACKNOWLEDGED), State(w, STATE_ACKNOWLEDGED, false, true));
      GetOrCreateGrows(a.1, a.2, StateKey, (w, STATE_ACKNOWLEDGED), State(w, STATE_ACKNOWLEDGED, false, true));
      if b.0.Ok? {
        assert forall j :: j in b.1 && j !in ss ==> b.1[j].workflow == w;
        GetOrCreateGrows(b.1, b.2, StateKey, (w, STATE_MUTED), State(w, STATE_MUTED, false, true));
      }
    }
  }

  /** After the state step each of the three seeded states is the only state
      of its workflow and name, and repeating the step changes nothing. */
  lemma SeedStatesAgain(ss: map<nat, State>, n: nat, w: nat)
    requires KeysBelow(ss, n)
    requires SeedStates(ss, n, w).0.Ok?
    ensures var r := SeedStates(ss, n, w);
      && KeysWith(r.1, r.2, StateKey, (w, STATE_ACTIVE)) == [r.0.value.0]
      && KeysWith(r.1, r.2, StateKey, (w, STATE_ACKNOWLEDGED)) == [r.0.value.1]
      && KeysWith(r.1, r.2, StateKey, (w, STATE_MUTED)) == [r.0.value.2]
      && SeedStates(r.1, r.2, w) == r
  {
    var kA, kK, kM := (w, STATE_ACTIVE), (w, STATE_ACKNOWLEDGED), (w, STATE_MUTED);
    var rowA, rowK, rowM := State(w, STATE_ACTIVE, true, false), State(w, STATE_ACKNOWLEDGED, false, true), State(w, STATE_MUTED, false, true);
    var a := GetOrCreate(ss, n, StateKey, kA, rowA);
    var b := GetOrCreate(a.1, a.2, StateKey, kK, rowK);
    var c := GetOrCreate(b.1, b.2, StateKey, kM, rowM);
    assert kA != kK && kA != kM && kK != kM;
    GetOrCreateAgain(ss, n, StateKey, kA, rowA, rowA);
    GetOrCreateAgain(a.1, a.2, StateKey, kK, rowK, rowK);
    GetOrCreateOther(a.1, a.2, StateKey, kK, rowK, kA);
    GetOrCreateAgain(b.1, b.2, StateKey, kM, rowM, rowM);
    GetOrCreateOther(b.1, b.2, StateKey, kM, rowM, kA);
    GetOrCreateOther(b.1, b.2, StateKey, kM, rowM, kK);
    GetOrCreateFound(c.1, c.2, StateKey, kA, rowA, a.0.value.0);
    GetOrCreateFound(c.1, c.2, StateKey, kK, rowK, b.0.value.0);
    GetOrCreateFound(c.1, c.2, StateKey, kM, rowM, c.0.value.0);
  }

  // ---------------------------------------------------- the transitions

  /** The transition step keeps every old transition, and every transition
      it adds is `acknowledge` (Active to Acknowledged) or `mute` (Active to
      Muted) of workflow `w`. */
  lemma SeedTransitionsGrows(xs: map<nat, Transition>, n: nat, w: nat, active: nat, ack: nat, muted: nat)
    requires KeysBelow(xs, n)
    ensures var r := SeedTransitions(xs, n, w, active, ack, muted);
      && n <= r.2
      && (forall j :: j in xs ==> j in r.1 && r.1[j] == xs[j])
      && (forall j :: j in r.1 && j !in xs ==>
            r.1[j] == Transition(w, active, ack, TRANSITION_ACKNOWLEDGE) || r.1[j] == Transition(w, active, muted, TRANSITION_MUTE))
      && (r.0.None? ==> Transition(w, active, ack, TRANSITION_ACKNOWLEDGE) in r.1.Values
                        && Transition(w, active, muted, TRANSITION_MUTE) in r.1.Values)
      && (r.0.Some? ==> r.0.value == MultipleObjectsReturned)
  {
    var acknowledge := Transition(w, active, ack, TRANSITION_ACKNOWLEDGE);
    var mute := Transition(w, active, muted, TRANSITION_MUTE);
    var a := GetOrCreate(xs, n, TransitionKey, acknowledge, acknowledge);
    GetOrCreateGrows(xs, n, TransitionKey, acknowledge, acknowledge);
    if a.0.Ok? {
      var b := GetOrCreate(a.1, a.2, TransitionKey, mute, mute);
      GetOrCreateGrows(a.1, a.2, TransitionKey, mute, mute);
      if b.0.Ok? {
        assert b.1[a.0.value.0] == acknowledge;
        assert b.1[b.0.value.0] == mute;
      }
    }
  }

  /** After the transition step each of the two transitions is stored once,
      and repeating the step changes nothing. */
  lemma SeedTransitionsAgain(xs: map<nat, Transition>, n: nat, w: nat, active: nat, ack: nat, muted: nat)
    requires KeysBelow(xs, n)
    requires SeedTransitions(xs, n, w, active, ack, muted).0.None?
    ensures var r := SeedTransitions(xs, n, w, active, ack, muted);
      && |KeysWith(r.1, r.2, TransitionKey, Transition(w, active, ack, TRANSITION_ACKNOWLEDGE))| == 1
      && |KeysWith(r.1, r.2, TransitionKey, Transition(w, active, muted, TRANSITION_MUTE))| == 1
      && SeedTransitions(r.1, r.2, w, active, ack, muted) == r
  {
    var acknowledge := Transition(w, active, ack, TRANSITION_ACKNOWLEDGE);
    var mute := Transition(w, active, muted, TRANSITION_MUTE);
    assert acknowledge != mute;
    var a := GetOrCreate(xs, n, TransitionKey, acknowledge, acknowledge);
    var b := GetOrCreate(a.1, a.2, TransitionKey, mute, mute);
    GetOrCreateAgain(xs, n, TransitionKey, acknowledge, acknowledge, acknowledge);
    GetOrCreateAgain(a.1, a.2, TransitionKey, mute, mute, mute);
    GetOrCreateOther(a.1, a.2, TransitionKey, mute, mute, acknowledge);
    GetOrCreateFound(b.1, b.2, TransitionKey, acknowledge, acknowledge, a.0.value.0);
    GetOrCreateFound(b.1, b.2, TransitionKey, mute, mute, b.0.value.0);
  }

  // ------------------------------------------------------------ alerts

  /** Once every alert is attached, attaching changes nothing. */
  lemma AttachUnattachedIdempotent(alerts: map<nat, Alert>, w: nat, active: nat)
    ensures AttachUnattached(AttachUnattached(alerts, w, active), w, active) == AttachUnattached(alerts, w, active)
  {
    var r := AttachUnattached(alerts, w, active);
    assert forall k :: k in r ==> r[k].workflow.Some?;
  }

  /** The keys the state step returns hold the states it looked up. */
  lemma SeedStatesNamed(ss: map<nat, State>, n: nat, w: nat)
    requires KeysBelow(ss, n)
    requires SeedStates(ss, n, w).0.Ok?
    ensures var r := SeedStates(ss, n, w);
      var active, ack, muted := r.0.value.0, r.0.value.1, r.0.value.2;
      && active in r.1 && StateKey(r.1[active]) == (w, STATE_ACTIVE)
      && ack in r.1 && StateKey(r.1[ack]) == (w, STATE_ACKNOWLEDGED)
      && muted in r.1 && StateKey(r.1[muted]) == (w, STATE_MUTED)
  {
    var r := SeedStates(ss, n, w);
    SeedStatesAgain(ss, n, w);
    KeysWithExact(r.1, r.2, StateKey, (w, STATE_ACTIVE));
    KeysWithExact(r.1, r.2, StateKey, (w, STATE_ACKNOWLEDGED));
    KeysWithExact(r.1, r.2, StateKey, (w, STATE_MUTED));
    assert r.0.value.0 in [r.0.value.0] && r.0.value.1 in [r.0.value.1] && r.0.value.2 in [r.0.value.2];
  }

  // ------------------------------------------------------- the migration

  /** The migration runs in one transaction: on an error the database is as
      it was. On success it changes only the workflow, state, transition and
      alert tables; the seeded workflow carries SiteAlert's content type; the
      seeded states are Active, Acknowledged and Muted of that workflow; both
      transitions are stored; and every alert without a workflow is attached
      to the workflow in state Active, while attached alerts are untouched. */
  lemma SeededShape(t: Tables, ct: nat)
    requires SeedKeysBelow(t)
    ensures var r := Seeded(t, ct);
      r.0.Err? ==> r.1 == t && r.0.error == MultipleObjectsReturned
    ensures var r := Seeded(t, ct);
      r.0.Ok? ==>
        r.1 == t.(workflows := r.1.workflows, nextWorkflow := r.1.nextWorkflow, states := r.1.states,
                  nextState := r.1.nextState, transitions := r.1.transitions, nextTransition := r.1.nextTransition,
                  alerts := r.1.alerts)
    ensures var r := Seeded(t, ct);
      r.0.Ok? ==>
        var s := r.0.value;
        && s.workflow in r.1.workflows && r.1.workflows[s.workflow] == Workflow(WORKFLOW_NAME, Some(ct))
        && s.active in r.1.states && r.1.states[s.active].workflow == s.workflow && r.1.states[s.active].name == STATE_ACTIVE
        && s.acknowledged in r.1.states && r.1.states[s.acknowledged].workflow == s.workflow
        && r.1.states[s.acknowledged].name == STATE_ACKNOWLEDGED
        && s.muted in r.1.states && r.1.states[s.muted].workflow == s.workflow && r.1.states[s.muted].name == STATE_MUTED
        && Transition(s.workflow, s.active, s.acknowledged, TRANSITION_ACKNOWLEDGE) in r.1.transitions.Values
        && Transition(s.workflow, s.active, s.muted, TRANSITION_MUTE) in r.1.transitions.Values
    ensures var r := Seeded(t, ct);
      r.0.Ok? ==>
        var s := r.0.value;
        && r.1.alerts.Keys == t.alerts.Keys
        && (forall k :: k in t.alerts && t.alerts[k].workflow.None? ==>
              r.1.alerts[k] == t.alerts[k].(workflow := Some(s.workflow), workflowState := Some(s.active)))
        && (forall k :: k in t.alerts && t.alerts[k].workflow.Some? ==> r.1.alerts[k] == t.alerts[k])
  {
    SeededFrame(t, ct);
    SeededRows(t, ct);
    SeededAlerts(t, ct);
  }

  /** A failed migration leaves the database as it was; a successful one
      writes only the workflow, state, transition and alert tables. */
  lemma SeededFrame(t: Tables, ct: nat)
    requires SeedKeysBelow(t)
    ensures var r := Seeded(t, ct);
      r.0.Err? ==> r.1 == t && r.0.error == MultipleObjectsReturned
    ensures var r := Seeded(t, ct);
      r.0.Ok? ==>
        r.1 == t.(workflows := r.1.workflows, nextWorkflow := r.1.nextWorkflow, states := r.1.states,
                  nextState := r.1.nextState, transitions := r.1.transitions, nextTransition := r.1.nextTransition,
                  alerts := r.1.alerts)
  {
    var r := Seeded(t, ct);
    var wf := SeedWorkflow(t.workflows, t.nextWorkflow, ct);
    SeedWorkflowCases(t.workflows, t.nextWorkflow, ct);
    if wf.0.Ok? {
      var st := SeedStates(t.states, t.nextState, wf.0.value);
      SeedStatesGrows(t.states, t.nextState, wf.0.value);
      if st.0.Ok? {
        var tr := SeedTransitions(t.transitions, t.nextTransition, wf.0.value, st.0.value.0, st.0.value.1, st.0.value.2);
        SeedTransitionsGrows(t.transitions, t.nextTransition, wf.0.value, st.0.value.0, st.0.value.1, st.0.value.2);
        if tr.0.None? {
          assert r.1 == t.(workflows := wf.1, nextWorkflow := wf.2, states := st.1, nextState := st.2,
                           transitions := tr.1, nextTransition := tr.2, alerts := r.1.alerts);
        }
      }
    }
  }

  /** The rows a successful migration leaves in the workflow tables. */
  lemma SeededRows(t: Tables, ct: nat)
    requires SeedKeysBelow(t)
    ensures var r := Seeded(t, ct);
      r.0.Ok? ==>
        var s := r.0.value;
        && s.workflow in r.1.workflows && r.1.workflows[s.workflow] == Workflow(WORKFLOW_NAME, Some(ct))
        && s.active in r.1.states && r.1.states[s.active].workflow == s.workflow && r.1.states[s.active].name == STATE_ACTIVE
        && s.acknowledged in r.1.states && r.1.states[s.acknowledged].workflow == s.workflow
        && r.1.states[s.acknowledged].name == STATE_ACKNOWLEDGED
        && s.muted in r.1.states && r.1.states[s.muted].workflow == s.workflow && r.1.states[s.muted].name == STATE_MUTED
        && Transition(s.workflow, s.active, s.acknowledged, TRANSITION_ACKNOWLEDGE) in r.1.transitions.Values
        && Transition(s.workflow, s.active, s.muted, TRANSITION_MUTE) in r.1.transitions.Values
  {
    var wf := SeedWorkflow(t.workflows, t.nextWorkflow, ct);
    SeedWorkflowGrows(t.workflows, t.nextWorkflow, ct);
    if wf.0.Ok? {
      var w := wf.0.value;
      var st := SeedStates(t.states, t.nextState, w);
      SeedStatesGrows(t.states, t.nextState, w);
      SeedStatesOwn(t.states, t.nextState, w);
      if st.0.Ok? {
        SeedStatesNamed(t.states, t.nextState, w);
        var active, ack, muted := st.0.value.0, st.0.value.1, st.0.value.2;
        SeedTransitionsGrows(t.transitions, t.nextTransition, w, active, ack, muted);
      }
    }
  }


  /** What a successful migration does to the alerts. */
  lemma SeededAlerts(t: Tables, ct: nat)
    requires SeedKeysBelow(t)
    ensures var r := Seeded(t, ct);
      r.0.Ok? ==>
        var s := r.0.value;
        && r.1.alerts.Keys == t.alerts.Keys
        && (forall k :: k in t.alerts && t.alerts[k].workflow.None? ==>
              r.1.alerts[k] == t.alerts[k].(workflow := Some(s.workflow), workflowState := Some(s.active)))
        && (forall k :: k in t.alerts && t.alerts[k].workflow.Some? ==> r.1.alerts[k] == t.alerts[k])
  {
    var r := Seeded(t, ct);
    if r.0.Ok? {
      var wf := SeedWorkflow(t.workflows, t.nextWorkflow, ct);
      var st := SeedStates(t.states, t.nextState, wf.0.value);
      assert r.0.value.workflow == wf.0.value && r.0.value.active == st.0.value.0;
      assert r.1.alerts == AttachUnattached(t.alerts, wf.0.value, st.0.value.0);
    }
  }

  /** A store without the lifecycle workflow: no workflow has its name, and
      no state or transition refers to the key it will be created under. */
  predicate Unseeded(t: Tables)
  {
    && SeedKeysBelow(t)
    && (forall j :: j in t.workflows ==> t.workflows[j].name != WORKFLOW_NAME)
    && (forall j :: j in t.states ==> t.states[j].workflow != t.nextWorkflow)
    && (forall j :: j in t.transitions ==> t.transitions[j].workflow != t.nextWorkflow)
  }

  /** The states the migration adds for a new workflow `w` from key `ns` on. */
  function AddSeededStates(ss: map<nat, State>, w: nat, ns: nat): map<nat, State>
  {
    ss[ns := State(w, STATE_ACTIVE, true, false)][ns + 1 := State(w, STATE_ACKNOWLEDGED, false, true)]
      [ns + 2 := State(w, STATE_MUTED, false, true)]
  }

  /** The transitions the migration adds from key `nx` on, for the states
      added from key `ns` on. */
  function AddSeededTransitions(xs: map<nat, Transition>, w: nat, ns: nat, nx: nat): map<nat, Transition>
  {
    xs[nx := Transition(w, ns, ns + 1, TRANSITION_ACKNOWLEDGE)][nx + 1 := Transition(w, ns, ns + 2, TRANSITION_MUTE)]
  }

  /** On a store without the lifecycle workflow the migration succeeds: the
      workflow with SiteAlert's content type, the states Active (start),
      Acknowledged and Muted (both end) and the transitions `acknowledge`
      (Active to Acknowledged) and `mute` (Active to Muted) are created, each
      under the next key of its table, the alerts without a workflow are
      attached to Active, and the other tables are left as they were. */
  lemma SeededFresh(t: Tables, ct: nat)
    requires Unseeded(t)
    ensures Seeded(t, ct) ==
      (Ok(Seed(t.nextWorkflow, t.nextState, t.nextState + 1, t.nextState + 2)),
       t.(workflows := t.workflows[t.nextWorkflow := Workflow(WORKFLOW_NAME, Some(ct))],
          nextWorkflow := t.nextWorkflow + 1,
          states := AddSeededStates(t.states, t.nextWorkflow, t.nextState),
          nextState := t.nextState + 3,
          transitions := AddSeededTransitions(t.transitions, t.nextWorkflow, t.nextState, t.nextTransition),
          nextTransition := t.nextTransition + 2,
          alerts := AttachUnattached(t.alerts, t.nextWorkflow, t.nextState)))
  {
    SeedWorkflowStepFresh(t, ct);
    SeedStatesStepFresh(t);
    SeedTransitionsStepFresh(t);
  }

  /** The three steps of the migration on a store without the workflow,
      one lemma each. */
  lemma SeedWorkflowStepFresh(t: Tables, ct: nat)
    requires Unseeded(t)
    ensures SeedWorkflow(t.workflows, t.nextWorkflow, ct) ==
      (Ok(t.nextWorkflow), t.workflows[t.nextWorkflow := Workflow(WORKFLOW_NAME, Some(ct))], t.nextWorkflow + 1)
  {
  }

  lemma SeedStatesStepFresh(t: Tables)
    requires Unseeded(t)
    ensures SeedStates(t.states, t.nextState, t.nextWorkflow) ==
      (Ok((t.nextState, t.nextState + 1, t.nextState + 2)), AddSeededStates(t.states, t.nextWorkflow, t.nextState), t.nextState + 3)
  {
  }

  lemma SeedTransitionsStepFresh(t: Tables)
    requires Unseeded(t)
    ensures SeedTransitions(t.transitions, t.nextTransition, t.nextWorkflow, t.nextState, t.nextState + 1, t.nextState + 2) ==
      (None, AddSeededTransitions(t.transitions, t.nextWorkflow, t.nextState, t.nextTransition), t.nextTransition + 2)
  {
  }

  /** Added to an empty table, the seeded states are exactly three, of which
      Active is the only start state and the other two are end states. */
  lemma SeededStatesOnEmpty(w: nat, ns: nat)
    ensures var ss := AddSeededStates(map[], w, ns);
      && |ss| == 3
      && (forall k :: k in ss ==> (ss[k].isStart <==> k == ns))
      && (forall k :: k in ss ==> (ss[k].isEnd <==> k != ns))
  {
    var ss := AddSeededStates(map[], w, ns);
    assert ss.Keys == {ns} + {ns + 1} + {ns + 2};
  }

  /** Added to an empty table, the seeded transitions are exactly two, and
      both leave Active. */
  lemma SeededTransitionsOnEmpty(w: nat, ns: nat, nx: nat)
    ensures var xs := AddSeededTransitions(map[], w, ns, nx);
      |xs| == 2 && forall k :: k in xs ==> xs[k].source == ns
  {
    var xs := AddSeededTransitions(map[], w, ns, nx);
    assert xs.Keys == {nx} + {nx + 1};
  }

  /** The migration can be repeated: after a successful run, running it
      again returns the same rows and changes nothing, so no state,
      transition or workflow is duplicated. */
  lemma SeededIdempotent(t: Tables, ct: nat)
    requires SeedKeysBelow(t)
    requires Seeded(t, ct).0.Ok?
    ensures var r := Seeded(t, ct);
      Seeded(r.1, ct) == r
  {
    var wf := SeedWorkflow(t.workflows, t.nextWorkflow, ct);
    SeedWorkflowAgain(t.workflows, t.nextWorkflow, ct);
    var w := wf.0.value;
    var st := SeedStates(t.states, t.nextState, w);
    SeedStatesAgain(t.states, t.nextState, w);
    var active, ack, muted := st.0.value.0, st.0.value.1, st.0.value.2;
    SeedTransitionsAgain(t.transitions, t.nextTransition, w, active, ack, muted);
    AttachUnattachedIdempotent(t.alerts, w, active);
  }

  /** After the workflow step the seeded workflow is the first of the
      default workflow's name, and it has a content type. */
  lemma SeedWorkflowIsDefault(ws: map<nat, Workflow>, n: nat, ct: nat)
    requires KeysBelow(ws, n)
    requires SeedWorkflow(ws, n, ct).0.Ok?
    ensures var r := SeedWorkflow(ws, n, ct);
      FirstWorkflowNamed(r.1, r.2, DEFAULT_WORKFLOW_NAME) == Some(r.0.value)
      && DefaultWorkflowReady(r.1, r.2)
  {
    var r := SeedWorkflow(ws, n, ct);
    SeedWorkflowAgain(ws, n, ct);
    assert WORKFLOW_NAME == DEFAULT_WORKFLOW_NAME;
    OnlyNamedIsFirst(r.1, r.2, r.0.value);
  }

  /** When `w` is the only workflow of the default name, the name lookup
      finds it. */
  lemma OnlyNamedIsFirst(ws: map<nat, Workflow>, n: nat, w: nat)
    requires KeysWith(ws, n, WorkflowName, DEFAULT_WORKFLOW_NAME) == [w]
    ensures FirstWorkflowNamed(ws, n, DEFAULT_WORKFLOW_NAME) == Some(w)
  {
    KeysWithExact(ws, n, WorkflowName, DEFAULT_WORKFLOW_NAME);
    assert w in [w];
    var f := FirstWorkflowNamed(ws, n, DEFAULT_WORKFLOW_NAME);
    assert ws[w].name == DEFAULT_WORKFLOW_NAME && w < n;
    assert f.value in KeysWith(ws, n, WorkflowName, DEFAULT_WORKFLOW_NAME);
  }

  /** When `active` is the only state named Active of workflow `w`,
      `mark_active` picks it. */
  lemma OnlyActiveIsChosen(ss: map<nat, State>, n: nat, w: nat, active: nat)
    requires KeysWith(ss, n, StateKey, (w, STATE_ACTIVE)) == [active]
    ensures ActiveStateFor(ss, n, w) == Some(active)
  {
    KeysWithExact(ss, n, StateKey, (w, STATE_ACTIVE));
    assert active in [active];
    var g := FirstStateOf(ss, n, w, NamedActive);
    assert ss[active].workflow == w && ss[active].name == STATE_ACTIVE && active < n;
    assert g.value in KeysWith(ss, n, StateKey, (w, STATE_ACTIVE));
  }

  /** After the migration, `SiteAlert.get_default_workflow` finds the seeded
      workflow without changing it, and `mark_active` gives an unstated alert
      the seeded Active state. */
  lemma SeededIsDefault(t: Tables, ct: nat)
    requires SeedKeysBelow(t)
    requires Seeded(t, ct).0.Ok?
    ensures var r := Seeded(t, ct);
      && DefaultWorkflowReady(r.1.workflows, r.1.nextWorkflow)
      && DefaultWorkflowOf(r.1) == r.0.value.workflow
      && WithDefaultWorkflow(r.1, ct) == r.1
      && ActiveStateFor(r.1.states, r.1.nextState, r.0.value.workflow) == Some(r.0.value.active)
  {
    var wf := SeedWorkflow(t.workflows, t.nextWorkflow, ct);
    SeedWorkflowIsDefault(t.workflows, t.nextWorkflow, ct);
    var w := wf.0.value;
    var st := SeedStates(t.states, t.nextState, w);
    SeedStatesAgain(t.states, t.nextState, w);
    OnlyActiveIsChosen(st.1, st.2, w, st.0.value.0);
    InstallDefaultWorkflowIdempotent(wf.1, wf.2, ct);
  }

  /** `seed_site_alert_workflow(apps, schema_editor)` on the database: each
      step writes its table; an error rolls the transaction back. */
  method SeedSiteAlertWorkflow(db: Db) returns (r: Result<Seed>)
    requires SeedKeysBelow(db.tables)
    modifies db
    ensures (r, db.tables) == Seeded(old(db.tables), db.alertContentType)
  {
    var saved := db.tables;
    var wf := SeedWorkflow(db.tables.workflows, db.tables.nextWorkflow, db.alertContentType);
    if wf.0.Err? {
      return Err(wf.0.error);
    }
    var w := wf.0.value;
    db.tables := db.tables.(workflows := wf.1, nextWorkflow := wf.2);
    var st := SeedStates(db.tables.states, db.tables.nextState, w);
    if st.0.Err? {
      db.tables := saved;
      return Err(st.0.error);
    }
    var active, ack, muted := st.0.value.0, st.0.value.1, st.0.value.2;
    db.tables := db.tables.(states := st.1, nextState := st.2);
    var tr := SeedTransitions(db.tables.transitions, db.tables.nextTransition, w, active, ack, muted);
    if tr.0.Some? {
      db.tables := saved;
      return Err(tr.0.value);
    }
    db.tables := db.tables.(transitions := tr.1, nextTransition := tr.2);
    db.tables := db.tables.(alerts := AttachUnattached(db.tables.alerts, w, active));
    r := Ok(Seed(w, active, ack, muted));
  }
}
