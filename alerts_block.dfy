/** `ActiveSiteAlertsBlock` of the air-quality demo: the active alerts,
    newest first, each with one workflow action per transition the workflow
    engine allows. The allowed transitions are an input (`allowed`, from an
    alert's key to the names of its transitions), and a URL is kept as the
    path arguments it is reversed from. */
module AlertsBlock {
  import opened Common
  import opened Text
  import opened AirQualityModels
  import WorkflowSeed

  const ACTIVE_SITE_ALERTS_BLOCK_CODE: string := "air_quality__active_site_alerts"

  /** The two fields of a content type the actions use. */
  datatype ContentType = ContentType(appLabel: string, model: string)

  /** `reverse("workflow:workflow_perform_transition", args=[...])`, as its
      path arguments in order. */
  datatype TransitionUrl = TransitionUrl(appLabel: string, model: string, alert: nat, transition: string)

  datatype AlertAction = AlertAction(name: string, humanLabel: string, url: TransitionUrl)

  datatype AlertPresentation = AlertPresentation(alert: nat, actions: seq<AlertAction>)

  /** The action for transition `name` of alert `pk`. */
  function ActionFor(ct: ContentType, pk: nat, name: string): AlertAction
  {
    AlertAction(name, Humanize(name), TransitionUrl(ct.appLabel, ct.model, pk, name))
  }

  /** An action's label is the humanised name (so, by `HumanizeAt`, every
      word starts upper-case), has no underscore and keeps the name's
      length; its URL names the alert's content type, the alert and the
      transition, in that order. */
  lemma ActionForShape(ct: ContentType, pk: nat, name: string)
    ensures var a := ActionFor(ct, pk, name);
      && a.name == name && a.humanLabel == Humanize(name)
      && '_' !in a.humanLabel && |a.humanLabel| == |name|
      && a.url.appLabel == ct.appLabel && a.url.model == ct.model
      && a.url.alert == pk && a.url.transition == name
  {
    HumanizeNoUnderscore(name);
  }

  /** The labels of the seeded lifecycle's two transitions. */
  lemma SeededActionLabels(ct: ContentType, pk: nat)
    ensures ActionFor(ct, pk, WorkflowSeed.TRANSITION_ACKNOWLEDGE).humanLabel == "Acknowledge"
    ensures ActionFor(ct, pk, WorkflowSeed.TRANSITION_MUTE).humanLabel == "Mute"
  {
    HumanizeAcknowledge(WorkflowSeed.TRANSITION_ACKNOWLEDGE);
    HumanizeMute();
  }

  /** The `triggered_at` of every active alert. */
  function ActiveTriggeredAt(t: Tables): (r: map<nat, int>)
    ensures forall k :: k in r <==> k in t.alerts && IsActiveAlert(t.states, t.alerts[k])
    ensures forall k :: k in r ==> r[k] == t.alerts[k].triggeredAt
  {
    map k | k in t.alerts && IsActiveAlert(t.states, t.alerts[k]) :: t.alerts[k].triggeredAt
  }

  /** `SiteAlert.objects.active().order_by("-triggered_at")`; alerts triggered
      at the same time come in key order. */
  function ActiveNewestFirst(t: Tables): seq<nat>
  {
    OrderedKeys(ActiveTriggeredAt(t), t.nextAlert)
  }

  /** The query lists every active alert exactly once, and no other, by
      non-increasing `triggered_at`. */
  lemma ActiveNewestFirstExact(t: Tables)
    requires KeysBelow(t.alerts, t.nextAlert)
    ensures var r := ActiveNewestFirst(t);
      && (forall k :: k in r <==> k in t.alerts && IsActiveAlert(t.states, t.alerts[k]))
      && (forall i, j :: 0 <= i < j < |r| ==> t.alerts[r[i]].triggeredAt >= t.alerts[r[j]].triggeredAt)
      && (forall i, j :: 0 <= i < j < |r| ==> r[i] != r[j])
  {
    var ranks := ActiveTriggeredAt(t);
    OrderedKeysExact(ranks, t.nextAlert);
    var r := ActiveNewestFirst(t);
    forall i, j | 0 <= i < j < |r| ensures t.alerts[r[i]].triggeredAt >= t.alerts[r[j]].triggeredAt {
      assert ranks[r[i]] >= ranks[r[j]];
    }
  }

  /** The inner loop of `get_data`: one action per allowed transition, in
      the order the transitions are supplied. */
  method BuildActions(ct: ContentType, pk: nat, transitions: seq<string>) returns (actions: seq<AlertAction>)
    ensures |actions| == |transitions|
    ensures forall i :: 0 <= i < |transitions| ==> actions[i] == ActionFor(ct, pk, transitions[i])
  {
    actions := [];
    for i := 0 to |transitions|
      invariant |actions| == i
      invariant forall j :: 0 <= j < i ==> actions[j] == ActionFor(ct, pk, transitions[j])
    {
      actions := actions + [ActionFor(ct, pk, transitions[i])];
    }
  }

  class ActiveSiteAlertsBlock {
    const blockName: string
    /** The cached content type of SiteAlert. */
    var contentType: Option<ContentType>
    /** How many times the content type has been looked up. */
    ghost var lookups: nat

    /** The content type is looked up at most once, and only to fill the
        cache. */
    ghost predicate Valid()
      reads this
    {
      lookups == if contentType.Some? then 1 else 0
    }

    constructor()
      ensures Valid()
      ensures blockName == ACTIVE_SITE_ALERTS_BLOCK_CODE && contentType == None
    {
      blockName := ACTIVE_SITE_ALERTS_BLOCK_CODE;
      contentType := None;
      lookups := 0;
    }

    /** `_get_content_type`: the cached value, or, the first time, the
        content type `siteAlert` of SiteAlert, which is then cached. */
    method GetContentType(siteAlert: ContentType) returns (ct: ContentType)
      requires Valid()
      modifies this
      ensures Valid() && lookups <= 1
      ensures old(contentType).Some? ==> ct == old(contentType).value && contentType == old(contentType)
      ensures old(contentType).None? ==> ct == siteAlert && contentType == Some(siteAlert)
      ensures old(contentType).Some? ==> lookups == old(lookups)
    {
      if contentType.None? {
        contentType := Some(siteAlert);
        lookups := lookups + 1;
      }
      ct := contentType.value;
    }

    /** `get_data`: for each active alert, newest first, its actions for
        the transitions `allowed` gives it. */
    method GetData(db: Db, allowed: nat -> seq<string>, siteAlert: ContentType)
      returns (alerts: seq<AlertPresentation>)
      requires Valid()
      modifies this
      ensures Valid() && contentType.Some?
      ensures contentType == if old(contentType).Some? then old(contentType) else Some(siteAlert)
      ensures |alerts| == |ActiveNewestFirst(db.tables)|
      ensures forall i :: 0 <= i < |alerts| ==>
        && alerts[i].alert == ActiveNewestFirst(db.tables)[i]
        && |alerts[i].actions| == |allowed(alerts[i].alert)|
        && forall j :: 0 <= j < |alerts[i].actions| ==>
             alerts[i].actions[j] == ActionFor(contentType.value, alerts[i].alert, allowed(alerts[i].alert)[j])
    {
      var queryset := ActiveNewestFirst(db.tables);
      var ct := GetContentType(siteAlert);
      alerts := [];
      for i := 0 to |queryset|
        invariant Valid() && contentType == Some(ct)
        invariant |alerts| == i
        invariant forall k :: 0 <= k < i ==>
          && alerts[k].alert == queryset[k]
          && |alerts[k].actions| == |allowed(alerts[k].alert)|
          && forall j :: 0 <= j < |alerts[k].actions| ==>
               alerts[k].actions[j] == ActionFor(ct, alerts[k].alert, allowed(alerts[k].alert)[j])
      {
        var actions := BuildActions(ct, queryset[i], allowed(queryset[i]));
        alerts := alerts + [AlertPresentation(queryset[i], actions)];
      }
    }
  }
}
