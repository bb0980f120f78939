/** `ensure_demo_alert_rules`: a few demo alert rules derived from the
    newest measurements, one per (site, pollutant) pair that has no demo
    rule yet. A demo rule is recognised by its external id, which starts
    with `DEMO_ALERT_EXTERNAL_PREFIX`. */
module DemoAlertRules {
  import opened Common
  import opened AirQualityModels
  import opened AlertServices

  /** The default `max_rules` of `ensure_demo_alert_rules`. */
  const DEFAULT_MAX_RULES: int := 5

  /** The constraint a second rule with the same external id breaks. */
  const RULE_EXTERNAL_ID_UNIQUE: string := "air_quality_sitealertrule.external_id"

  predicate IsDemo(rule: Rule)
  {
    DEMO_ALERT_EXTERNAL_PREFIX <= rule.externalId
  }

  /** `SiteAlertRule.objects.filter(external_id__startswith=DEMO_ALERT_EXTERNAL_PREFIX)`. */
  function DemoRuleKeys(rules: map<nat, Rule>): (r: set<nat>)
    ensures forall k :: k in r <==> k in rules && IsDemo(rules[k])
  {
    set k | k in rules && IsDemo(rules[k])
  }

  /** The (site, pollutant) pairs of the demo rules: the initial `seen_pairs`. */
  function DemoPairs(rules: map<nat, Rule>): (r: set<(nat, nat)>)
    ensures forall k :: k in rules && IsDemo(rules[k]) ==> (rules[k].site, rules[k].pollutant) in r
    ensures forall p :: p in r ==> exists k :: k in rules && IsDemo(rules[k]) && p == (rules[k].site, rules[k].pollutant)
  {
    set k | k in rules && IsDemo(rules[k]) :: (rules[k].site, rules[k].pollutant)
  }

  /** `f"{site.name} {pollutant.name} alert"`. */
  function DemoRuleName(site: Site, pollutant: Pollutant): string
  {
    site.name + " " + pollutant.name + " alert"
  }

  /** `f"{DEMO_ALERT_EXTERNAL_PREFIX}|{site_id}|{pollutant_id}"`. */
  function DemoExternalId(site: nat, pollutant: nat): (r: string)
    ensures DEMO_ALERT_EXTERNAL_PREFIX <= r
  {
    DEMO_ALERT_EXTERNAL_PREFIX + ("|" + (NatToString(site) + ("|" + NatToString(pollutant))))
  }

  predicate NoBar(s: string)
  {
    forall i :: 0 <= i < |s| ==> s[i] != '|'
  }

  lemma DigitsNoBar(n: nat)
    ensures NoBar(NatToString(n))
  {
    var s := NatToString(n);
    forall i | 0 <= i < |s| ensures s[i] != '|' {
      assert '0' <= s[i] <= '9';
    }
  }

  /** The index of the first bar in `s`, or `|s|`. */
  function FirstBar(s: string): (r: nat)
    ensures r <= |s|
  {
    if s == [] || s[0] == '|' then 0 else 1 + FirstBar(s[1..])
  }

  lemma {:induction false} FirstBarAfter(a: string, b: string)
    requires NoBar(a)
    ensures FirstBar(a + ("|" + b)) == |a|
  {
    if a != [] {
      assert (a + ("|" + b))[1..] == a[1..] + ("|" + b);
      FirstBarAfter(a[1..], b);
    }
  }

  /** A bar-free head is recovered from the text it heads. */
  lemma SplitAtBar(a: string, b: string, c: string, d: string)
    requires NoBar(a) && NoBar(c)
    requires a + ("|" + b) == c + ("|" + d)
    ensures a == c && b == d
  {
    var s := a + ("|" + b);
    FirstBarAfter(a, b);
    FirstBarAfter(c, d);
    assert a == s[..|a|] && c == s[..|c|];
    assert "|" + b == s[|a|..] && "|" + d == s[|c|..];
    assert b == ("|" + b)[1..] && d == ("|" + d)[1..];
  }

  /** Distinct pairs get distinct demo external ids. */
  lemma DemoExternalIdInjective(site1: nat, pollutant1: nat, site2: nat, pollutant2: nat)
    requires DemoExternalId(site1, pollutant1) == DemoExternalId(site2, pollutant2)
    ensures site1 == site2 && pollutant1 == pollutant2
  {
    var p := DEMO_ALERT_EXTERNAL_PREFIX;
    var b1 := NatToString(site1) + ("|" + NatToString(pollutant1));
    var b2 := NatToString(site2) + ("|" + NatToString(pollutant2));
    assert "|" + b1 == (p + ("|" + b1))[|p|..];
    assert "|" + b2 == (p + ("|" + b2))[|p|..];
    assert b1 == ("|" + b1)[1..] && b2 == ("|" + b2)[1..];
    DigitsNoBar(site1);
    DigitsNoBar(site2);
    SplitAtBar(NatToString(site1), NatToString(pollutant1), NatToString(site2), NatToString(pollutant2));
    NatToStringRoundTrip(site1);
    NatToStringRoundTrip(site2);
    NatToStringRoundTrip(pollutant1);
    NatToStringRoundTrip(pollutant2);
  }

  /** `(value * Decimal("0.9")).quantize(Decimal("0.001"), ROUND_HALF_UP)` in
      thousandths: the nearest integer to 9v/10, halves rounded away from
      zero. */
  function DemoThreshold(v: int): (r: int)
    ensures v >= 0 ==> 9 * v - 5 < 10 * r <= 9 * v + 5
    ensures v < 0 ==> 9 * v - 5 <= 10 * r < 9 * v + 5
  {
    if v >= 0 then (9 * v + 5) / 10 else -((9 * -v + 5) / 10)
  }

  /** 42 gives 37.8; 10.005 gives 9.0045, rounded up to 9.005. */
  lemma DemoThresholdExamples()
    ensures DemoThreshold(42000) == 37800
    ensures DemoThreshold(10005) == 9005
    ensures DemoThreshold(0) == 0
  {
  }

  // ----------------------------------------------------- get_or_create

  /** `SiteAlertRule.objects.filter(site=, pollutant=, name=).first()` over
      the keys below `n`. */
  function RuleNamed(rules: map<nat, Rule>, n: nat, site: nat, pollutant: nat, name: string): (r: Option<nat>)
    ensures r.Some? ==> r.value in rules && r.value < n && rules[r.value].site == site
                        && rules[r.value].pollutant == pollutant && rules[r.value].name == name
    ensures r.None? ==> forall k :: k in rules && k < n ==>
      !(rules[k].site == site && rules[k].pollutant == pollutant && rules[k].name == name)
  {
    if n == 0 then None
    else
      var r := RuleNamed(rules, n - 1, site, pollutant, name);
      if r.Some? then r
      else if n - 1 in rules && rules[n - 1].site == site && rules[n - 1].pollutant == pollutant && rules[n - 1].name == name
      then Some(n - 1)
      else None
  }

  predicate ExternalIdTaken(rules: map<nat, Rule>, externalId: string)
  {
    exists k :: k in rules && rules[k].externalId == externalId
  }

  /** `SiteAlertRule.objects.get_or_create(site=, pollutant=, name=, defaults=...)`
      with the demo defaults (external id, threshold, "above", active): the
      rule's key and whether it was created, and the rule table afterwards;
      or the integrity error of a create whose external id is taken. */
  function RuleGotOrCreated(
    rules: map<nat, Rule>, n: nat, site: nat, pollutant: nat, name: string, externalId: string, threshold: int)
    : (r: (Result<nat>, bool, map<nat, Rule>, nat))
    requires KeysBelow(rules, n)
    ensures KeysBelow(r.2, r.3)
  {
    var found := RuleNamed(rules, n, site, pollutant, name);
    if found.Some? then (Ok(found.value), false, rules, n)
    else if ExternalIdTaken(rules, externalId) then (Err(IntegrityError(RULE_EXTERNAL_ID_UNIQUE)), false, rules, n)
    else (Ok(n), true, rules[n := Rule(site, pollutant, name, externalId, threshold, ABOVE, true)], n + 1)
  }

  /** The three outcomes of the get-or-create: an existing rule with that
      site, pollutant and name is returned untouched; otherwise a new rule
      with the given defaults is created under the next key, unless its
      external id is taken, which is an integrity error. */
  lemma RuleGotOrCreatedCases(
    rules: map<nat, Rule>, n: nat, site: nat, pollutant: nat, name: string, externalId: string, threshold: int)
    requires KeysBelow(rules, n)
    ensures var r := RuleGotOrCreated(rules, n, site, pollutant, name, externalId, threshold);
      r.0.Err? ==> r.0 == Err(IntegrityError(RULE_EXTERNAL_ID_UNIQUE)) && !r.1 && (r.2, r.3) == (rules, n)
                   && ExternalIdTaken(rules, externalId)
    ensures var r := RuleGotOrCreated(rules, n, site, pollutant, name, externalId, threshold);
      r.0.Ok? && !r.1 ==> (r.2, r.3) == (rules, n) && r.0.value in rules && rules[r.0.value].site == site
                          && rules[r.0.value].pollutant == pollutant && rules[r.0.value].name == name
    ensures var r := RuleGotOrCreated(rules, n, site, pollutant, name, externalId, threshold);
      r.1 ==> r.0 == Ok(n) && r.3 == n + 1 && !ExternalIdTaken(rules, externalId)
              && r.2 == rules[n := Rule(site, pollutant, name, externalId, threshold, ABOVE, true)]
    ensures var r := RuleGotOrCreated(rules, n, site, pollutant, name, externalId, threshold);
      r.0.Err? || r.1 <==> forall k :: k in rules ==>
        !(rules[k].site == site && rules[k].pollutant == pollutant && rules[k].name == name)
  {
  }

  /** Getting or creating keeps the rule table's unique constraints. */
  lemma RuleGotOrCreatedUnique(
    rules: map<nat, Rule>, n: nat, site: nat, pollutant: nat, name: string, externalId: string, threshold: int)
    requires KeysBelow(rules, n) && UniqueRules(rules)
    ensures UniqueRules(RuleGotOrCreated(rules, n, site, pollutant, name, externalId, threshold).2)
  {
    var g := RuleGotOrCreated(rules, n, site, pollutant, name, externalId, threshold);
    RuleGotOrCreatedCases(rules, n, site, pollutant, name, externalId, threshold);
    if g.1 {
      var rs := g.2;
      forall i, j | i in rs && j in rs && i != j
        ensures Row(rs, i).externalId != Row(rs, j).externalId
          && (Row(rs, i).site, Row(rs, i).pollutant, Row(rs, i).name) != (Row(rs, j).site, Row(rs, j).pollutant, Row(rs, j).name)
      {
        if i != n && j != n {
          assert Row(rs, i) == Row(rules, i) && Row(rs, j) == Row(rules, j);
        }
      }
    }
  }

  // ------------------------------------------------------------- the run

  /** The state of the loop: the rule table, `seen_pairs`, `created`, and the
      error that ended the run, if any. */
  datatype DemoRun = DemoRun(
    rules: map<nat, Rule>, nextRule: nat, seen: set<(nat, nat)>, created: nat, error: Option<Exception>)

  /** The rule the run creates for measurement `k`: named after its site
      and pollutant, identified by them, firing above nine tenths of the
      measured value. */
  function DemoRuleOf(t: Tables, k: nat): (r: Rule)
    requires k in t.measurements && MeasurementRefs(t.measurements, t.sites, t.pollutants)
    ensures IsDemo(r) && r.comparison == ABOVE && r.isActive
  {
    var m := t.measurements[k];
    Rule(m.site, m.pollutant, DemoRuleName(t.sites[m.site], t.pollutants[m.pollutant]),
         DemoExternalId(m.site, m.pollutant), DemoThreshold(m.value), ABOVE, true)
  }

  /** One iteration, for measurement `k`: a seen pair is skipped; otherwise
      the pair is marked seen and its demo rule is got or created. */
  function DemoStep(t: Tables, s: DemoRun, k: nat): (r: DemoRun)
    requires k in t.measurements && MeasurementRefs(t.measurements, t.sites, t.pollutants)
    requires KeysBelow(s.rules, s.nextRule)
    ensures KeysBelow(r.rules, r.nextRule)
  {
    var d := DemoRuleOf(t, k);
    var pair := (d.site, d.pollutant);
    if pair in s.seen then s
    else
      var g := RuleGotOrCreated(s.rules, s.nextRule, d.site, d.pollutant, d.name, d.externalId, d.threshold);
      if g.0.Err? then s.(seen := s.seen + {pair}, error := Some(g.0.error))
      else DemoRun(g.2, g.3, s.seen + {pair}, if g.1 then s.created + 1 else s.created, None)
  }

  /** The loop over the measurements `ms`: it ends at the first error, and
      once `max_rules` rules have been created. */
  function DemoFold(t: Tables, s0: DemoRun, ms: seq<nat>, maxRules: int): (r: DemoRun)
    requires forall i :: 0 <= i < |ms| ==> ms[i] in t.measurements
    requires MeasurementRefs(t.measurements, t.sites, t.pollutants)
    requires KeysBelow(s0.rules, s0.nextRule)
    ensures KeysBelow(r.rules, r.nextRule)
    decreases |ms|
  {
    if ms == [] then s0
    else
      var r := DemoFold(t, s0, ms[..|ms| - 1], maxRules);
      if r.error.Some? || r.created >= maxRules then r else DemoStep(t, r, ms[|ms| - 1])
  }

  /** Once the run has ended, the remaining measurements change nothing. */
  lemma {:induction false} DemoFoldSettled(t: Tables, s0: DemoRun, ms: seq<nat>, maxRules: int, i: nat)
    requires forall j :: 0 <= j < |ms| ==> ms[j] in t.measurements
    requires MeasurementRefs(t.measurements, t.sites, t.pollutants)
    requires KeysBelow(s0.rules, s0.nextRule)
    requires i <= |ms|
    requires DemoFold(t, s0, ms[..i], maxRules).error.Some? || DemoFold(t, s0, ms[..i], maxRules).created >= maxRules
    ensures DemoFold(t, s0, ms, maxRules) == DemoFold(t, s0, ms[..i], maxRules)
    decreases |ms| - i
  {
    if i < |ms| {
      assert ms[..|ms| - 1][..i] == ms[..i];
      DemoFoldSettled(t, s0, ms[..|ms| - 1], maxRules, i);
    } else {
      assert ms[..i] == ms;
    }
  }

  /** While the run goes on, one more measurement is one more step. */
  lemma DemoFoldExtend(t: Tables, s0: DemoRun, ms: seq<nat>, maxRules: int, i: nat)
    requires forall j :: 0 <= j < |ms| ==> ms[j] in t.measurements
    requires MeasurementRefs(t.measurements, t.sites, t.pollutants)
    requires KeysBelow(s0.rules, s0.nextRule)
    requires i < |ms|
    requires DemoFold(t, s0, ms[..i], maxRules).error.None? && DemoFold(t, s0, ms[..i], maxRules).created < maxRules
    ensures DemoFold(t, s0, ms[..i + 1], maxRules) == DemoStep(t, DemoFold(t, s0, ms[..i], maxRules), ms[i])
  {
    assert ms[..i + 1][..i] == ms[..i];
  }

  /** Every measurement, ranked by `measured_at`. */
  function MeasuredAt(measurements: map<nat, Measurement>): (r: map<nat, int>)
    ensures r.Keys == measurements.Keys
    ensures forall k :: k in r ==> r[k] == measurements[k].measuredAt
  {
    map k | k in measurements :: measurements[k].measuredAt
  }

  /** `Measurement.objects.order_by("-measured_at")`. */
  function NewestFirst(t: Tables): (r: seq<nat>)
    ensures forall i :: 0 <= i < |r| ==> r[i] in t.measurements
  {
    OrderedKeys(MeasuredAt(t.measurements), t.nextMeasurement)
  }

  function DemoStart(t: Tables): DemoRun
  {
    DemoRun(t.rules, t.nextRule, DemoPairs(t.rules), 0, None)
  }

  /** `ensure_demo_alert_rules(max_rules)` as a function of the database:
      the number of rules created (or the error that ended the run) and the
      database afterwards. The run is not a transaction: rules created
      before an error stay. */
  function DemoRulesEnsured(t: Tables, maxRules: int): (r: (Result<nat>, Tables))
    requires KeysBelow(t.rules, t.nextRule) && MeasurementRefs(t.measurements, t.sites, t.pollutants)
    ensures r.1 == t.(rules := r.1.rules, nextRule := r.1.nextRule)
  {
    if |DemoRuleKeys(t.rules)| >= maxRules then (Ok(0), t)
    else
      var f := DemoFold(t, DemoStart(t), NewestFirst(t), maxRules);
      (if f.error.Some? then Err(f.error.value) else Ok(f.created), t.(rules := f.rules, nextRule := f.nextRule))
  }

  /** `ensure_demo_alert_rules(max_rules)` on the database. */
  method EnsureDemoAlertRules(db: Db, maxRules: int) returns (r: Result<nat>)
    requires KeysBelow(db.tables.rules, db.tables.nextRule)
    requires MeasurementRefs(db.tables.measurements, db.tables.sites, db.tables.pollutants)
    modifies db
    ensures (r, db.tables) == DemoRulesEnsured(old(db.tables), maxRules)
  {
    var existing := DemoRuleKeys(db.tables.rules);
    if |existing| >= maxRules {
      return Ok(0);
    }
    ghost var t0 := db.tables;
    var created: nat := 0;
    var seen := DemoPairs(db.tables.rules);
    var measurements := NewestFirst(db.tables);
    var error: Option<Exception> := None;
    var i := 0;
    while i < |measurements| && error.None? && created < maxRules
      invariant 0 <= i <= |measurements|
      invariant db.tables == t0.(rules := db.tables.rules, nextRule := db.tables.nextRule)
      invariant DemoFold(t0, DemoStart(t0), measurements[..i], maxRules)
        == DemoRun(db.tables.rules, db.tables.nextRule, seen, created, error)
    {
      DemoFoldExtend(t0, DemoStart(t0), measurements, maxRules, i);
      seen, created, error := VisitMeasurement(db, t0, measurements[i], seen, created);
      assert DemoFold(t0, DemoStart(t0), measurements[..i + 1], maxRules)
        == DemoRun(db.tables.rules, db.tables.nextRule, seen, created, error);
      i := i + 1;
    }
    if i < |measurements| {
      DemoFoldSettled(t0, DemoStart(t0), measurements, maxRules, i);
    } else {
      assert measurements[..i] == measurements;
    }
    r := if error.Some? then Err(error.value) else Ok(created);
  }

  /** One pass of the loop body, for measurement `k`: the pair check, the
      rule's name, external id and threshold, and its get-or-create. */
  method VisitMeasurement(db: Db, ghost t0: Tables, k: nat, seen: set<(nat, nat)>, created: nat)
    returns (seen': set<(nat, nat)>, created': nat, error: Option<Exception>)
    requires db.tables == t0.(rules := db.tables.rules, nextRule := db.tables.nextRule)
    requires k in t0.measurements && MeasurementRefs(t0.measurements, t0.sites, t0.pollutants)
    requires KeysBelow(db.tables.rules, db.tables.nextRule)
    modifies db
    ensures db.tables == t0.(rules := db.tables.rules, nextRule := db.tables.nextRule)
    ensures DemoStep(t0, DemoRun(old(db.tables).rules, old(db.tables).nextRule, seen, created, None), k)
      == DemoRun(db.tables.rules, db.tables.nextRule, seen', created', error)
  {
    var m := db.tables.measurements[k];
    var pair := (m.site, m.pollutant);
    if pair in seen {
      return seen, created, None;
    }
    seen' := seen + {pair};
    var ruleName := DemoRuleName(db.tables.sites[m.site], db.tables.pollutants[m.pollutant]);
    var externalId := DemoExternalId(m.site, m.pollutant);
    var threshold := DemoThreshold(m.value);
    var rule, isNew := GetOrCreateRule(db, m.site, m.pollutant, ruleName, externalId, threshold);
    if rule.Err? {
      return seen', created, Some(rule.error);
    }
    created' := if isNew then created + 1 else created;
    error := None;
  }

  /** `get_or_create` of a demo rule on the database. */
  method GetOrCreateRule(db: Db, site: nat, pollutant: nat, name: string, externalId: string, threshold: int)
    returns (r: Result<nat>, created: bool)
    requires KeysBelow(db.tables.rules, db.tables.nextRule)
    modifies db
    ensures var g := RuleGotOrCreated(old(db.tables).rules, old(db.tables).nextRule, site, pollutant, name, externalId, threshold);
      r == g.0 && created == g.1 && db.tables == old(db.tables).(rules := g.2, nextRule := g.3)
  {
    var found := RuleNamed(db.tables.rules, db.tables.nextRule, site, pollutant, name);
    if found.Some? {
      return Ok(found.value), false;
    }
    if ExternalIdTaken(db.tables.rules, externalId) {
      return Err(IntegrityError(RULE_EXTERNAL_ID_UNIQUE)), false;
    }
    var k := db.tables.nextRule;
    db.tables := db.tables.(rules := db.tables.rules[k := Rule(site, pollutant, name, externalId, threshold, ABOVE, true)],
                            nextRule := k + 1);
    r, created := Ok(k), true;
  }
  // ------------------------------------------------------- what a run does

  function PairOf(t: Tables, k: nat): (nat, nat)
    requires k in t.measurements
  {
    (t.measurements[k].site, t.measurements[k].pollutant)
  }

  function RulePair(rule: Rule): (nat, nat)
  {
    (rule.site, rule.pollutant)
  }

  /** `ms[j]` is the first measurement of its pair in `ms`. */
  predicate FirstOfPair(t: Tables, ms: seq<nat>, j: nat)
    requires forall i :: 0 <= i < |ms| ==> ms[i] in t.measurements
    requires j < |ms|
  {
    forall i :: 0 <= i < j ==> PairOf(t, ms[i]) != PairOf(t, ms[j])
  }

  /** `rule` is the demo rule of the first measurement of some pair in `ms`. */
  predicate DemoRuleFrom(t: Tables, ms: seq<nat>, rule: Rule)
    requires forall i :: 0 <= i < |ms| ==> ms[i] in t.measurements
    requires MeasurementRefs(t.measurements, t.sites, t.pollutants)
  {
    exists j :: 0 <= j < |ms| && FirstOfPair(t, ms, j) && rule == DemoRuleOf(t, ms[j])
  }

  /** Pair `p` already has a demo rule, or a rule with its demo name. */
  predicate Covered(t: Tables, rules: map<nat, Rule>, p: (nat, nat))
  {
    p in DemoPairs(t.rules)
    || (p.0 in t.sites && p.1 in t.pollutants
        && exists k :: k in rules && rules[k].site == p.0 && rules[k].pollutant == p.1
                       && rules[k].name == DemoRuleName(t.sites[p.0], t.pollutants[p.1]))
  }

  /** The rules of `t` are kept, and the new ones take the keys from
      `t.nextRule` on, one per rule created. */
  predicate Grown(t: Tables, s: DemoRun)
  {
    && s.nextRule == t.nextRule + s.created
    && (forall k :: k in t.rules ==> k in s.rules && s.rules[k] == t.rules[k])
    && (forall k :: k in s.rules ==> k in t.rules || t.nextRule <= k < s.nextRule)
    && (forall k :: t.nextRule <= k < s.nextRule ==> k in s.rules)
  }

  /** Every new rule is the demo rule of a pair seen first in `ms`, which no
      demo rule of `t` covered, and no two new rules share a pair. */
  predicate NewRulesShape(t: Tables, ms: seq<nat>, s: DemoRun)
    requires forall i :: 0 <= i < |ms| ==> ms[i] in t.measurements
    requires MeasurementRefs(t.measurements, t.sites, t.pollutants)
  {
    && (forall k :: t.nextRule <= k < s.nextRule && k in s.rules ==>
          DemoRuleFrom(t, ms, s.rules[k]) && RulePair(s.rules[k]) in s.seen
          && RulePair(s.rules[k]) !in DemoPairs(t.rules))
    && (forall a, b :: t.nextRule <= a < b < s.nextRule && a in s.rules && b in s.rules ==>
          RulePair(s.rules[a]) != RulePair(s.rules[b]))
  }

  /** The seen pairs hold the pairs of the demo rules of `t`; they are all
      covered unless the run failed; and while the run goes on they hold
      every pair of `ms`. */
  predicate SeenShape(t: Tables, ms: seq<nat>, maxRules: int, s: DemoRun)
    requires forall i :: 0 <= i < |ms| ==> ms[i] in t.measurements
  {
    && DemoPairs(t.rules) <= s.seen
    && (s.error.None? ==> forall p :: p in s.seen ==> Covered(t, s.rules, p))
    && (s.error.None? && s.created < maxRules ==> forall i :: 0 <= i < |ms| ==> PairOf(t, ms[i]) in s.seen)
  }

  /** What holds of the run after the measurements `ms`. */
  predicate DemoProgress(t: Tables, ms: seq<nat>, maxRules: int, s: DemoRun)
    requires forall i :: 0 <= i < |ms| ==> ms[i] in t.measurements
    requires MeasurementRefs(t.measurements, t.sites, t.pollutants)
  {
    && KeysBelow(s.rules, s.nextRule) && s.created <= maxRules
    && (s.error.Some? ==> s.error == Some(IntegrityError(RULE_EXTERNAL_ID_UNIQUE)))
    && Grown(t, s) && NewRulesShape(t, ms, s) && SeenShape(t, ms, maxRules, s)
  }

  lemma DemoStartProgress(t: Tables, maxRules: int)
    requires KeysBelow(t.rules, t.nextRule) && MeasurementRefs(t.measurements, t.sites, t.pollutants)
    requires maxRules >= 0
    ensures DemoProgress(t, [], maxRules, DemoStart(t))
  {
  }

  /** A first occurrence stays one when measurements are appended. */
  lemma DemoRuleFromExtends(t: Tables, ms: seq<nat>, k: nat, rule: Rule)
    requires forall i :: 0 <= i < |ms| ==> ms[i] in t.measurements
    requires k in t.measurements && MeasurementRefs(t.measurements, t.sites, t.pollutants)
    requires DemoRuleFrom(t, ms, rule)
    ensures DemoRuleFrom(t, ms + [k], rule)
  {
    var j :| 0 <= j < |ms| && FirstOfPair(t, ms, j) && rule == DemoRuleOf(t, ms[j]);
    var ms' := ms + [k];
    assert ms'[j] == ms[j];
    assert FirstOfPair(t, ms', j) by {
      forall i | 0 <= i < j ensures PairOf(t, ms'[i]) != PairOf(t, ms'[j]) {
        assert ms'[i] == ms[i];
      }
    }
  }

  /** The new rules keep their shape when a measurement is appended and
      pairs are marked seen without a rule being created. */
  lemma ShapeExtends(t: Tables, ms: seq<nat>, s: DemoRun, k: nat, s': DemoRun)
    requires forall i :: 0 <= i < |ms| ==> ms[i] in t.measurements
    requires k in t.measurements && MeasurementRefs(t.measurements, t.sites, t.pollutants)
    requires NewRulesShape(t, ms, s)
    requires s'.rules == s.rules && s'.nextRule == s.nextRule && s.seen <= s'.seen
    ensures NewRulesShape(t, ms + [k], s')
  {
    forall r | t.nextRule <= r < s.nextRule && r in s.rules
      ensures DemoRuleFrom(t, ms + [k], s.rules[r])
    {
      DemoRuleFromExtends(t, ms, k, s.rules[r]);
    }
  }

  /** Once the run has stopped, a further measurement keeps its progress. */
  lemma SettledProgress(t: Tables, ms: seq<nat>, maxRules: int, s: DemoRun, k: nat)
    requires forall i :: 0 <= i < |ms| ==> ms[i] in t.measurements
    requires k in t.measurements && MeasurementRefs(t.measurements, t.sites, t.pollutants)
    requires DemoProgress(t, ms, maxRules, s)
    requires s.error.Some? || s.created >= maxRules
    ensures DemoProgress(t, ms + [k], maxRules, s)
  {
    ShapeExtends(t, ms, s, k, s);
  }

  /** The pairs of `ms + [k]` are seen when those of `ms` and `k`'s are. */
  lemma SeenExtends(t: Tables, ms: seq<nat>, seen: set<(nat, nat)>, k: nat)
    requires forall i :: 0 <= i < |ms| ==> ms[i] in t.measurements
    requires k in t.measurements
    requires forall i :: 0 <= i < |ms| ==> PairOf(t, ms[i]) in seen
    requires PairOf(t, k) in seen
    ensures forall i :: 0 <= i < |ms + [k]| ==> PairOf(t, (ms + [k])[i]) in seen
  {
    forall i | 0 <= i < |ms + [k]| ensures PairOf(t, (ms + [k])[i]) in seen {
      if i < |ms| {
        assert (ms + [k])[i] == ms[i];
      }
    }
  }

  /** A skipped measurement keeps the progress. */
  lemma SkipProgress(t: Tables, ms: seq<nat>, maxRules: int, s: DemoRun, k: nat)
    requires forall i :: 0 <= i < |ms| ==> ms[i] in t.measurements
    requires k in t.measurements && MeasurementRefs(t.measurements, t.sites, t.pollutants)
    requires DemoProgress(t, ms, maxRules, s)
    requires PairOf(t, k) in s.seen
    ensures DemoProgress(t, ms + [k], maxRules, s)
  {
    ShapeExtends(t, ms, s, k, s);
    if s.error.None? && s.created < maxRules {
      SeenExtends(t, ms, s.seen, k);
    }
  }

  /** Covering survives a rule added under a fresh key. */
  lemma CoveredGrows(t: Tables, rules: map<nat, Rule>, n: nat, rule: Rule, p: (nat, nat))
    requires n !in rules && Covered(t, rules, p)
    ensures Covered(t, rules[n := rule], p)
  {
    if p !in DemoPairs(t.rules) {
      var k :| k in rules && rules[k].site == p.0 && rules[k].pollutant == p.1
               && rules[k].name == DemoRuleName(t.sites[p.0], t.pollutants[p.1]);
      assert rules[n := rule][k] == rules[k];
    }
  }

  /** Finding an existing rule with the pair's demo name keeps the progress:
      the pair becomes seen and covered. */
  lemma GotProgress(t: Tables, ms: seq<nat>, maxRules: int, s: DemoRun, k: nat, found: nat)
    requires forall i :: 0 <= i < |ms| ==> ms[i] in t.measurements
    requires k in t.measurements && MeasurementRefs(t.measurements, t.sites, t.pollutants)
    requires DemoProgress(t, ms, maxRules, s)
    requires s.error.None? && s.created < maxRules
    requires found in s.rules && s.rules[found].site == DemoRuleOf(t, k).site
      && s.rules[found].pollutant == DemoRuleOf(t, k).pollutant && s.rules[found].name == DemoRuleOf(t, k).name
    ensures DemoProgress(t, ms + [k], maxRules, s.(seen := s.seen + {PairOf(t, k)}))
  {
    var s' := s.(seen := s.seen + {PairOf(t, k)});
    ShapeExtends(t, ms, s, k, s');
    assert Covered(t, s'.rules, PairOf(t, k));
    SeenExtends(t, ms, s'.seen, k);
  }

  /** A failed create keeps the progress: the run stops with the error. */
  lemma FailedProgress(t: Tables, ms: seq<nat>, maxRules: int, s: DemoRun, k: nat, e: Exception)
    requires forall i :: 0 <= i < |ms| ==> ms[i] in t.measurements
    requires k in t.measurements && MeasurementRefs(t.measurements, t.sites, t.pollutants)
    requires DemoProgress(t, ms, maxRules, s)
    requires e == IntegrityError(RULE_EXTERNAL_ID_UNIQUE)
    ensures DemoProgress(t, ms + [k], maxRules, s.(seen := s.seen + {PairOf(t, k)}, error := Some(e)))
  {
    ShapeExtends(t, ms, s, k, s.(seen := s.seen + {PairOf(t, k)}, error := Some(e)));
  }

  /** The state after creating the demo rule of measurement `k`. */
  function Created(t: Tables, s: DemoRun, k: nat): DemoRun
    requires k in t.measurements && MeasurementRefs(t.measurements, t.sites, t.pollutants)
  {
    DemoRun(s.rules[s.nextRule := DemoRuleOf(t, k)], s.nextRule + 1, s.seen + {PairOf(t, k)}, s.created + 1, None)
  }

  lemma CreatedGrown(t: Tables, s: DemoRun, k: nat)
    requires k in t.measurements && MeasurementRefs(t.measurements, t.sites, t.pollutants)
    requires KeysBelow(s.rules, s.nextRule) && Grown(t, s)
    ensures Grown(t, Created(t, s, k))
  {
  }

  lemma CreatedIsFirst(t: Tables, ms: seq<nat>, maxRules: int, s: DemoRun, k: nat)
    requires forall i :: 0 <= i < |ms| ==> ms[i] in t.measurements
    requires k in t.measurements && MeasurementRefs(t.measurements, t.sites, t.pollutants)
    requires SeenShape(t, ms, maxRules, s)
    requires s.error.None? && s.created < maxRules && PairOf(t, k) !in s.seen
    ensures DemoRuleFrom(t, ms + [k], DemoRuleOf(t, k))
  {
    var ms' := ms + [k];
    assert ms'[|ms|] == k;
    forall i | 0 <= i < |ms| ensures PairOf(t, ms'[i]) != PairOf(t, ms'[|ms|]) {
      assert ms'[i] == ms[i];
    }
    assert FirstOfPair(t, ms', |ms|);
  }

  lemma CreatedRules(t: Tables, ms: seq<nat>, maxRules: int, s: DemoRun, k: nat)
    requires forall i :: 0 <= i < |ms| ==> ms[i] in t.measurements
    requires k in t.measurements && MeasurementRefs(t.measurements, t.sites, t.pollutants)
    requires KeysBelow(s.rules, s.nextRule) && NewRulesShape(t, ms, s) && SeenShape(t, ms, maxRules, s)
    requires s.error.None? && s.created < maxRules && PairOf(t, k) !in s.seen
    ensures var s' := Created(t, s, k);
      forall r :: t.nextRule <= r < s'.nextRule && r in s'.rules ==>
        DemoRuleFrom(t, ms + [k], s'.rules[r]) && RulePair(s'.rules[r]) in s'.seen
        && RulePair(s'.rules[r]) !in DemoPairs(t.rules)
  {
    var n := s.nextRule;
    var s' := Created(t, s, k);
    CreatedIsFirst(t, ms, maxRules, s, k);
    forall r | t.nextRule <= r < s'.nextRule && r in s'.rules
      ensures DemoRuleFrom(t, ms + [k], s'.rules[r]) && RulePair(s'.rules[r]) in s'.seen
        && RulePair(s'.rules[r]) !in DemoPairs(t.rules)
    {
      if r < n {
        DemoRuleFromExtends(t, ms, k, s.rules[r]);
      }
    }
  }

  lemma CreatedShape(t: Tables, ms: seq<nat>, maxRules: int, s: DemoRun, k: nat)
    requires forall i :: 0 <= i < |ms| ==> ms[i] in t.measurements
    requires k in t.measurements && MeasurementRefs(t.measurements, t.sites, t.pollutants)
    requires KeysBelow(s.rules, s.nextRule) && NewRulesShape(t, ms, s) && SeenShape(t, ms, maxRules, s)
    requires s.error.None? && s.created < maxRules && PairOf(t, k) !in s.seen
    ensures NewRulesShape(t, ms + [k], Created(t, s, k))
  {
    var n := s.nextRule;
    var s' := Created(t, s, k);
    CreatedRules(t, ms, maxRules, s, k);
    forall a, b | t.nextRule <= a < b < s'.nextRule && a in s'.rules && b in s'.rules
      ensures RulePair(s'.rules[a]) != RulePair(s'.rules[b])
    {
      if b == n {
        assert RulePair(s.rules[a]) in s.seen;
      }
    }
  }

  lemma CreatedSeen(t: Tables, ms: seq<nat>, maxRules: int, s: DemoRun, k: nat)
    requires forall i :: 0 <= i < |ms| ==> ms[i] in t.measurements
    requires k in t.measurements && MeasurementRefs(t.measurements, t.sites, t.pollutants)
    requires KeysBelow(s.rules, s.nextRule) && SeenShape(t, ms, maxRules, s)
    requires s.error.None? && s.created < maxRules
    ensures SeenShape(t, ms + [k], maxRules, Created(t, s, k))
  {
    var n := s.nextRule;
    var d := DemoRuleOf(t, k);
    var s' := Created(t, s, k);
    var ms' := ms + [k];
    forall p | p in s'.seen ensures Covered(t, s'.rules, p) {
      if p in s.seen {
        CoveredGrows(t, s.rules, n, d, p);
      } else {
        assert s'.rules[n] == d;
      }
    }
    forall i | 0 <= i < |ms'| ensures PairOf(t, ms'[i]) in s'.seen {
      if i < |ms| {
        assert ms'[i] == ms[i];
      }
    }
  }

  /** A created rule keeps the progress: it is the demo rule of the first
      measurement of a pair nothing covered. */
  lemma CreatedProgress(t: Tables, ms: seq<nat>, maxRules: int, s: DemoRun, k: nat)
    requires forall i :: 0 <= i < |ms| ==> ms[i] in t.measurements
    requires k in t.measurements && MeasurementRefs(t.measurements, t.sites, t.pollutants)
    requires DemoProgress(t, ms, maxRules, s)
    requires s.error.None? && s.created < maxRules && PairOf(t, k) !in s.seen
    ensures DemoProgress(t, ms + [k], maxRules, Created(t, s, k))
  {
    CreatedGrown(t, s, k);
    CreatedShape(t, ms, maxRules, s, k);
    CreatedSeen(t, ms, maxRules, s, k);
  }

  /** The four outcomes of one iteration, as states. */
  lemma DemoStepCases(t: Tables, s: DemoRun, k: nat)
    requires k in t.measurements && MeasurementRefs(t.measurements, t.sites, t.pollutants)
    requires KeysBelow(s.rules, s.nextRule) && s.error.None?
    ensures var d := DemoRuleOf(t, k);
      var g := RuleGotOrCreated(s.rules, s.nextRule, d.site, d.pollutant, d.name, d.externalId, d.threshold);
      && (PairOf(t, k) in s.seen ==> DemoStep(t, s, k) == s)
      && (PairOf(t, k) !in s.seen && g.0.Err? ==>
            DemoStep(t, s, k) == s.(seen := s.seen + {PairOf(t, k)}, error := Some(IntegrityError(RULE_EXTERNAL_ID_UNIQUE))))
      && (PairOf(t, k) !in s.seen && g.1 ==> DemoStep(t, s, k) == Created(t, s, k))
      && (PairOf(t, k) !in s.seen && g.0.Ok? && !g.1 ==>
            DemoStep(t, s, k) == s.(seen := s.seen + {PairOf(t, k)}) && g.0.value in s.rules
            && s.rules[g.0.value].site == d.site && s.rules[g.0.value].pollutant == d.pollutant
            && s.rules[g.0.value].name == d.name)
  {
    var d := DemoRuleOf(t, k);
    RuleGotOrCreatedCases(s.rules, s.nextRule, d.site, d.pollutant, d.name, d.externalId, d.threshold);
  }

  /** One iteration keeps the progress. */
  lemma DemoStepProgress(t: Tables, ms: seq<nat>, maxRules: int, s: DemoRun, k: nat)
    requires forall i :: 0 <= i < |ms| ==> ms[i] in t.measurements
    requires k in t.measurements && MeasurementRefs(t.measurements, t.sites, t.pollutants)
    requires DemoProgress(t, ms, maxRules, s)
    requires s.error.None? && s.created < maxRules
    ensures DemoProgress(t, ms + [k], maxRules, DemoStep(t, s, k))
  {
    var d := DemoRuleOf(t, k);
    var g := RuleGotOrCreated(s.rules, s.nextRule, d.site, d.pollutant, d.name, d.externalId, d.threshold);
    DemoStepCases(t, s, k);
    if PairOf(t, k) in s.seen {
      SkipProgress(t, ms, maxRules, s, k);
    } else if g.0.Err? {
      FailedProgress(t, ms, maxRules, s, k, IntegrityError(RULE_EXTERNAL_ID_UNIQUE));
    } else if g.1 {
      CreatedProgress(t, ms, maxRules, s, k);
    } else {
      GotProgress(t, ms, maxRules, s, k, g.0.value);
    }
  }

  /** The whole loop keeps the progress. */
  lemma {:induction false} DemoFoldProgress(t: Tables, ms: seq<nat>, maxRules: int)
    requires forall i :: 0 <= i < |ms| ==> ms[i] in t.measurements
    requires KeysBelow(t.rules, t.nextRule) && MeasurementRefs(t.measurements, t.sites, t.pollutants)
    requires maxRules >= 0
    ensures DemoProgress(t, ms, maxRules, DemoFold(t, DemoStart(t), ms, maxRules))
    decreases |ms|
  {
    if ms == [] {
      DemoStartProgress(t, maxRules);
    } else {
      var ms0 := ms[..|ms| - 1];
      var k := ms[|ms| - 1];
      assert ms == ms0 + [k];
      DemoFoldProgress(t, ms0, maxRules);
      var s := DemoFold(t, DemoStart(t), ms0, maxRules);
      if s.error.Some? || s.created >= maxRules {
        SettledProgress(t, ms0, maxRules, s, k);
      } else {
        DemoStepProgress(t, ms0, maxRules, s, k);
      }
    }
  }
  // ------------------------------------------------------------ validity

  /** The rule table's unique constraints and references, over the sites
      and pollutants of `t`. */
  predicate RulesValid(t: Tables, rules: map<nat, Rule>)
  {
    UniqueRules(rules) && RuleRefs(rules, t.sites, t.pollutants)
  }

  lemma DemoStepValid(t: Tables, s: DemoRun, k: nat)
    requires k in t.measurements && MeasurementRefs(t.measurements, t.sites, t.pollutants)
    requires KeysBelow(s.rules, s.nextRule) && RulesValid(t, s.rules)
    ensures RulesValid(t, DemoStep(t, s, k).rules)
  {
    var d := DemoRuleOf(t, k);
    RuleGotOrCreatedCases(s.rules, s.nextRule, d.site, d.pollutant, d.name, d.externalId, d.threshold);
    RuleGotOrCreatedUnique(s.rules, s.nextRule, d.site, d.pollutant, d.name, d.externalId, d.threshold);
  }

  lemma {:induction false} DemoFoldValid(t: Tables, ms: seq<nat>, maxRules: int)
    requires forall i :: 0 <= i < |ms| ==> ms[i] in t.measurements
    requires KeysBelow(t.rules, t.nextRule) && MeasurementRefs(t.measurements, t.sites, t.pollutants)
    requires RulesValid(t, t.rules)
    ensures RulesValid(t, DemoFold(t, DemoStart(t), ms, maxRules).rules)
    decreases |ms|
  {
    if ms != [] {
      var ms0 := ms[..|ms| - 1];
      DemoFoldValid(t, ms0, maxRules);
      var s := DemoFold(t, DemoStart(t), ms0, maxRules);
      if !(s.error.Some? || s.created >= maxRules) {
        DemoStepValid(t, s, ms[|ms| - 1]);
      }
    }
  }

  /** Replacing the rule table by a valid one that keeps every old key keeps
      the database valid. */
  lemma RulesReplacedValid(t: Tables, rules: map<nat, Rule>, n: nat)
    requires TablesValid(t) && KeysBelow(rules, n) && RulesValid(t, rules)
    requires forall k :: k in t.rules ==> k in rules
    ensures TablesValid(t.(rules := rules, nextRule := n))
  {
  }

  /** A run keeps the database valid, whether it succeeds or fails. */
  lemma DemoRulesEnsuredValid(t: Tables, maxRules: int)
    requires TablesValid(t)
    ensures TablesValid(DemoRulesEnsured(t, maxRules).1)
  {
    if |DemoRuleKeys(t.rules)| < maxRules {
      var ms := NewestFirst(t);
      DemoFoldValid(t, ms, maxRules);
      DemoFoldProgress(t, ms, maxRules);
      var f := DemoFold(t, DemoStart(t), ms, maxRules);
      RulesReplacedValid(t, f.rules, f.nextRule);
    }
  }

  // ------------------------------------------------------------ the result

  /** The count returned is the number of rules added, at most `max_rules`;
      the only error is the external id clash of a create; either way the
      old rules are kept and the new ones take consecutive keys. */
  lemma DemoRulesEnsuredCount(t: Tables, maxRules: int)
    requires TablesValid(t)
    ensures var (r, t1) := DemoRulesEnsured(t, maxRules);
      && (r.Ok? ==> t1.nextRule == t.nextRule + r.value && (r.value == 0 || r.value <= maxRules))
      && (r.Err? ==> r.error == IntegrityError(RULE_EXTERNAL_ID_UNIQUE))
      && (|DemoRuleKeys(t.rules)| >= maxRules ==> r == Ok(0) && t1 == t)
      && (forall k :: k in t.rules ==> k in t1.rules && t1.rules[k] == t.rules[k])
      && (forall k :: k in t1.rules <==> k in t.rules || t.nextRule <= k < t1.nextRule)
  {
    if |DemoRuleKeys(t.rules)| < maxRules {
      DemoFoldProgress(t, NewestFirst(t), maxRules);
    }
  }
  /** `rule` is the demo rule of the newest measurement of a pair that no
      demo rule of `t` covers. */
  predicate NewestDemoRule(t: Tables, rule: Rule)
    requires MeasurementRefs(t.measurements, t.sites, t.pollutants)
  {
    && RulePair(rule) !in DemoPairs(t.rules)
    && exists m :: m in t.measurements && rule == DemoRuleOf(t, m)
         && forall m' :: m' in t.measurements && PairOf(t, m') == PairOf(t, m) ==>
              t.measurements[m'].measuredAt <= t.measurements[m].measuredAt
  }

  /** In the newest-first order, the first measurement of a pair is a newest
      one of that pair. */
  lemma FirstIsNewest(t: Tables, j: nat)
    requires KeysBelow(t.measurements, t.nextMeasurement)
    requires j < |NewestFirst(t)| && FirstOfPair(t, NewestFirst(t), j)
    ensures forall m' :: m' in t.measurements && PairOf(t, m') == PairOf(t, NewestFirst(t)[j]) ==>
      t.measurements[m'].measuredAt <= t.measurements[NewestFirst(t)[j]].measuredAt
  {
    var ms := NewestFirst(t);
    var ranks := MeasuredAt(t.measurements);
    OrderedKeysExact(ranks, t.nextMeasurement);
    forall m' | m' in t.measurements && PairOf(t, m') == PairOf(t, ms[j])
      ensures t.measurements[m'].measuredAt <= t.measurements[ms[j]].measuredAt
    {
      assert m' in ms;
      var j' :| 0 <= j' < |ms| && ms[j'] == m';
      if j' < j {
        assert false;
      } else if j < j' {
        assert ranks[ms[j]] >= ranks[ms[j']];
      }
    }
  }

  lemma NewRuleIsNewest(t: Tables, rule: Rule)
    requires KeysBelow(t.measurements, t.nextMeasurement) && MeasurementRefs(t.measurements, t.sites, t.pollutants)
    requires DemoRuleFrom(t, NewestFirst(t), rule) && RulePair(rule) !in DemoPairs(t.rules)
    ensures NewestDemoRule(t, rule)
  {
    var ms := NewestFirst(t);
    var j :| 0 <= j < |ms| && FirstOfPair(t, ms, j) && rule == DemoRuleOf(t, ms[j]);
    FirstIsNewest(t, j);
  }

  /** Every rule a run creates is the demo rule of the newest measurement of
      a pair that had no demo rule, and no two created rules share a pair. */
  lemma DemoRulesEnsuredNewest(t: Tables, maxRules: int)
    requires TablesValid(t)
    ensures var (_, t1) := DemoRulesEnsured(t, maxRules);
      forall k :: t.nextRule <= k < t1.nextRule ==> k in t1.rules && NewestDemoRule(t, t1.rules[k])
    ensures var (_, t1) := DemoRulesEnsured(t, maxRules);
      forall a, b :: t.nextRule <= a < b < t1.nextRule && a in t1.rules && b in t1.rules ==>
        RulePair(t1.rules[a]) != RulePair(t1.rules[b])
  {
    if |DemoRuleKeys(t.rules)| < maxRules {
      var ms := NewestFirst(t);
      DemoFoldProgress(t, ms, maxRules);
      var f := DemoFold(t, DemoStart(t), ms, maxRules);
      forall k | t.nextRule <= k < f.nextRule ensures k in f.rules && NewestDemoRule(t, f.rules[k]) {
        NewRuleIsNewest(t, f.rules[k]);
      }
    }
  }

  /** A run that ends below `max_rules` without an error leaves every pair
      that has a measurement with a demo rule, or with a rule of its demo
      name. */
  lemma DemoRulesEnsuredCovers(t: Tables, maxRules: int)
    requires TablesValid(t)
    ensures var (r, t1) := DemoRulesEnsured(t, maxRules);
      r.Ok? && |DemoRuleKeys(t.rules)| < maxRules && r.value < maxRules ==>
        forall m :: m in t.measurements ==> Covered(t, t1.rules, PairOf(t, m))
  {
    if |DemoRuleKeys(t.rules)| < maxRules {
      var ms := NewestFirst(t);
      DemoFoldProgress(t, ms, maxRules);
      var f := DemoFold(t, DemoStart(t), ms, maxRules);
      if f.error.None? && f.created < maxRules {
        OrderedKeysExact(MeasuredAt(t.measurements), t.nextMeasurement);
        forall m | m in t.measurements ensures Covered(t, f.rules, PairOf(t, m)) {
          assert m in ms;
          var j :| 0 <= j < |ms| && ms[j] == m;
          assert PairOf(t, ms[j]) in f.seen;
        }
      }
    }
  }
}
