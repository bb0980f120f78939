/** The `sync_air_quality` management command of the air-quality demo: it
    pages through the OpenAQ locations and stores regions and monitoring
    sites, then pages through the measurements taken since the newest one
    stored, stores pollutants and measurements and has each measurement
    evaluated against the alert rules.

    The API is given as the pages it answers (`pages`, page 1 first; a page
    past the last one given is empty), the clock as `now`, the datetime
    parser and the decimal parser for text as functions, and the rows other
    transactions have locked as `locked`. */
module SyncAirQuality {
  import opened Common
  import opened PyValue
  import opened Text
  import opened AirQualityModels
  import AlertServices
  import DemoAlertRules

  const PAGE_LIMIT: nat := 100
  const DAY: int := 86400
  /** How far back a sync reaches when no measurement is stored: 7 days. */
  const FIRST_SYNC_WINDOW: int := 7 * DAY
  /** The window re-evaluated after demo rules were created: 1 day. */
  const RECENT_WINDOW: int := DAY
  const UNIQUE_MEASUREMENT: string := "unique_measurement_per_site_pollutant_timestamp"

  // ---------------------------------------------------------------------
  // Pagination

  /** One response of the API: its status code and its decoded JSON body. */
  datatype Response = Response(status: int, body: Value)

  /** What the API answers for a page past the last one given. */
  const EMPTY_PAGE: Response := Response(200, MappingV(map["results" := ListV([])], ["results"]))

  /** The response to the request for page `page` (counted from 1). */
  function PageAt(pages: seq<Response>, page: nat): (r: Response)
    ensures 1 <= page <= |pages| ==> r == pages[page - 1]
    ensures page > |pages| ==> r == EMPTY_PAGE
  {
    if 1 <= page <= |pages| then pages[page - 1] else EMPTY_PAGE
  }

  /** What `for item in results` yields, or `None` when `results` is not
      iterable: a list its items, a dict its keys, a string its characters
      and bytes their values. */
  function Iterated(results: Value): (r: Option<seq<Value>>)
    ensures results.ListV? ==> r == Some(results.items)
    ensures results.MappingV? ==> r.Some? && |r.value| == |results.order|
    ensures results.StrV? ==> r.Some? && |r.value| == |results.s|
    ensures r.None? <==> results.NoneV? || results.BoolV? || results.IntV? || results.DecimalV? || results.ObjectV?
  {
    match results
    case ListV(xs) => Some(xs)
    case MappingV(_, order) => Some(seq(|order|, i requires 0 <= i < |order| => StrV(order[i])))
    case StrV(s) => Some(seq(|s|, i requires 0 <= i < |s| => StrV([s[i]])))
    case BytesV(d) => Some(seq(|d|, i requires 0 <= i < |d| => IntV(d[i] as int)))
    case _ => None
  }

  /** The results of one response, or the error it raises: a status other
      than 200 and a `results` that is not iterable raise `CommandError`, a
      body that is not a JSON object has no `.get`. */
  function PageItems(response: Response): (r: Result<seq<Value>>)
    ensures response.status != 200 ==> r == Err(CommandError)
    ensures response.status == 200 && !response.body.MappingV? ==> r == Err(AttributeError("get"))
    ensures r.Ok? <==> response.status == 200 && response.body.MappingV?
                       && Iterated(GetOr(response.body.entries, "results", ListV([]))).Some?
    ensures r.Ok? ==> r.value == Iterated(GetOr(response.body.entries, "results", ListV([]))).value
    ensures r.Err? && response.status == 200 && response.body.MappingV? ==> r.error == CommandError
  {
    if response.status != 200 then Err(CommandError)
    else if !response.body.MappingV? then Err(AttributeError("get"))
    else
      match Iterated(GetOr(response.body.entries, "results", ListV([])))
      case None => Err(CommandError)
      case Some(xs) => Ok(xs)
  }

  lemma EmptyPageItems()
    ensures PageItems(EMPTY_PAGE) == Ok([])
  {
  }

  /** The items `_fetch_paginated` yields, the error that ends it, and how
      many pages it requested. */
  datatype Fetched = Fetched(items: seq<Value>, error: Option<Exception>, requests: nat)

  /** Fetching from page `page` on: the page's items, then, when the page
      was full, the items of the pages after it. */
  function FetchFrom(pages: seq<Response>, page: nat): (r: Fetched)
    requires page >= 1
    ensures r.requests >= 1
    decreases |pages| + 1 - page
  {
    match PageItems(PageAt(pages, page))
    case Err(e) => Fetched([], Some(e), 1)
    case Ok(xs) =>
      if |xs| < PAGE_LIMIT then Fetched(xs, None, 1)
      else
        EmptyPageItems();
        var rest := FetchFrom(pages, page + 1);
        Fetched(xs + rest.items, rest.error, rest.requests + 1)
  }

  /** `_fetch_paginated(url)`: requests page 1, 2, ... and collects their
      results until a page has fewer than `PAGE_LIMIT` of them. */
  method FetchPaginated(pages: seq<Response>) returns (items: seq<Value>, error: Option<Exception>, requests: nat)
    ensures Fetched(items, error, requests) == FetchFrom(pages, 1)
  {
    items, error, requests := [], None, 0;
    var page: nat := 1;
    while true
      invariant 1 <= page <= |pages| + 1
      invariant FetchFrom(pages, 1) == Fetched(items + FetchFrom(pages, page).items,
                                               FetchFrom(pages, page).error,
                                               requests + FetchFrom(pages, page).requests)
      decreases |pages| + 1 - page
    {
      FetchFromUnfold(pages, page);
      var response := PageAt(pages, page);
      requests := requests + 1;
      var results := PageItems(response);
      if results.Err? {
        error := Some(results.error);
        return;
      }
      if |results.value| < PAGE_LIMIT {
        items := items + results.value;
        return;
      }
      ghost var rest := FetchFrom(pages, page + 1);
      assert items + (results.value + rest.items) == (items + results.value) + rest.items;
      items := items + results.value;
      page := page + 1;
    }
  }

  /** One request of the fetch: a refused page ends it with its error, a
      short page ends it with its results, and a full page, which is one of
      those given, is followed by the next page. */
  lemma FetchFromUnfold(pages: seq<Response>, page: nat)
    requires 1 <= page
    ensures var f := FetchFrom(pages, page);
      var items := PageItems(PageAt(pages, page));
      && (items.Err? ==> f == Fetched([], Some(items.error), 1))
      && (items.Ok? && |items.value| < PAGE_LIMIT ==> f == Fetched(items.value, None, 1))
      && (items.Ok? && |items.value| >= PAGE_LIMIT ==>
            page <= |pages| &&
            f == Fetched(items.value + FetchFrom(pages, page + 1).items, FetchFrom(pages, page + 1).error,
                         FetchFrom(pages, page + 1).requests + 1))
  {
    EmptyPageItems();
  }

  /** The stop rule: pages are requested in order, every page before the
      last one requested was accepted and full, and the last one was either
      refused, which is the error, or accepted with fewer than
      `PAGE_LIMIT` results. At most one page past those given is
      requested. */
  lemma {:induction false} FetchStops(pages: seq<Response>, page: nat)
    requires 1 <= page <= |pages| + 1
    ensures var f := FetchFrom(pages, page);
      var last := page + f.requests - 1;
      && last <= |pages| + 1
      && (forall q :: page <= q < last ==>
            PageItems(PageAt(pages, q)).Ok? && |PageItems(PageAt(pages, q)).value| >= PAGE_LIMIT)
      && (f.error.None? <==> PageItems(PageAt(pages, last)).Ok?)
      && (f.error.None? ==> |PageItems(PageAt(pages, last)).value| < PAGE_LIMIT)
      && (f.error.Some? ==> f.error.value == PageItems(PageAt(pages, last)).error)
    decreases |pages| + 1 - page
  {
    EmptyPageItems();
    var items := PageItems(PageAt(pages, page));
    if items.Ok? && |items.value| >= PAGE_LIMIT {
      FetchStops(pages, page + 1);
    }
  }

  /** The items fetched are the results of the pages requested, in order:
      when page `page` is full, its results come first. */
  lemma FetchConcatenates(pages: seq<Response>, page: nat)
    requires 1 <= page
    requires PageItems(PageAt(pages, page)).Ok? && |PageItems(PageAt(pages, page)).value| >= PAGE_LIMIT
    ensures FetchFrom(pages, page).items == PageItems(PageAt(pages, page)).value + FetchFrom(pages, page + 1).items
    ensures FetchFrom(pages, page).requests == FetchFrom(pages, page + 1).requests + 1
  {
  }

  /** A failed request ends the fetch with its error and yields nothing of
      its own: a status other than 200 is `CommandError`. */
  lemma FetchRefused(pages: seq<Response>, page: nat)
    requires 1 <= page && PageAt(pages, page).status != 200
    ensures FetchFrom(pages, page) == Fetched([], Some(CommandError), 1)
  {
  }

  // ---------------------------------------------------------------------
  // Regions and monitoring sites

  /** `payload.get(key)`. */
  function Get(p: map<string, Value>, key: string): (v: Value)
    ensures key in p ==> v == p[key]
    ensures key !in p ==> v == NoneV
  {
    GetOr(p, key, NoneV)
  }

  /** The site's external id: `str(payload.get("id") or
      payload.get("locationId"))`, or `None` when the payload is skipped. */
  function LocationKey(p: map<string, Value>): (r: Option<string>)
    ensures r.None? <==> !Truthy(Get(p, "id")) && Get(p, "locationId") == NoneV
    ensures Truthy(Get(p, "id")) ==> r == Some(PyStr(Get(p, "id")))
    ensures !Truthy(Get(p, "id")) && r.Some? ==> r == Some(PyStr(Get(p, "locationId")))
  {
    var id := Or(Get(p, "id"), Get(p, "locationId"));
    if id == NoneV then None else Some(PyStr(id))
  }

  /** `payload.get(first) or payload.get(second) or default`, as text: the
      fallback chain the region name, the site name and the site
      description are made by. */
  function FirstTruthy(p: map<string, Value>, first: string, second: string, default: string): (r: string)
    ensures Truthy(Get(p, first)) ==> r == PyStr(Get(p, first))
    ensures !Truthy(Get(p, first)) && Truthy(Get(p, second)) ==> r == PyStr(Get(p, second))
    ensures !Truthy(Get(p, first)) && !Truthy(Get(p, second)) ==> r == default
  {
    PyStr(Or(Or(Get(p, first), Get(p, second)), StrV(default)))
  }

  /** The region's name: the city, else the country, else "Unknown". */
  function RegionName(p: map<string, Value>): (r: string)
    ensures Truthy(Get(p, "city")) ==> r == PyStr(Get(p, "city"))
    ensures !Truthy(Get(p, "city")) && Truthy(Get(p, "country")) ==> r == PyStr(Get(p, "country"))
    ensures !Truthy(Get(p, "city")) && !Truthy(Get(p, "country")) ==> r == "Unknown"
  {
    FirstTruthy(p, "city", "country", "Unknown")
  }

  /** `payload.get("country", "XX")` as text. */
  function CountryText(p: map<string, Value>): string
  {
    PyStr(GetOr(p, "country", StrV("XX")))
  }

  /** The region's external id `<country>|<region name>`. */
  function RegionKey(p: map<string, Value>): string
  {
    CountryText(p) + ("|" + RegionName(p))
  }

  /** The country part of the key: "XX" only when the payload has no
      `country` at all; a `country` of None gives "None". */
  lemma RegionKeyCountry(p: map<string, Value>)
    ensures "country" !in p ==> RegionKey(p) == "XX" + ("|" + RegionName(p))
    ensures "country" in p && p["country"].StrV? ==> RegionKey(p) == p["country"].s + ("|" + RegionName(p))
    ensures "country" in p && p["country"] == NoneV ==> RegionKey(p) == "None" + ("|" + RegionName(p))
  {
  }

  /** Two payloads whose countries hold no `|` share a region key only when
      they agree on the country and on the region name. */
  lemma RegionKeyInjective(p: map<string, Value>, q: map<string, Value>)
    requires DemoAlertRules.NoBar(CountryText(p)) && DemoAlertRules.NoBar(CountryText(q))
    requires RegionKey(p) == RegionKey(q)
    ensures CountryText(p) == CountryText(q) && RegionName(p) == RegionName(q)
  {
    DemoAlertRules.SplitAtBar(CountryText(p), RegionName(p), CountryText(q), RegionName(q));
  }

  /** The site's name: the payload's `name`, else its `location`, else the
      region's name. */
  function SiteName(p: map<string, Value>, regionName: string): (r: string)
    ensures Truthy(Get(p, "name")) ==> r == PyStr(Get(p, "name"))
    ensures !Truthy(Get(p, "name")) && Truthy(Get(p, "location")) ==> r == PyStr(Get(p, "location"))
    ensures !Truthy(Get(p, "name")) && !Truthy(Get(p, "location")) ==> r == regionName
  {
    FirstTruthy(p, "name", "location", regionName)
  }

  /** The site's location description: `description`, else `address`, else
      empty. */
  function SiteDescription(p: map<string, Value>): (r: string)
    ensures Truthy(Get(p, "description")) ==> r == PyStr(Get(p, "description"))
    ensures !Truthy(Get(p, "description")) && Truthy(Get(p, "address")) ==> r == PyStr(Get(p, "address"))
    ensures !Truthy(Get(p, "description")) && !Truthy(Get(p, "address")) ==> r == ""
  {
    FirstTruthy(p, "description", "address", "")
  }

  /** The two tables `sync_sites` writes. */
  datatype SiteStore = SiteStore(regions: map<nat, Region>, nextRegion: nat, sites: map<nat, Site>, nextSite: nat)

  function SitesOf(t: Tables): SiteStore
  {
    SiteStore(t.regions, t.nextRegion, t.sites, t.nextSite)
  }

  /** The database with its region and site tables replaced by `s`. */
  function WithSites(t: Tables, s: SiteStore): (r: Tables)
    ensures SitesOf(r) == s
    ensures r == t.(regions := r.regions, nextRegion := r.nextRegion, sites := r.sites, nextSite := r.nextSite)
  {
    t.(regions := s.regions, nextRegion := s.nextRegion, sites := s.sites, nextSite := s.nextSite)
  }

  /** The state of `sync_sites` between payloads: its two caches (region
      key to region, site external id to site) and its two counters. */
  datatype SiteRun = SiteRun(regionsByKey: map<string, nat>, sitesById: map<string, nat>, regionCount: nat, siteCount: nat)

  const NO_SITES_YET: SiteRun := SiteRun(map[], map[], 0, 0)

  function RegionExternalId(r: Region): string { r.externalId }
  function SiteExternalId(s: Site): string { s.externalId }

  /** What the site pass relies on and keeps: counters above the keys,
      every site's region exists, and every cache entry is an existing row
      with that external id. */
  predicate SitesReady(t: SiteStore, run: SiteRun)
  {
    && KeysBelow(t.regions, t.nextRegion) && KeysBelow(t.sites, t.nextSite) && SiteRefs(t.sites, t.regions)
    && (forall k :: k in run.regionsByKey ==> run.regionsByKey[k] in t.regions && t.regions[run.regionsByKey[k]].externalId == k)
    && (forall k :: k in run.sitesById ==> run.sitesById[k] in t.sites && t.sites[run.sitesById[k]].externalId == k)
  }

  /** The region step of one location: a cached region is renamed when its
      name differs; otherwise the region is updated or created by its key,
      cached and counted. The region afterwards has the payload's name and
      key. */
  function RegionSynced(t: SiteStore, run: SiteRun, key: string, name: string): (r: Result<(nat, SiteRun, SiteStore)>)
    requires SitesReady(t, run)
    ensures r.Ok? ==> SitesReady(r.value.2, r.value.1)
    ensures r.Ok? ==> r.value.2.sites == t.sites && r.value.2.nextSite == t.nextSite
    ensures r.Ok? ==> r.value.1.sitesById == run.sitesById && r.value.1.siteCount == run.siteCount
    ensures r.Ok? ==> r.value.0 in r.value.2.regions && r.value.2.regions[r.value.0] == Region(name, key)
    ensures r.Ok? ==> r.value.1.regionsByKey == run.regionsByKey[key := r.value.0]
    ensures r.Ok? ==> forall k :: k in t.regions && k != r.value.0 ==> k in r.value.2.regions && r.value.2.regions[k] == t.regions[k]
    ensures r.Err? ==> key !in run.regionsByKey && r.error == MultipleObjectsReturned
  {
    if key in run.regionsByKey then
      var pk := run.regionsByKey[key];
      if t.regions[pk].name != name then
        Ok((pk, run.(regionCount := run.regionCount + 1), t.(regions := t.regions[pk := Region(name, key)])))
      else
        Ok((pk, run, t))
    else
      match Lookup(t.regions, t.nextRegion, RegionExternalId, key)
      case Err(e) => Err(e)
      case Ok(found) =>
        var pk := if found.Some? then found.value else t.nextRegion;
        var run' := run.(regionsByKey := run.regionsByKey[key := pk], regionCount := run.regionCount + 1);
        if found.Some? then
          Ok((pk, run', t.(regions := t.regions[pk := Region(name, key)])))
        else
          Ok((pk, run', t.(regions := t.regions[pk := Region(name, key)], nextRegion := pk + 1)))
  }

  /** The region counter: a cached region counts only when it is renamed,
      which is when its name differs; a region not cached yet always
      counts. */
  lemma RegionCounted(t: SiteStore, run: SiteRun, key: string, name: string)
    requires SitesReady(t, run)
    ensures var r := RegionSynced(t, run, key, name);
      && (key in run.regionsByKey ==> r.Ok? && r.value.0 == run.regionsByKey[key])
      && (key in run.regionsByKey && t.regions[run.regionsByKey[key]].name == name ==> r.value.1 == run && r.value.2 == t)
      && (key in run.regionsByKey && t.regions[run.regionsByKey[key]].name != name ==>
            r.value.1.regionCount == run.regionCount + 1 && r.value.2 != t)
      && (key !in run.regionsByKey && r.Ok? ==> r.value.1.regionCount == run.regionCount + 1)
  {
    if key in run.regionsByKey {
      var pk := run.regionsByKey[key];
      if t.regions[pk].name != name {
        var r := RegionSynced(t, run, key, name);
        assert r.value.2.regions[pk].name != t.regions[pk].name;
      }
    }
  }

  /** A region not cached yet is only created when no region has its key;
      otherwise that region is renamed in place. */
  lemma RegionCreatedOnlyWhenNew(t: SiteStore, run: SiteRun, key: string, name: string)
    requires SitesReady(t, run) && key !in run.regionsByKey
    ensures var r := RegionSynced(t, run, key, name);
      && (r.Ok? && r.value.0 !in t.regions <==> forall j :: j in t.regions ==> t.regions[j].externalId != key)
      && (r.Ok? && r.value.0 !in t.regions ==> r.value.0 == t.nextRegion && r.value.2.nextRegion == t.nextRegion + 1)
      && (r.Ok? && r.value.0 in t.regions ==> t.regions[r.value.0].externalId == key && r.value.2.nextRegion == t.nextRegion)
  {
    var found := Lookup(t.regions, t.nextRegion, RegionExternalId, key);
    if found == Ok(None) {
      assert t.nextRegion !in t.regions;
    }
  }

  /** The fields of a site a payload sets. */
  predicate SiteMatches(s: Site, region: nat, name: string, description: string)
  {
    s.region == region && s.name == name && s.locationDescription == description
  }

  /** The site step of one location: a cached site is saved, and counted,
      only when its name, its description or its region differs; otherwise
      the site is updated or created by its external id, cached and
      counted. The site afterwards has the payload's fields. */
  function SiteSynced(t: SiteStore, run: SiteRun, key: string, region: nat, name: string, description: string)
    : (r: Result<(SiteRun, SiteStore)>)
    requires SitesReady(t, run) && region in t.regions
    ensures r.Ok? ==> SitesReady(r.value.1, r.value.0)
    ensures r.Ok? ==> r.value.1.regions == t.regions && r.value.1.nextRegion == t.nextRegion
    ensures r.Ok? ==> r.value.0.regionsByKey == run.regionsByKey && r.value.0.regionCount == run.regionCount
    ensures r.Ok? ==> key in r.value.0.sitesById && r.value.0.sitesById[key] in r.value.1.sites
    ensures r.Ok? ==> t.sites.Keys <= r.value.1.sites.Keys
    ensures r.Err? ==> key !in run.sitesById && r.error == MultipleObjectsReturned
  {
    var row := Site(region, name, key, description);
    if key in run.sitesById then
      var pk := run.sitesById[key];
      if !SiteMatches(t.sites[pk], region, name, description) then
        Ok((run.(siteCount := run.siteCount + 1), t.(sites := t.sites[pk := row])))
      else
        Ok((run, t))
    else
      match Lookup(t.sites, t.nextSite, SiteExternalId, key)
      case Err(e) => Err(e)
      case Ok(found) =>
        var pk := if found.Some? then found.value else t.nextSite;
        var run' := run.(sitesById := run.sitesById[key := pk], siteCount := run.siteCount + 1);
        if found.Some? then
          Ok((run', t.(sites := t.sites[pk := row])))
        else
          Ok((run', t.(sites := t.sites[pk := row], nextSite := pk + 1)))
  }

  /** After the site step the site of `key` has exactly the payload's
      fields, every other site is unchanged, and the cache gained `key`. */
  lemma SiteWritten(t: SiteStore, run: SiteRun, key: string, region: nat, name: string, description: string)
    requires SitesReady(t, run) && region in t.regions
    requires SiteSynced(t, run, key, region, name, description).Ok?
    ensures var r := SiteSynced(t, run, key, region, name, description).value;
      var pk := r.0.sitesById[key];
      && r.1.sites[pk] == Site(region, name, key, description)
      && r.0.sitesById.Keys == run.sitesById.Keys + {key}
      && (forall k :: k in t.sites && k != pk ==> k in r.1.sites && r.1.sites[k] == t.sites[k])
  {
  }

  /** The site counter: a cached site is written, and counted, exactly when
      one of the fields the payload sets differs; a site not cached yet
      always counts. */
  lemma SiteCounted(t: SiteStore, run: SiteRun, key: string, region: nat, name: string, description: string)
    requires SitesReady(t, run) && region in t.regions
    ensures var r := SiteSynced(t, run, key, region, name, description);
      && (key in run.sitesById ==> r.Ok? && r.value.0.sitesById == run.sitesById)
      && (key in run.sitesById && SiteMatches(t.sites[run.sitesById[key]], region, name, description) ==>
            r.value.0 == run && r.value.1 == t)
      && (key in run.sitesById && !SiteMatches(t.sites[run.sitesById[key]], region, name, description) ==>
            r.value.0.siteCount == run.siteCount + 1 && r.value.1 != t)
      && (key !in run.sitesById && r.Ok? ==> r.value.0.siteCount == run.siteCount + 1)
  {
    if key in run.sitesById {
      var pk := run.sitesById[key];
      if !SiteMatches(t.sites[pk], region, name, description) {
        var r := SiteSynced(t, run, key, region, name, description);
        assert SiteMatches(r.value.1.sites[pk], region, name, description);
      }
    }
  }

  /** One location payload of `sync_sites`: skipped without an id;
      otherwise its region, then its site. A payload that is not a JSON
      object, and a lookup that matches several rows, raise: what was
      written before stays. */
  function LocationStep(s: SiteStore, run: SiteRun, item: Value): (r: (Result<SiteRun>, SiteStore))
    requires SitesReady(s, run)
    ensures r.0.Ok? ==> SitesReady(r.1, r.0.value)
    ensures s.sites.Keys <= r.1.sites.Keys
  {
    if !item.MappingV? then (Err(AttributeError("get")), s)
    else
      var p := item.entries;
      match LocationKey(p)
      case None => (Ok(run), s)
      case Some(siteKey) =>
        var regionName := RegionName(p);
        var region := RegionSynced(s, run, RegionKey(p), regionName);
        if region.Err? then (Err(region.error), s)
        else
          var (pk, run1, s1) := region.value;
          var site := SiteSynced(s1, run1, siteKey, pk, SiteName(p, regionName), SiteDescription(p));
          if site.Err? then (Err(site.error), s1) else (Ok(site.value.0), site.value.1)
  }

  /** A payload without an id changes nothing. */
  lemma LocationStepSkips(s: SiteStore, run: SiteRun, item: Value)
    requires SitesReady(s, run) && item.MappingV? && LocationKey(item.entries).None?
    ensures LocationStep(s, run, item) == (Ok(run), s)
  {
  }

  /** What one accepted location leaves behind: its region, under its key,
      holds the region name; its site, under its id, holds the site name,
      the description and that region; both are cached. */
  lemma LocationStepWrites(s: SiteStore, run: SiteRun, item: Value)
    requires SitesReady(s, run) && item.MappingV? && LocationKey(item.entries).Some?
    requires LocationStep(s, run, item).0.Ok?
    ensures var p := item.entries;
      var r := LocationStep(s, run, item);
      var key := LocationKey(p).value;
      && RegionKey(p) in r.0.value.regionsByKey && key in r.0.value.sitesById
      && var region := r.0.value.regionsByKey[RegionKey(p)];
         && r.1.regions[region] == Region(RegionName(p), RegionKey(p))
         && r.1.sites[r.0.value.sitesById[key]] == Site(region, SiteName(p, RegionName(p)), key, SiteDescription(p))
  {
    var p := item.entries;
    var region := RegionSynced(s, run, RegionKey(p), RegionName(p));
    var (pk, run1, s1) := region.value;
    SiteWritten(s1, run1, LocationKey(p).value, pk, SiteName(p, RegionName(p)), SiteDescription(p));
  }

  /** Within one run, the same location payload a second time writes
      nothing and counts nothing: its region and site are cached and already
      hold its fields. */
  lemma LocationStepAgain(s: SiteStore, run: SiteRun, item: Value)
    requires SitesReady(s, run)
    requires LocationStep(s, run, item).0.Ok?
    ensures var r := LocationStep(s, run, item);
      LocationStep(r.1, r.0.value, item) == r
  {
    var p := item.entries;
    if LocationKey(p).Some? {
      var r := LocationStep(s, run, item);
      LocationStepWrites(s, run, item);
      var regionKey := RegionKey(p);
      RegionCounted(r.1, r.0.value, regionKey, RegionName(p));
      var pk := r.0.value.regionsByKey[regionKey];
      var key := LocationKey(p).value;
      SiteCounted(r.1, r.0.value, key, pk, SiteName(p, RegionName(p)), SiteDescription(p));
    }
  }

  /** `sync_sites` over the payloads `items`, in order, from the state
      `(s, run)`: the first error ends it. */
  function SitesFold(s: SiteStore, run: SiteRun, items: seq<Value>): (r: (Result<SiteRun>, SiteStore))
    requires SitesReady(s, run)
    ensures r.0.Ok? ==> SitesReady(r.1, r.0.value)
    ensures s.sites.Keys <= r.1.sites.Keys
    decreases |items|
  {
    if items == [] then (Ok(run), s)
    else
      var f := SitesFold(s, run, items[..|items| - 1]);
      if f.0.Err? then f else LocationStep(f.1, f.0.value, items[|items| - 1])
  }

  /** After an error the remaining payloads are not looked at. */
  lemma {:induction false} SitesFoldStopsOnError(s: SiteStore, run: SiteRun, items: seq<Value>, i: nat)
    requires SitesReady(s, run) && i <= |items|
    requires SitesFold(s, run, items[..i]).0.Err?
    ensures SitesFold(s, run, items) == SitesFold(s, run, items[..i])
    decreases |items|
  {
    if i < |items| {
      assert items[..|items| - 1][..i] == items[..i];
      SitesFoldStopsOnError(s, run, items[..|items| - 1], i);
    } else {
      assert items[..i] == items;
    }
  }

  /** `sync_sites()` as a function of the database: the caches and counters
      it returns, or the error it raises, and the database afterwards. The
      items of the pages before a refused page are processed first. There
      is no transaction: the writes before an error stay. */
  function SitesSynced(t: Tables, pages: seq<Response>): (r: (Result<SiteRun>, Tables))
    requires SitesReady(SitesOf(t), NO_SITES_YET)
    ensures r.0.Ok? ==> SitesReady(SitesOf(r.1), r.0.value)
    ensures t.sites.Keys <= r.1.sites.Keys
    ensures r.1 == t.(regions := r.1.regions, nextRegion := r.1.nextRegion, sites := r.1.sites, nextSite := r.1.nextSite)
  {
    var fetched := FetchFrom(pages, 1);
    var f := SitesFold(SitesOf(t), NO_SITES_YET, fetched.items);
    (if f.0.Ok? && fetched.error.Some? then Err(fetched.error.value) else f.0, WithSites(t, f.1))
  }

  /** `sync_sites()`. */
  method SyncSites(db: Db, pages: seq<Response>) returns (r: Result<SiteRun>)
    requires SitesReady(SitesOf(db.tables), NO_SITES_YET)
    modifies db
    ensures (r, db.tables) == SitesSynced(old(db.tables), pages)
  {
    var items, error, _ := FetchPaginated(pages);
    ghost var t0 := db.tables;
    var run := NO_SITES_YET;
    var failure: Option<Exception> := None;
    var i := 0;
    while i < |items| && failure.None?
      invariant 0 <= i <= |items|
      invariant SitesFold(SitesOf(t0), NO_SITES_YET, items[..i]).0 == (if failure.None? then Ok(run) else Err(failure.value))
      invariant db.tables == WithSites(t0, SitesFold(SitesOf(t0), NO_SITES_YET, items[..i]).1)
    {
      assert items[..i + 1][..i] == items[..i];
      var step := SyncLocation(db, run, items[i]);
      if step.Err? {
        failure := Some(step.error);
      } else {
        run := step.value;
      }
      i := i + 1;
    }
    if i < |items| {
      SitesFoldStopsOnError(SitesOf(t0), NO_SITES_YET, items, i);
    } else {
      assert items[..i] == items;
    }
    if failure.Some? {
      return Err(failure.value);
    }
    if error.Some? {
      return Err(error.value);
    }
    r := Ok(run);
  }

  /** The body of the location loop, for one payload. */
  method SyncLocation(db: Db, run: SiteRun, payload: Value) returns (r: Result<SiteRun>)
    requires SitesReady(SitesOf(db.tables), run)
    modifies db
    ensures var g := LocationStep(SitesOf(old(db.tables)), run, payload);
      r == g.0 && db.tables == WithSites(old(db.tables), g.1)
  {
    if !payload.MappingV? {
      return Err(AttributeError("get"));
    }
    var p := payload.entries;
    var locationId := LocationKey(p);
    if locationId.None? {
      return Ok(run);
    }
    var regionName := RegionName(p);
    var region := SyncRegion(db, run, RegionKey(p), regionName);
    if region.Err? {
      return Err(region.error);
    }
    var pk, run1 := region.value.0, region.value.1;
    r := SyncSite(db, run1, locationId.value, pk, SiteName(p, regionName), SiteDescription(p));
  }

  /** The region part of the loop body. */
  method SyncRegion(db: Db, run: SiteRun, key: string, name: string) returns (r: Result<(nat, SiteRun)>)
    requires SitesReady(SitesOf(db.tables), run)
    modifies db
    ensures var g := RegionSynced(SitesOf(old(db.tables)), run, key, name);
      && (g.Ok? ==> r == Ok((g.value.0, g.value.1)) && db.tables == WithSites(old(db.tables), g.value.2))
      && (g.Err? ==> r == Err(g.error) && db.tables == old(db.tables))
  {
    if key in run.regionsByKey {
      var pk := run.regionsByKey[key];
      var region := db.tables.regions[pk];
      if region.name != name {
        db.tables := db.tables.(regions := db.tables.regions[pk := region.(name := name)]);
        return Ok((pk, run.(regionCount := run.regionCount + 1)));
      }
      return Ok((pk, run));
    }
    var found := Lookup(db.tables.regions, db.tables.nextRegion, RegionExternalId, key);
    if found.Err? {
      return Err(found.error);
    }
    var pk: nat;
    if found.value.Some? {
      pk := found.value.value;
      db.tables := db.tables.(regions := db.tables.regions[pk := db.tables.regions[pk].(name := name)]);
    } else {
      pk := db.tables.nextRegion;
      db.tables := db.tables.(regions := db.tables.regions[pk := Region(name, key)], nextRegion := pk + 1);
    }
    r := Ok((pk, run.(regionsByKey := run.regionsByKey[key := pk], regionCount := run.regionCount + 1)));
  }

  /** The site part of the loop body on the site tables: a cached site
      collects the fields that differ and is saved only when there is one;
      any other site is updated or created by its external id. */
  method SiteStep(store: SiteStore, run: SiteRun, key: string, region: nat, name: string, description: string)
    returns (r: Result<(SiteRun, SiteStore)>)
    requires SitesReady(store, run) && region in store.regions
    ensures r == SiteSynced(store, run, key, region, name, description)
  {
    if key in run.sitesById {
      var pk := run.sitesById[key];
      var site := store.sites[pk];
      var updated := site;
      if site.name != name {
        updated := updated.(name := name);
      }
      if site.locationDescription != description {
        updated := updated.(locationDescription := description);
      }
      if site.region != region {
        updated := updated.(region := region);
      }
      if updated != site {
        return Ok((run.(siteCount := run.siteCount + 1), store.(sites := store.sites[pk := updated])));
      }
      return Ok((run, store));
    }
    var found := Lookup(store.sites, store.nextSite, SiteExternalId, key);
    if found.Err? {
      return Err(found.error);
    }
    var row := Site(region, name, key, description);
    var run' := run.(sitesById := run.sitesById[key := if found.value.Some? then found.value.value else store.nextSite],
                     siteCount := run.siteCount + 1);
    if found.value.Some? {
      r := Ok((run', store.(sites := store.sites[found.value.value := row])));
    } else {
      r := Ok((run', store.(sites := store.sites[store.nextSite := row], nextSite := store.nextSite + 1)));
    }
  }

  /** The site part of the loop body, saved to the database. */
  method SyncSite(db: Db, run: SiteRun, key: string, region: nat, name: string, description: string)
    returns (r: Result<SiteRun>)
    requires SitesReady(SitesOf(db.tables), run) && region in db.tables.regions
    modifies db
    ensures var g := SiteSynced(SitesOf(old(db.tables)), run, key, region, name, description);
      && (g.Ok? ==> r == Ok(g.value.0) && db.tables == WithSites(old(db.tables), g.value.1))
      && (g.Err? ==> r == Err(g.error) && db.tables == old(db.tables))
  {
    var g := SiteStep(SitesOf(db.tables), run, key, region, name, description);
    if g.Err? {
      return Err(g.error);
    }
    db.tables := WithSites(db.tables, g.value.1);
    r := Ok(g.value.0);
  }

  // ---------------------------------------------------------------------
  // Measurements

  /** The start of the measurement window: the `measured_at` of the newest
      stored measurement, or 7 days before `now` when none is stored. */
  function FetchStart(t: Tables, now: int): int
  {
    var newest := DemoAlertRules.NewestFirst(t);
    if newest == [] then now - FIRST_SYNC_WINDOW else t.measurements[newest[0]].measuredAt
  }

  /** The window starts at the latest time a stored measurement was taken,
      and only an empty table falls back to the clock. */
  lemma FetchStartIsNewest(t: Tables, now: int)
    requires KeysBelow(t.measurements, t.nextMeasurement)
    ensures t.measurements == map[] ==> FetchStart(t, now) == now - FIRST_SYNC_WINDOW
    ensures t.measurements != map[] ==> exists k :: k in t.measurements && t.measurements[k].measuredAt == FetchStart(t, now)
    ensures forall k :: k in t.measurements ==> t.measurements[k].measuredAt <= FetchStart(t, now)
  {
    var ranks := DemoAlertRules.MeasuredAt(t.measurements);
    var newest := DemoAlertRules.NewestFirst(t);
    OrderedKeysExact(ranks, t.nextMeasurement);
    if t.measurements != map[] {
      var k :| k in t.measurements;
      assert k in newest;
      assert newest[0] in t.measurements;
    }
    forall k | k in t.measurements ensures t.measurements[k].measuredAt <= FetchStart(t, now) {
      assert k in newest;
      var i :| 0 <= i < |newest| && newest[i] == k;
      if i > 0 {
        assert ranks[newest[0]] >= ranks[newest[i]];
      }
    }
  }

  /** What `parse_datetime` makes of a text: no match of its formats
      (`None`), a well-formed text that is no valid time (`ValueError`), or
      a time. */
  datatype ParsedTime = Unmatched | OutOfRange | At(time: int)

  /** The outside parts the measurement pass consults: the datetime parser,
      the parser of decimal text (`Decimal(str)`, in thousandths), and the
      rules whose alert another transaction has locked. */
  datatype Oracles = Oracles(parse: string -> ParsedTime, decimalText: string -> Option<int>, locked: set<nat>)

  /** The fields of an accepted measurement payload. */
  datatype Reading = Reading(id: Value, location: Value, parameter: Value, unit: Value, value: Value, measuredAt: int)

  /** `payload.get("date", {})`. */
  function DateInfo(p: map<string, Value>): Value
  {
    GetOr(p, "date", MappingV(map[], []))
  }

  /** `date_info.get("utc") or date_info.get("local")`. */
  function RawTime(d: map<string, Value>): (v: Value)
    ensures Truthy(Get(d, "utc")) ==> v == Get(d, "utc")
    ensures !Truthy(Get(d, "utc")) ==> v == Get(d, "local")
  {
    Or(Get(d, "utc"), Get(d, "local"))
  }

  /** The payload lacks one of the keys a measurement needs. */
  predicate LacksKeys(p: map<string, Value>)
  {
    Get(p, "id") == NoneV || Get(p, "locationId") == NoneV || Get(p, "parameter") == NoneV
  }

  /** The reasons a measurement payload is skipped, in the order they are
      checked: a missing key, a missing value, no timestamp, a timestamp the
      parser does not match. */
  predicate Skipped(p: map<string, Value>, d: map<string, Value>, parse: string -> ParsedTime)
  {
    LacksKeys(p) || Get(p, "value") == NoneV || !Truthy(RawTime(d)) || parse(PyStr(RawTime(d))).Unmatched?
  }

  /** The first part of the measurement loop body: read the payload, skip
      it (`Ok(None)`), or accept it. A payload or a `date` that is not a
      JSON object has no `.get`, and a well-formed but invalid timestamp
      raises. */
  function Screen(item: Value, parse: string -> ParsedTime): (r: Result<Option<Reading>>)
    ensures !item.MappingV? ==> r == Err(AttributeError("get"))
    ensures item.MappingV? && !DateInfo(item.entries).MappingV? ==> r == Err(AttributeError("get"))
    ensures r == Ok(None) <==>
      item.MappingV? && DateInfo(item.entries).MappingV? && Skipped(item.entries, DateInfo(item.entries).entries, parse)
    ensures r.Err? && item.MappingV? && DateInfo(item.entries).MappingV? ==>
      r.error.ValueError? && parse(PyStr(RawTime(DateInfo(item.entries).entries))) == OutOfRange
    ensures r.Ok? && r.value.Some? ==>
      var p := item.entries;
      && r.value.value == Reading(Get(p, "id"), Get(p, "locationId"), Get(p, "parameter"), Get(p, "unit"), Get(p, "value"),
                                  r.value.value.measuredAt)
      && !LacksKeys(p) && Get(p, "value") != NoneV
      && parse(PyStr(RawTime(DateInfo(p).entries))) == At(r.value.value.measuredAt)
  {
    if !item.MappingV? then Err(AttributeError("get"))
    else
      var p := item.entries;
      var date := DateInfo(p);
      if !date.MappingV? then Err(AttributeError("get"))
      else
        var raw := RawTime(date.entries);
        if LacksKeys(p) then Ok(None)
        else if Get(p, "value") == NoneV then Ok(None)
        else if !Truthy(raw) then Ok(None)
        else
          match parse(PyStr(raw))
          case Unmatched => Ok(None)
          case OutOfRange => Err(ValueError("invalid datetime"))
          case At(time) =>
            Ok(Some(Reading(Get(p, "id"), Get(p, "locationId"), Get(p, "parameter"), Get(p, "unit"), Get(p, "value"), time)))
  }

  /** The site cache holds, for each location key, the stored site with
      that external id. */
  predicate SiteCache(cache: map<string, nat>, sites: map<nat, Site>)
  {
    forall k :: k in cache ==> cache[k] in sites && sites[cache[k]].externalId == k
  }

  /** The site of a measurement: from the run's cache, or looked up by its
      external id and then cached; `Ok(None)` when no site has it. */
  function SiteResolved(sites: map<nat, Site>, n: nat, cache: map<string, nat>, key: string)
    : (r: Result<Option<(nat, map<string, nat>)>>)
    requires KeysBelow(sites, n) && SiteCache(cache, sites)
    ensures r.Ok? && r.value.Some? ==>
      && r.value.value.0 in sites && sites[r.value.value.0].externalId == key
      && r.value.value.1 == cache[key := r.value.value.0] && SiteCache(r.value.value.1, sites)
    ensures key in cache ==> r == Ok(Some((cache[key], cache)))
    ensures key !in cache ==> (r == Ok(None) <==> forall j :: j in sites ==> sites[j].externalId != key)
    ensures r.Err? ==> key !in cache && r.error == MultipleObjectsReturned
  {
    if key in cache then Ok(Some((cache[key], cache)))
    else
      match Lookup(sites, n, SiteExternalId, key)
      case Err(e) => Err(e)
      case Ok(found) => if found.None? then Ok(None) else Ok(Some((found.value, cache[key := found.value])))
  }

  /** `parameter` as the pollutant's external id: a key that cannot be
      hashed fails the cache lookup, and one that is no string has no
      `.replace`. */
  function ParameterText(v: Value): (r: Result<string>)
    ensures v.StrV? <==> r.Ok?
    ensures v.StrV? ==> r.value == v.s
  {
    match v
    case StrV(s) => Ok(s)
    case ListV(_) => Err(TypeError("unhashable type"))
    case MappingV(_, _) => Err(TypeError("unhashable type"))
    case BytesV(_) => Err(TypeError("a bytes-like object is required"))
    case _ => Err(AttributeError("replace"))
  }

  function PollutantExternalId(p: Pollutant): string { p.externalId }

  /** Each entry of the pollutant cache is the row with that external id. */
  predicate CacheRows(cache: map<string, nat>, ps: map<nat, Pollutant>)
  {
    forall k :: k in cache ==> cache[k] in ps && ps[cache[k]].externalId == k
  }

  /** The pollutant cache agrees with the pollutant table: each entry is
      the row with that external id, and every row has an entry. */
  predicate Mirrors(cache: map<string, nat>, ps: map<nat, Pollutant>)
  {
    CacheRows(cache, ps) && forall j :: j in ps ==> ps[j].externalId in cache
  }

  /** `{p.external_id: p for p in Pollutant.objects.all()}`, the rows taken
      in key order. */
  function PollutantIndex(ps: map<nat, Pollutant>, n: nat): map<string, nat>
  {
    if n == 0 then map[]
    else
      var c := PollutantIndex(ps, n - 1);
      if n - 1 in ps then c[ps[n - 1].externalId := n - 1] else c
  }

  lemma {:induction false} PollutantIndexExact(ps: map<nat, Pollutant>, n: nat)
    ensures forall k :: k in PollutantIndex(ps, n) ==>
      PollutantIndex(ps, n)[k] in ps && PollutantIndex(ps, n)[k] < n && ps[PollutantIndex(ps, n)[k]].externalId == k
    ensures forall j :: j in ps && j < n ==> ps[j].externalId in PollutantIndex(ps, n)
  {
    if n > 0 {
      PollutantIndexExact(ps, n - 1);
    }
  }

  /** The initial cache mirrors the table. */
  lemma PollutantIndexMirrors(ps: map<nat, Pollutant>, n: nat)
    requires KeysBelow(ps, n)
    ensures Mirrors(PollutantIndex(ps, n), ps)
  {
    PollutantIndexExact(ps, n);
  }

  /** The pollutant step after a parameter was accepted: outcome, table
      afterwards and cache afterwards. */
  datatype PollutantOutcome = PollutantOutcome(pk: nat, created: bool, ps: map<nat, Pollutant>, n: nat, cache: map<string, nat>)

  /** A new pollutant's row: its name from the parameter, its unit the
      payload's when it has one, else empty. */
  function NewPollutant(parameter: string, unit: Value): (p: Pollutant)
    ensures p.externalId == parameter
  {
    Pollutant(Humanize(parameter), parameter, PyStr(Or(unit, StrV(""))))
  }

  /** The pollutant of `parameter`: a cached one takes the payload's unit
      when that unit is given and differs; an uncached one is got or
      created (named from the parameter) and cached. */
  function PollutantSynced(ps: map<nat, Pollutant>, n: nat, cache: map<string, nat>, parameter: string, unit: Value)
    : (r: Result<PollutantOutcome>)
    requires KeysBelow(ps, n) && CacheRows(cache, ps)
    ensures r.Ok? ==> KeysBelow(r.value.ps, r.value.n) && CacheRows(r.value.cache, r.value.ps)
    ensures r.Ok? && Mirrors(cache, ps) ==> Mirrors(r.value.cache, r.value.ps)
    ensures r.Ok? ==> r.value.pk in r.value.ps && r.value.ps[r.value.pk].externalId == parameter
    ensures r.Ok? ==> r.value.cache == cache[parameter := r.value.pk] && ps.Keys <= r.value.ps.Keys
  {
    if parameter in cache then
      var pk := cache[parameter];
      if Truthy(unit) && ps[pk].unit != PyStr(unit) then
        Ok(PollutantOutcome(pk, false, ps[pk := ps[pk].(unit := PyStr(unit))], n, cache))
      else
        Ok(PollutantOutcome(pk, false, ps, n, cache))
    else
      match Lookup(ps, n, PollutantExternalId, parameter)
      case Err(e) => Err(e)
      case Ok(found) =>
        if found.Some? then Ok(PollutantOutcome(found.value, false, ps, n, cache[parameter := found.value]))
        else Ok(PollutantOutcome(n, true, ps[n := NewPollutant(parameter, unit)], n + 1, cache[parameter := n]))
  }

  /** A parameter the cache does not know names no pollutant at all, so it
      is always created, once, with its humanised name. */
  lemma PollutantMissCreates(ps: map<nat, Pollutant>, n: nat, cache: map<string, nat>, parameter: string, unit: Value)
    requires KeysBelow(ps, n) && Mirrors(cache, ps) && parameter !in cache
    ensures PollutantSynced(ps, n, cache, parameter, unit)
      == Ok(PollutantOutcome(n, true, ps[n := NewPollutant(parameter, unit)], n + 1, cache[parameter := n]))
    ensures NewPollutant(parameter, unit).name == Humanize(parameter)
    ensures !Truthy(unit) ==> NewPollutant(parameter, unit).unit == ""
  {
    var found := Lookup(ps, n, PollutantExternalId, parameter);
    assert found == Ok(None);
  }

  /** A cached pollutant is never created and changes only its unit, and
      only to a given unit that differs. */
  lemma PollutantUnitRule(ps: map<nat, Pollutant>, n: nat, cache: map<string, nat>, parameter: string, unit: Value)
    requires KeysBelow(ps, n) && Mirrors(cache, ps) && parameter in cache
    ensures var r := PollutantSynced(ps, n, cache, parameter, unit);
      var pk := cache[parameter];
      && r.Ok? && r.value.pk == pk && !r.value.created && r.value.n == n && r.value.cache == cache
      && (Truthy(unit) && ps[pk].unit != PyStr(unit) ==> r.value.ps == ps[pk := ps[pk].(unit := PyStr(unit))])
      && (!Truthy(unit) || ps[pk].unit == PyStr(unit) ==> r.value.ps == ps)
  {
  }

  /** `Decimal(str(value))` in thousandths: exact for numbers, the parser's
      reading for text, and `InvalidOperation` for anything else. */
  function DecimalOf(v: Value, decimalText: string -> Option<int>): (r: Result<int>)
    ensures v.IntV? ==> r == Ok(v.i * 1000)
    ensures v.DecimalV? ==> r == Ok(v.thousandths)
    ensures v.StrV? ==> (r.Ok? <==> decimalText(v.s).Some?)
    ensures r.Err? ==> r.error == InvalidOperation
    ensures !(v.IntV? || v.DecimalV? || v.StrV?) ==> r.Err?
  {
    match v
    case IntV(i) => Ok(i * 1000)
    case DecimalV(t) => Ok(t)
    case StrV(s) => if decimalText(s).Some? then Ok(decimalText(s).value) else Err(InvalidOperation)
    case _ => Err(InvalidOperation)
  }

  function MeasurementExternalId(m: Measurement): string { m.externalId }

  /** A measurement other than `pk` has the site, pollutant and time of
      `row`. */
  predicate TimestampTaken(ms: map<nat, Measurement>, pk: nat, row: Measurement)
  {
    exists j :: j in ms && j != pk && ms[j].site == row.site && ms[j].pollutant == row.pollutant && ms[j].measuredAt == row.measuredAt
  }

  /** The outcome of the measurement's `update_or_create`. */
  datatype Upserted = Upserted(pk: nat, created: bool, ms: map<nat, Measurement>, n: nat)

  /** `Measurement.objects.update_or_create(external_id=..., defaults=...)`:
      the measurement of that external id takes the new fields, or is
      created; a row that would share its site, pollutant and time with
      another breaks `unique_measurement_per_site_pollutant_timestamp`. */
  function MeasurementUpserted(ms: map<nat, Measurement>, n: nat, row: Measurement): (r: Result<Upserted>)
    requires KeysBelow(ms, n)
    ensures r.Ok? ==> KeysBelow(r.value.ms, r.value.n) && r.value.pk in r.value.ms && r.value.ms[r.value.pk] == row
    ensures r.Ok? ==> r.value.ms.Keys == ms.Keys + {r.value.pk}
    ensures r.Ok? ==> forall k :: k in ms && k != r.value.pk ==> r.value.ms[k] == ms[k]
    ensures r.Ok? ==> (r.value.created <==> r.value.pk !in ms)
    ensures r.Ok? ==> r.value.n == if r.value.created then n + 1 else n
    ensures r.Ok? ==> !TimestampTaken(ms, r.value.pk, row)
    ensures r.Err? ==> r.error == MultipleObjectsReturned || r.error == IntegrityError(UNIQUE_MEASUREMENT)
  {
    match Lookup(ms, n, MeasurementExternalId, row.externalId)
    case Err(e) => Err(e)
    case Ok(found) =>
      var pk := if found.Some? then found.value else n;
      if TimestampTaken(ms, pk, row) then Err(IntegrityError(UNIQUE_MEASUREMENT))
      else if found.Some? then Ok(Upserted(pk, false, ms[pk := row], n))
      else Ok(Upserted(pk, true, ms[pk := row], n + 1))
  }

  /** A measurement is created exactly when no measurement has its
      external id yet; otherwise that one is updated. */
  lemma MeasurementCreatedOnlyWhenNew(ms: map<nat, Measurement>, n: nat, row: Measurement)
    requires KeysBelow(ms, n) && MeasurementUpserted(ms, n, row).Ok?
    ensures var r := MeasurementUpserted(ms, n, row).value;
      && (r.created <==> forall j :: j in ms ==> ms[j].externalId != row.externalId)
      && (!r.created ==> ms[r.pk].externalId == row.externalId)
  {
  }

  /** The caches and counters `sync_measurements` carries from one payload
      to the next: the site cache it was given (and extends), the pollutant
      cache, and the pollutants and measurements created so far. */
  datatype MeasurementRun = MeasurementRun(sites: map<string, nat>, pollutants: map<string, nat>,
                                           pollutantsCreated: nat, written: nat)

  /** The tables one measurement payload writes. */
  datatype MeasureStore = MeasureStore(pollutants: map<nat, Pollutant>, nextPollutant: nat,
                                       measurements: map<nat, Measurement>, nextMeasurement: nat)

  function MeasuresOf(t: Tables): MeasureStore
  {
    MeasureStore(t.pollutants, t.nextPollutant, t.measurements, t.nextMeasurement)
  }

  /** `t` with the pollutants and measurements of `s`. */
  function WithMeasures(t: Tables, s: MeasureStore): (r: Tables)
    ensures MeasuresOf(r) == s
    ensures r == t.(pollutants := r.pollutants, nextPollutant := r.nextPollutant,
                    measurements := r.measurements, nextMeasurement := r.nextMeasurement)
  {
    t.(pollutants := s.pollutants, nextPollutant := s.nextPollutant,
       measurements := s.measurements, nextMeasurement := s.nextMeasurement)
  }

  /** What the measurement loop relies on: keys below their counters,
      measurements that reference stored sites and pollutants, a site cache
      of stored sites and a pollutant cache that mirrors the table. */
  predicate MeasuresReady(sites: map<nat, Site>, nextSite: nat, s: MeasureStore, run: MeasurementRun)
  {
    && KeysBelow(sites, nextSite) && KeysBelow(s.pollutants, s.nextPollutant)
    && KeysBelow(s.measurements, s.nextMeasurement)
    && MeasurementRefs(s.measurements, sites, s.pollutants)
    && SiteCache(run.sites, sites)
    && Mirrors(run.pollutants, s.pollutants)
  }

  /** The pollutant of an accepted payload's `parameter`. */
  function PollutantOf(s: MeasureStore, cache: map<string, nat>, reading: Reading): (r: Result<PollutantOutcome>)
    requires KeysBelow(s.pollutants, s.nextPollutant) && CacheRows(cache, s.pollutants)
    ensures r.Ok? ==> reading.parameter.StrV? && r == PollutantSynced(s.pollutants, s.nextPollutant, cache, reading.parameter.s, reading.unit)
    ensures !reading.parameter.StrV? ==> r.Err?
  {
    match ParameterText(reading.parameter)
    case Err(e) => Err(e)
    case Ok(parameter) => PollutantSynced(s.pollutants, s.nextPollutant, cache, parameter, reading.unit)
  }

  /** The measurement row of an accepted payload and its upsert. */
  function RowUpserted(ms: map<nat, Measurement>, n: nat, site: nat, pollutant: nat, reading: Reading,
                       decimalText: string -> Option<int>): (r: Result<Upserted>)
    requires KeysBelow(ms, n)
    ensures r.Ok? ==> DecimalOf(reading.value, decimalText).Ok?
    ensures r.Ok? ==> r == MeasurementUpserted(ms, n,
      Measurement(site, pollutant, reading.measuredAt, DecimalOf(reading.value, decimalText).value, PyStr(reading.id)))
  {
    match DecimalOf(reading.value, decimalText)
    case Err(e) => Err(e)
    case Ok(value) => MeasurementUpserted(ms, n, Measurement(site, pollutant, reading.measuredAt, value, PyStr(reading.id)))
  }

  /** An accepted measurement payload once written: the run and the tables
      afterwards, and the key of the measurement. */
  datatype Record = Record(run: MeasurementRun, store: MeasureStore, m: nat)

  /** The caches and counters after a payload was written. */
  function RunAfter(run: MeasurementRun, siteCache: map<string, nat>, po: PollutantOutcome, u: Upserted): MeasurementRun
  {
    MeasurementRun(siteCache, po.cache,
                   run.pollutantsCreated + (if po.created then 1 else 0), run.written + (if u.created then 1 else 0))
  }

  /** The pollutant and the measurement row of an accepted payload whose
      site is `site`, with `siteCache` the site cache afterwards. */
  function ReadingWritten(s: MeasureStore, run: MeasurementRun, site: nat, siteCache: map<string, nat>, reading: Reading,
                          decimalText: string -> Option<int>): (r: Result<Record>)
    requires KeysBelow(s.pollutants, s.nextPollutant) && KeysBelow(s.measurements, s.nextMeasurement)
    requires CacheRows(run.pollutants, s.pollutants)
    ensures r.Ok? ==> r.value.m in r.value.store.measurements
  {
    match PollutantOf(s, run.pollutants, reading)
    case Err(e) => Err(e)
    case Ok(po) =>
      match RowUpserted(s.measurements, s.nextMeasurement, site, po.pk, reading, decimalText)
      case Err(e) => Err(e)
      case Ok(u) => Ok(Record(RunAfter(run, siteCache, po, u), MeasureStore(po.ps, po.n, u.ms, u.n), u.pk))
  }

  /** The writing part of the measurement loop body for an accepted
      payload: resolve the site (`Ok(None)` skips an unknown one), sync the
      pollutant, convert the value and upsert the measurement by its
      external id. */
  function Recorded(sites: map<nat, Site>, nextSite: nat, s: MeasureStore, run: MeasurementRun, reading: Reading,
                    decimalText: string -> Option<int>): (r: Result<Option<Record>>)
    requires MeasuresReady(sites, nextSite, s, run)
    ensures r.Ok? && r.value.Some? ==> r.value.value.m in r.value.value.store.measurements
  {
    match SiteResolved(sites, nextSite, run.sites, PyStr(reading.location))
    case Err(e) => Err(e)
    case Ok(resolved) =>
      if resolved.None? then Ok(None)
      else
        match ReadingWritten(s, run, resolved.value.0, resolved.value.1, reading, decimalText)
        case Err(e) => Err(e)
        case Ok(rec) => Ok(Some(rec))
  }

  lemma MapUpdateCardinality<K, V>(m: map<K, V>, k: K, v: V)
    ensures |m[k := v]| == if k in m then |m| else |m| + 1
  {
    if k in m {
      assert m[k := v].Keys == m.Keys;
    } else {
      assert m[k := v].Keys == m.Keys + {k};
    }
  }

  /** Writing a payload keeps what the loop relies on. */
  lemma RecordedReady(sites: map<nat, Site>, nextSite: nat, s: MeasureStore, run: MeasurementRun, reading: Reading,
                      decimalText: string -> Option<int>)
    requires MeasuresReady(sites, nextSite, s, run)
    requires Recorded(sites, nextSite, s, run, reading, decimalText).Ok?
    requires Recorded(sites, nextSite, s, run, reading, decimalText).value.Some?
    ensures var rec := Recorded(sites, nextSite, s, run, reading, decimalText).value.value;
      MeasuresReady(sites, nextSite, rec.store, rec.run)
  {
    var resolved := SiteResolved(sites, nextSite, run.sites, PyStr(reading.location)).value.value;
    var po := PollutantOf(s, run.pollutants, reading).value;
    var u := RowUpserted(s.measurements, s.nextMeasurement, resolved.0, po.pk, reading, decimalText).value;
    assert MeasurementRefs(u.ms, sites, po.ps) by {
      forall k | k in u.ms ensures u.ms[k].site in sites && u.ms[k].pollutant in po.ps {
        if k != u.pk {
          assert u.ms[k] == s.measurements[k];
        }
      }
    }
  }

  /** The pollutant step creates a row exactly when it reports one, and
      removes none. */
  lemma PollutantCount(ps: map<nat, Pollutant>, n: nat, cache: map<string, nat>, parameter: string, unit: Value)
    requires KeysBelow(ps, n) && Mirrors(cache, ps)
    requires PollutantSynced(ps, n, cache, parameter, unit).Ok?
    ensures var po := PollutantSynced(ps, n, cache, parameter, unit).value;
      |po.ps| == |ps| + (if po.created then 1 else 0) && ps.Keys <= po.ps.Keys
  {
    if parameter in cache {
      PollutantUnitRule(ps, n, cache, parameter, unit);
    } else {
      PollutantMissCreates(ps, n, cache, parameter, unit);
      MapUpdateCardinality(ps, n, NewPollutant(parameter, unit));
    }
  }

  /** Syncing the same parameter and unit a second time changes nothing. */
  lemma PollutantAgain(ps: map<nat, Pollutant>, n: nat, cache: map<string, nat>, parameter: string, unit: Value)
    requires KeysBelow(ps, n) && Mirrors(cache, ps)
    requires PollutantSynced(ps, n, cache, parameter, unit).Ok?
    ensures var po := PollutantSynced(ps, n, cache, parameter, unit).value;
      PollutantSynced(po.ps, po.n, po.cache, parameter, unit) == Ok(po.(created := false))
  {
    if parameter in cache {
      PollutantUnitRule(ps, n, cache, parameter, unit);
    } else {
      PollutantMissCreates(ps, n, cache, parameter, unit);
    }
    var po := PollutantSynced(ps, n, cache, parameter, unit).value;
    PollutantUnitRule(po.ps, po.n, po.cache, parameter, unit);
  }

  /** The upsert creates a row exactly when it reports one, and removes
      none. */
  lemma UpsertedCount(ms: map<nat, Measurement>, n: nat, row: Measurement)
    requires KeysBelow(ms, n) && MeasurementUpserted(ms, n, row).Ok?
    ensures var u := MeasurementUpserted(ms, n, row).value;
      |u.ms| == |ms| + (if u.created then 1 else 0) && ms.Keys <= u.ms.Keys
  {
    var u := MeasurementUpserted(ms, n, row).value;
    assert u.ms == ms[u.pk := row];
    MapUpdateCardinality(ms, u.pk, row);
  }

  /** Upserting the same row a second time finds the row it wrote and
      leaves the table as it is. */
  lemma UpsertedAgain(ms: map<nat, Measurement>, n: nat, row: Measurement)
    requires KeysBelow(ms, n) && MeasurementUpserted(ms, n, row).Ok?
    ensures var u := MeasurementUpserted(ms, n, row).value;
      MeasurementUpserted(u.ms, u.n, row) == Ok(u.(created := false))
  {
    var u := MeasurementUpserted(ms, n, row).value;
    assert u.ms == ms[u.pk := row];
    var found := Lookup(u.ms, u.n, MeasurementExternalId, row.externalId);
    assert MeasurementExternalId(u.ms[u.pk]) == row.externalId;
    assert found == Ok(Some(u.pk));
    assert !TimestampTaken(u.ms, u.pk, row) by {
      forall j | j in u.ms && j != u.pk
        ensures !(u.ms[j].site == row.site && u.ms[j].pollutant == row.pollutant && u.ms[j].measuredAt == row.measuredAt)
      {
        assert u.ms[j] == ms[j];
      }
    }
    assert u.ms[u.pk := row] == u.ms;
  }

  /** The counters count rows: `pollutantsCreated` grows by the number of
      new pollutant rows and `written` by the number of new measurement
      rows, and no row goes away. */
  lemma RecordedCounts(sites: map<nat, Site>, nextSite: nat, s: MeasureStore, run: MeasurementRun, reading: Reading,
                       decimalText: string -> Option<int>)
    requires MeasuresReady(sites, nextSite, s, run)
    requires Recorded(sites, nextSite, s, run, reading, decimalText).Ok?
    requires Recorded(sites, nextSite, s, run, reading, decimalText).value.Some?
    ensures var rec := Recorded(sites, nextSite, s, run, reading, decimalText).value.value;
      && |rec.store.measurements| + run.written == |s.measurements| + rec.run.written
      && |rec.store.pollutants| + run.pollutantsCreated == |s.pollutants| + rec.run.pollutantsCreated
      && s.measurements.Keys <= rec.store.measurements.Keys && s.pollutants.Keys <= rec.store.pollutants.Keys
  {
    var resolved := SiteResolved(sites, nextSite, run.sites, PyStr(reading.location)).value.value;
    var po := PollutantOf(s, run.pollutants, reading).value;
    PollutantCount(s.pollutants, s.nextPollutant, run.pollutants, reading.parameter.s, reading.unit);
    var value := DecimalOf(reading.value, decimalText).value;
    UpsertedCount(s.measurements, s.nextMeasurement, Measurement(resolved.0, po.pk, reading.measuredAt, value, PyStr(reading.id)));
  }

  /** The written row is the payload's: its external id, its time, its
      value, the site of its location and the pollutant of its parameter. */
  lemma RecordedRow(sites: map<nat, Site>, nextSite: nat, s: MeasureStore, run: MeasurementRun, reading: Reading,
                    decimalText: string -> Option<int>)
    requires MeasuresReady(sites, nextSite, s, run)
    requires Recorded(sites, nextSite, s, run, reading, decimalText).Ok?
    requires Recorded(sites, nextSite, s, run, reading, decimalText).value.Some?
    ensures var rec := Recorded(sites, nextSite, s, run, reading, decimalText).value.value;
      var row := rec.store.measurements[rec.m];
      && row.externalId == PyStr(reading.id) && row.measuredAt == reading.measuredAt
      && DecimalOf(reading.value, decimalText) == Ok(row.value)
      && row.site in sites && sites[row.site].externalId == PyStr(reading.location)
      && reading.parameter.StrV? && row.pollutant in rec.store.pollutants
      && rec.store.pollutants[row.pollutant].externalId == reading.parameter.s
  {
  }

  /** A payload already written in this run is written again without
      creating anything: the same measurement keeps the same row, and the
      caches and tables stay as they are. */
  lemma RecordedAgain(sites: map<nat, Site>, nextSite: nat, s: MeasureStore, run: MeasurementRun, reading: Reading,
                      decimalText: string -> Option<int>)
    requires MeasuresReady(sites, nextSite, s, run)
    requires Recorded(sites, nextSite, s, run, reading, decimalText).Ok?
    requires Recorded(sites, nextSite, s, run, reading, decimalText).value.Some?
    ensures var rec := Recorded(sites, nextSite, s, run, reading, decimalText).value.value;
      MeasuresReady(sites, nextSite, rec.store, rec.run) &&
      Recorded(sites, nextSite, rec.store, rec.run, reading, decimalText) == Ok(Some(rec))
  {
    RecordedReady(sites, nextSite, s, run, reading, decimalText);
    var rec := Recorded(sites, nextSite, s, run, reading, decimalText).value.value;
    var resolved := SiteResolved(sites, nextSite, run.sites, PyStr(reading.location)).value.value;
    var po := PollutantOf(s, run.pollutants, reading).value;
    PollutantAgain(s.pollutants, s.nextPollutant, run.pollutants, reading.parameter.s, reading.unit);
    var value := DecimalOf(reading.value, decimalText).value;
    UpsertedAgain(s.measurements, s.nextMeasurement, Measurement(resolved.0, po.pk, reading.measuredAt, value, PyStr(reading.id)));
  }

  /** What the measurement pass relies on, before and after every payload:
      the written tables are ready, and the tables the alert services and
      `ensure_demo_alert_rules` write have keys below their counters. */
  predicate MeasurementsReady(t: Tables, run: MeasurementRun)
  {
    && MeasuresReady(t.sites, t.nextSite, MeasuresOf(t), run)
    && KeysBelow(t.workflows, t.nextWorkflow) && KeysBelow(t.alerts, t.nextAlert) && KeysBelow(t.rules, t.nextRule)
  }

  /** The tables one measurement payload may change. */
  predicate MeasurementSideOnly(t0: Tables, t1: Tables)
  {
    t1 == t0.(pollutants := t1.pollutants, nextPollutant := t1.nextPollutant,
              measurements := t1.measurements, nextMeasurement := t1.nextMeasurement,
              workflows := t1.workflows, nextWorkflow := t1.nextWorkflow, alerts := t1.alerts, nextAlert := t1.nextAlert)
  }

  /** `alert_service.evaluate_measurement(measurement)` after a payload
      was written: only the alert side changes. */
  function RecordEvaluated(t: Tables, ct: nat, rec: Record, locked: set<nat>): (r: Result<(MeasurementRun, Tables)>)
    requires KeysBelow(t.workflows, t.nextWorkflow) && KeysBelow(t.alerts, t.nextAlert)
    requires rec.m in rec.store.measurements
    ensures r.Ok? ==> r.value.0 == rec.run && MeasuresOf(r.value.1) == rec.store && MeasurementSideOnly(t, r.value.1)
    ensures r.Ok? ==> KeysBelow(r.value.1.workflows, r.value.1.nextWorkflow) && KeysBelow(r.value.1.alerts, r.value.1.nextAlert)
  {
    var e := AlertServices.EvaluatedOne(WithMeasures(t, rec.store), ct, rec.m, locked);
    if e.0.Err? then Err(e.0.error) else Ok((rec.run, e.1))
  }

  /** One measurement payload of `sync_measurements`: screened, written and
      then evaluated against the alert rules, with `ct` the content type of
      SiteAlert. A skipped payload changes nothing; the first error ends the
      pass. */
  function MeasurementStep(t: Tables, ct: nat, run: MeasurementRun, item: Value, env: Oracles)
    : (r: Result<(MeasurementRun, Tables)>)
    requires MeasurementsReady(t, run)
    ensures r.Ok? ==> MeasurementsReady(r.value.1, r.value.0) && MeasurementSideOnly(t, r.value.1)
    ensures Screen(item, env.parse) == Ok(None) ==> r == Ok((run, t))
    ensures Screen(item, env.parse).Err? ==> r == Err(Screen(item, env.parse).error)
  {
    match Screen(item, env.parse)
    case Err(e) => Err(e)
    case Ok(screened) =>
      if screened.None? then Ok((run, t))
      else
        match Recorded(t.sites, t.nextSite, MeasuresOf(t), run, screened.value, env.decimalText)
        case Err(e) => Err(e)
        case Ok(recorded) =>
          if recorded.None? then Ok((run, t))
          else
            RecordedReady(t.sites, t.nextSite, MeasuresOf(t), run, screened.value, env.decimalText);
            RecordEvaluated(t, ct, recorded.value, env.locked)
  }

  /** The counters of one payload count the rows it adds. */
  lemma MeasurementStepCounts(t: Tables, ct: nat, run: MeasurementRun, item: Value, env: Oracles)
    requires MeasurementsReady(t, run) && MeasurementStep(t, ct, run, item, env).Ok?
    ensures var (run1, t1) := MeasurementStep(t, ct, run, item, env).value;
      && |t1.measurements| + run.written == |t.measurements| + run1.written
      && |t1.pollutants| + run.pollutantsCreated == |t.pollutants| + run1.pollutantsCreated
  {
    var screened := Screen(item, env.parse);
    if screened.value.Some? {
      var reading := screened.value.value;
      var recorded := Recorded(t.sites, t.nextSite, MeasuresOf(t), run, reading, env.decimalText);
      if recorded.value.Some? {
        RecordedCounts(t.sites, t.nextSite, MeasuresOf(t), run, reading, env.decimalText);
        var rec := recorded.value.value;
        assert MeasurementStep(t, ct, run, item, env) == RecordEvaluated(t, ct, rec, env.locked);
      }
    }
  }

  /** An accepted payload whose site is known leaves its measurement in the
      table, with the payload's id, time and value. */
  lemma MeasurementStepWrites(t: Tables, ct: nat, run: MeasurementRun, item: Value, env: Oracles)
    requires MeasurementsReady(t, run) && MeasurementStep(t, ct, run, item, env).Ok?
    requires Screen(item, env.parse).Ok? && Screen(item, env.parse).value.Some?
    requires SiteResolved(t.sites, t.nextSite, run.sites, PyStr(Screen(item, env.parse).value.value.location)).value.Some?
    ensures var reading := Screen(item, env.parse).value.value;
      var t1 := MeasurementStep(t, ct, run, item, env).value.1;
      exists k :: k in t1.measurements && t1.measurements[k].externalId == PyStr(reading.id)
        && t1.measurements[k].measuredAt == reading.measuredAt
        && DecimalOf(reading.value, env.decimalText) == Ok(t1.measurements[k].value)
  {
    var reading := Screen(item, env.parse).value.value;
    var rec := Recorded(t.sites, t.nextSite, MeasuresOf(t), run, reading, env.decimalText).value.value;
    RecordedRow(t.sites, t.nextSite, MeasuresOf(t), run, reading, env.decimalText);
    assert MeasurementStep(t, ct, run, item, env) == RecordEvaluated(t, ct, rec, env.locked);
    var t1 := MeasurementStep(t, ct, run, item, env).value.1;
    assert t1.measurements == rec.store.measurements;
  }

  /** `sync_measurements` over the payloads `items`, in order. */
  function MeasurementsFold(t: Tables, ct: nat, run: MeasurementRun, items: seq<Value>, env: Oracles)
    : (r: Result<(MeasurementRun, Tables)>)
    requires MeasurementsReady(t, run)
    ensures r.Ok? ==> MeasurementsReady(r.value.1, r.value.0) && MeasurementSideOnly(t, r.value.1)
    decreases |items|
  {
    if items == [] then Ok((run, t))
    else
      match MeasurementsFold(t, ct, run, items[..|items| - 1], env)
      case Err(e) => Err(e)
      case Ok(f) => MeasurementStep(f.1, ct, f.0, items[|items| - 1], env)
  }

  /** After an error the remaining payloads are not looked at. */
  lemma {:induction false} MeasurementsFoldStopsOnError(t: Tables, ct: nat, run: MeasurementRun, items: seq<Value>,
                                                        env: Oracles, i: nat)
    requires MeasurementsReady(t, run) && i <= |items|
    requires MeasurementsFold(t, ct, run, items[..i], env).Err?
    ensures MeasurementsFold(t, ct, run, items, env) == MeasurementsFold(t, ct, run, items[..i], env)
    decreases |items|
  {
    if i < |items| {
      assert items[..|items| - 1][..i] == items[..i];
      MeasurementsFoldStopsOnError(t, ct, run, items[..|items| - 1], env, i);
    } else {
      assert items[..i] == items;
    }
  }

  /** Over the whole pass the counters count the rows added. */
  lemma {:induction false} MeasurementsFoldCounts(t: Tables, ct: nat, run: MeasurementRun, items: seq<Value>, env: Oracles)
    requires MeasurementsReady(t, run) && MeasurementsFold(t, ct, run, items, env).Ok?
    ensures var (run1, t1) := MeasurementsFold(t, ct, run, items, env).value;
      && |t1.measurements| + run.written == |t.measurements| + run1.written
      && |t1.pollutants| + run.pollutantsCreated == |t.pollutants| + run1.pollutantsCreated
    decreases |items|
  {
    if items != [] {
      MeasurementsFoldCounts(t, ct, run, items[..|items| - 1], env);
      var f := MeasurementsFold(t, ct, run, items[..|items| - 1], env).value;
      MeasurementStepCounts(f.1, ct, f.0, items[|items| - 1], env);
    }
  }

  /** What `sync_measurements` needs of the database and of the site cache
      it is given. */
  predicate SyncPrepared(t: Tables, sites: map<string, nat>)
  {
    && KeysBelow(t.sites, t.nextSite) && KeysBelow(t.pollutants, t.nextPollutant)
    && KeysBelow(t.measurements, t.nextMeasurement)
    && KeysBelow(t.workflows, t.nextWorkflow) && KeysBelow(t.alerts, t.nextAlert) && KeysBelow(t.rules, t.nextRule)
    && MeasurementRefs(t.measurements, t.sites, t.pollutants)
    && SiteCache(sites, t.sites)
  }

  /** The run a measurement pass starts from: the site cache it is given
      and the pollutant cache of the whole table. */
  function FirstMeasurementRun(t: Tables, sites: map<string, nat>): (run: MeasurementRun)
    requires SyncPrepared(t, sites)
    ensures MeasurementsReady(t, run) && run.pollutantsCreated == 0 && run.written == 0
  {
    PollutantIndexMirrors(t.pollutants, t.nextPollutant);
    MeasurementRun(sites, PollutantIndex(t.pollutants, t.nextPollutant), 0, 0)
  }

  /** What the demo rules and the re-evaluation need of the database. */
  predicate RulesReady(t: Tables)
  {
    && KeysBelow(t.workflows, t.nextWorkflow) && KeysBelow(t.alerts, t.nextAlert) && KeysBelow(t.rules, t.nextRule)
    && MeasurementRefs(t.measurements, t.sites, t.pollutants)
  }

  /** The part of `sync_measurements` after the transaction: make sure
      the demo rules exist, and when some were created, evaluate the last
      day's measurements against them. The run's counters are returned
      unless one of them fails. */
  function RulesEnsured(t: Tables, ct: nat, run: MeasurementRun, now: int, locked: set<nat>): (r: (Result<(nat, nat)>, Tables))
    requires RulesReady(t)
    ensures r.1 == t.(rules := r.1.rules, nextRule := r.1.nextRule,
                      workflows := r.1.workflows, nextWorkflow := r.1.nextWorkflow, alerts := r.1.alerts, nextAlert := r.1.nextAlert)
    ensures r.0.Ok? ==> r.0.value == (run.pollutantsCreated, run.written)
  {
    var demo := DemoAlertRules.DemoRulesEnsured(t, DemoAlertRules.DEFAULT_MAX_RULES);
    if demo.0.Err? then (Err(demo.0.error), demo.1)
    else if demo.0.value == 0 then (Ok((run.pollutantsCreated, run.written)), demo.1)
    else
      var e := AlertServices.EvaluatedAll(demo.1, ct, AlertServices.RecentMeasurements(demo.1, now - RECENT_WINDOW), locked);
      (if e.0.Err? then Err(e.0.error) else Ok((run.pollutantsCreated, run.written)), e.1)
  }

  /** `sync_measurements(sites)` as a function of the database, with `ct`
      the content type of SiteAlert, `api` the pages the measurements
      endpoint serves for a start time, and `now` the clock: the counters of
      created pollutants and measurements, or the error; and the database
      afterwards. The payload loop runs in one transaction, so its failure,
      or a refused page, leaves the database as it was. */
  function MeasurementsSynced(t: Tables, ct: nat, sites: map<string, nat>, api: int -> seq<Response>, now: int, env: Oracles)
    : (r: (Result<(nat, nat)>, Tables))
    requires SyncPrepared(t, sites)
  {
    var fetched := FetchFrom(api(FetchStart(t, now)), 1);
    match MeasurementsFold(t, ct, FirstMeasurementRun(t, sites), fetched.items, env)
    case Err(e) => (Err(e), t)
    case Ok(f) =>
      if fetched.error.Some? then (Err(fetched.error.value), t)
      else RulesEnsured(f.1, ct, f.0, now, env.locked)
  }

  /** The tables the measurement pass may change. */
  predicate MeasurementPassOnly(t0: Tables, t1: Tables)
  {
    t1 == t0.(pollutants := t1.pollutants, nextPollutant := t1.nextPollutant,
              measurements := t1.measurements, nextMeasurement := t1.nextMeasurement,
              rules := t1.rules, nextRule := t1.nextRule,
              workflows := t1.workflows, nextWorkflow := t1.nextWorkflow, alerts := t1.alerts, nextAlert := t1.nextAlert)
  }

  /** The measurement pass writes pollutants, measurements, demo rules and
      the alert side, and nothing else; and when a payload fails or a page
      is refused, the transaction leaves the database as it was. */
  lemma MeasurementsSyncedFrame(t: Tables, ct: nat, sites: map<string, nat>, api: int -> seq<Response>, now: int, env: Oracles)
    requires SyncPrepared(t, sites)
    ensures MeasurementPassOnly(t, MeasurementsSynced(t, ct, sites, api, now, env).1)
    ensures var fetched := FetchFrom(api(FetchStart(t, now)), 1);
      var f := MeasurementsFold(t, ct, FirstMeasurementRun(t, sites), fetched.items, env);
      f.Err? || fetched.error.Some? ==> MeasurementsSynced(t, ct, sites, api, now, env) == (Err(if f.Err? then f.error else fetched.error.value), t)
  {
  }

  /** The two counters `sync_measurements` returns are the numbers of
      pollutant and measurement rows the pass added. */
  lemma MeasurementsSyncedCounts(t: Tables, ct: nat, sites: map<string, nat>, api: int -> seq<Response>, now: int, env: Oracles)
    requires SyncPrepared(t, sites)
    requires MeasurementsSynced(t, ct, sites, api, now, env).0.Ok?
    ensures var r := MeasurementsSynced(t, ct, sites, api, now, env);
      && |r.1.pollutants| == |t.pollutants| + r.0.value.0
      && |r.1.measurements| == |t.measurements| + r.0.value.1
  {
    var fetched := FetchFrom(api(FetchStart(t, now)), 1);
    var run0 := FirstMeasurementRun(t, sites);
    MeasurementsFoldCounts(t, ct, run0, fetched.items, env);
  }

  /** The pollutant part of the measurement loop body. */
  method SyncPollutant(db: Db, cache: map<string, nat>, parameter: string, unit: Value) returns (r: Result<PollutantOutcome>)
    requires KeysBelow(db.tables.pollutants, db.tables.nextPollutant) && CacheRows(cache, db.tables.pollutants)
    modifies db
    ensures r == PollutantSynced(old(db.tables).pollutants, old(db.tables).nextPollutant, cache, parameter, unit)
    ensures r.Ok? ==> db.tables == old(db.tables).(pollutants := r.value.ps, nextPollutant := r.value.n)
    ensures r.Err? ==> db.tables == old(db.tables)
  {
    var ps, n := db.tables.pollutants, db.tables.nextPollutant;
    if parameter in cache {
      var pk := cache[parameter];
      if Truthy(unit) && ps[pk].unit != PyStr(unit) {
        ps := ps[pk := ps[pk].(unit := PyStr(unit))];
      }
      r := Ok(PollutantOutcome(pk, false, ps, n, cache));
    } else {
      var found := Lookup(ps, n, PollutantExternalId, parameter);
      if found.Err? {
        return Err(found.error);
      }
      if found.value.Some? {
        r := Ok(PollutantOutcome(found.value.value, false, ps, n, cache[parameter := found.value.value]));
      } else {
        r := Ok(PollutantOutcome(n, true, ps[n := NewPollutant(parameter, unit)], n + 1, cache[parameter := n]));
      }
    }
    db.tables := db.tables.(pollutants := r.value.ps, nextPollutant := r.value.n);
  }

  /** `Measurement.objects.update_or_create(...)` of the loop body. */
  method UpsertMeasurement(db: Db, row: Measurement) returns (r: Result<Upserted>)
    requires KeysBelow(db.tables.measurements, db.tables.nextMeasurement)
    modifies db
    ensures r == MeasurementUpserted(old(db.tables).measurements, old(db.tables).nextMeasurement, row)
    ensures r.Ok? ==> db.tables == old(db.tables).(measurements := r.value.ms, nextMeasurement := r.value.n)
    ensures r.Err? ==> db.tables == old(db.tables)
  {
    var ms, n := db.tables.measurements, db.tables.nextMeasurement;
    var found := Lookup(ms, n, MeasurementExternalId, row.externalId);
    if found.Err? {
      return Err(found.error);
    }
    var pk := if found.value.Some? then found.value.value else n;
    if TimestampTaken(ms, pk, row) {
      return Err(IntegrityError(UNIQUE_MEASUREMENT));
    }
    var created := found.value.None?;
    r := Ok(Upserted(pk, created, ms[pk := row], if created then n + 1 else n));
    db.tables := db.tables.(measurements := r.value.ms, nextMeasurement := r.value.n);
  }

  /** The pollutant of an accepted payload, in the loop body. */
  method WritePollutant(db: Db, cache: map<string, nat>, reading: Reading) returns (r: Result<PollutantOutcome>)
    requires KeysBelow(db.tables.pollutants, db.tables.nextPollutant) && CacheRows(cache, db.tables.pollutants)
    modifies db
    ensures r == PollutantOf(MeasuresOf(old(db.tables)), cache, reading)
    ensures r.Ok? ==> db.tables == old(db.tables).(pollutants := r.value.ps, nextPollutant := r.value.n)
  {
    var parameter := ParameterText(reading.parameter);
    if parameter.Err? {
      return Err(parameter.error);
    }
    r := SyncPollutant(db, cache, parameter.value, reading.unit);
  }

  /** The measurement row of an accepted payload, in the loop body. */
  method WriteRow(db: Db, site: nat, pollutant: nat, reading: Reading, decimalText: string -> Option<int>)
    returns (r: Result<Upserted>)
    requires KeysBelow(db.tables.measurements, db.tables.nextMeasurement)
    modifies db
    ensures r == RowUpserted(old(db.tables).measurements, old(db.tables).nextMeasurement, site, pollutant, reading, decimalText)
    ensures r.Ok? ==> db.tables == old(db.tables).(measurements := r.value.ms, nextMeasurement := r.value.n)
  {
    var value := DecimalOf(reading.value, decimalText);
    if value.Err? {
      return Err(value.error);
    }
    r := UpsertMeasurement(db, Measurement(site, pollutant, reading.measuredAt, value.value, PyStr(reading.id)));
  }

  /** The pollutant and measurement part of the loop body. */
  method WriteReading(db: Db, run: MeasurementRun, site: nat, siteCache: map<string, nat>, reading: Reading,
                      decimalText: string -> Option<int>) returns (r: Result<Record>)
    requires KeysBelow(db.tables.pollutants, db.tables.nextPollutant) && KeysBelow(db.tables.measurements, db.tables.nextMeasurement)
    requires CacheRows(run.pollutants, db.tables.pollutants)
    modifies db
    ensures r == ReadingWritten(MeasuresOf(old(db.tables)), run, site, siteCache, reading, decimalText)
    ensures r.Ok? ==> db.tables == WithMeasures(old(db.tables), r.value.store)
  {
    ghost var s0 := MeasuresOf(db.tables);
    var pollutant := WritePollutant(db, run.pollutants, reading);
    if pollutant.Err? {
      return Err(pollutant.error);
    }
    var po := pollutant.value;
    assert db.tables.measurements == s0.measurements && db.tables.nextMeasurement == s0.nextMeasurement;
    var measurement := WriteRow(db, site, po.pk, reading, decimalText);
    if measurement.Err? {
      return Err(measurement.error);
    }
    r := Ok(Record(RunAfter(run, siteCache, po, measurement.value),
                   MeasureStore(po.ps, po.n, measurement.value.ms, measurement.value.n), measurement.value.pk));
  }

  /** The writing part of the measurement loop body for an accepted
      payload. */
  method RecordReading(db: Db, run: MeasurementRun, reading: Reading, decimalText: string -> Option<int>)
    returns (r: Result<Option<Record>>)
    requires MeasuresReady(db.tables.sites, db.tables.nextSite, MeasuresOf(db.tables), run)
    modifies db
    ensures r == Recorded(old(db.tables).sites, old(db.tables).nextSite, MeasuresOf(old(db.tables)), run, reading, decimalText)
    ensures r.Ok? && r.value.Some? ==> db.tables == WithMeasures(old(db.tables), r.value.value.store)
    ensures r.Ok? && r.value.None? ==> db.tables == old(db.tables)
  {
    var site := SiteResolved(db.tables.sites, db.tables.nextSite, run.sites, PyStr(reading.location));
    if site.Err? {
      return Err(site.error);
    }
    if site.value.None? {
      return Ok(None);
    }
    var written := WriteReading(db, run, site.value.value.0, site.value.value.1, reading, decimalText);
    if written.Err? {
      return Err(written.error);
    }
    r := Ok(Some(written.value));
  }

  /** The body of the measurement loop, for one payload. After an error the
      database is left to the transaction to roll back. */
  method SyncMeasurement(db: Db, service: AlertServices.SiteAlertEvaluationService, run: MeasurementRun, payload: Value,
                         env: Oracles) returns (r: Result<MeasurementRun>)
    requires MeasurementsReady(db.tables, run)
    modifies db
    ensures var g := MeasurementStep(old(db.tables), db.alertContentType, run, payload, env);
      && (g.Ok? ==> r == Ok(g.value.0) && db.tables == g.value.1)
      && (g.Err? ==> r == Err(g.error))
  {
    ghost var t0 := db.tables;
    var screened := Screen(payload, env.parse);
    if screened.Err? {
      return Err(screened.error);
    }
    if screened.value.None? {
      return Ok(run);
    }
    var recorded := RecordReading(db, run, screened.value.value, env.decimalText);
    if recorded.Err? {
      return Err(recorded.error);
    }
    if recorded.value.None? {
      return Ok(run);
    }
    var rec := recorded.value.value;
    var evaluation := service.EvaluateMeasurement(db, rec.m, env.locked);
    if evaluation.Err? {
      return Err(evaluation.error);
    }
    r := Ok(rec.run);
  }

  /** The payload loop of `sync_measurements`: the first error ends it,
      and the database it leaves is then rolled back by the caller. */
  method SyncPayloads(db: Db, service: AlertServices.SiteAlertEvaluationService, run0: MeasurementRun, items: seq<Value>,
                      env: Oracles) returns (r: Result<MeasurementRun>)
    requires MeasurementsReady(db.tables, run0)
    modifies db
    ensures var f := MeasurementsFold(old(db.tables), db.alertContentType, run0, items, env);
      && (f.Ok? ==> r == Ok(f.value.0) && db.tables == f.value.1)
      && (f.Err? ==> r == Err(f.error))
  {
    ghost var t0 := db.tables;
    var run := run0;
    var failure: Option<Exception> := None;
    var i := 0;
    while i < |items| && failure.None?
      invariant 0 <= i <= |items|
      invariant MeasurementsFold(t0, db.alertContentType, run0, items[..i], env)
        == if failure.None? then Ok((run, db.tables)) else Err(failure.value)
    {
      assert items[..i + 1][..i] == items[..i];
      var step := SyncMeasurement(db, service, run, items[i], env);
      if step.Err? {
        failure := Some(step.error);
      } else {
        run := step.value;
      }
      i := i + 1;
    }
    if i < |items| {
      MeasurementsFoldStopsOnError(t0, db.alertContentType, run0, items, env, i);
    } else {
      assert items[..i] == items;
    }
    r := if failure.Some? then Err(failure.value) else Ok(run);
  }

  /** `if ensure_demo_alert_rules(): alert_service.evaluate_recent_measurements(window=timedelta(days=1))`. */
  method EnsureRulesAndEvaluate(db: Db, service: AlertServices.SiteAlertEvaluationService, run: MeasurementRun, now: int,
                                locked: set<nat>) returns (r: Result<(nat, nat)>)
    requires RulesReady(db.tables) && service.referenceTime == now
    modifies db
    ensures (r, db.tables) == RulesEnsured(old(db.tables), db.alertContentType, run, now, locked)
  {
    ghost var demo := DemoAlertRules.DemoRulesEnsured(db.tables, DemoAlertRules.DEFAULT_MAX_RULES);
    var created := DemoAlertRules.EnsureDemoAlertRules(db, DemoAlertRules.DEFAULT_MAX_RULES);
    assert (created, db.tables) == demo;
    assert KeysBelow(db.tables.workflows, db.tables.nextWorkflow) && KeysBelow(db.tables.alerts, db.tables.nextAlert);
    if created.Err? {
      r := Err(created.error);
    } else if created.value > 0 {
      var recent := service.EvaluateRecentMeasurements(db, RECENT_WINDOW, locked);
      r := if recent.Err? then Err(recent.error) else Ok((run.pollutantsCreated, run.written));
    } else {
      r := Ok((run.pollutantsCreated, run.written));
    }
  }

  /** `sync_measurements(sites)`, with `now` the one clock reading the
      window start and the alert service use. */
  method SyncMeasurements(db: Db, sites: map<string, nat>, api: int -> seq<Response>, now: int, env: Oracles)
    returns (r: Result<(nat, nat)>)
    requires SyncPrepared(db.tables, sites)
    modifies db
    ensures (r, db.tables) == MeasurementsSynced(old(db.tables), db.alertContentType, sites, api, now, env)
  {
    var since := FetchStart(db.tables, now);
    var service := new AlertServices.SiteAlertEvaluationService(None, now);
    var run := FirstMeasurementRun(db.tables, sites);
    // The state `transaction.atomic()` returns to when the block raises.
    var savepoint := db.tables;
    var items, error, _ := FetchPaginated(api(since));
    var recorded := SyncPayloads(db, service, run, items, env);
    if recorded.Err? {
      db.tables := savepoint;
      return Err(recorded.error);
    }
    if error.Some? {
      db.tables := savepoint;
      return Err(error.value);
    }
    r := EnsureRulesAndEvaluate(db, service, recorded.value, now, env.locked);
  }

  // ---------------------------------------------------------------------
  // The command

  /** The four counters of a run, in the order `as_dict` lists them. */
  datatype SyncCounts = SyncCounts(regions: nat, sites: nat, pollutants: nat, measurements: nat)

  /** `SyncStats.as_dict()` of the counters `c`. */
  function CountsDict(c: SyncCounts): seq<(string, nat)>
  {
    [("regions", c.regions), ("sites", c.sites), ("pollutants", c.pollutants), ("measurements", c.measurements)]
  }

  /** `", ".join(f"{key}={value}" for key, value in entries)`. */
  function Summary(entries: seq<(string, nat)>): string
    decreases |entries|
  {
    if entries == [] then ""
    else
      var first := entries[0].0 + "=" + NatToString(entries[0].1);
      if |entries| == 1 then first else first + ", " + Summary(entries[1..])
  }

  /** The success line `handle` writes. */
  function CompletedLine(c: SyncCounts): string
  {
    "Air quality sync completed: " + Summary(CountsDict(c))
  }

  /** `SyncStats`: the counters reported at the end of a run. */
  class SyncStats {
    var regions: nat
    var sites: nat
    var pollutants: nat
    var measurements: nat

    constructor()
      ensures regions == 0 && sites == 0 && pollutants == 0 && measurements == 0
    {
      regions, sites, pollutants, measurements := 0, 0, 0, 0;
    }

    /** The counters as one value, the entries of `as_dict()` in order. */
    function Counts(): SyncCounts
      reads this
    {
      SyncCounts(regions, sites, pollutants, measurements)
    }

    /** `stats.regions += regions; stats.sites += sites`. */
    method AddSites(regionUpdates: nat, siteUpdates: nat)
      modifies this
      ensures Counts() == old(Counts()).(regions := old(regions) + regionUpdates, sites := old(sites) + siteUpdates)
    {
      regions := regions + regionUpdates;
      sites := sites + siteUpdates;
    }

    /** `stats.pollutants += pollutants; stats.measurements += measurements`. */
    method AddMeasurements(pollutantsCreated: nat, measurementsWritten: nat)
      modifies this
      ensures Counts() == old(Counts()).(pollutants := old(pollutants) + pollutantsCreated,
                                         measurements := old(measurements) + measurementsWritten)
    {
      pollutants := pollutants + pollutantsCreated;
      measurements := measurements + measurementsWritten;
    }
  }

  /** What the command needs of the database: the site pass's
      precondition, and what the measurement pass needs of the tables the
      site pass leaves alone. */
  predicate CommandReady(t: Tables)
  {
    && SitesReady(SitesOf(t), NO_SITES_YET)
    && KeysBelow(t.pollutants, t.nextPollutant) && KeysBelow(t.measurements, t.nextMeasurement)
    && KeysBelow(t.workflows, t.nextWorkflow) && KeysBelow(t.alerts, t.nextAlert) && KeysBelow(t.rules, t.nextRule)
    && MeasurementRefs(t.measurements, t.sites, t.pollutants)
  }

  /** A database with its integrity intact is ready for the command. */
  lemma ValidIsCommandReady(t: Tables)
    requires TablesValid(t)
    ensures CommandReady(t)
  {
  }

  /** After the site pass, the measurement pass may start with the site
      cache it returned. */
  lemma SitesThenMeasurements(t: Tables, locationPages: seq<Response>)
    requires CommandReady(t) && SitesSynced(t, locationPages).0.Ok?
    ensures var s := SitesSynced(t, locationPages);
      SyncPrepared(s.1, s.0.value.sitesById)
  {
    var s := SitesSynced(t, locationPages);
    assert s.1.measurements == t.measurements && s.1.pollutants == t.pollutants;
  }

  /** `handle()` as a function of the database: the site pass, then the
      measurement pass with the site cache, and the four counters; or the
      first error. */
  function Handled(t: Tables, ct: nat, locationPages: seq<Response>, api: int -> seq<Response>, now: int, env: Oracles)
    : (r: (Result<SyncCounts>, Tables))
    requires CommandReady(t)
  {
    var s := SitesSynced(t, locationPages);
    if s.0.Err? then (Err(s.0.error), s.1)
    else
      SitesThenMeasurements(t, locationPages);
      var m := MeasurementsSynced(s.1, ct, s.0.value.sitesById, api, now, env);
      if m.0.Err? then (Err(m.0.error), m.1)
      else (Ok(SyncCounts(s.0.value.regionCount, s.0.value.siteCount, m.0.value.0, m.0.value.1)), m.1)
  }

  /** The reported pollutant and measurement counters are the numbers of
      rows the command added to those tables. */
  lemma HandledCounts(t: Tables, ct: nat, locationPages: seq<Response>, api: int -> seq<Response>, now: int, env: Oracles)
    requires CommandReady(t) && Handled(t, ct, locationPages, api, now, env).0.Ok?
    ensures var h := Handled(t, ct, locationPages, api, now, env);
      && |h.1.pollutants| == |t.pollutants| + h.0.value.pollutants
      && |h.1.measurements| == |t.measurements| + h.0.value.measurements
  {
    var s := SitesSynced(t, locationPages);
    SitesThenMeasurements(t, locationPages);
    MeasurementsSyncedCounts(s.1, ct, s.0.value.sitesById, api, now, env);
  }

  /** The two passes of `handle()`: `sync_sites()`, then
      `sync_measurements(sites_by_external_id)`. */
  method SyncBoth(db: Db, locationPages: seq<Response>, api: int -> seq<Response>, now: int, env: Oracles)
    returns (r: Result<SyncCounts>)
    requires CommandReady(db.tables)
    modifies db
    ensures (r, db.tables) == Handled(old(db.tables), db.alertContentType, locationPages, api, now, env)
  {
    ghost var t0 := db.tables;
    var sites := SyncSites(db, locationPages);
    if sites.Err? {
      return Err(sites.error);
    }
    SitesThenMeasurements(t0, locationPages);
    var counts := SyncMeasurements(db, sites.value.sitesById, api, now, env);
    if counts.Err? {
      return Err(counts.error);
    }
    r := Ok(SyncCounts(sites.value.regionCount, sites.value.siteCount, counts.value.0, counts.value.1));
  }

  /** The end of `handle()`: the counters go into a `SyncStats`, whose
      `as_dict()` makes the success line. */
  method Report(counts: SyncCounts) returns (line: string)
    ensures line == CompletedLine(counts)
  {
    var stats := new SyncStats();
    stats.AddSites(counts.regions, counts.sites);
    stats.AddMeasurements(counts.pollutants, counts.measurements);
    line := CompletedLine(stats.Counts());
  }

  /** `Command.handle()`: the success line it writes, or the error it
      raises. The counters go into `SyncStats` once both passes returned,
      which nothing can observe before the line is written. */
  method Handle(db: Db, locationPages: seq<Response>, api: int -> seq<Response>, now: int, env: Oracles)
    returns (r: Result<string>)
    requires CommandReady(db.tables)
    modifies db
    ensures var h := Handled(old(db.tables), db.alertContentType, locationPages, api, now, env);
      && db.tables == h.1
      && (h.0.Ok? ==> r == Ok(CompletedLine(h.0.value)))
      && (h.0.Err? ==> r == Err(h.0.error))
  {
    var counts := SyncBoth(db, locationPages, api, now, env);
    if counts.Err? {
      return Err(counts.error);
    }
    var line := Report(counts.value);
    r := Ok(line);
  }
}
