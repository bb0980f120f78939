/** The demo dashboard layout (air_quality/blocks/layouts.py): a layout of
    one user, got or created by its name, whose blocks are reconciled with a
    fixed list of block specs. A spec's block is placed at the spec's index,
    a placed block is written only when one of its fields differs from the
    spec, blocks of codes outside the list are removed, and a spec whose
    code has no `Block` row is skipped. */
module Layouts {
  import opened Common

  const LAYOUT_NAME: string := "Air Quality Monitoring"
  const LAYOUT_DESCRIPTION: string :=
    "Interactive dashboard combining regional filters, station directories, "
    + "and pollutant trends to explore live air quality readings."
  const LAYOUT_CATEGORY: string := "Air Quality"

  const MONITORING_SITE_DIRECTORY_BLOCK_CODE: string := "air_quality__monitoring_site_directory"
  const MONITORING_SITE_DETAIL_BLOCK_CODE: string := "air_quality__monitoring_site_detail"
  const LATEST_MEASUREMENTS_BLOCK_CODE: string := "air_quality__latest_measurements"
  const POLLUTANT_TREND_BLOCK_CODE: string := "air_quality__pollutant_trend"

  /** A layout's visibility. The layout is created private; the other
      choices of `Layout` are not part of this model. */
  datatype Visibility = Private | OtherVisibility(value: string)

  /** `LayoutBlockSpec`: where and how a block is placed. */
  datatype LayoutSpec = LayoutSpec(
    code: string, x: int, y: int, w: int, h: int, title: string,
    note: string, preferredFilterName: string, preferredColumnConfigName: string)

  /** The fields of a layout block that `ensure` writes (its `defaults`). */
  datatype Placement = Placement(
    position: int, x: int, y: int, w: int, h: int, title: string,
    note: string, preferredFilterName: string, preferredColumnConfigName: string)

  datatype Layout = Layout(user: nat, name: string, visibility: Visibility, description: string, category: string)

  datatype LayoutBlock = LayoutBlock(layout: nat, block: nat, placement: Placement)

  /** The tables `ensure` reads and writes: the code of every `Block`,
      whether each user is a superuser, the layouts and their blocks. */
  datatype Store = Store(
    blocks: map<nat, string>, nextBlock: nat,
    users: map<nat, bool>, nextUser: nat,
    layouts: map<nat, Layout>, nextLayout: nat,
    layoutBlocks: map<nat, LayoutBlock>, nextLayoutBlock: nat)

  /** Keys below the counters, and every layout block belongs to an
      existing layout and shows an existing block. */
  predicate StoreValid(s: Store)
  {
    && KeysBelow(s.blocks, s.nextBlock) && KeysBelow(s.users, s.nextUser)
    && KeysBelow(s.layouts, s.nextLayout) && KeysBelow(s.layoutBlocks, s.nextLayoutBlock)
    && forall j :: j in s.layoutBlocks ==>
         s.layoutBlocks[j].layout in s.layouts && s.layoutBlocks[j].block in s.blocks
  }

  /** `AirQualityDashboardLayout.block_specs`. */
  const BLOCK_SPECS: seq<LayoutSpec> := [
    LayoutSpec(MONITORING_SITE_DIRECTORY_BLOCK_CODE, 0, 0, 6, 5, "Monitoring Sites", "", "", ""),
    LayoutSpec(MONITORING_SITE_DETAIL_BLOCK_CODE, 6, 0, 6, 4, "Selected Site Detail",
               "Choose a site from the directory to view recent readings.", "", ""),
    LayoutSpec(LATEST_MEASUREMENTS_BLOCK_CODE, 0, 5, 6, 5, "Latest Measurements", "", "", ""),
    LayoutSpec(POLLUTANT_TREND_BLOCK_CODE, 6, 4, 6, 6, "Pollutant Trend",
               "Compare pollutant behaviour across regions or individual sites.", "", "")
  ]

  /** No two specs share a code. */
  predicate DistinctCodes(specs: seq<LayoutSpec>)
  {
    forall i, j :: 0 <= i < j < |specs| ==> specs[i].code != specs[j].code
  }

  /** The codes of the specs (`desired_codes`). */
  function Codes(specs: seq<LayoutSpec>): (r: set<string>)
    ensures forall i :: 0 <= i < |specs| ==> specs[i].code in r
    ensures forall c :: c in r ==> exists i :: 0 <= i < |specs| && specs[i].code == c
  {
    set i | 0 <= i < |specs| :: specs[i].code
  }

  /** The four demo specs name four different blocks. */
  lemma BlockSpecsDistinct()
    ensures |BLOCK_SPECS| == 4 && DistinctCodes(BLOCK_SPECS)
  {
  }

  // ------------------------------------------------------------- lookups

  /** The lowest key below `n` whose row is `v`: `.filter(...).first()` in
      key order. */
  function FirstKey<T(==)>(m: map<nat, T>, n: nat, v: T): (r: Option<nat>)
    ensures r.Some? ==> r.value < n && r.value in m && m[r.value] == v
    ensures r.Some? ==> forall j :: j < r.value && j in m ==> m[j] != v
    ensures r.None? ==> forall j :: j < n && j in m ==> m[j] != v
  {
    if n == 0 then None
    else match FirstKey(m, n - 1, v)
      case Some(k) => Some(k)
      case None => if n - 1 in m && m[n - 1] == v then Some(n - 1) else None
  }

  /** A layout block of `layout` that shows a block of `code`. */
  predicate Holds(lb: LayoutBlock, blocks: map<nat, string>, layout: nat, code: string)
  {
    lb.layout == layout && lb.block in blocks && blocks[lb.block] == code
  }

  /** `existing.get(code)`: `existing` maps the code of each block of the
      layout to its layout block, and of several layout blocks of one code
      the last one read is kept. The model reads the layout's blocks in key
      order; the query itself fixes no order. */
  function Existing(lbs: map<nat, LayoutBlock>, n: nat, blocks: map<nat, string>, layout: nat, code: string)
    : (r: Option<nat>)
    ensures r.Some? ==> r.value < n && r.value in lbs && Holds(lbs[r.value], blocks, layout, code)
    ensures r.Some? ==> forall j :: r.value < j < n && j in lbs ==> !Holds(lbs[j], blocks, layout, code)
    ensures r.None? ==> forall j :: j < n && j in lbs ==> !Holds(lbs[j], blocks, layout, code)
  {
    if n == 0 then None
    else if n - 1 in lbs && Holds(lbs[n - 1], blocks, layout, code) then Some(n - 1)
    else Existing(lbs, n - 1, blocks, layout, code)
  }

  /** `existing.get(code)` is the last matching layout block, whatever table
      it is computed from: a key that matches with no later match is the
      answer, and with no match there is none. */
  lemma ExistingIs(lbs: map<nat, LayoutBlock>, n: nat, blocks: map<nat, string>, layout: nat, code: string, k: Option<nat>)
    requires k.Some? ==> k.value < n && k.value in lbs && Holds(lbs[k.value], blocks, layout, code)
    requires k.Some? ==> forall j :: k.value < j < n && j in lbs ==> !Holds(lbs[j], blocks, layout, code)
    requires k.None? ==> forall j :: j < n && j in lbs ==> !Holds(lbs[j], blocks, layout, code)
    ensures Existing(lbs, n, blocks, layout, code) == k
  {
  }

  // --------------------------------------------------------------- ensure

  /** The `defaults` of the spec at `position`. */
  function Defaults(position: nat, spec: LayoutSpec): Placement
  {
    Placement(position, spec.x, spec.y, spec.w, spec.h, spec.title,
              spec.note, spec.preferredFilterName, spec.preferredColumnConfigName)
  }

  /** One turn of the loop over `enumerate(block_specs)`, in store `s`, with
      `existing` computed from `s0` before the loop: a spec whose code has
      no block is skipped; its layout block, when the layout has one, is
      written only when a field differs; otherwise one is created. */
  function SpecStep(s0: Store, layout: nat, s: Store, position: nat, spec: LayoutSpec): (t: Store)
    requires StoreValid(s) && layout in s.layouts
    ensures StoreValid(t)
    ensures t == s.(layoutBlocks := t.layoutBlocks, nextLayoutBlock := t.nextLayoutBlock)
  {
    match FirstKey(s.blocks, s.nextBlock, spec.code)
    case None => s
    case Some(b) =>
      var want := Defaults(position, spec);
      match Existing(s0.layoutBlocks, s0.nextLayoutBlock, s0.blocks, layout, spec.code)
      case Some(k) =>
        if k in s.layoutBlocks && s.layoutBlocks[k].placement != want
        then s.(layoutBlocks := s.layoutBlocks[k := s.layoutBlocks[k].(placement := want)])
        else s
      case None =>
        s.(layoutBlocks := s.layoutBlocks[s.nextLayoutBlock := LayoutBlock(layout, b, want)],
           nextLayoutBlock := s.nextLayoutBlock + 1)
  }

  /** The loop over the specs, spec `i` at position `i`. */
  function SpecsFold(s0: Store, layout: nat, specs: seq<LayoutSpec>): (t: Store)
    requires StoreValid(s0) && layout in s0.layouts
    ensures StoreValid(t)
    ensures t == s0.(layoutBlocks := t.layoutBlocks, nextLayoutBlock := t.nextLayoutBlock)
    decreases |specs|
  {
    if specs == [] then s0
    else SpecStep(s0, layout, SpecsFold(s0, layout, specs[..|specs| - 1]), |specs| - 1, specs[|specs| - 1])
  }

  /** Layout block `j` belongs to `layout` and shows a block whose code is
      not in `codes`. */
  predicate Stale(s: Store, layout: nat, codes: set<string>, j: nat)
    requires j in s.layoutBlocks
  {
    var lb := s.layoutBlocks[j];
    lb.layout == layout && lb.block in s.blocks && s.blocks[lb.block] !in codes
  }

  /** `layout.blocks.exclude(block__code__in=codes).delete()`: exactly the
      stale layout blocks go, and no other row changes. */
  function Prune(s: Store, layout: nat, codes: set<string>): (t: Store)
    requires StoreValid(s)
    ensures StoreValid(t)
    ensures t == s.(layoutBlocks := t.layoutBlocks)
    ensures forall j :: j in t.layoutBlocks <==> j in s.layoutBlocks && !Stale(s, layout, codes, j)
    ensures forall j :: j in t.layoutBlocks ==> t.layoutBlocks[j] == s.layoutBlocks[j]
  {
    s.(layoutBlocks := map j | j in s.layoutBlocks && !Stale(s, layout, codes, j) :: s.layoutBlocks[j])
  }

  function LayoutOwner(l: Layout): (nat, string) { (l.user, l.name) }

  /** The layout that `get_or_create` creates for `user`. */
  function NewLayout(user: nat): Layout
  {
    Layout(user, LAYOUT_NAME, Private, LAYOUT_DESCRIPTION, LAYOUT_CATEGORY)
  }

  /** `Layout.objects.get_or_create(user=user, name=LAYOUT_NAME, defaults=...)`:
      only the layouts change; a new layout is private and carries the
      demo's description and category. */
  function OpenLayout(s: Store, user: nat): (r: (Result<nat>, Store))
    requires StoreValid(s)
    ensures StoreValid(r.1)
    ensures r.1 == s.(layouts := r.1.layouts, nextLayout := r.1.nextLayout)
    ensures r.0.Err? ==> r.1 == s && r.0.error == MultipleObjectsReturned
    ensures r.0.Ok? ==> r.0.value in r.1.layouts && LayoutOwner(r.1.layouts[r.0.value]) == (user, LAYOUT_NAME)
  {
    var g := GetOrCreate(s.layouts, s.nextLayout, LayoutOwner, (user, LAYOUT_NAME), NewLayout(user));
    if g.0.Err? then (Err(g.0.error), s)
    else (Ok(g.0.value.0), s.(layouts := g.1, nextLayout := g.2))
  }

  /** `ensure()` for `user` with `specs`, in one transaction: the layout's
      key and the store after, or the error that rolled everything back. */
  function Ensured(s: Store, user: nat, specs: seq<LayoutSpec>): (r: (Result<nat>, Store))
    requires StoreValid(s)
    ensures StoreValid(r.1)
    ensures r.0.Err? ==> r.1 == s && r.0.error == MultipleObjectsReturned
    ensures r.0.Ok? ==> r.0.value in r.1.layouts && LayoutOwner(r.1.layouts[r.0.value]) == (user, LAYOUT_NAME)
    ensures r.1.blocks == s.blocks && r.1.nextBlock == s.nextBlock && r.1.users == s.users
  {
    var o := OpenLayout(s, user);
    if o.0.Err? then (o.0, s)
    else
      var layout := o.0.value;
      (Ok(layout), Prune(SpecsFold(o.1, layout, specs), layout, Codes(specs)))
  }

  // ------------------------------------------------------------ the loop

  /** `s` grew from `s0` by the loop: the same blocks, no layout block lost,
      none moved to another layout or block. */
  predicate Anchored(s0: Store, s: Store)
  {
    && s.blocks == s0.blocks && s0.nextLayoutBlock <= s.nextLayoutBlock
    && forall j :: j in s0.layoutBlocks ==>
         j in s.layoutBlocks && s.layoutBlocks[j].layout == s0.layoutBlocks[j].layout
         && s.layoutBlocks[j].block == s0.layoutBlocks[j].block
  }

  /** A turn of the loop changes only the layout blocks: it keeps every
      layout block where it is, changes none of another code, and creates at
      most one, under the counter, for its own code. */
  lemma SpecStepFrame(s0: Store, layout: nat, s: Store, position: nat, spec: LayoutSpec)
    requires StoreValid(s) && layout in s.layouts && Anchored(s0, s)
    ensures var t := SpecStep(s0, layout, s, position, spec);
      && Anchored(s, t)
      && (forall j :: j in s.layoutBlocks && !Holds(s.layoutBlocks[j], s.blocks, layout, spec.code) ==>
            t.layoutBlocks[j] == s.layoutBlocks[j])
      && (forall j :: j in t.layoutBlocks && j !in s.layoutBlocks ==>
            j == s.nextLayoutBlock && Holds(t.layoutBlocks[j], s.blocks, layout, spec.code))
  {
  }

  /** A layout block the loop may not touch: not of `layout`, or showing a
      block whose code is not in `codes`. */
  predicate Untouched(lb: LayoutBlock, blocks: map<nat, string>, layout: nat, codes: set<string>)
  {
    !(lb.layout == layout && lb.block in blocks && blocks[lb.block] in codes)
  }

  /** The whole loop keeps every layout block where it is. */
  lemma {:induction false} SpecsFoldAnchored(s0: Store, layout: nat, specs: seq<LayoutSpec>)
    requires StoreValid(s0) && layout in s0.layouts
    ensures Anchored(s0, SpecsFold(s0, layout, specs))
    decreases |specs|
  {
    if specs != [] {
      var init := specs[..|specs| - 1];
      SpecsFoldAnchored(s0, layout, init);
      SpecStepFrame(s0, layout, SpecsFold(s0, layout, init), |specs| - 1, specs[|specs| - 1]);
    }
  }

  /** The codes of a prefix of the specs are codes of the specs. */
  lemma CodesPrefix(specs: seq<LayoutSpec>)
    requires specs != []
    ensures forall c :: c in Codes(specs[..|specs| - 1]) ==> c in Codes(specs)
    ensures specs[|specs| - 1].code in Codes(specs)
  {
    var init := specs[..|specs| - 1];
    forall c | c in Codes(init) ensures c in Codes(specs) {
      var i :| 0 <= i < |init| && init[i].code == c;
      assert specs[i] == init[i];
    }
  }

  /** The whole loop changes no layout block of another layout or of a code
      outside the specs. */
  lemma {:induction false} SpecsFoldUntouched(s0: Store, layout: nat, specs: seq<LayoutSpec>)
    requires StoreValid(s0) && layout in s0.layouts
    ensures var t := SpecsFold(s0, layout, specs);
      forall j :: j in s0.layoutBlocks && Untouched(s0.layoutBlocks[j], s0.blocks, layout, Codes(specs)) ==>
        j in t.layoutBlocks && t.layoutBlocks[j] == s0.layoutBlocks[j]
    decreases |specs|
  {
    if specs != [] {
      var init := specs[..|specs| - 1];
      SpecsFoldUntouched(s0, layout, init);
      SpecsFoldAnchored(s0, layout, init);
      CodesPrefix(specs);
      SpecStepFrame(s0, layout, SpecsFold(s0, layout, init), |specs| - 1, specs[|specs| - 1]);
    }
  }

  /** The layout blocks the loop adds are above the old counter, belong to
      the layout and show a block of one of the specs' codes. */
  lemma {:induction false} SpecsFoldAdds(s0: Store, layout: nat, specs: seq<LayoutSpec>)
    requires StoreValid(s0) && layout in s0.layouts
    ensures var t := SpecsFold(s0, layout, specs);
      forall j :: j in t.layoutBlocks && j !in s0.layoutBlocks ==>
        j >= s0.nextLayoutBlock && !Untouched(t.layoutBlocks[j], s0.blocks, layout, Codes(specs))
    decreases |specs|
  {
    if specs != [] {
      var init := specs[..|specs| - 1];
      SpecsFoldAdds(s0, layout, init);
      SpecsFoldAnchored(s0, layout, init);
      CodesPrefix(specs);
      SpecStepFrame(s0, layout, SpecsFold(s0, layout, init), |specs| - 1, specs[|specs| - 1]);
    }
  }

  /** The loop leaves the answer of `existing.get(c)` for a code outside the
      specs as it was, and that layout block too. */
  lemma SpecsFoldOther(s0: Store, layout: nat, specs: seq<LayoutSpec>, c: string)
    requires StoreValid(s0) && layout in s0.layouts && c !in Codes(specs)
    ensures var t := SpecsFold(s0, layout, specs);
      var e := Existing(s0.layoutBlocks, s0.nextLayoutBlock, s0.blocks, layout, c);
      && Existing(t.layoutBlocks, t.nextLayoutBlock, t.blocks, layout, c) == e
      && (e.Some? ==> e.value in t.layoutBlocks && t.layoutBlocks[e.value] == s0.layoutBlocks[e.value])
  {
    SpecsFoldAnchored(s0, layout, specs);
    SpecsFoldUntouched(s0, layout, specs);
    SpecsFoldAdds(s0, layout, specs);
    var t := SpecsFold(s0, layout, specs);
    var e := Existing(s0.layoutBlocks, s0.nextLayoutBlock, s0.blocks, layout, c);
    ExistingIs(t.layoutBlocks, t.nextLayoutBlock, t.blocks, layout, c, e);
  }

  /** A turn leaves `existing.get(c)` for another code as it was, and that
      layout block too. */
  lemma SpecStepOther(s0: Store, layout: nat, s: Store, position: nat, spec: LayoutSpec, c: string)
    requires StoreValid(s) && layout in s.layouts && Anchored(s0, s) && c != spec.code
    ensures var t := SpecStep(s0, layout, s, position, spec);
      var e := Existing(s.layoutBlocks, s.nextLayoutBlock, s.blocks, layout, c);
      && Existing(t.layoutBlocks, t.nextLayoutBlock, t.blocks, layout, c) == e
      && (e.Some? ==> e.value in t.layoutBlocks && t.layoutBlocks[e.value] == s.layoutBlocks[e.value])
  {
    SpecStepFrame(s0, layout, s, position, spec);
    var t := SpecStep(s0, layout, s, position, spec);
    var e := Existing(s.layoutBlocks, s.nextLayoutBlock, s.blocks, layout, c);
    ExistingIs(t.layoutBlocks, t.nextLayoutBlock, t.blocks, layout, c, e);
  }

  /** The turn of a spec whose code has a block, when no earlier turn
      touched that code, leaves a layout block of that code placed as the
      spec says, and `existing.get(code)` finds it. */
  lemma SpecStepPlaces(s0: Store, layout: nat, s: Store, position: nat, spec: LayoutSpec)
    requires StoreValid(s) && layout in s.layouts && Anchored(s0, s)
    requires FirstKey(s.blocks, s.nextBlock, spec.code).Some?
    requires var e := Existing(s0.layoutBlocks, s0.nextLayoutBlock, s0.blocks, layout, spec.code);
      Existing(s.layoutBlocks, s.nextLayoutBlock, s.blocks, layout, spec.code) == e
    ensures var t := SpecStep(s0, layout, s, position, spec);
      var e := Existing(t.layoutBlocks, t.nextLayoutBlock, t.blocks, layout, spec.code);
      e.Some? && t.layoutBlocks[e.value].placement == Defaults(position, spec)
  {
    if Existing(s0.layoutBlocks, s0.nextLayoutBlock, s0.blocks, layout, spec.code).Some? {
      SpecStepUpdates(s0, layout, s, position, spec);
    } else {
      SpecStepCreates(s0, layout, s, position, spec);
    }
  }

  /** The turn of a spec whose layout block exists writes its fields. */
  lemma SpecStepUpdates(s0: Store, layout: nat, s: Store, position: nat, spec: LayoutSpec)
    requires StoreValid(s) && layout in s.layouts && Anchored(s0, s)
    requires FirstKey(s.blocks, s.nextBlock, spec.code).Some?
    requires var e := Existing(s0.layoutBlocks, s0.nextLayoutBlock, s0.blocks, layout, spec.code);
      e.Some? && Existing(s.layoutBlocks, s.nextLayoutBlock, s.blocks, layout, spec.code) == e
    ensures var t := SpecStep(s0, layout, s, position, spec);
      var e := Existing(s0.layoutBlocks, s0.nextLayoutBlock, s0.blocks, layout, spec.code);
      Existing(t.layoutBlocks, t.nextLayoutBlock, t.blocks, layout, spec.code) == e
      && t.layoutBlocks[e.value].placement == Defaults(position, spec)
  {
    SpecStepFrame(s0, layout, s, position, spec);
    var t := SpecStep(s0, layout, s, position, spec);
    var e := Existing(s0.layoutBlocks, s0.nextLayoutBlock, s0.blocks, layout, spec.code);
    assert t.layoutBlocks.Keys == s.layoutBlocks.Keys;
    ExistingIs(t.layoutBlocks, t.nextLayoutBlock, t.blocks, layout, spec.code, e);
  }

  /** The turn of a spec whose layout block is missing creates it under the
      counter. */
  lemma SpecStepCreates(s0: Store, layout: nat, s: Store, position: nat, spec: LayoutSpec)
    requires StoreValid(s) && layout in s.layouts && Anchored(s0, s)
    requires FirstKey(s.blocks, s.nextBlock, spec.code).Some?
    requires var e := Existing(s0.layoutBlocks, s0.nextLayoutBlock, s0.blocks, layout, spec.code);
      e.None? && Existing(s.layoutBlocks, s.nextLayoutBlock, s.blocks, layout, spec.code) == e
    ensures var t := SpecStep(s0, layout, s, position, spec);
      && Existing(t.layoutBlocks, t.nextLayoutBlock, t.blocks, layout, spec.code) == Some(s.nextLayoutBlock)
      && t.layoutBlocks[s.nextLayoutBlock].placement == Defaults(position, spec)
  {
    var t := SpecStep(s0, layout, s, position, spec);
    ExistingIs(t.layoutBlocks, t.nextLayoutBlock, t.blocks, layout, spec.code, Some(s.nextLayoutBlock));
  }

  /** After the loop, with distinct codes, every spec whose code has a block
      has its layout block, found by `existing.get(code)`, placed at the
      spec's index with the spec's fields. */
  lemma {:induction false} SpecsFoldPlaces(s0: Store, layout: nat, specs: seq<LayoutSpec>, i: nat)
    requires StoreValid(s0) && layout in s0.layouts && DistinctCodes(specs)
    requires i < |specs| && FirstKey(s0.blocks, s0.nextBlock, specs[i].code).Some?
    ensures var t := SpecsFold(s0, layout, specs);
      var e := Existing(t.layoutBlocks, t.nextLayoutBlock, t.blocks, layout, specs[i].code);
      e.Some? && t.layoutBlocks[e.value].placement == Defaults(i, specs[i])
    decreases |specs|
  {
    var init := specs[..|specs| - 1];
    var last := specs[|specs| - 1];
    SpecsFoldAnchored(s0, layout, init);
    var f := SpecsFold(s0, layout, init);
    assert SpecsFold(s0, layout, specs) == SpecStep(s0, layout, f, |specs| - 1, last);
    assert f.blocks == s0.blocks && f.nextBlock == s0.nextBlock;
    if i == |specs| - 1 {
      forall j | 0 <= j < |init| ensures init[j].code != last.code {
        assert init[j] == specs[j];
      }
      SpecsFoldOther(s0, layout, init, last.code);
      SpecStepPlaces(s0, layout, f, i, last);
    } else {
      assert specs[i] == init[i];
      SpecsFoldPlaces(s0, layout, init, i);
      SpecStepOther(s0, layout, f, |specs| - 1, last, specs[i].code);
    }
  }

  // ---------------------------------------------------------- properties

  /** Removing stale layout blocks leaves `existing.get(c)` for a code in
      `codes` as it was, and that layout block too. */
  lemma PruneKeeps(s: Store, layout: nat, codes: set<string>, c: string)
    requires StoreValid(s) && c in codes
    ensures var t := Prune(s, layout, codes);
      var e := Existing(s.layoutBlocks, s.nextLayoutBlock, s.blocks, layout, c);
      && Existing(t.layoutBlocks, t.nextLayoutBlock, t.blocks, layout, c) == e
      && (e.Some? ==> e.value in t.layoutBlocks && t.layoutBlocks[e.value] == s.layoutBlocks[e.value])
  {
    var t := Prune(s, layout, codes);
    var e := Existing(s.layoutBlocks, s.nextLayoutBlock, s.blocks, layout, c);
    ExistingIs(t.layoutBlocks, t.nextLayoutBlock, t.blocks, layout, c, e);
  }

  /** After `ensure`, every spec whose code has a block has a layout block of
      the layout showing a block of that code, at the spec's index and with
      the spec's fields; it is the one `existing.get(code)` finds. */
  lemma EnsuredPlaces(s: Store, user: nat, specs: seq<LayoutSpec>, i: nat)
    requires StoreValid(s) && DistinctCodes(specs) && i < |specs|
    requires Ensured(s, user, specs).0.Ok?
    requires FirstKey(s.blocks, s.nextBlock, specs[i].code).Some?
    ensures var r := Ensured(s, user, specs);
      var t := r.1;
      var e := Existing(t.layoutBlocks, t.nextLayoutBlock, t.blocks, r.0.value, specs[i].code);
      && e.Some? && Holds(t.layoutBlocks[e.value], t.blocks, r.0.value, specs[i].code)
      && t.layoutBlocks[e.value].placement == Defaults(i, specs[i])
  {
    var o := OpenLayout(s, user);
    var layout := o.0.value;
    SpecsFoldPlaces(o.1, layout, specs, i);
    PruneKeeps(SpecsFold(o.1, layout, specs), layout, Codes(specs), specs[i].code);
  }

  /** After `ensure` the layout holds no block whose code is outside the
      specs. */
  lemma EnsuredPrunes(s: Store, user: nat, specs: seq<LayoutSpec>)
    requires StoreValid(s) && Ensured(s, user, specs).0.Ok?
    ensures var r := Ensured(s, user, specs);
      forall j :: j in r.1.layoutBlocks && r.1.layoutBlocks[j].layout == r.0.value ==>
        r.1.blocks[r.1.layoutBlocks[j].block] in Codes(specs)
  {
  }

  /** A spec whose code has no block is skipped: afterwards no layout block
      shows a block of that code. */
  lemma EnsuredSkips(s: Store, user: nat, specs: seq<LayoutSpec>, code: string)
    requires StoreValid(s) && FirstKey(s.blocks, s.nextBlock, code).None?
    ensures var t := Ensured(s, user, specs).1;
      forall j :: j in t.layoutBlocks ==> t.blocks[t.layoutBlocks[j].block] != code
  {
  }

  /** The layout is got or created by user and name: an existing one is
      left as it was (its visibility, description and category are not
      reapplied); a missing one is created under the counter, private and
      with the demo's description and category; two are an error. */
  lemma EnsuredLayout(s: Store, user: nat, specs: seq<LayoutSpec>)
    requires StoreValid(s)
    ensures var r := Ensured(s, user, specs);
      && ((exists j :: j in s.layouts && LayoutOwner(s.layouts[j]) == (user, LAYOUT_NAME)) && r.0.Ok? ==>
            r.1.layouts == s.layouts && r.1.nextLayout == s.nextLayout)
      && ((forall j :: j in s.layouts ==> LayoutOwner(s.layouts[j]) != (user, LAYOUT_NAME)) ==>
            r.0 == Ok(s.nextLayout) && r.1.layouts == s.layouts[s.nextLayout := NewLayout(user)])
      && (r.0.Err? <==> exists i, j :: i in s.layouts && j in s.layouts && i != j
                          && LayoutOwner(s.layouts[i]) == (user, LAYOUT_NAME) && LayoutOwner(s.layouts[j]) == (user, LAYOUT_NAME))
  {
    GetOrCreateCases(s.layouts, s.nextLayout, LayoutOwner, (user, LAYOUT_NAME), NewLayout(user));
  }

  /** `ensure` touches no layout block of another layout, and adds layout
      blocks only to its layout. */
  lemma EnsuredOthers(s: Store, user: nat, specs: seq<LayoutSpec>)
    requires StoreValid(s) && Ensured(s, user, specs).0.Ok?
    ensures var r := Ensured(s, user, specs);
      && (forall j :: j in s.layoutBlocks && s.layoutBlocks[j].layout != r.0.value ==>
            j in r.1.layoutBlocks && r.1.layoutBlocks[j] == s.layoutBlocks[j])
      && (forall j :: j in r.1.layoutBlocks && j !in s.layoutBlocks ==> r.1.layoutBlocks[j].layout == r.0.value)
  {
    var o := OpenLayout(s, user);
    var layout := o.0.value;
    SpecsFoldUntouched(o.1, layout, specs);
    SpecsFoldAdds(o.1, layout, specs);
  }

  /** A turn changes nothing when its code has no block, or when its layout
      block already has the spec's fields. */
  lemma SpecStepAgain(t: Store, layout: nat, position: nat, spec: LayoutSpec)
    requires StoreValid(t) && layout in t.layouts
    requires FirstKey(t.blocks, t.nextBlock, spec.code).Some? ==>
      var e := Existing(t.layoutBlocks, t.nextLayoutBlock, t.blocks, layout, spec.code);
      e.Some? && t.layoutBlocks[e.value].placement == Defaults(position, spec)
    ensures SpecStep(t, layout, t, position, spec) == t
  {
  }

  /** A loop whose every turn changes nothing changes nothing. */
  lemma {:induction false} SpecsFoldAgain(t: Store, layout: nat, specs: seq<LayoutSpec>)
    requires StoreValid(t) && layout in t.layouts
    requires forall p :: 0 <= p < |specs| ==> SpecStep(t, layout, t, p, specs[p]) == t
    ensures SpecsFold(t, layout, specs) == t
    decreases |specs|
  {
    if specs != [] {
      var init := specs[..|specs| - 1];
      forall p | 0 <= p < |init| ensures SpecStep(t, layout, t, p, init[p]) == t {
        assert init[p] == specs[p];
      }
      SpecsFoldAgain(t, layout, init);
    }
  }

  /** After `ensure`, the same `get_or_create` finds its layout and changes
      nothing. */
  lemma EnsuredReopens(s: Store, user: nat, specs: seq<LayoutSpec>)
    requires StoreValid(s) && Ensured(s, user, specs).0.Ok?
    ensures var r := Ensured(s, user, specs);
      OpenLayout(r.1, user) == (Ok(r.0.value), r.1)
  {
    GetOrCreateAgain(s.layouts, s.nextLayout, LayoutOwner, (user, LAYOUT_NAME), NewLayout(user), NewLayout(user));
  }

  /** After `ensure`, with distinct codes, every turn of the loop changes
      nothing. */
  lemma EnsuredSettled(s: Store, user: nat, specs: seq<LayoutSpec>)
    requires StoreValid(s) && DistinctCodes(specs) && Ensured(s, user, specs).0.Ok?
    ensures var r := Ensured(s, user, specs);
      forall p :: 0 <= p < |specs| ==> SpecStep(r.1, r.0.value, r.1, p, specs[p]) == r.1
  {
    var r := Ensured(s, user, specs);
    forall p | 0 <= p < |specs| ensures SpecStep(r.1, r.0.value, r.1, p, specs[p]) == r.1 {
      if FirstKey(r.1.blocks, r.1.nextBlock, specs[p].code).Some? {
        EnsuredPlaces(s, user, specs, p);
      }
      SpecStepAgain(r.1, r.0.value, p, specs[p]);
    }
  }

  /** After `ensure` nothing is left to remove. */
  lemma EnsuredPruned(s: Store, user: nat, specs: seq<LayoutSpec>)
    requires StoreValid(s) && Ensured(s, user, specs).0.Ok?
    ensures var r := Ensured(s, user, specs);
      Prune(r.1, r.0.value, Codes(specs)) == r.1
  {
    var r := Ensured(s, user, specs);
    EnsuredPrunes(s, user, specs);
    PruneNothing(r.1, r.0.value, Codes(specs));
  }

  /** Removing stale layout blocks where there are none changes nothing. */
  lemma PruneNothing(t: Store, layout: nat, codes: set<string>)
    requires StoreValid(t)
    requires forall j :: j in t.layoutBlocks && t.layoutBlocks[j].layout == layout ==>
      t.blocks[t.layoutBlocks[j].block] in codes
    ensures Prune(t, layout, codes) == t
  {
    assert Prune(t, layout, codes).layoutBlocks == t.layoutBlocks;
  }

  /** With distinct codes a second `ensure` finds the same layout and
      changes nothing. */
  lemma EnsuredIdempotent(s: Store, user: nat, specs: seq<LayoutSpec>)
    requires StoreValid(s) && DistinctCodes(specs) && Ensured(s, user, specs).0.Ok?
    ensures var r := Ensured(s, user, specs);
      Ensured(r.1, user, specs) == r
  {
    var r := Ensured(s, user, specs);
    EnsuredReopens(s, user, specs);
    EnsuredSettled(s, user, specs);
    SpecsFoldAgain(r.1, r.0.value, specs);
    EnsuredPruned(s, user, specs);
  }

  // ------------------------------------------------------------ database

  class LayoutDb {
    var store: Store
  }

  /** `AirQualityDashboardLayout`. */
  class AirQualityDashboardLayout {
    const user: nat
    const blockSpecs: seq<LayoutSpec>
    /** `self.layout`, set by `ensure`. */
    var layout: Option<nat>

    constructor(user: nat)
      ensures this.user == user && blockSpecs == BLOCK_SPECS && layout == None
    {
      this.user := user;
      blockSpecs := BLOCK_SPECS;
      layout := None;
    }

    /** `ensure()`: on success the layout is remembered. A placed block's
        fields are compared as one record: one differing field is what sets
        `updated`, and assigning every field when one differs writes the
        same row as assigning the differing ones. */
    method Ensure(db: LayoutDb) returns (r: Result<nat>)
      requires StoreValid(db.store)
      modifies this, db
      ensures (r, db.store) == Ensured(old(db.store), user, blockSpecs)
      ensures layout == if r.Ok? then Some(r.value) else old(layout)
    {
      var got := OpenLayout(db.store, user);
      if got.0.Err? {
        return Err(got.0.error);
      }
      var l := got.0.value;
      db.store := got.1;
      var s1 := db.store;
      var desired := Codes(blockSpecs);
      for position := 0 to |blockSpecs|
        invariant db.store == SpecsFold(s1, l, blockSpecs[..position])
      {
        assert blockSpecs[..position + 1][..position] == blockSpecs[..position];
        var spec := blockSpecs[position];
        var block := FirstKey(db.store.blocks, db.store.nextBlock, spec.code);
        if block.None? {
          continue;
        }
        var defaults := Defaults(position, spec);
        var instance := Existing(s1.layoutBlocks, s1.nextLayoutBlock, s1.blocks, l, spec.code);
        if instance.Some? {
          var k := instance.value;
          if k in db.store.layoutBlocks && db.store.layoutBlocks[k].placement != defaults {
            db.store := db.store.(layoutBlocks := db.store.layoutBlocks[k := db.store.layoutBlocks[k].(placement := defaults)]);
          }
        } else {
          var created := LayoutBlock(l, block.value, defaults);
          db.store := db.store.(layoutBlocks := db.store.layoutBlocks[db.store.nextLayoutBlock := created],
                                nextLayoutBlock := db.store.nextLayoutBlock + 1);
        }
      }
      assert blockSpecs[..|blockSpecs|] == blockSpecs;
      db.store := Prune(db.store, l, desired);
      layout := Some(l);
      r := Ok(l);
    }
  }

  /** `ensure_default_air_quality_layout()`: with no superuser nothing
      happens; otherwise the demo layout is ensured for the superuser with
      the lowest key. */
  method EnsureDefaultLayout(db: LayoutDb) returns (r: Option<Result<nat>>)
    requires StoreValid(db.store)
    modifies db
    ensures var su := FirstKey(old(db.store).users, old(db.store).nextUser, true);
      && (su.None? ==> r.None? && db.store == old(db.store))
      && (su.Some? ==> r.Some? && (r.value, db.store) == Ensured(old(db.store), su.value, BLOCK_SPECS))
  {
    var user := FirstKey(db.store.users, db.store.nextUser, true);
    if user.None? {
      return None;
    }
    var builder := new AirQualityDashboardLayout(user.value);
    var l := builder.Ensure(db);
    r := Some(l);
  }
}
