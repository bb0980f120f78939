/** Seeding of `Block` and `BlockColumnConfig` rows from definitions
    (django_ai_blocks/blocks/services/seeding.py). A definition is a Python
    value; a valid one is a mapping whose identifying keys are popped and
    whose remaining keys become the defaults of an `update_or_create`. Both
    batches are atomic: an error anywhere leaves the store as it was. */
module Seeding {
  import opened Common
  import opened PyValue

  const BLOCK_MODEL: string := "Block"
  const USER_MODEL: string := "User"

  const BLOCKS_NOT_MAPPINGS: string := "Block definitions must be mappings."
  const CONFIGS_NOT_MAPPINGS: string := "Table setting definitions must be mappings."
  const MISSING_CODE: string := "Block definition requires a 'code'."
  const MISSING_BLOCK: string := "Table setting definition requires a 'block'."
  const MISSING_USER: string := "Table setting definition requires a 'user'."
  const MISSING_NAME: string := "Table setting definition requires a 'name'."
  const BAD_FIELDS: string := "'fields' must be an iterable of field names."

  /** A row given by its identifying fields `id` and the values of its other
      fields. A `Block` is identified by its code, a `BlockColumnConfig` by
      its block, user and name, a user by its username. */
  datatype Record<K> = Record(id: K, attrs: map<string, Value>)

  datatype ConfigKey = ConfigKey(block: nat, user: nat, name: string)

  function IdOf<K>(r: Record<K>): K { r.id }

  datatype Store = Store(
    blocks: map<nat, Record<string>>, nextBlock: nat,
    users: map<nat, Record<string>>, nextUser: nat,
    configs: map<nat, Record<ConfigKey>>, nextConfig: nat)

  predicate StoreValid(s: Store)
  {
    KeysBelow(s.blocks, s.nextBlock) && KeysBelow(s.users, s.nextUser) && KeysBelow(s.configs, s.nextConfig)
  }

  // ------------------------------------------------------------ helpers

  /** `_validate_mapping`: a mapping is copied into a new dict; anything
      else is a TypeError with the caller's message. */
  function ValidateMapping(payload: Value, message: string): (r: Result<map<string, Value>>)
    ensures r.Err? <==> !payload.MappingV?
    ensures r.Err? ==> r.error == TypeError(message)
    ensures r.Ok? ==> r.value == payload.entries
  {
    if payload.MappingV? then Ok(payload.entries) else Err(TypeError(message))
  }

  /** `_normalise_fields`: a falsy value is no fields; a list or a dict (whose
      iteration yields its keys) becomes the strings of its items; a
      non-empty string or bytes value and any other value are an error. */
  function NormaliseFields(v: Value): (r: Result<seq<string>>)
    ensures !Truthy(v) ==> r == Ok([])
    ensures Truthy(v) && v.ListV? ==> r.Ok? && |r.value| == |v.items|
                                      && forall i :: 0 <= i < |v.items| ==> r.value[i] == PyStr(v.items[i])
    ensures Truthy(v) && v.MappingV? ==> r == Ok(v.order)
    ensures r.Err? <==> Truthy(v) && !v.ListV? && !v.MappingV?
    ensures r.Err? ==> r.error == ValueError(BAD_FIELDS)
  {
    if !Truthy(v) then Ok([])
    else match v
      case ListV(items) => Ok(Strs(items))
      case MappingV(_, order) => Ok(order)
      case _ => Err(ValueError(BAD_FIELDS))
  }

  /** `[str(x) for x in items]`. */
  function Strs(items: seq<Value>): (r: seq<string>)
    ensures |r| == |items|
    ensures forall i :: 0 <= i < |items| ==> r[i] == PyStr(items[i])
  {
    if items == [] then [] else [PyStr(items[0])] + Strs(items[1..])
  }

  /** The list of strings stored as `fields`. */
  function StrList(xs: seq<string>): (r: Value)
    ensures r.ListV? && |r.items| == |xs|
    ensures forall i :: 0 <= i < |xs| ==> r.items[i] == StrV(xs[i])
  {
    if xs == [] then ListV([]) else ListV([StrV(xs[0])] + StrList(xs[1..]).items)
  }

  /** `Model.objects.get(pk=i)`. */
  function GetByPk<K>(m: map<nat, Record<K>>, i: int, model: string, shown: string): (r: Result<nat>)
    ensures r.Ok? <==> i >= 0 && i in m
    ensures r.Ok? ==> r.value == i
    ensures r.Err? ==> r.error == ValueError(model + " '" + shown + "' does not exist.")
  {
    if i >= 0 && i in m then Ok(i) else Err(ValueError(model + " '" + shown + "' does not exist."))
  }

  /** `Model.objects.get(<identifying field>=k)`: the one row with that id;
      none is reported as a ValueError, several escape as
      MultipleObjectsReturned. */
  function GetById<K(==)>(m: map<nat, Record<K>>, n: nat, k: K, model: string, shown: string): (r: Result<nat>)
    requires KeysBelow(m, n)
    ensures r.Ok? ==> r.value in m && m[r.value].id == k && forall j :: j in m && m[j].id == k ==> j == r.value
    ensures r.Err? && r.error.ValueError? <==> forall j :: j in m ==> m[j].id != k
    ensures r.Err? ==> r.error == MultipleObjectsReturned || r.error == ValueError(model + " '" + shown + "' does not exist.")
  {
    var ks := KeysWith(m, n, IdOf, k);
    KeysWithExact(m, n, IdOf, k);
    if |ks| == 1 then
      assert ks[0] in ks;
      assert forall j :: j in m && m[j].id == k ==> j in ks;
      Ok(ks[0])
    else if |ks| == 0 then
      assert forall j :: j in m ==> m[j].id != k by {
        forall j | j in m ensures m[j].id != k {
          assert j !in ks;
        }
      }
      Err(ValueError(model + " '" + shown + "' does not exist."))
    else
      assert ks[0] in ks;
      Err(MultipleObjectsReturned)
  }

  /** `_resolve_block` / `_resolve_user`: an instance of the model is
      returned as it is; an int (a bool is one) is a primary key; anything
      else is matched, as its `str()`, against the identifying field (the
      block's code, the username). */
  function Resolve(m: map<nat, Record<string>>, n: nat, model: string, v: Value): (r: Result<nat>)
    requires KeysBelow(m, n)
    ensures v.ObjectV? && v.model == model ==> r == Ok(v.pk)
    ensures v.IntV? ==> r == GetByPk(m, v.i, model, PyStr(v))
    ensures v.BoolV? ==> r == GetByPk(m, if v.b then 1 else 0, model, PyStr(v))
    ensures !v.IntV? && !v.BoolV? && !(v.ObjectV? && v.model == model) ==> r == GetById(m, n, PyStr(v), model, PyStr(v))
  {
    match v
    case ObjectV(mdl, pk) =>
      if mdl == model then Ok(pk) else GetById(m, n, PyStr(v), model, PyStr(v))
    case IntV(i) => GetByPk(m, i, model, PyStr(v))
    case BoolV(b) => GetByPk(m, if b then 1 else 0, model, PyStr(v))
    case _ => GetById(m, n, PyStr(v), model, PyStr(v))
  }

  // ------------------------------------------------------ update_or_create

  /** `Model.objects.update_or_create(<identifying fields>=id, defaults=d)`:
      the key of the row and whether it was created, and the table after. */
  function Upsert<K(==)>(m: map<nat, Record<K>>, n: nat, id: K, d: map<string, Value>)
    : (r: (Result<(nat, bool)>, map<nat, Record<K>>, nat))
    requires KeysBelow(m, n)
    ensures KeysBelow(r.1, r.2)
  {
    var ks := KeysWith(m, n, IdOf, id);
    KeysWithExact(m, n, IdOf, id);
    if |ks| == 0 then (Ok((n, true)), m[n := Record(id, d)], n + 1)
    else if |ks| == 1 then
      assert ks[0] in ks;
      (Ok((ks[0], false)), m[ks[0] := m[ks[0]].(attrs := m[ks[0]].attrs + d)], n)
    else (Err(MultipleObjectsReturned), m, n)
  }

  /** The three outcomes of `update_or_create`: with no row of that id one
      is created under the counter with the defaults; with exactly one, the
      defaults are written over its fields and no other row changes; with
      several the error leaves the table as it was. */
  lemma UpsertCases<K>(m: map<nat, Record<K>>, n: nat, id: K, d: map<string, Value>)
    requires KeysBelow(m, n)
    ensures var r := Upsert(m, n, id, d);
      && ((forall j :: j in m ==> m[j].id != id) ==> r == (Ok((n, true)), m[n := Record(id, d)], n + 1))
      && (r.0.Ok? && !r.0.value.1 ==>
            var x := r.0.value.0;
            && x in m && m[x].id == id && (forall j :: j in m && m[j].id == id ==> j == x)
            && r.1 == m[x := Record(id, m[x].attrs + d)] && r.2 == n)
      && (r.0.Err? <==> exists i, j :: i in m && j in m && i != j && m[i].id == id && m[j].id == id)
      && (r.0.Err? ==> r.0.error == MultipleObjectsReturned && r.1 == m && r.2 == n)
  {
    var ks := KeysWith(m, n, IdOf, id);
    KeysWithExact(m, n, IdOf, id);
    if |ks| >= 2 {
      assert ks[0] in ks && ks[1] in ks;
    } else if |ks| == 1 {
      assert ks[0] in ks;
      forall i, j | i in m && j in m && m[i].id == id && m[j].id == id ensures i == j {
        assert i in ks && j in ks;
      }
    } else {
      forall j | j in m ensures m[j].id != id {
        assert j !in ks;
      }
    }
  }

  /** After a successful `update_or_create` its row is the only row of that
      id, and it holds the defaults. */
  lemma UpsertHolds<K>(m: map<nat, Record<K>>, n: nat, id: K, d: map<string, Value>)
    requires KeysBelow(m, n)
    requires Upsert(m, n, id, d).0.Ok?
    ensures var r := Upsert(m, n, id, d);
      var x := r.0.value.0;
      && KeysWith(r.1, r.2, IdOf, id) == [x]
      && x in r.1 && r.1[x].id == id
      && (forall a :: a in d ==> a in r.1[x].attrs && r.1[x].attrs[a] == d[a])
  {
    var ks := KeysWith(m, n, IdOf, id);
    UpsertCases(m, n, id, d);
    if |ks| == 0 {
      KeysWithInsert(m, n, IdOf, id, Record(id, d));
    } else {
      var r := Upsert(m, n, id, d);
      KeysWithAgree(r.1, m, n, IdOf, id);
    }
  }

  /** Repeating an `update_or_create` with the same defaults finds the same
      row and changes nothing. */
  lemma UpsertIdempotent<K>(m: map<nat, Record<K>>, n: nat, id: K, d: map<string, Value>)
    requires KeysBelow(m, n)
    requires Upsert(m, n, id, d).0.Ok?
    ensures var r := Upsert(m, n, id, d);
      Upsert(r.1, r.2, id, d) == (Ok((r.0.value.0, false)), r.1, r.2)
  {
    var r := Upsert(m, n, id, d);
    var x := r.0.value.0;
    UpsertHolds(m, n, id, d);
    assert r.1[x].attrs + d == r.1[x].attrs;
    assert r.1[x := r.1[x].(attrs := r.1[x].attrs + d)] == r.1;
  }

  /** `update_or_create` keeps every row's identity: no row disappears and
      no row's id changes. */
  lemma UpsertKeepsIds<K>(m: map<nat, Record<K>>, n: nat, id: K, d: map<string, Value>)
    requires KeysBelow(m, n)
    ensures var r := Upsert(m, n, id, d);
      && n <= r.2
      && (forall j :: j in m ==> j in r.1 && r.1[j].id == m[j].id)
  {
    UpsertCases(m, n, id, d);
  }

  /** `update_or_create` leaves every row of another id as it was. */
  lemma UpsertOthers<K>(m: map<nat, Record<K>>, n: nat, id: K, d: map<string, Value>)
    requires KeysBelow(m, n)
    ensures var r := Upsert(m, n, id, d);
      forall j :: j in m && m[j].id != id ==> j in r.1 && r.1[j] == m[j]
  {
    UpsertCases(m, n, id, d);
  }

  // ---------------------------------------------------------------- blocks

  /** One block definition, validated: the code it is keyed by and the
      defaults, every other key. (Popping `code` from the copy and passing
      the rest is reading `code` and leaving it out.) */
  function BlockDefinition(payload: Value): (r: Result<(string, map<string, Value>)>)
    ensures !payload.MappingV? ==> r == Err(TypeError(BLOCKS_NOT_MAPPINGS))
    ensures payload.MappingV? && !Truthy(GetOr(payload.entries, "code", NoneV)) ==> r == Err(ValueError(MISSING_CODE))
    ensures r.Ok? <==> payload.MappingV? && Truthy(GetOr(payload.entries, "code", NoneV))
    ensures r.Ok? ==> r.value.0 == PyStr(GetOr(payload.entries, "code", NoneV))
    ensures r.Ok? ==> r.value.1 == payload.entries - {"code"}
  {
    match ValidateMapping(payload, BLOCKS_NOT_MAPPINGS)
    case Err(e) => Err(e)
    case Ok(data) =>
      var code := GetOr(data, "code", NoneV);
      if !Truthy(code) then Err(ValueError(MISSING_CODE))
      else Ok((PyStr(code), data - {"code"}))
  }

  /** The loop of `create_or_update_blocks` over `defs`, from the table
      `m`: the keys of the blocks so far, or its first error. */
  function BlocksFold(m: map<nat, Record<string>>, n: nat, defs: seq<Value>)
    : (r: (Result<seq<nat>>, map<nat, Record<string>>, nat))
    requires KeysBelow(m, n)
    ensures KeysBelow(r.1, r.2)
    decreases |defs|
  {
    if defs == [] then (Ok([]), m, n)
    else BlockStep(BlocksFold(m, n, defs[..|defs| - 1]), defs[|defs| - 1])
  }

  /** One turn of the block loop: nothing more happens after an error; a
      definition is validated, then upserted by its code. */
  function BlockStep(f: (Result<seq<nat>>, map<nat, Record<string>>, nat), payload: Value)
    : (r: (Result<seq<nat>>, map<nat, Record<string>>, nat))
    requires KeysBelow(f.1, f.2)
    ensures KeysBelow(r.1, r.2)
  {
    if f.0.Err? then f
    else match BlockDefinition(payload)
      case Err(e) => (Err(e), f.1, f.2)
      case Ok(def) =>
        var u := Upsert(f.1, f.2, def.0, def.1);
        if u.0.Err? then (Err(u.0.error), f.1, f.2)
        else (Ok(f.0.value + [u.0.value.0]), u.1, u.2)
  }

  /** `create_or_update_blocks(defs)`, atomic: on an error nothing is kept. */
  function BlocksSeeded(s: Store, defs: seq<Value>): (r: (Result<seq<nat>>, Store))
    requires StoreValid(s)
    ensures StoreValid(r.1)
    ensures r.0.Err? ==> r.1 == s
    ensures r.1.users == s.users && r.1.configs == s.configs
  {
    var f := BlocksFold(s.blocks, s.nextBlock, defs);
    if f.0.Err? then (f.0, s) else (f.0, s.(blocks := f.1, nextBlock := f.2))
  }

  /** The code a valid block definition is keyed by. */
  function BlockKey(payload: Value): (r: Option<string>)
    ensures r.Some? <==> BlockDefinition(payload).Ok?
  {
    match BlockDefinition(payload)
    case Ok(def) => Some(def.0)
    case Err(_) => None
  }

  /** The block loop never removes a block or changes a code, and never
      moves its counter back. */
  lemma {:induction false} BlocksFoldKeepsIds(m: map<nat, Record<string>>, n: nat, defs: seq<Value>)
    requires KeysBelow(m, n)
    ensures var r := BlocksFold(m, n, defs);
      && n <= r.2
      && (forall j :: j in m ==> j in r.1 && r.1[j].id == m[j].id)
    decreases |defs|
  {
    if defs != [] {
      var init := defs[..|defs| - 1];
      BlocksFoldKeepsIds(m, n, init);
      var f := BlocksFold(m, n, init);
      var b := BlockDefinition(defs[|defs| - 1]);
      if f.0.Ok? && b.Ok? {
        UpsertKeepsIds(f.1, f.2, b.value.0, b.value.1);
      }
    }
  }

  /** A turn of the block loop that succeeds: the previous turns succeeded,
      and so did the definition and its upsert. */
  lemma BlockStepOk(f: (Result<seq<nat>>, map<nat, Record<string>>, nat), payload: Value)
    requires KeysBelow(f.1, f.2)
    requires BlockStep(f, payload).0.Ok?
    ensures var b := BlockDefinition(payload);
      && f.0.Ok? && b.Ok? && Upsert(f.1, f.2, b.value.0, b.value.1).0.Ok?
      && var u := Upsert(f.1, f.2, b.value.0, b.value.1);
         BlockStep(f, payload) == (Ok(f.0.value + [u.0.value.0]), u.1, u.2)
  {
  }

  /** A turn of the block loop that succeeds adds the key of the block it
      wrote, which has the definition's code, and keeps the earlier blocks
      and their codes. */
  lemma BlockStepShape(f: (Result<seq<nat>>, map<nat, Record<string>>, nat), payload: Value)
    requires KeysBelow(f.1, f.2)
    requires BlockStep(f, payload).0.Ok?
    ensures var r := BlockStep(f, payload);
      && f.0.Ok? && BlockDefinition(payload).Ok?
      && |r.0.value| == |f.0.value| + 1 && r.0.value[..|f.0.value|] == f.0.value
      && r.0.value[|f.0.value|] in r.1 && r.1[r.0.value[|f.0.value|]].id == BlockDefinition(payload).value.0
      && (forall j :: j in f.1 ==> j in r.1 && r.1[j].id == f.1[j].id)
  {
    BlockStepOk(f, payload);
    var b := BlockDefinition(payload);
    UpsertKeepsIds(f.1, f.2, b.value.0, b.value.1);
    UpsertHolds(f.1, f.2, b.value.0, b.value.1);
  }

  /** The block a successful turn wrote holds the definition's defaults;
      every block of another code is as it was. */
  lemma BlockStepWrites(f: (Result<seq<nat>>, map<nat, Record<string>>, nat), payload: Value)
    requires KeysBelow(f.1, f.2)
    requires BlockStep(f, payload).0.Ok?
    ensures var r := BlockStep(f, payload);
      var b := BlockDefinition(payload);
      && f.0.Ok? && b.Ok? && |r.0.value| == |f.0.value| + 1 && r.0.value[|f.0.value|] in r.1
      && (forall a :: a in b.value.1 ==>
            a in r.1[r.0.value[|f.0.value|]].attrs && r.1[r.0.value[|f.0.value|]].attrs[a] == b.value.1[a])
      && (forall j :: j in f.1 && f.1[j].id != b.value.0 ==> j in r.1 && r.1[j] == f.1[j])
  {
    BlockStepOk(f, payload);
    var b := BlockDefinition(payload);
    UpsertHolds(f.1, f.2, b.value.0, b.value.1);
    UpsertOthers(f.1, f.2, b.value.0, b.value.1);
  }

  /** A successful batch returns one block per definition, in input order,
      namely the block with that definition's code. */
  lemma {:induction false} BlocksFoldShape(m: map<nat, Record<string>>, n: nat, defs: seq<Value>)
    requires KeysBelow(m, n)
    ensures var r := BlocksFold(m, n, defs);
      r.0.Ok? ==>
        && |r.0.value| == |defs|
        && forall i :: 0 <= i < |defs| ==>
             BlockDefinition(defs[i]).Ok? && r.0.value[i] in r.1 && r.1[r.0.value[i]].id == BlockDefinition(defs[i]).value.0
    decreases |defs|
  {
    var r := BlocksFold(m, n, defs);
    if defs != [] && r.0.Ok? {
      var init := defs[..|defs| - 1];
      var f := BlocksFold(m, n, init);
      assert r == BlockStep(f, defs[|defs| - 1]);
      BlockStepShape(f, defs[|defs| - 1]);
      BlocksFoldShape(m, n, init);
      forall i | 0 <= i < |defs|
        ensures BlockDefinition(defs[i]).Ok? && r.0.value[i] in r.1 && r.1[r.0.value[i]].id == BlockDefinition(defs[i]).value.0
      {
        if i < |defs| - 1 {
          assert defs[i] == init[i];
          var x := f.0.value[i];
          assert r.0.value[i] == r.0.value[..|f.0.value|][i] == x;
          assert x in f.1 && f.1[x].id == BlockDefinition(init[i]).value.0;
        } else {
          assert i == |f.0.value|;
        }
      }
    }
  }

  /** After a successful batch, the block of a definition whose code no
      later definition repeats holds that definition's defaults. */
  lemma {:induction false} BlocksFoldDefaults(m: map<nat, Record<string>>, n: nat, defs: seq<Value>, i: nat)
    requires KeysBelow(m, n)
    requires BlocksFold(m, n, defs).0.Ok? && i < |defs|
    requires forall k :: i < k < |defs| ==> BlockKey(defs[k]) != BlockKey(defs[i])
    ensures var r := BlocksFold(m, n, defs);
      && BlockDefinition(defs[i]).Ok? && i < |r.0.value| && r.0.value[i] in r.1
      && var d := BlockDefinition(defs[i]).value.1;
         forall a :: a in d ==> a in r.1[r.0.value[i]].attrs && r.1[r.0.value[i]].attrs[a] == d[a]
    decreases |defs|
  {
    var r := BlocksFold(m, n, defs);
    var init := defs[..|defs| - 1];
    var f := BlocksFold(m, n, init);
    assert r == BlockStep(f, defs[|defs| - 1]);
    BlockStepShape(f, defs[|defs| - 1]);
    BlockStepWrites(f, defs[|defs| - 1]);
    if i < |defs| - 1 {
      assert defs[i] == init[i];
      forall k | i < k < |init| ensures BlockKey(init[k]) != BlockKey(init[i]) {
        assert init[k] == defs[k];
      }
      BlocksFoldDefaults(m, n, init, i);
      BlocksFoldShape(m, n, init);
      var x := f.0.value[i];
      assert r.0.value[i] == r.0.value[..|f.0.value|][i] == x;
      assert BlockKey(defs[|defs| - 1]) != BlockKey(defs[i]);
      assert f.1[x].id != BlockDefinition(defs[|defs| - 1]).value.0;
      assert r.1[x] == f.1[x];
    } else {
      BlocksFoldShape(m, n, init);
      assert i == |f.0.value|;
    }
  }

  /** A batch with an invalid definition fails: a non-mapping, or a mapping
      with a missing or empty code, anywhere in the input. */
  lemma {:induction false} BlocksFoldRejects(m: map<nat, Record<string>>, n: nat, defs: seq<Value>, i: nat)
    requires KeysBelow(m, n)
    requires i < |defs| && BlockDefinition(defs[i]).Err?
    ensures BlocksFold(m, n, defs).0.Err?
    decreases |defs|
  {
    if i < |defs| - 1 {
      assert defs[i] == defs[..|defs| - 1][i];
      BlocksFoldRejects(m, n, defs[..|defs| - 1], i);
    }
  }

  // ------------------------------------------------------- column configs

  /** A column-config definition that passed the checks which need no
      database: the identifiers of its block and user, its name, and its
      defaults. */
  datatype ConfigDraft = ConfigDraft(block: Value, user: Value, name: Value, defaults: map<string, Value>)

  /** The checks of one column-config definition, in the order the source
      makes them: the mapping, `block`, `user`, `name`, then `fields`, which
      when given and not None is normalised. (Popping a key from the copy is
      reading it and leaving it out of the defaults.) */
  function ConfigChecks(payload: Value): (r: Result<ConfigDraft>)
    ensures !payload.MappingV? ==> r == Err(TypeError(CONFIGS_NOT_MAPPINGS))
  {
    match ValidateMapping(payload, CONFIGS_NOT_MAPPINGS)
    case Err(e) => Err(e)
    case Ok(data) =>
      var block, user, name := GetOr(data, "block", NoneV), GetOr(data, "user", NoneV), GetOr(data, "name", NoneV);
      if block == NoneV then Err(ValueError(MISSING_BLOCK))
      else if user == NoneV then Err(ValueError(MISSING_USER))
      else if !Truthy(name) then Err(ValueError(MISSING_NAME))
      else
        var rest := data - {"block", "user", "name"};
        var fields := GetOr(data, "fields", NoneV);
        if fields == NoneV then Ok(ConfigDraft(block, user, name, rest))
        else match NormaliseFields(fields)
          case Err(e) => Err(e)
          case Ok(fs) => Ok(ConfigDraft(block, user, name, rest["fields" := StrList(fs)]))
  }

  /** The error of each check, given that the checks before it passed. */
  lemma ConfigChecksOrder(payload: Value)
    requires payload.MappingV?
    ensures var r := ConfigChecks(payload);
      var es := payload.entries;
      && (GetOr(es, "block", NoneV) == NoneV ==> r == Err(ValueError(MISSING_BLOCK)))
      && (GetOr(es, "block", NoneV) != NoneV && GetOr(es, "user", NoneV) == NoneV ==>
            r == Err(ValueError(MISSING_USER)))
      && (GetOr(es, "block", NoneV) != NoneV && GetOr(es, "user", NoneV) != NoneV &&
          !Truthy(GetOr(es, "name", NoneV)) ==>
            r == Err(ValueError(MISSING_NAME)))
      && (GetOr(es, "block", NoneV) != NoneV && GetOr(es, "user", NoneV) != NoneV &&
          Truthy(GetOr(es, "name", NoneV)) && GetOr(es, "fields", NoneV) != NoneV &&
          NormaliseFields(GetOr(es, "fields", NoneV)).Err? ==>
            r == Err(ValueError(BAD_FIELDS)))
  {
  }

  /** A definition that passes the checks gives its `block`, `user` and
      `name` values; none of the three is a default. */
  lemma ConfigChecksIds(payload: Value)
    requires ConfigChecks(payload).Ok?
    ensures var d := ConfigChecks(payload).value;
      && payload.MappingV?
      && d.block == GetOr(payload.entries, "block", NoneV) != NoneV
      && d.user == GetOr(payload.entries, "user", NoneV) != NoneV
      && d.name == GetOr(payload.entries, "name", NoneV) && Truthy(d.name)
      && "block" !in d.defaults && "user" !in d.defaults && "name" !in d.defaults
  {
  }

  /** The other keys of a definition that passes the checks are its
      defaults, with `fields`, when given and not None, as the list of
      strings `_normalise_fields` makes of it. */
  lemma ConfigChecksDefaults(payload: Value)
    requires ConfigChecks(payload).Ok?
    ensures var d := ConfigChecks(payload).value;
      var es := payload.entries;
      && payload.MappingV?
      && (forall k :: k != "block" && k != "user" && k != "name" && k != "fields" ==>
            (k in d.defaults <==> k in es) && (k in d.defaults ==> d.defaults[k] == es[k]))
      && (GetOr(es, "fields", NoneV) != NoneV ==>
            && NormaliseFields(GetOr(es, "fields", NoneV)).Ok?
            && "fields" in d.defaults
            && d.defaults["fields"] == StrList(NormaliseFields(GetOr(es, "fields", NoneV)).value))
      && (GetOr(es, "fields", NoneV) == NoneV ==>
            ("fields" in d.defaults <==> "fields" in es))
  {
  }

  /** One column-config definition: its checks, then `_resolve_block` and
      `_resolve_user`, in that order. The result is the config's key and its
      defaults. */
  function ConfigDefinition(s: Store, payload: Value): (r: Result<(ConfigKey, map<string, Value>)>)
    requires StoreValid(s)
    ensures ConfigChecks(payload).Err? ==> r == Err(ConfigChecks(payload).error)
    ensures ConfigChecks(payload).Ok? ==>
      var d := ConfigChecks(payload).value;
      var b := Resolve(s.blocks, s.nextBlock, BLOCK_MODEL, d.block);
      var u := Resolve(s.users, s.nextUser, USER_MODEL, d.user);
      && (b.Err? ==> r == Err(b.error))
      && (b.Ok? && u.Err? ==> r == Err(u.error))
      && (b.Ok? && u.Ok? ==> r == Ok((ConfigKey(b.value, u.value, PyStr(d.name)), d.defaults)))
  {
    match ConfigChecks(payload)
    case Err(e) => Err(e)
    case Ok(d) =>
      match Resolve(s.blocks, s.nextBlock, BLOCK_MODEL, d.block)
      case Err(e) => Err(e)
      case Ok(block) =>
        match Resolve(s.users, s.nextUser, USER_MODEL, d.user)
        case Err(e) => Err(e)
        case Ok(user) => Ok((ConfigKey(block, user, PyStr(d.name)), d.defaults))
  }

  /** The loop of `create_or_update_block_column_configs` over `defs`. The
      blocks and users are only read. */
  function ConfigsFold(s: Store, defs: seq<Value>): (r: (Result<seq<nat>>, map<nat, Record<ConfigKey>>, nat))
    requires StoreValid(s)
    ensures KeysBelow(r.1, r.2)
    decreases |defs|
  {
    if defs == [] then (Ok([]), s.configs, s.nextConfig)
    else ConfigStep(s, ConfigsFold(s, defs[..|defs| - 1]), defs[|defs| - 1])
  }

  /** One turn of the config loop: nothing more happens after an error; a
      definition is checked and resolved, then upserted by its key. */
  function ConfigStep(s: Store, f: (Result<seq<nat>>, map<nat, Record<ConfigKey>>, nat), payload: Value)
    : (r: (Result<seq<nat>>, map<nat, Record<ConfigKey>>, nat))
    requires StoreValid(s) && KeysBelow(f.1, f.2)
    ensures KeysBelow(r.1, r.2)
  {
    if f.0.Err? then f
    else match ConfigDefinition(s, payload)
      case Err(e) => (Err(e), f.1, f.2)
      case Ok(def) =>
        var u := Upsert(f.1, f.2, def.0, def.1);
        if u.0.Err? then (Err(u.0.error), f.1, f.2)
        else (Ok(f.0.value + [u.0.value.0]), u.1, u.2)
  }

  /** `create_or_update_block_column_configs(defs)`, atomic. */
  function ConfigsSeeded(s: Store, defs: seq<Value>): (r: (Result<seq<nat>>, Store))
    requires StoreValid(s)
    ensures StoreValid(r.1)
    ensures r.0.Err? ==> r.1 == s
    ensures r.1.blocks == s.blocks && r.1.nextBlock == s.nextBlock && r.1.users == s.users
  {
    var f := ConfigsFold(s, defs);
    if f.0.Err? then (f.0, s) else (f.0, s.(configs := f.1, nextConfig := f.2))
  }

  /** The key a valid column-config definition is upserted by. */
  function ConfigKeyOf(s: Store, payload: Value): (r: Option<ConfigKey>)
    requires StoreValid(s)
    ensures r.Some? <==> ConfigDefinition(s, payload).Ok?
  {
    match ConfigDefinition(s, payload)
    case Ok(def) => Some(def.0)
    case Err(_) => None
  }

  /** The config loop never removes a config or changes a key, and never
      moves its counter back. */
  lemma {:induction false} ConfigsFoldKeepsIds(s: Store, defs: seq<Value>)
    requires StoreValid(s)
    ensures var r := ConfigsFold(s, defs);
      && s.nextConfig <= r.2
      && (forall j :: j in s.configs ==> j in r.1 && r.1[j].id == s.configs[j].id)
    decreases |defs|
  {
    if defs != [] {
      var init := defs[..|defs| - 1];
      ConfigsFoldKeepsIds(s, init);
      var f := ConfigsFold(s, init);
      var c := ConfigDefinition(s, defs[|defs| - 1]);
      if f.0.Ok? && c.Ok? {
        UpsertKeepsIds(f.1, f.2, c.value.0, c.value.1);
      }
    }
  }

  /** A turn of the config loop that succeeds. */
  lemma ConfigStepOk(s: Store, f: (Result<seq<nat>>, map<nat, Record<ConfigKey>>, nat), payload: Value)
    requires StoreValid(s) && KeysBelow(f.1, f.2)
    requires ConfigStep(s, f, payload).0.Ok?
    ensures var c := ConfigDefinition(s, payload);
      && f.0.Ok? && c.Ok? && Upsert(f.1, f.2, c.value.0, c.value.1).0.Ok?
      && var u := Upsert(f.1, f.2, c.value.0, c.value.1);
         ConfigStep(s, f, payload) == (Ok(f.0.value + [u.0.value.0]), u.1, u.2)
  {
  }

  /** A turn of the config loop that succeeds adds the key of the config
      it wrote, which has the definition's key, and keeps the earlier
      configs and their keys. */
  lemma ConfigStepShape(s: Store, f: (Result<seq<nat>>, map<nat, Record<ConfigKey>>, nat), payload: Value)
    requires StoreValid(s) && KeysBelow(f.1, f.2)
    requires ConfigStep(s, f, payload).0.Ok?
    ensures var r := ConfigStep(s, f, payload);
      && f.0.Ok? && ConfigDefinition(s, payload).Ok?
      && |r.0.value| == |f.0.value| + 1 && r.0.value[..|f.0.value|] == f.0.value
      && r.0.value[|f.0.value|] in r.1 && r.1[r.0.value[|f.0.value|]].id == ConfigDefinition(s, payload).value.0
      && (forall j :: j in f.1 ==> j in r.1 && r.1[j].id == f.1[j].id)
  {
    ConfigStepOk(s, f, payload);
    var c := ConfigDefinition(s, payload);
    UpsertKeepsIds(f.1, f.2, c.value.0, c.value.1);
    UpsertHolds(f.1, f.2, c.value.0, c.value.1);
  }

  /** The config a successful turn wrote holds the definition's defaults;
      every config of another key is as it was. */
  lemma ConfigStepWrites(s: Store, f: (Result<seq<nat>>, map<nat, Record<ConfigKey>>, nat), payload: Value)
    requires StoreValid(s) && KeysBelow(f.1, f.2)
    requires ConfigStep(s, f, payload).0.Ok?
    ensures var r := ConfigStep(s, f, payload);
      var c := ConfigDefinition(s, payload);
      && f.0.Ok? && c.Ok? && |r.0.value| == |f.0.value| + 1 && r.0.value[|f.0.value|] in r.1
      && (forall a :: a in c.value.1 ==>
            a in r.1[r.0.value[|f.0.value|]].attrs && r.1[r.0.value[|f.0.value|]].attrs[a] == c.value.1[a])
      && (forall j :: j in f.1 && f.1[j].id != c.value.0 ==> j in r.1 && r.1[j] == f.1[j])
  {
    ConfigStepOk(s, f, payload);
    var c := ConfigDefinition(s, payload);
    UpsertHolds(f.1, f.2, c.value.0, c.value.1);
    UpsertOthers(f.1, f.2, c.value.0, c.value.1);
  }

  /** A successful batch returns one config per definition, in input order,
      namely the config with that definition's block, user and name. */
  lemma {:induction false} ConfigsFoldShape(s: Store, defs: seq<Value>)
    requires StoreValid(s)
    ensures var r := ConfigsFold(s, defs);
      r.0.Ok? ==>
        && |r.0.value| == |defs|
        && forall i :: 0 <= i < |defs| ==>
             ConfigDefinition(s, defs[i]).Ok? && r.0.value[i] in r.1
             && r.1[r.0.value[i]].id == ConfigDefinition(s, defs[i]).value.0
    decreases |defs|
  {
    if defs != [] && ConfigsFold(s, defs).0.Ok? {
      ConfigsFoldShape(s, defs[..|defs| - 1]);
      ConfigsFoldShapeStep(s, defs);
    }
  }

  /** The inductive step of `ConfigsFoldShape`: the shape of the batch of
      all but the last definition carries over to the whole batch. */
  lemma ConfigsFoldShapeStep(s: Store, defs: seq<Value>)
    requires StoreValid(s) && defs != [] && ConfigsFold(s, defs).0.Ok?
    requires var f := ConfigsFold(s, defs[..|defs| - 1]);
      f.0.Ok? ==>
        && |f.0.value| == |defs| - 1
        && forall i :: 0 <= i < |defs| - 1 ==>
             ConfigDefinition(s, defs[i]).Ok? && f.0.value[i] in f.1
             && f.1[f.0.value[i]].id == ConfigDefinition(s, defs[i]).value.0
    ensures var r := ConfigsFold(s, defs);
      && |r.0.value| == |defs|
      && forall i :: 0 <= i < |defs| ==>
           ConfigDefinition(s, defs[i]).Ok? && r.0.value[i] in r.1
           && r.1[r.0.value[i]].id == ConfigDefinition(s, defs[i]).value.0
  {
    var r := ConfigsFold(s, defs);
    var init := defs[..|defs| - 1];
    var f := ConfigsFold(s, init);
    assert r == ConfigStep(s, f, defs[|defs| - 1]);
    ConfigStepShape(s, f, defs[|defs| - 1]);
    var keys, prior := r.0.value, f.0.value;
    var defined := seq(|defs|, k requires 0 <= k < |defs| => ConfigDefinition(s, defs[k]));
    KeysExtend(prior, keys, f.1, r.1, defined);
  }

  /** The bookkeeping step of `ConfigsFoldShape`: `keys` extends `prior` by
      one key, every key of `prior` stays with its id, and the new key has
      the last id. */
  lemma KeysExtend(prior: seq<nat>, keys: seq<nat>, before: map<nat, Record<ConfigKey>>,
                   after: map<nat, Record<ConfigKey>>, defined: seq<Result<(ConfigKey, map<string, Value>)>>)
    requires |keys| == |prior| + 1 == |defined| && keys[..|prior|] == prior
    requires forall i :: 0 <= i < |prior| ==>
      defined[i].Ok? && prior[i] in before && before[prior[i]].id == defined[i].value.0
    requires forall j :: j in before ==> j in after && after[j].id == before[j].id
    requires defined[|prior|].Ok? && keys[|prior|] in after && after[keys[|prior|]].id == defined[|prior|].value.0
    ensures forall i :: 0 <= i < |keys| ==>
      defined[i].Ok? && keys[i] in after && after[keys[i]].id == defined[i].value.0
  {
    forall i | 0 <= i < |keys|
      ensures defined[i].Ok? && keys[i] in after && after[keys[i]].id == defined[i].value.0
    {
      if i < |prior| {
        assert keys[i] == prior[i];
      }
    }
  }

  /** After a successful batch, the config of a definition whose key no
      later definition repeats holds that definition's defaults. */
  lemma {:induction false} ConfigsFoldDefaults(s: Store, defs: seq<Value>, i: nat)
    requires StoreValid(s)
    requires ConfigsFold(s, defs).0.Ok? && i < |defs|
    requires forall k :: i < k < |defs| ==> ConfigKeyOf(s, defs[k]) != ConfigKeyOf(s, defs[i])
    ensures var r := ConfigsFold(s, defs);
      && ConfigDefinition(s, defs[i]).Ok? && i < |r.0.value| && r.0.value[i] in r.1
      && var d := ConfigDefinition(s, defs[i]).value.1;
         forall a :: a in d ==> a in r.1[r.0.value[i]].attrs && r.1[r.0.value[i]].attrs[a] == d[a]
    decreases |defs|
  {
    var r := ConfigsFold(s, defs);
    var init := defs[..|defs| - 1];
    var f := ConfigsFold(s, init);
    assert r == ConfigStep(s, f, defs[|defs| - 1]);
    ConfigStepShape(s, f, defs[|defs| - 1]);
    ConfigStepWrites(s, f, defs[|defs| - 1]);
    ConfigsFoldShape(s, init);
    if i < |defs| - 1 {
      assert defs[i] == init[i];
      forall k | i < k < |init| ensures ConfigKeyOf(s, init[k]) != ConfigKeyOf(s, init[i]) {
        assert init[k] == defs[k];
      }
      ConfigsFoldDefaults(s, init, i);
      var x := f.0.value[i];
      assert r.0.value[i] == r.0.value[..|f.0.value|][i] == x;
      assert ConfigKeyOf(s, defs[|defs| - 1]) != ConfigKeyOf(s, defs[i]);
      assert f.1[x].id != ConfigDefinition(s, defs[|defs| - 1]).value.0;
      assert r.1[x] == f.1[x];
    } else {
      assert i == |f.0.value|;
    }
  }

  /** A batch with a definition that fails its checks fails, whatever its
      position. */
  lemma {:induction false} ConfigsFoldRejects(s: Store, defs: seq<Value>, i: nat)
    requires StoreValid(s)
    requires i < |defs| && ConfigDefinition(s, defs[i]).Err?
    ensures ConfigsFold(s, defs).0.Err?
    decreases |defs|
  {
    if i < |defs| - 1 {
      assert defs[i] == defs[..|defs| - 1][i];
      ConfigsFoldRejects(s, defs[..|defs| - 1], i);
    }
  }

  // ------------------------------------------------------------- database

  class SeedingDb {
    var store: Store

    /** `create_or_update_blocks(defs)`. */
    method CreateOrUpdateBlocks(defs: seq<Value>) returns (r: Result<seq<nat>>)
      requires StoreValid(store)
      modifies this
      ensures (r, store) == BlocksSeeded(old(store), defs)
    {
      var saved := store;
      var blocks: seq<nat> := [];
      for i := 0 to |defs|
        invariant StoreValid(store)
        invariant store == saved.(blocks := store.blocks, nextBlock := store.nextBlock)
        invariant BlocksFold(saved.blocks, saved.nextBlock, defs[..i]) == (Ok(blocks), store.blocks, store.nextBlock)
      {
        assert defs[..i + 1][..i] == defs[..i];
        var def := BlockDefinition(defs[i]);
        if def.Err? {
          BlocksFoldFrom(saved.blocks, saved.nextBlock, defs, i + 1);
          store := saved;
          return Err(def.error);
        }
        var u := Upsert(store.blocks, store.nextBlock, def.value.0, def.value.1);
        if u.0.Err? {
          BlocksFoldFrom(saved.blocks, saved.nextBlock, defs, i + 1);
          store := saved;
          return Err(u.0.error);
        }
        store := store.(blocks := u.1, nextBlock := u.2);
        blocks := blocks + [u.0.value.0];
      }
      assert defs[..|defs|] == defs;
      r := Ok(blocks);
    }

    /** `create_or_update_block_column_configs(defs)`. */
    method CreateOrUpdateBlockColumnConfigs(defs: seq<Value>) returns (r: Result<seq<nat>>)
      requires StoreValid(store)
      modifies this
      ensures (r, store) == ConfigsSeeded(old(store), defs)
    {
      var saved := store;
      var configs: seq<nat> := [];
      for i := 0 to |defs|
        invariant StoreValid(store)
        invariant store == saved.(configs := store.configs, nextConfig := store.nextConfig)
        invariant ConfigsFold(saved, defs[..i]) == (Ok(configs), store.configs, store.nextConfig)
      {
        assert defs[..i + 1][..i] == defs[..i];
        var def := ConfigDefinition(saved, defs[i]);
        if def.Err? {
          ConfigsFoldFrom(saved, defs, i + 1);
          store := saved;
          return Err(def.error);
        }
        var u := Upsert(store.configs, store.nextConfig, def.value.0, def.value.1);
        if u.0.Err? {
          ConfigsFoldFrom(saved, defs, i + 1);
          store := saved;
          return Err(u.0.error);
        }
        store := store.(configs := u.1, nextConfig := u.2);
        configs := configs + [u.0.value.0];
      }
      assert defs[..|defs|] == defs;
      r := Ok(configs);
    }
  }

  /** Once the block loop has failed, the remaining definitions do not
      matter. */
  lemma {:induction false} BlocksFoldFrom(m: map<nat, Record<string>>, n: nat, defs: seq<Value>, i: nat)
    requires KeysBelow(m, n)
    requires i <= |defs| && BlocksFold(m, n, defs[..i]).0.Err?
    ensures BlocksFold(m, n, defs) == BlocksFold(m, n, defs[..i])
    decreases |defs| - i
  {
    if i < |defs| {
      assert defs[..i + 1][..i] == defs[..i];
      BlocksFoldFrom(m, n, defs, i + 1);
    } else {
      assert defs[..i] == defs;
    }
  }

  /** Once the config loop has failed, the remaining definitions do not
      matter. */
  lemma {:induction false} ConfigsFoldFrom(s: Store, defs: seq<Value>, i: nat)
    requires StoreValid(s)
    requires i <= |defs| && ConfigsFold(s, defs[..i]).0.Err?
    ensures ConfigsFold(s, defs) == ConfigsFold(s, defs[..i])
    decreases |defs| - i
  {
    if i < |defs| {
      assert defs[..i + 1][..i] == defs[..i];
      ConfigsFoldFrom(s, defs, i + 1);
    } else {
      assert defs[..i] == defs;
    }
  }
}
