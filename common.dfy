/** Lookups and orderings over tables held as maps from primary key to row.
    A table's keys are all below an auto-increment counter, so every query
    here ranges over the keys below a bound `n`. */
module Common {

  datatype Option<+T> = None | Some(value: T)

  /** The Python exceptions the modelled code raises or lets through. */
  datatype Exception =
    | IntegrityError(constraint: string)
    | TypeError(message: string)
    | ValueError(message: string)
    | AttributeError(attribute: string)
    | InvalidOperation
    | CommandError
    | MultipleObjectsReturned

  datatype Result<+T> = Ok(value: T) | Err(error: Exception)

  /** Every primary key of the table is below the auto-increment counter. */
  predicate KeysBelow<T>(m: map<nat, T>, n: nat)
  {
    forall k :: k in m ==> k < n
  }

  /** The keys below `n` of the rows whose `key` is `k`, ascending: the rows
      a `.filter(...)` on the fields of `key` selects. */
  function KeysWith<T, K(==)>(m: map<nat, T>, n: nat, key: T -> K, k: K): seq<nat>
  {
    if n == 0 then []
    else KeysWith(m, n - 1, key, k) + (if n - 1 in m && key(m[n - 1]) == k then [n - 1] else [])
  }

  lemma {:induction false} KeysWithExact<T, K>(m: map<nat, T>, n: nat, key: T -> K, k: K)
    ensures forall j :: j in KeysWith(m, n, key, k) <==> j in m && j < n && key(m[j]) == k
    ensures forall i, j :: 0 <= i < j < |KeysWith(m, n, key, k)| ==> KeysWith(m, n, key, k)[i] < KeysWith(m, n, key, k)[j]
  {
    if n > 0 {
      KeysWithExact(m, n - 1, key, k);
      var r := KeysWith(m, n - 1, key, k);
      assert forall i :: 0 <= i < |r| ==> r[i] < n - 1 by {
        forall i | 0 <= i < |r| ensures r[i] < n - 1 {
          assert r[i] in r;
        }
      }
    }
  }

  /** Two tables that agree below `n` on which keys exist and on their
      `key` select the same rows. */
  lemma {:induction false} KeysWithAgree<T, K>(m1: map<nat, T>, m2: map<nat, T>, n: nat, key: T -> K, k: K)
    requires forall j :: j < n ==> (j in m1 <==> j in m2)
    requires forall j :: j < n && j in m1 ==> key(m1[j]) == key(m2[j])
    ensures KeysWith(m1, n, key, k) == KeysWith(m2, n, key, k)
  {
    if n > 0 {
      KeysWithAgree(m1, m2, n - 1, key, k);
    }
  }

  /** A row inserted under the counter is selected after all older rows. */
  lemma KeysWithInsert<T, K>(m: map<nat, T>, n: nat, key: T -> K, k: K, row: T)
    requires KeysBelow(m, n)
    ensures KeysWith(m[n := row], n + 1, key, k) == KeysWith(m, n, key, k) + (if key(row) == k then [n] else [])
  {
    KeysWithAgree(m[n := row], m, n, key, k);
  }

  /** `Model.objects.get_or_create(<fields of key> = k, defaults=...)`, with
      `row` the row it would create: the key of the one row that matches and
      whether it was created, and the table afterwards. Two matching rows are
      an error. */
  function GetOrCreate<T, K(==)>(m: map<nat, T>, n: nat, key: T -> K, k: K, row: T)
    : (r: (Result<(nat, bool)>, map<nat, T>, nat))
    requires KeysBelow(m, n) && key(row) == k
    ensures KeysBelow(r.1, r.2)
    ensures r.0.Ok? ==> r.0.value.0 in r.1 && key(r.1[r.0.value.0]) == k
    ensures r.0.Err? ==> r.0.error == MultipleObjectsReturned
    ensures (forall j :: j in m ==> key(m[j]) != k) ==> r == (Ok((n, true)), m[n := row], n + 1)
  {
    var ks := KeysWith(m, n, key, k);
    KeysWithExact(m, n, key, k);
    assert (forall j :: j in m ==> key(m[j]) != k) ==> ks == [] by {
      if forall j :: j in m ==> key(m[j]) != k {
        KeysWithNone(m, n, key, k);
      }
    }
    if |ks| == 0 then (Ok((n, true)), m[n := row], n + 1)
    else if |ks| == 1 then
      assert ks[0] in ks;
      (Ok((ks[0], false)), m, n)
    else (Err(MultipleObjectsReturned), m, n)
  }

  /** `Model.objects.get(<fields of key> = k)`: the only matching row, `None`
      where Django raises `DoesNotExist`, and an error when several match. */
  function Lookup<T, K(==)>(m: map<nat, T>, n: nat, key: T -> K, k: K): (r: Result<Option<nat>>)
    requires KeysBelow(m, n)
    ensures r.Ok? && r.value.Some? ==> r.value.value in m && key(m[r.value.value]) == k
    ensures r.Ok? && r.value.Some? ==> forall j :: j in m && key(m[j]) == k ==> j == r.value.value
    ensures r == Ok(None) <==> forall j :: j in m ==> key(m[j]) != k
    ensures r.Err? ==> r.error == MultipleObjectsReturned
    ensures r.Err? ==> exists i, j :: i in m && j in m && i != j && key(m[i]) == k && key(m[j]) == k
  {
    var ks := KeysWith(m, n, key, k);
    KeysWithExact(m, n, key, k);
    if |ks| == 0 then Ok(None)
    else if |ks| == 1 then
      assert ks[0] in ks;
      Ok(Some(ks[0]))
    else
      assert ks[0] in ks && ks[1] in ks && ks[0] < ks[1];
      Err(MultipleObjectsReturned)
  }

  /** The three outcomes of `get_or_create`: the only match is returned and
      nothing changes; with no match `row` is created under the counter;
      with several the error leaves the table as it was. */
  lemma GetOrCreateCases<T, K>(m: map<nat, T>, n: nat, key: T -> K, k: K, row: T)
    requires KeysBelow(m, n) && key(row) == k
    ensures var r := GetOrCreate(m, n, key, k, row);
      && (r.0.Ok? && r.0.value.1 <==> forall j :: j in m ==> key(m[j]) != k)
      && (r.0.Ok? && r.0.value.1 ==> r.0.value.0 == n && r.1 == m[n := row] && r.2 == n + 1)
      && (r.0.Ok? && !r.0.value.1 ==> r.0.value.0 in m && key(m[r.0.value.0]) == k && r.1 == m && r.2 == n
                                      && forall j :: j in m && key(m[j]) == k ==> j == r.0.value.0)
      && (r.0.Err? <==> exists i, j :: i in m && j in m && i != j && key(m[i]) == k && key(m[j]) == k)
      && (r.0.Err? ==> r.0.error == MultipleObjectsReturned && r.1 == m && r.2 == n)
  {
    var ks := KeysWith(m, n, key, k);
    KeysWithExact(m, n, key, k);
    if |ks| >= 2 {
      assert ks[0] in ks && ks[1] in ks;
    } else if |ks| == 1 {
      assert ks[0] in ks;
      forall i, j | i in m && j in m && key(m[i]) == k && key(m[j]) == k ensures i == j {
        assert i in ks && j in ks;
      }
    } else {
      forall j | j in m ensures key(m[j]) != k {
        assert j !in ks;
      }
    }
  }

  /** After a successful `get_or_create` exactly its row matches, so a second
      one finds that row and changes nothing. */
  lemma GetOrCreateAgain<T, K>(m: map<nat, T>, n: nat, key: T -> K, k: K, row: T, row': T)
    requires KeysBelow(m, n) && key(row) == k && key(row') == k
    requires GetOrCreate(m, n, key, k, row).0.Ok?
    ensures var r := GetOrCreate(m, n, key, k, row);
      && KeysWith(r.1, r.2, key, k) == [r.0.value.0]
      && GetOrCreate(r.1, r.2, key, k, row') == (Ok((r.0.value.0, false)), r.1, r.2)
  {
    var ks := KeysWith(m, n, key, k);
    if |ks| == 0 {
      KeysWithInsert(m, n, key, k, row);
    }
  }

  /** When exactly one row matches, `get_or_create` returns it and changes
      nothing. */
  lemma GetOrCreateFound<T, K>(m: map<nat, T>, n: nat, key: T -> K, k: K, row: T, x: nat)
    requires KeysBelow(m, n) && key(row) == k && KeysWith(m, n, key, k) == [x]
    ensures GetOrCreate(m, n, key, k, row) == (Ok((x, false)), m, n)
  {
  }

  /** With no row of key `k` nothing is selected. */
  lemma {:induction false} KeysWithNone<T, K>(m: map<nat, T>, n: nat, key: T -> K, k: K)
    requires forall j :: j in m ==> key(m[j]) != k
    ensures KeysWith(m, n, key, k) == []
  {
    if n > 0 {
      KeysWithNone(m, n - 1, key, k);
    }
  }

  /** `get_or_create` only adds: every old row stays, and a new row is `row`. */
  lemma GetOrCreateGrows<T, K>(m: map<nat, T>, n: nat, key: T -> K, k: K, row: T)
    requires KeysBelow(m, n) && key(row) == k
    ensures var r := GetOrCreate(m, n, key, k, row);
      && n <= r.2
      && (forall j :: j in m ==> j in r.1 && r.1[j] == m[j])
      && (forall j :: j in r.1 && j !in m ==> r.1[j] == row)
  {
  }

  /** A `get_or_create` for `k` leaves the rows of every other `k2` alone. */
  lemma GetOrCreateOther<T, K>(m: map<nat, T>, n: nat, key: T -> K, k: K, row: T, k2: K)
    requires KeysBelow(m, n) && key(row) == k && k2 != k
    ensures var r := GetOrCreate(m, n, key, k, row);
      KeysWith(r.1, r.2, key, k2) == KeysWith(m, n, key, k2)
  {
    var ks := KeysWith(m, n, key, k);
    if |ks| == 0 {
      KeysWithInsert(m, n, key, k2, row);
    }
  }

  /** The elements of `s` that satisfy `p`, in their order in `s`. */
  function Filter<T>(s: seq<T>, p: T -> bool): seq<T>
  {
    if s == [] then [] else (if p(s[0]) then [s[0]] else []) + Filter(s[1..], p)
  }

  lemma {:induction false} FilterMembership<T>(s: seq<T>, p: T -> bool, x: T)
    ensures x in Filter(s, p) <==> x in s && p(x)
  {
    if s != [] {
      FilterMembership(s[1..], p, x);
      assert s == [s[0]] + s[1..];
    }
  }

  /** Filtering keeps the relative order: it distributes over concatenation. */
  lemma {:induction false} FilterAppend<T>(a: seq<T>, b: seq<T>, p: T -> bool)
    ensures Filter(a + b, p) == Filter(a, p) + Filter(b, p)
  {
    if a == [] {
      assert a + b == b;
    } else {
      assert (a + b)[1..] == a[1..] + b;
      FilterAppend(a[1..], b, p);
    }
  }

  /** `xs` lists keys of `ranks` by non-increasing rank. */
  ghost predicate SortedDesc(ranks: map<nat, int>, xs: seq<nat>)
    requires forall i :: 0 <= i < |xs| ==> xs[i] in ranks
  {
    forall i, j :: 0 <= i < j < |xs| ==> ranks[xs[i]] >= ranks[xs[j]]
  }

  ghost predicate Distinct(xs: seq<nat>)
  {
    forall i, j :: 0 <= i < j < |xs| ==> xs[i] != xs[j]
  }

  /** Inserts key `k` before the first element of lower rank. */
  function InsertDesc(ranks: map<nat, int>, xs: seq<nat>, k: nat): (r: seq<nat>)
    requires k in ranks
    requires forall i :: 0 <= i < |xs| ==> xs[i] in ranks
    ensures |r| == |xs| + 1
    ensures forall x :: x in r <==> x == k || x in xs
    ensures forall i :: 0 <= i < |r| ==> r[i] in ranks
  {
    if xs == [] then [k]
    else if ranks[xs[0]] >= ranks[k] then
      var tail := InsertDesc(ranks, xs[1..], k);
      assert forall x :: x in xs <==> x == xs[0] || x in xs[1..];
      [xs[0]] + tail
    else
      [k] + xs
  }

  lemma {:induction false} InsertDescSorted(ranks: map<nat, int>, xs: seq<nat>, k: nat)
    requires k in ranks
    requires forall i :: 0 <= i < |xs| ==> xs[i] in ranks
    requires SortedDesc(ranks, xs)
    ensures SortedDesc(ranks, InsertDesc(ranks, xs, k))
  {
    if xs != [] && ranks[xs[0]] >= ranks[k] {
      var tail := InsertDesc(ranks, xs[1..], k);
      InsertDescSorted(ranks, xs[1..], k);
      var r := [xs[0]] + tail;
      assert r == InsertDesc(ranks, xs, k);
      forall i, j | 0 <= i < j < |r| ensures ranks[r[i]] >= ranks[r[j]] {
        if i == 0 {
          assert r[j] == tail[j - 1];
          assert r[j] in tail;
          if r[j] != k {
            assert r[j] in xs[1..];
            var t :| 0 <= t < |xs[1..]| && xs[1..][t] == r[j];
            assert xs[t + 1] == r[j];
          }
        } else {
          assert r[i] == tail[i - 1] && r[j] == tail[j - 1];
        }
      }
    }
  }

  lemma {:induction false} InsertDescDistinct(ranks: map<nat, int>, xs: seq<nat>, k: nat)
    requires k in ranks
    requires forall i :: 0 <= i < |xs| ==> xs[i] in ranks
    requires Distinct(xs) && k !in xs
    ensures Distinct(InsertDesc(ranks, xs, k))
  {
    if xs != [] && ranks[xs[0]] >= ranks[k] {
      var tail := InsertDesc(ranks, xs[1..], k);
      InsertDescDistinct(ranks, xs[1..], k);
      assert xs[0] !in xs[1..];
      assert xs[0] !in tail;
      var r := [xs[0]] + tail;
      assert r == InsertDesc(ranks, xs, k);
      forall i, j | 0 <= i < j < |r| ensures r[i] != r[j] {
        if i > 0 {
          assert r[i] == tail[i - 1] && r[j] == tail[j - 1];
        } else {
          assert r[j] in tail;
        }
      }
    }
  }

  /** The keys of `ranks` below `n`, ordered by rank descending with ties in
      ascending key order: the rows of an `.order_by("-rank")` query, where
      `ranks` maps each row the query selects to its ordering column. */
  function OrderedKeys(ranks: map<nat, int>, n: nat): (r: seq<nat>)
    ensures forall i :: 0 <= i < |r| ==> r[i] in ranks
  {
    if n == 0 then []
    else
      var r0 := OrderedKeys(ranks, n - 1);
      if n - 1 in ranks then InsertDesc(ranks, r0, n - 1) else r0
  }

  /** The ordered query lists every selected key below `n` exactly once, by
      non-increasing rank. */
  lemma {:induction false} OrderedKeysExact(ranks: map<nat, int>, n: nat)
    ensures forall x :: x in OrderedKeys(ranks, n) <==> x in ranks && x < n
    ensures SortedDesc(ranks, OrderedKeys(ranks, n))
    ensures Distinct(OrderedKeys(ranks, n))
  {
    if n > 0 {
      var r0 := OrderedKeys(ranks, n - 1);
      OrderedKeysExact(ranks, n - 1);
      if n - 1 in ranks {
        InsertDescSorted(ranks, r0, n - 1);
        InsertDescDistinct(ranks, r0, n - 1);
      }
    }
  }

  /** Decimal digits of a natural number. */
  function NatToString(n: nat): (s: string)
    ensures |s| >= 1
    ensures forall i :: 0 <= i < |s| ==> '0' <= s[i] <= '9'
  {
    var d := ['0' + (n % 10) as char];
    if n < 10 then d else NatToString(n / 10) + d
  }

  /** Python's `str()` of an integer. */
  function IntToString(i: int): (s: string)
    ensures |s| >= 1
    ensures i >= 0 <==> s[0] != '-'
  {
    if i >= 0 then NatToString(i) else "-" + NatToString(-i)
  }

  function DigitValue(c: char): nat { if '0' <= c <= '9' then (c - '0') as nat else 0 }

  function DigitsValue(s: string): nat
  {
    if s == [] then 0 else DigitsValue(s[..|s| - 1]) * 10 + DigitValue(s[|s| - 1])
  }

  /** Reading the digits back gives the number: distinct ids give distinct strings. */
  lemma {:induction false} NatToStringRoundTrip(n: nat)
    ensures DigitsValue(NatToString(n)) == n
  {
    var s := NatToString(n);
    if n >= 10 {
      NatToStringRoundTrip(n / 10);
      assert s[..|s| - 1] == NatToString(n / 10);
    }
  }
}
