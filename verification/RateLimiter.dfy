/**
 The fixed-window limiter of login attempts: one row per bucket, all buckets of an attempt
 charged together or not at all, and a table of bounded size.
 */
module RateLimiter {

  const MAX_ROWS := 1024

  datatype Scope = Global | Ip | Account | Pair

  function Limit(scope: Scope): nat {
    match scope case Global => 120 case Ip => 30 case Account => 15 case Pair => 10
  }

  function Window(scope: Scope): nat {
    match scope case Global => 300 case Ip => 300 case Account => 900 case Pair => 900
  }

  /** What is digested for a bucket; digests are taken to be injective. */
  datatype Identity =
    | Everyone | Address(ip: string) | Email(email: string) | EmailAndAddress(email: string, ip: string)
    | PasskeyEveryone | PasskeyAddress(ip: string)

  datatype Key = Key(scope: Scope, identity: Identity)

  datatype Row = Row(start: int, count: nat, rowid: nat)

  /** The stored rows, and a row id above all of theirs. */
  datatype Table = Table(rows: map<Key, Row>, nextId: nat)

  function PasswordKeys(email: string, ip: string): seq<Key> {
    [Key(Global, Everyone), Key(Ip, Address(ip)), Key(Account, Email(email)), Key(Pair, EmailAndAddress(email, ip))]
  }

  function PasskeyKeys(ip: string): seq<Key> {
    [Key(Global, PasskeyEveryone), Key(Ip, PasskeyAddress(ip))]
  }

  ghost predicate Distinct(keys: seq<Key>) {
    forall i, j :: 0 <= i < j < |keys| ==> keys[i] != keys[j]
  }

  ghost predicate Valid(t: Table) {
    && (forall k :: k in t.rows ==> t.rows[k].rowid < t.nextId)
    && (forall j, k :: OwnIds(t.rows, j, k))
  }

  ghost predicate OwnIds(rows: map<Key, Row>, j: Key, k: Key) {
    j in rows && k in rows && rows[j].rowid == rows[k].rowid ==> j == k
  }

  // ---------------------------------------------------------------------------------------
  // One attempt
  // ---------------------------------------------------------------------------------------

  function Max(a: int, b: int): int {
    if a < b then b else a
  }

  /** A row of one of the scopes of `keys` whose window is over. */
  predicate Stale(keys: seq<Key>, k: Key, row: Row, now: int) {
    row.start <= now - Window(k.scope) && exists i | 0 <= i < |keys| :: keys[i].scope == k.scope
  }

  function Expire(rows: map<Key, Row>, keys: seq<Key>, now: int): map<Key, Row> {
    map k | k in rows && !Stale(keys, k, rows[k], now) :: rows[k]
  }

  /** The order in which rows are evicted: other scopes before global ones, then by age. */
  predicate Precedes(j: Key, a: Row, k: Key, b: Row) {
    if (j.scope == Global) != (k.scope == Global) then k.scope == Global
    else a.start < b.start || (a.start == b.start && a.rowid <= b.rowid)
  }

  ghost predicate First(rows: map<Key, Row>, j: Key) {
    j in rows && forall k :: k in rows ==> Precedes(j, rows[j], k, rows[k])
  }

  lemma {:induction false} FirstExists(rows: map<Key, Row>)
    requires rows != map[]
    ensures exists j :: First(rows, j)
    decreases |rows|
  {
    var k :| k in rows;
    var rest := rows - {k};
    assert forall i :: i in rows && i != k ==> i in rest;
    if rest == map[] {
      assert First(rows, k);
    } else {
      FirstExists(rest);
      var j :| First(rest, j);
      if Precedes(j, rows[j], k, rows[k]) {
        assert First(rows, j);
      } else {
        assert First(rows, k);
      }
    }
  }

  ghost function Evict(rows: map<Key, Row>, n: nat): map<Key, Row>
    requires n <= |rows|
    decreases n
  {
    if n == 0 then rows
    else Evict(rows - {FirstOf(rows)}, n - 1)
  }

  ghost function FirstOf(rows: map<Key, Row>): (j: Key)
    requires rows != map[]
    ensures First(rows, j)
  {
    FirstExists(rows);
    var j :| First(rows, j);
    j
  }

  /** How long the bucket still refuses, 0 if it does not. */
  function Blocked(rows: map<Key, Row>, k: Key, now: int): int {
    if k in rows && rows[k].count >= Limit(k.scope) then Window(k.scope) - Max(0, now - rows[k].start) else 0
  }

  function LongestBlock(rows: map<Key, Row>, keys: seq<Key>, now: int): int {
    if keys == [] then 0
    else
      var n := |keys| - 1;
      Max(LongestBlock(rows, keys[..n], now), Blocked(rows, keys[n], now))
  }

  lemma {:induction false} LongestBlockIs(rows: map<Key, Row>, keys: seq<Key>, now: int)
    ensures var r := LongestBlock(rows, keys, now);
      && r >= 0
      && (forall i :: 0 <= i < |keys| ==> Blocked(rows, keys[i], now) <= r)
      && (r == 0 || exists i :: 0 <= i < |keys| && Blocked(rows, keys[i], now) == r)
  {
    if keys != [] {
      var n := |keys| - 1;
      LongestBlockIs(rows, keys[..n], now);
      var r := LongestBlock(rows, keys[..n], now);
      if r != 0 {
        var i :| 0 <= i < n && Blocked(rows, keys[..n][i], now) == r;
        assert keys[..n][i] == keys[i];
      }
      assert forall i :: 0 <= i < n ==> keys[..n][i] == keys[i];
    }
  }

  function LongestWindow(keys: seq<Key>): nat {
    if keys == [] then 0
    else
      var n := |keys| - 1;
      Max(LongestWindow(keys[..n]), Window(keys[n].scope))
  }

  function Missing(rows: map<Key, Row>, keys: seq<Key>): nat {
    if keys == [] then 0
    else
      var n := |keys| - 1;
      Missing(rows, keys[..n]) + if keys[n] in rows then 0 else 1
  }

  function ChargeOne(t: Table, k: Key, now: int): Table {
    if k in t.rows then t.(rows := t.rows[k := t.rows[k].(count := t.rows[k].count + 1)])
    else Table(t.rows[k := Row(now, 1, t.nextId)], t.nextId + 1)
  }

  function Charge(t: Table, keys: seq<Key>, now: int): Table {
    if keys == [] then t
    else
      var n := |keys| - 1;
      ChargeOne(Charge(t, keys[..n], now), keys[n], now)
  }

  /** The table without rows whose window is over, cut to its bound. */
  ghost function Retained(t: Table, keys: seq<Key>, now: int): Table {
    var kept := Expire(t.rows, keys, now);
    t.(rows := if |kept| > MAX_ROWS then Evict(kept, |kept| - MAX_ROWS) else kept)
  }

  /** The seconds to wait, 0 if the attempt is admitted. */
  ghost function Retry(t: Table, keys: seq<Key>, now: int): int {
    var cut := |Expire(t.rows, keys, now)| > MAX_ROWS;
    var rows := Retained(t, keys, now).rows;
    var wait := Max(if cut then LongestWindow(keys) else 0, LongestBlock(rows, keys, now));
    if wait == 0 && |rows| + Missing(rows, keys) > MAX_ROWS then LongestWindow(keys) else wait
  }

  ghost function Check(t: Table, keys: seq<Key>, now: int): Table {
    var kept := Retained(t, keys, now);
    if Retry(t, keys, now) == 0 then Charge(kept, keys, now) else kept
  }

  // ---------------------------------------------------------------------------------------
  // The table stays bounded, and buckets are charged together
  // ---------------------------------------------------------------------------------------

  /** `a` holds some of the rows of `b`. */
  ghost predicate Within(a: map<Key, Row>, b: map<Key, Row>) {
    forall k :: k in a ==> k in b && a[k] == b[k]
  }

  lemma {:induction false} RemoveSize(rows: map<Key, Row>, j: Key)
    requires j in rows
    ensures |rows - {j}| == |rows| - 1
  {
    assert (rows - {j}).Keys == rows.Keys - {j};
  }

  /** Eviction removes exactly as many rows as asked for. */
  lemma {:induction false} EvictSize(rows: map<Key, Row>, n: nat)
    requires n <= |rows|
    ensures |Evict(rows, n)| == |rows| - n && Within(Evict(rows, n), rows)
    decreases n
  {
    if n > 0 {
      var j := FirstOf(rows);
      RemoveSize(rows, j);
      EvictSize(rows - {j}, n - 1);
    }
  }

  /** And it removes those that come first. */
  lemma {:induction false} EvictOrder(rows: map<Key, Row>, n: nat, a: Key, b: Key)
    requires n <= |rows| && a in rows && b in rows && a !in Evict(rows, n) && b in Evict(rows, n)
    ensures Precedes(a, rows[a], b, rows[b])
    decreases n
  {
    if n > 0 {
      var j := FirstOf(rows);
      var rest := rows - {j};
      RemoveSize(rows, j);
      EvictSize(rest, n - 1);
      if a != j {
        EvictOrder(rest, n - 1, a, b);
      }
    }
  }

  lemma {:induction false} RetainedSize(t: Table, keys: seq<Key>, now: int)
    ensures var rows := Retained(t, keys, now).rows;
      && |rows| <= MAX_ROWS && Within(rows, t.rows)
      && forall k :: k in rows ==> !Stale(keys, k, rows[k], now)
  {
    var kept := Expire(t.rows, keys, now);
    if |kept| > MAX_ROWS {
      EvictSize(kept, |kept| - MAX_ROWS);
    }
  }

  /** What an attempt may do to one bucket: a named one is opened or counts once more. */
  ghost predicate Charged(rows: map<Key, Row>, rows': map<Key, Row>, k: Key, named: bool, now: int) {
    && (k in rows' <==> k in rows || named)
    && (k in rows ==> rows'[k] == rows[k].(count := rows[k].count + if named then 1 else 0))
    && (k !in rows && named ==> rows'[k].start == now && rows'[k].count == 1)
  }

  lemma {:induction false} ChargeOneAt(t: Table, key: Key, now: int, k: Key)
    ensures Charged(t.rows, ChargeOne(t, key, now).rows, k, k == key, now)
  {
  }

  lemma {:induction false} ChargeAt(t: Table, keys: seq<Key>, now: int, k: Key)
    requires Distinct(keys)
    ensures Charged(t.rows, Charge(t, keys, now).rows, k, k in keys, now)
  {
    if keys != [] {
      var n := |keys| - 1;
      ChargeAt(t, keys[..n], now, k);
      ChargeOneAt(Charge(t, keys[..n], now), keys[n], now, k);
      assert keys == keys[..n] + [keys[n]];
      assert keys[n] !in keys[..n];
    }
  }

  lemma {:induction false} ChargeOneSize(t: Table, key: Key, now: int)
    ensures |ChargeOne(t, key, now).rows| == |t.rows| + if key in t.rows then 0 else 1
  {
    var rows' := ChargeOne(t, key, now).rows;
    if key in t.rows {
      assert rows'.Keys == t.rows.Keys;
    } else {
      assert rows'.Keys == t.rows.Keys + {key};
    }
  }

  lemma {:induction false} ChargeSize(t: Table, keys: seq<Key>, now: int)
    requires Distinct(keys)
    ensures |Charge(t, keys, now).rows| == |t.rows| + Missing(t.rows, keys)
  {
    if keys != [] {
      var n := |keys| - 1;
      ChargeSize(t, keys[..n], now);
      ChargeAt(t, keys[..n], now, keys[n]);
      assert keys[n] !in keys[..n];
      ChargeOneSize(Charge(t, keys[..n], now), keys[n], now);
    }
  }

  /** From any table at all, an attempt leaves at most 1024 rows. */
  lemma {:induction false} TableIsBounded(t: Table, keys: seq<Key>, now: int)
    requires Distinct(keys)
    ensures |Check(t, keys, now).rows| <= MAX_ROWS && Retry(t, keys, now) >= 0
  {
    RetainedSize(t, keys, now);
    LongestBlockIs(Retained(t, keys, now).rows, keys, now);
    ChargeSize(Retained(t, keys, now), keys, now);
  }

  /** All its buckets are charged once, or none is; no other bucket is touched, except that
      rows are dropped whose window is over or that no longer fit. */
  lemma {:induction false} AllOrNothing(t: Table, keys: seq<Key>, now: int, k: Key)
    requires Distinct(keys)
    ensures var kept := Retained(t, keys, now).rows;
      && Within(kept, t.rows)
      && Charged(kept, Check(t, keys, now).rows, k, Retry(t, keys, now) == 0 && k in keys, now)
  {
    RetainedSize(t, keys, now);
    ChargeAt(Retained(t, keys, now), keys, now, k);
  }

  /** An attempt is admitted only if none of its buckets is full. */
  lemma {:induction false} AdmittedBelowLimit(t: Table, keys: seq<Key>, now: int, k: Key)
    requires Retry(t, keys, now) == 0 && k in keys
    ensures var kept := Retained(t, keys, now).rows;
      k in kept ==> kept[k].count < Limit(k.scope)
  {
    var kept := Retained(t, keys, now).rows;
    RetainedSize(t, keys, now);
    LongestBlockIs(kept, keys, now);
    var i :| 0 <= i < |keys| && keys[i] == k;
    assert keys[i].scope == k.scope && Blocked(kept, keys[i], now) <= 0;
  }

  // ---------------------------------------------------------------------------------------
  // The store
  // ---------------------------------------------------------------------------------------

  lemma {:induction false} FirstIsUnique(t: Table, rows: map<Key, Row>, j: Key, k: Key)
    requires Valid(t) && Within(rows, t.rows) && First(rows, j) && First(rows, k)
    ensures j == k
  {
    assert Precedes(j, rows[j], k, rows[k]) && Precedes(k, rows[k], j, rows[j]);
    assert OwnIds(t.rows, j, k);
  }

  lemma {:induction false} EvictNext(t: Table, rows: map<Key, Row>, n: nat, j: Key)
    requires Valid(t) && Within(rows, t.rows) && 0 < n <= |rows| && First(rows, j)
    ensures |rows - {j}| == |rows| - 1 && Evict(rows, n) == Evict(rows - {j}, n - 1)
  {
    RemoveSize(rows, j);
    FirstIsUnique(t, rows, j, FirstOf(rows));
  }

  lemma {:induction false} ExpireMore(rows: map<Key, Row>, keys: seq<Key>, i: nat, now: int)
    requires i < |keys|
    ensures var some := Expire(rows, keys[..i], now);
      Expire(rows, keys[..i + 1], now) ==
      map k | k in some && !(k.scope == keys[i].scope && some[k].start <= now - Window(k.scope)) :: some[k]
  {
    var some := Expire(rows, keys[..i], now);
    forall k | k in rows
      ensures Stale(keys[..i + 1], k, rows[k], now) <==>
              Stale(keys[..i], k, rows[k], now) || (k.scope == keys[i].scope && rows[k].start <= now - Window(k.scope))
    {
      assert keys[..i + 1] == keys[..i] + [keys[i]];
      assert keys[..i + 1][i] == keys[i];
    }
  }

  lemma {:induction false} RetainedValid(t: Table, keys: seq<Key>, now: int)
    requires Valid(t)
    ensures Valid(Retained(t, keys, now))
  {
    RetainedSize(t, keys, now);
    forall j, k ensures OwnIds(Retained(t, keys, now).rows, j, k) {
      assert OwnIds(t.rows, j, k);
    }
  }

  lemma {:induction false} ChargeValid(t: Table, keys: seq<Key>, now: int)
    requires Valid(t)
    ensures Valid(Charge(t, keys, now))
  {
    if keys != [] {
      var n := |keys| - 1;
      var mid := Charge(t, keys[..n], now);
      ChargeValid(t, keys[..n], now);
      forall j, k ensures OwnIds(ChargeOne(mid, keys[n], now).rows, j, k) {
        assert OwnIds(mid.rows, j, k);
      }
    }
  }

  class Limiter {
    var rows: map<Key, Row>
    var nextId: nat

    ghost function View(): Table
      reads this
    {
      Table(rows, nextId)
    }

    constructor (rows: map<Key, Row>, nextId: nat)
      ensures View() == Table(rows, nextId)
    {
      this.rows, this.nextId := rows, nextId;
    }

    /** Reserve one attempt in all of the buckets, or say how long to wait. */
    method Reserve(keys: seq<Key>, now: int) returns (retry: int)
      requires Valid(View()) && Distinct(keys)
      modifies this
      ensures Valid(View())
      ensures View() == Check(old(View()), keys, now) && retry == Retry(old(View()), keys, now)
    {
      ghost var t := View();
      retry := Clean(keys, now);
      ghost var kept := View();
      RetainedValid(t, keys, now);
      var block, missing := Inspect(keys, now);
      retry := Max(retry, block);
      if retry == 0 && |rows| + missing > MAX_ROWS {
        retry := WindowLoop(keys);
      }
      if retry == 0 {
        ChargeAll(keys, now);
        ChargeValid(kept, keys, now);
      }
    }

    /** Drop rows whose window is over, and cut the table to its bound. */
    method Clean(keys: seq<Key>, now: int) returns (retry: int)
      requires Valid(View())
      modifies `rows
      ensures View() == Retained(old(View()), keys, now)
      ensures retry == if |Expire(old(rows), keys, now)| > MAX_ROWS then LongestWindow(keys) else 0
    {
      ghost var t := View();
      DeleteStale(keys, now);
      retry := 0;
      if |rows| > MAX_ROWS {
        DeleteFirst(t);
        retry := WindowLoop(keys);
      }
    }

    method DeleteStale(keys: seq<Key>, now: int)
      modifies `rows
      ensures rows == Expire(old(rows), keys, now)
    {
      for i := 0 to |keys|
        invariant rows == Expire(old(rows), keys[..i], now)
      {
        ExpireMore(old(rows), keys, i, now);
        rows := map k | k in rows && !(k.scope == keys[i].scope && rows[k].start <= now - Window(k.scope)) :: rows[k];
      }
      assert keys[..|keys|] == keys;
    }

    /** Evict rows, one after the other, until the table is within its bound. */
    method DeleteFirst(ghost t: Table)
      requires Valid(t) && Within(rows, t.rows) && |rows| > MAX_ROWS
      modifies `rows
      ensures rows == Evict(old(rows), |old(rows)| - MAX_ROWS)
    {
      while |rows| > MAX_ROWS
        invariant MAX_ROWS <= |rows| <= |old(rows)| && Within(rows, t.rows)
        invariant Evict(old(rows), |old(rows)| - MAX_ROWS) == Evict(rows, |rows| - MAX_ROWS)
        decreases |rows|
      {
        var j := FindFirst();
        EvictNext(t, rows, |rows| - MAX_ROWS, j);
        rows := rows - {j};
      }
    }

    method FindFirst() returns (j: Key)
      requires rows != map[]
      ensures First(rows, j)
    {
      j :| j in rows;
      var rest := rows.Keys - {j};
      while rest != {}
        invariant j in rows && rest <= rows.Keys
        invariant forall k :: k in rows && k !in rest ==> Precedes(j, rows[j], k, rows[k])
        decreases |rest|
      {
        var k :| k in rest;
        if !Precedes(j, rows[j], k, rows[k]) {
          j := k;
        }
        rest := rest - {k};
      }
    }

    method Inspect(keys: seq<Key>, now: int) returns (block: int, missing: nat)
      ensures block == LongestBlock(rows, keys, now) && missing == Missing(rows, keys)
    {
      block, missing := 0, 0;
      for i := 0 to |keys|
        invariant 0 <= block == LongestBlock(rows, keys[..i], now) && missing == Missing(rows, keys[..i])
      {
        assert keys[..i + 1][..i] == keys[..i];
        if keys[i] in rows {
          var row := rows[keys[i]];
          if row.count >= Limit(keys[i].scope) {
            block := Max(block, Window(keys[i].scope) - Max(0, now - row.start));
          }
        } else {
          missing := missing + 1;
        }
      }
      assert keys[..|keys|] == keys;
    }

    method WindowLoop(keys: seq<Key>) returns (longest: nat)
      ensures longest == LongestWindow(keys)
    {
      longest := 0;
      for i := 0 to |keys|
        invariant longest == LongestWindow(keys[..i])
      {
        assert keys[..i + 1][..i] == keys[..i];
        longest := Max(longest, Window(keys[i].scope));
      }
      assert keys[..|keys|] == keys;
    }

    method ChargeAll(keys: seq<Key>, now: int)
      modifies this
      ensures View() == Charge(old(View()), keys, now)
    {
      for i := 0 to |keys|
        invariant View() == Charge(old(View()), keys[..i], now)
      {
        assert keys[..i + 1][..i] == keys[..i];
        var k := keys[i];
        if k in rows {
          rows := rows[k := rows[k].(count := rows[k].count + 1)];
        } else {
          rows, nextId := rows[k := Row(now, 1, nextId)], nextId + 1;
        }
      }
      assert keys[..|keys|] == keys;
    }
  }
}
