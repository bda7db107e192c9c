/**
 What the fixed-window limiter promises over whole histories with a clock that does not run
 backwards: how many attempts any stretch of time admits, and what a refusal's delay means.
 */
module RateBound {
  import opened RateLimiter

  datatype Event =
    | Login(email: string, ip: string, now: int)
    | Passkey(ip: string, now: int)
    | LoginSucceeded(email: string, ip: string)
    | PasskeySucceeded(ip: string)
    | AccountRemoved(linked: set<Key>)

  predicate IsAttempt(e: Event) {
    e.Login? || e.Passkey?
  }

  function Keys(e: Event): (keys: seq<Key>)
    requires IsAttempt(e)
    ensures Distinct(keys)
  {
    if e.Login? then PasswordKeys(e.email, e.ip) else PasskeyKeys(e.ip)
  }

  /** The buckets that an event resets. */
  function Cleared(e: Event): set<Key> {
    match e
    case Login(_, _, _) => {}
    case Passkey(_, _) => {}
    case LoginSucceeded(email, ip) => {Key(Pair, EmailAndAddress(email, ip))}
    case PasskeySucceeded(ip) => {Key(Ip, PasskeyAddress(ip))}
    case AccountRemoved(linked) => linked
  }

  /** One admitted attempt: when, and when the window it was charged to had begun. */
  datatype Admission = Admission(time: int, start: int)

  /** `log` holds the admitted attempts that were charged to the bucket being watched. */
  datatype State = State(table: Table, clock: int, log: seq<Admission>)

  ghost function Next(s: State, e: Event, k: Key): State {
    if IsAttempt(e) then
      var table := Check(s.table, Keys(e), e.now);
      var admitted := Retry(s.table, Keys(e), e.now) == 0 && k in Keys(e) && k in table.rows;
      State(table, e.now, if admitted then s.log + [Admission(e.now, table.rows[k].start)] else s.log)
    else
      s.(table := s.table.(rows := s.table.rows - Cleared(e)))
  }

  ghost function Run(s: State, events: seq<Event>, k: Key): State {
    if events == [] then s
    else Next(Run(s, events[..|events| - 1], k), events[|events| - 1], k)
  }

  /** Time does not run backwards, and only buckets of its own go with an account. */
  ghost predicate Possible(s: State, e: Event) {
    && (IsAttempt(e) ==> s.clock <= e.now)
    && (e.AccountRemoved? ==> forall k <- e.linked :: k.scope == Account || k.scope == Pair)
  }

  ghost predicate History(s: State, events: seq<Event>, k: Key) {
    forall i :: 0 <= i < |events| ==> Possible(Run(s, events[..i], k), events[i])
  }

  // ---------------------------------------------------------------------------------------
  // The bound
  // ---------------------------------------------------------------------------------------

  ghost predicate Entries(log: seq<Admission>, scope: Scope, clock: int) {
    && (forall i :: 0 <= i < |log| ==>
        log[i].start <= log[i].time < log[i].start + Window(scope) && log[i].time <= clock)
    && (forall i, j :: InOrder(log, i, j))
    && (forall i, j :: Spaced(log, scope, i, j))
  }

  ghost predicate InOrder(log: seq<Admission>, i: int, j: int) {
    0 <= i < j < |log| ==> log[i].time <= log[j].time
  }

  /** A window holds no more admissions than its limit: so many later is another window. */
  ghost predicate Spaced(log: seq<Admission>, scope: Scope, i: int, j: int) {
    0 <= i && i + Limit(scope) <= j < |log| ==> log[i].start + Window(scope) <= log[j].start
  }

  /** How the row of the bucket and the log belong together. */
  ghost predicate RowFits(rows: map<Key, Row>, log: seq<Admission>, k: Key, clock: int) {
    if k in rows then
      && rows[k].start <= clock
      && (forall i :: 0 <= i < |log| ==>
          log[i].start == rows[k].start || log[i].start + Window(k.scope) <= rows[k].start)
      && (forall i :: 0 <= i < |log| - rows[k].count ==> log[i].start + Window(k.scope) <= rows[k].start)
    else
      forall i :: 0 <= i < |log| ==> log[i].start + Window(k.scope) <= clock
  }

  ghost predicate Inv(s: State, k: Key) {
    |s.table.rows| <= MAX_ROWS && Entries(s.log, k.scope, s.clock) && RowFits(s.table.rows, s.log, k, s.clock)
  }

  /** Within its bound the table loses rows only when their window is over. */
  lemma {:induction false} RetainedFits(t: Table, keys: seq<Key>, now: int, log: seq<Admission>, k: Key, clock: int)
    requires |t.rows| <= MAX_ROWS && RowFits(t.rows, log, k, clock) && clock <= now
    ensures RowFits(Retained(t, keys, now).rows, log, k, now)
  {
    var kept := Expire(t.rows, keys, now);
    ExpireSize(t.rows, keys, now);
    assert Retained(t, keys, now).rows == kept;
    if k in t.rows && k !in kept {
      assert Stale(keys, k, t.rows[k], now);
    }
  }

  lemma {:induction false} ExpireSize(rows: map<Key, Row>, keys: seq<Key>, now: int)
    ensures |Expire(rows, keys, now)| <= |rows|
  {
    FewerRows(Expire(rows, keys, now), rows);
  }

  lemma {:induction false} FewerRows(a: map<Key, Row>, b: map<Key, Row>)
    requires a.Keys <= b.Keys
    ensures |a| <= |b|
  {
    assert b.Keys == a.Keys + (b.Keys - a.Keys);
    assert |a| == |a.Keys| && |b| == |b.Keys|;
  }

  /** A new admission keeps the log spaced. */
  lemma {:induction false} AdmissionFits(kept: map<Key, Row>, rows: map<Key, Row>, log: seq<Admission>, k: Key,
      clock: int, now: int)
    requires Entries(log, k.scope, clock) && clock <= now && RowFits(kept, log, k, now)
    requires Charged(kept, rows, k, true, now)
    requires k in kept ==> kept[k].count < Limit(k.scope) && now < kept[k].start + Window(k.scope)
    ensures var log' := log + [Admission(now, rows[k].start)];
      Entries(log', k.scope, now) && RowFits(rows, log', k, now)
  {
    var log' := log + [Admission(now, rows[k].start)];
    var n := |log|;
    forall i, j ensures InOrder(log', i, j) {
      assert InOrder(log, i, j);
    }
    forall i, j ensures Spaced(log', k.scope, i, j) {
      assert Spaced(log, k.scope, i, j);
    }
  }

  lemma {:induction false} AttemptInv(s: State, e: Event, k: Key)
    requires Inv(s, k) && Possible(s, e) && IsAttempt(e)
    ensures Inv(Next(s, e, k), k)
  {
    var keys := Keys(e);
    var kept, rows := Retained(s.table, keys, e.now).rows, Check(s.table, keys, e.now).rows;
    TableIsBounded(s.table, keys, e.now);
    AllOrNothing(s.table, keys, e.now, k);
    RetainedFits(s.table, keys, e.now, s.log, k, s.clock);
    if Retry(s.table, keys, e.now) == 0 && k in keys {
      AdmittedBelowLimit(s.table, keys, e.now, k);
      FreshWindow(s.table, keys, e.now, k);
      AdmissionFits(kept, rows, s.log, k, s.clock, e.now);
    }
  }

  lemma {:induction false} FreshWindow(t: Table, keys: seq<Key>, now: int, k: Key)
    requires k in keys
    ensures var kept := Retained(t, keys, now).rows;
      k in kept ==> now < kept[k].start + Window(k.scope)
  {
    RetainedSize(t, keys, now);
    var i :| 0 <= i < |keys| && keys[i] == k;
    assert keys[i].scope == k.scope;
  }

  lemma {:induction false} NextInv(s: State, e: Event, k: Key)
    requires Inv(s, k) && Possible(s, e) && k !in Cleared(e)
    ensures Inv(Next(s, e, k), k)
  {
    if IsAttempt(e) {
      AttemptInv(s, e, k);
    } else {
      FewerRows(s.table.rows - Cleared(e), s.table.rows);
    }
  }

  lemma {:induction false} RunInv(s: State, events: seq<Event>, k: Key)
    requires Inv(s, k) && History(s, events, k) && forall e <- events :: k !in Cleared(e)
    ensures Inv(Run(s, events, k), k)
  {
    if events != [] {
      var n := |events| - 1;
      forall i | 0 <= i < n ensures Possible(Run(s, events[..n][..i], k), events[..n][i]) {
        assert events[..n][..i] == events[..i];
      }
      RunInv(s, events[..n], k);
      NextInv(Run(s, events[..n], k), events[n], k);
    }
  }

  predicate Inside(a: Admission, from: int, length: nat) {
    from <= a.time < from + length
  }

  /** How many attempts were admitted in a half-open interval. */
  function Admitted(log: seq<Admission>, from: int, length: nat): nat {
    if log == [] then 0
    else
      var n := |log| - 1;
      Admitted(log[..n], from, length) + if Inside(log[n], from, length) then 1 else 0
  }

  lemma {:induction false} AdmittedLast(log: seq<Admission>, from: int, length: nat, m: nat)
    requires m <= |log| && forall i :: 0 <= i < m ==> !Inside(log[i], from, length)
    ensures Admitted(log, from, length) <= |log| - m
  {
    if log != [] {
      var n := |log| - 1;
      AdmittedLast(log[..n], from, length, if m <= n then m else n);
    }
  }

  /** Of three admissions that far apart, the last comes a whole window after the first. */
  lemma {:induction false} TwoWindows(log: seq<Admission>, scope: Scope, clock: int, i: int, j: int)
    requires Entries(log, scope, clock) && 0 <= i && i + 2 * Limit(scope) <= j < |log|
    ensures log[i].time + Window(scope) < log[j].time
  {
    assert Spaced(log, scope, i, i + Limit(scope));
    assert Spaced(log, scope, i + Limit(scope), j);
  }

  lemma {:induction false} EntriesPrefix(log: seq<Admission>, scope: Scope, clock: int, n: nat)
    requires Entries(log, scope, clock) && n <= |log|
    ensures Entries(log[..n], scope, clock)
  {
    forall i, j ensures InOrder(log[..n], i, j) && Spaced(log[..n], scope, i, j) {
      assert InOrder(log, i, j) && Spaced(log, scope, i, j);
    }
  }

  lemma {:induction false} AdmittedBound(log: seq<Admission>, scope: Scope, clock: int, from: int)
    requires Entries(log, scope, clock)
    ensures Admitted(log, from, Window(scope)) <= 2 * Limit(scope)
  {
    if log != [] {
      var n := |log| - 1;
      if Inside(log[n], from, Window(scope)) {
        var m := if n < 2 * Limit(scope) then 0 else n + 1 - 2 * Limit(scope);
        forall i | 0 <= i < m ensures !Inside(log[i], from, Window(scope)) {
          TwoWindows(log, scope, clock, i, n);
        }
        AdmittedLast(log, from, Window(scope), m);
      } else {
        EntriesPrefix(log, scope, clock, n);
        AdmittedBound(log[..n], scope, clock, from);
      }
    }
  }

  /** In no half-open interval as long as its window does a bucket admit more than twice its
      limit, as long as nothing resets it. */
  lemma {:induction false} BucketBound(table: Table, clock: int, events: seq<Event>, k: Key, from: int)
    requires |table.rows| <= MAX_ROWS && (k in table.rows ==> table.rows[k].start <= clock)
    requires var s := State(table, clock, []);
      History(s, events, k) && forall e <- events :: k !in Cleared(e)
    ensures Admitted(Run(State(table, clock, []), events, k).log, from, Window(k.scope)) <= 2 * Limit(k.scope)
  {
    var s := State(table, clock, []);
    RunInv(s, events, k);
    var s' := Run(s, events, k);
    AdmittedBound(s'.log, k.scope, s'.clock, from);
  }

  // ---------------------------------------------------------------------------------------
  // In numbers
  // ---------------------------------------------------------------------------------------

  /** The table after a history. */
  ghost function TableAfter(table: Table, events: seq<Event>): Table {
    if events == [] then table
    else
      var n := |events| - 1;
      var before := TableAfter(table, events[..n]);
      if IsAttempt(events[n]) then Check(before, Keys(events[n]), events[n].now)
      else before.(rows := before.rows - Cleared(events[n]))
  }

  /** How many of the attempts that `counts` counts were admitted in a half-open interval. */
  ghost function Admissions(table: Table, events: seq<Event>, counts: Event -> bool, from: int, length: nat): nat {
    if events == [] then 0
    else
      var n := |events| - 1;
      var e := events[n];
      var admitted := IsAttempt(e) && counts(e) && from <= e.now < from + length
        && Retry(TableAfter(table, events[..n]), Keys(e), e.now) == 0;
      Admissions(table, events[..n], counts, from, length) + if admitted then 1 else 0
  }

  /** The log of a bucket holds exactly the admitted attempts that it belongs to. */
  lemma {:induction false} LogCounts(table: Table, clock: int, events: seq<Event>, k: Key, counts: Event -> bool,
      from: int, length: nat)
    requires forall e <- events :: IsAttempt(e) ==> (counts(e) <==> k in Keys(e))
    ensures var s := Run(State(table, clock, []), events, k);
      s.table == TableAfter(table, events) && Admitted(s.log, from, length) ==
        Admissions(table, events, counts, from, length)
  {
    if events != [] {
      var n := |events| - 1;
      var e, before := events[n], Run(State(table, clock, []), events[..n], k);
      LogCounts(table, clock, events[..n], k, counts, from, length);
      if IsAttempt(e) {
        AllOrNothing(before.table, Keys(e), e.now, k);
      }
      assert forall a :: (before.log + [a])[..|before.log|] == before.log;
    }
  }

  /** Time does not run backwards, and only buckets of its own go with an account. */
  ghost predicate Orderly(clock: int, events: seq<Event>) {
    && (forall i, j :: 0 <= i < j < |events| && IsAttempt(events[i]) && IsAttempt(events[j]) ==>
          events[i].now <= events[j].now)
    && (forall e <- events :: (IsAttempt(e) ==> clock <= e.now) && (e.AccountRemoved? ==>
          forall k <- e.linked :: k.scope == Account || k.scope == Pair))
  }

  lemma {:induction false} ClockIs(s: State, events: seq<Event>, k: Key, now: int)
    requires s.clock <= now && forall e <- events :: IsAttempt(e) ==> e.now <= now
    ensures Run(s, events, k).clock <= now
  {
    if events != [] {
      ClockIs(s, events[..|events| - 1], k, now);
    }
  }

  lemma {:induction false} OrderlyHistory(table: Table, clock: int, events: seq<Event>, k: Key)
    requires Orderly(clock, events)
    ensures History(State(table, clock, []), events, k)
  {
    forall i | 0 <= i < |events| ensures Possible(Run(State(table, clock, []), events[..i], k), events[i]) {
      if IsAttempt(events[i]) {
        assert events[i] in events;
        forall e | e in events[..i] && IsAttempt(e) ensures e.now <= events[i].now {
        }
        ClockIs(State(table, clock, []), events[..i], k, events[i].now);
      }
    }
  }

  lemma {:induction false} Counted(table: Table, clock: int, events: seq<Event>, k: Key, counts: Event -> bool,
      from: int)
    requires |table.rows| <= MAX_ROWS && (k in table.rows ==> table.rows[k].start <= clock) && Orderly(clock, events)
    requires forall e <- events :: k !in Cleared(e) && (IsAttempt(e) ==> (counts(e) <==> k in Keys(e)))
    ensures Admissions(table, events, counts, from, Window(k.scope)) <= 2 * Limit(k.scope)
  {
    OrderlyHistory(table, clock, events, k);
    BucketBound(table, clock, events, k, from);
    LogCounts(table, clock, events, k, counts, from, Window(k.scope));
  }

  /** Any five minutes admit at most 240 password attempts in all and 60 from one address. */
  lemma {:induction false} PasswordBound(table: Table, clock: int, events: seq<Event>, ip: string, from: int)
    requires |table.rows| <= MAX_ROWS && (forall k :: k in table.rows ==> table.rows[k].start <= clock)
    requires Orderly(clock, events)
    ensures Admissions(table, events, (e: Event) => e.Login?, from, 300) <= 240
    ensures Admissions(table, events, (e: Event) => e.Login? && e.ip == ip, from, 300) <= 60
  {
    Counted(table, clock, events, Key(Global, Everyone), (e: Event) => e.Login?, from);
    Counted(table, clock, events, Key(Ip, Address(ip)), (e: Event) => e.Login? && e.ip == ip, from);
  }

  /** Any fifteen minutes admit at most 30 password attempts on one account, until it is removed,
      and 20 from one address on it, until one succeeds. */
  lemma {:induction false} AccountBound(table: Table, clock: int, events: seq<Event>, email: string, ip: string,
      from: int)
    requires |table.rows| <= MAX_ROWS && (forall k :: k in table.rows ==> table.rows[k].start <= clock)
    requires Orderly(clock, events) && forall e <- events :: !e.AccountRemoved?
    ensures Admissions(table, events, (e: Event) => e.Login? && e.email == email, from, 900) <= 30
    ensures (forall e <- events :: e != LoginSucceeded(email, ip)) ==>
      Admissions(table, events, (e: Event) => e.Login? && e.email == email && e.ip == ip, from, 900) <= 20
  {
    Counted(table, clock, events, Key(Account, Email(email)), (e: Event) => e.Login? && e.email == email, from);
    if forall e <- events :: e != LoginSucceeded(email, ip) {
      Counted(table, clock, events, Key(Pair, EmailAndAddress(email, ip)),
              (e: Event) => e.Login? && e.email == email && e.ip == ip, from);
    }
  }

  /** Any five minutes admit at most 240 passkey attempts in all, and 60 from one address, until
      one succeeds. */
  lemma {:induction false} PasskeyBound(table: Table, clock: int, events: seq<Event>, ip: string, from: int)
    requires |table.rows| <= MAX_ROWS && (forall k :: k in table.rows ==> table.rows[k].start <= clock)
    requires Orderly(clock, events)
    ensures Admissions(table, events, (e: Event) => e.Passkey?, from, 300) <= 240
    ensures (forall e <- events :: e != PasskeySucceeded(ip)) ==>
      Admissions(table, events, (e: Event) => e.Passkey? && e.ip == ip, from, 300) <= 60
  {
    Counted(table, clock, events, Key(Global, PasskeyEveryone), (e: Event) => e.Passkey?, from);
    if forall e <- events :: e != PasskeySucceeded(ip) {
      Counted(table, clock, events, Key(Ip, PasskeyAddress(ip)), (e: Event) => e.Passkey? && e.ip == ip, from);
    }
  }

  // ---------------------------------------------------------------------------------------
  // Exactly when
  // ---------------------------------------------------------------------------------------

  /** The bucket has used up its limit in a window that is not over. */
  ghost predicate Full(t: Table, k: Key, limit: nat, window: nat, now: int) {
    k in t.rows && t.rows[k].count >= limit && now < t.rows[k].start + window
  }

  /** There is room for the rows of the attempt once rows are dropped whose window is over. */
  ghost predicate Roomy(t: Table, keys: seq<Key>, now: int) {
    |Expire(t.rows, keys, now)| + Missing(Expire(t.rows, keys, now), keys) <= 1024
  }

  /** An attempt is admitted exactly if there is room and none of its buckets is full. */
  lemma {:induction false} AdmittedExactly(t: Table, keys: seq<Key>, now: int)
    requires keys != []
    ensures Retry(t, keys, now) == 0 <==>
      Roomy(t, keys, now) && forall k <- keys :: !Full(t, k, Limit(k.scope), Window(k.scope), now)
  {
    var rows := Expire(t.rows, keys, now);
    LongestBlockIs(Retained(t, keys, now).rows, keys, now);
    LongestWindowIs(keys);
    if |rows| <= MAX_ROWS {
      assert Retained(t, keys, now).rows == rows;
      forall i | 0 <= i < |keys|
        ensures Blocked(rows, keys[i], now) > 0 <==> Full(t, keys[i], Limit(keys[i].scope), Window(keys[i].scope), now)
      {
      }
      forall k | k in keys ensures Full(t, k, Limit(k.scope), Window(k.scope), now) ==>
        LongestBlock(rows, keys, now) > 0
      {
        var i :| 0 <= i < |keys| && keys[i] == k;
      }
    }
  }

  lemma {:induction false} LongestWindowIs(keys: seq<Key>)
    ensures keys != [] ==> LongestWindow(keys) > 0
    ensures LongestWindow(keys) >= 0
  {
    if |keys| > 1 {
      LongestWindowIs(keys[..|keys| - 1]);
    }
  }

  /** A password attempt is admitted exactly if the table has room, and in their windows there
      were fewer than 120 attempts in all, 30 from the address, 15 on the account and 10 on the
      account from the address. */
  lemma {:induction false} PasswordExactly(t: Table, email: string, ip: string, now: int)
    ensures Retry(t, Keys(Login(email, ip, now)), now) == 0 <==>
      && Roomy(t, Keys(Login(email, ip, now)), now)
      && !Full(t, Key(Global, Everyone), 120, 300, now) && !Full(t, Key(Ip, Address(ip)), 30, 300, now)
      && !Full(t, Key(Account, Email(email)), 15, 900, now)
      && !Full(t, Key(Pair, EmailAndAddress(email, ip)), 10, 900, now)
  {
    var keys := Keys(Login(email, ip, now));
    AdmittedExactly(t, keys, now);
    assert keys == [Key(Global, Everyone), Key(Ip, Address(ip)), Key(Account, Email(email)),
                    Key(Pair, EmailAndAddress(email, ip))];
    assert keys[0] in keys && keys[1] in keys && keys[2] in keys && keys[3] in keys;
  }

  // ---------------------------------------------------------------------------------------
  // The delay of a refusal
  // ---------------------------------------------------------------------------------------

  /** The attempt is refused because a bucket is full, not for want of room. */
  ghost predicate LimitRefusal(t: Table, keys: seq<Key>, now: int) {
    |Expire(t.rows, keys, now)| <= MAX_ROWS && LongestBlock(Expire(t.rows, keys, now), keys, now) > 0
  }

  lemma {:induction false} ExpireTwice(rows: map<Key, Row>, keys: seq<Key>, now: int, later: int)
    requires now <= later
    ensures Expire(Expire(rows, keys, now), keys, later) == Expire(rows, keys, later)
  {
    forall k | k in rows && Stale(keys, k, rows[k], now) ensures Stale(keys, k, rows[k], later) {
    }
  }

  lemma {:induction false} RefusedTable(t: Table, keys: seq<Key>, now: int)
    requires LimitRefusal(t, keys, now)
    ensures Check(t, keys, now) == t.(rows := Expire(t.rows, keys, now))
    ensures Retry(t, keys, now) == LongestBlock(Expire(t.rows, keys, now), keys, now)
  {
  }

  /** Only the rows whose window is not over matter for an answer. */
  lemma {:induction false} SameAnswer(t: Table, t': Table, keys: seq<Key>, now: int)
    requires t'.nextId == t.nextId && Expire(t'.rows, keys, now) == Expire(t.rows, keys, now)
    ensures Retry(t', keys, now) == Retry(t, keys, now) && Check(t', keys, now) == Check(t, keys, now)
  {
    assert Retained(t', keys, now) == Retained(t, keys, now);
  }

  /** A refused attempt leaves no trace: later answers are as if it had never been made. */
  lemma {:induction false} RefusalForgotten(t: Table, keys: seq<Key>, now: int, later: int)
    requires LimitRefusal(t, keys, now) && now <= later
    ensures var t' := Check(t, keys, now);
      Retry(t', keys, later) == Retry(t, keys, later) && Check(t', keys, later) == Check(t, keys, later)
  {
    RefusedTable(t, keys, now);
    ExpireTwice(t.rows, keys, now, later);
    SameAnswer(t, Check(t, keys, now), keys, later);
  }

  /** Before the delay is over no attempt on the same buckets is admitted. */
  lemma {:induction false} NotBefore(t: Table, keys: seq<Key>, now: int, later: int)
    requires LimitRefusal(t, keys, now) && now <= later < now + Retry(t, keys, now)
    requires forall k :: k in t.rows ==> t.rows[k].start <= now
    ensures Retry(Check(t, keys, now), keys, later) > 0
  {
    var rows, still := Expire(t.rows, keys, now), Expire(t.rows, keys, later);
    RefusedTable(t, keys, now);
    LongestBlockIs(rows, keys, now);
    var i :| 0 <= i < |keys| && Blocked(rows, keys[i], now) == LongestBlock(rows, keys, now);
    var k := keys[i];
    assert k in keys;
    RefusalForgotten(t, keys, now, later);
    ExpireLater(t.rows, keys, now, later);
    assert k in still && Blocked(still, k, later) > 0;
    BlockedRetry(t, keys, later, k);
  }

  lemma {:induction false} BlockedRetry(t: Table, keys: seq<Key>, now: int, k: Key)
    requires k in keys && |Expire(t.rows, keys, now)| <= MAX_ROWS && Blocked(Expire(t.rows, keys, now), k, now) > 0
    ensures Retry(t, keys, now) > 0
  {
    var i :| 0 <= i < |keys| && keys[i] == k;
    LongestBlockIs(Expire(t.rows, keys, now), keys, now);
    assert Blocked(Expire(t.rows, keys, now), keys[i], now) > 0;
  }

  lemma {:induction false} ExpireLater(rows: map<Key, Row>, keys: seq<Key>, now: int, later: int)
    requires now <= later
    ensures |Expire(rows, keys, later)| <= |Expire(rows, keys, now)|
  {
    forall k | k in Expire(rows, keys, later) ensures k in Expire(rows, keys, now) {
      var row := rows[k];
      assert Stale(keys, k, row, now) ==> Stale(keys, k, row, later);
    }
    FewerRows(Expire(rows, keys, later), Expire(rows, keys, now));
  }

  lemma {:induction false} MissingBound(rows: map<Key, Row>, keys: seq<Key>)
    ensures Missing(rows, keys) <= |keys|
  {
    if keys != [] {
      MissingBound(rows, keys[..|keys| - 1]);
    }
  }

  /** A full bucket is open again when its block is over. */
  lemma {:induction false} OpenAgain(rows: map<Key, Row>, keys: seq<Key>, k: Key, now: int, later: int)
    requires k in keys && now <= later && (k in rows ==> rows[k].start <= now)
    requires now + Blocked(Expire(rows, keys, now), k, now) <= later
    ensures Blocked(Expire(rows, keys, later), k, later) <= 0
  {
    var i :| 0 <= i < |keys| && keys[i] == k;
    assert keys[i].scope == k.scope;
    var left := Expire(rows, keys, later);
    assert k in left ==> rows[k].start > later - Window(k.scope) && k in Expire(rows, keys, now);
  }

  /** When the delay is over, and nothing else has happened, the attempt is admitted, provided
      the table has room for a row of every bucket. */
  lemma {:induction false} AdmittedThen(t: Table, keys: seq<Key>, now: int)
    requires LimitRefusal(t, keys, now) && |t.rows| + |keys| <= MAX_ROWS
    requires forall k :: k in t.rows ==> t.rows[k].start <= now
    ensures Retry(Check(t, keys, now), keys, now + Retry(t, keys, now)) == 0
  {
    var over := now + LongestBlock(Expire(t.rows, keys, now), keys, now);
    RefusedTable(t, keys, now);
    RefusalForgotten(t, keys, now, over);
    RetryThen(t, keys, now, over);
  }

  lemma {:induction false} RetryThen(t: Table, keys: seq<Key>, now: int, over: int)
    requires |t.rows| + |keys| <= MAX_ROWS && (forall k :: k in t.rows ==> t.rows[k].start <= now)
    requires now <= over == now + LongestBlock(Expire(t.rows, keys, now), keys, now)
    ensures Retry(t, keys, over) == 0
  {
    OpenThen(t.rows, keys, now, over);
    RoomRetry(t, keys, over);
  }

  /** When the longest block is over, there is room and no bucket is full. */
  lemma {:induction false} OpenThen(rows: map<Key, Row>, keys: seq<Key>, now: int, over: int)
    requires |rows| + |keys| <= MAX_ROWS && (forall k :: k in rows ==> rows[k].start <= now)
    requires now <= over == now + LongestBlock(Expire(rows, keys, now), keys, now)
    ensures var left := Expire(rows, keys, over);
      |left| + Missing(left, keys) <= MAX_ROWS && LongestBlock(left, keys, over) == 0
  {
    ExpireSize(rows, keys, over);
    MissingBound(Expire(rows, keys, over), keys);
    AllOpenAgain(rows, keys, now, over);
  }

  lemma {:induction false} AllOpenAgain(rows: map<Key, Row>, keys: seq<Key>, now: int, later: int)
    requires now <= later && forall k :: k in rows ==> rows[k].start <= now
    requires now + LongestBlock(Expire(rows, keys, now), keys, now) <= later
    ensures LongestBlock(Expire(rows, keys, later), keys, later) == 0
  {
    LongestBlockIs(Expire(rows, keys, now), keys, now);
    LongestBlockIs(Expire(rows, keys, later), keys, later);
    forall i | 0 <= i < |keys| ensures Blocked(Expire(rows, keys, later), keys[i], later) <= 0 {
      assert Blocked(Expire(rows, keys, now), keys[i], now) <= LongestBlock(Expire(rows, keys, now), keys, now);
      OpenAgain(rows, keys, keys[i], now, later);
    }
  }

  lemma {:induction false} RoomRetry(t: Table, keys: seq<Key>, now: int)
    requires var rows := Expire(t.rows, keys, now);
      |rows| + Missing(rows, keys) <= MAX_ROWS && LongestBlock(rows, keys, now) == 0
    ensures Retry(t, keys, now) == 0
  {
  }
}
