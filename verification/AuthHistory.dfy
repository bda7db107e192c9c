/**
 Whole histories of the authentication store: TOTP steps are used at most once, sessions end
 when they should, and step-up is recent.
 */
module AuthHistory {
  import opened Options
  import opened AuthTables
  import opened Eviction
  import opened AuthInvariant

  // ---------------------------------------------------------------------------------------
  // TOTP counters of one account
  // ---------------------------------------------------------------------------------------

  /** The account and the counter that a successful call has consumed. */
  ghost function Accepted(t: Tables, e: Event, codeAt: (Secret, nat) -> string): Option<(Id, nat)> {
    if Apply(t, e, codeAt).1 != Ok then None
    else if e.VerifyTotp? || e.RegenerateCodes? then ConsumedBy(t, e.id, e.code, e.now, codeAt)
    else if (e.ConfirmEnrollment? || e.CompleteTotp?) && e.challenge in t.challenges then
      ConsumedBy(t, t.challenges[e.challenge].account, e.code, e.now, codeAt)
    else None
  }

  ghost function ConsumedBy(t: Tables, id: Id, code: string, now: nat, codeAt: (Secret, nat) -> string): Option<(Id,
      nat)> {
    if id !in t.accounts then None
    else
      var counter := Fresh(codeAt, t.accounts[id], code, now);
      if counter.None? then None else Some((id, counter.value))
  }

  /** The call installs or drops the secret of the account. */
  ghost predicate Renewed(t: Tables, e: Event, t': Tables, id: Id) {
    || id !in t.accounts || id !in t'.accounts
    || t.accounts[id].secret.None? || t'.accounts[id].secret.None?
    || ((e.Bootstrap? || e.RotateTotp?) && e.id == id)
  }

  lemma {:induction false} FreshIsNewer(codeAt: (Secret, nat) -> string, account: Account, code: string, now: nat)
    ensures var c := Fresh(codeAt, account, code, now);
      c.Some? ==>
        && c.value > account.lastCounter
        && now / TOTP_PERIOD - 1 <= c.value <= now / TOTP_PERIOD + 1
        && codeAt(account.secret.value, c.value) == code
  {
  }

  lemma {:induction false} FailureKeepsCounter(t: Tables, digest: Digest, id: Id)
    requires digest in t.challenges && id in t.accounts && id in RecordFailure(t, digest).accounts
    requires RecordFailure(t, digest).accounts[id].secret.Some?
    ensures RecordFailure(t, digest).accounts[id] == t.accounts[id]
  {
  }

  /** The counter of an account in both tables is as it was, or is the one consumed. */
  ghost predicate CounterIs(t: Tables, t': Tables, id: Id, used: Option<nat>) {
    id in t.accounts && id in t'.accounts && t.accounts[id].secret.Some? && t'.accounts[id].secret.Some? ==>
      t'.accounts[id].lastCounter == if used.Some? then used.value else t.accounts[id].lastCounter
  }

  lemma {:induction false} FailureCounter(t: Tables, digest: Digest, id: Id)
    requires digest in t.challenges
    ensures CounterIs(t, RecordFailure(t, digest), id, None)
  {
    if id in t.accounts && id in RecordFailure(t, digest).accounts
        && RecordFailure(t, digest).accounts[id].secret.Some? {
      FailureKeepsCounter(t, digest, id);
    }
  }

  lemma {:induction false} ConfirmCounter(t: Tables, e: Event, id: Id, codeAt: (Secret, nat) -> string)
    requires e.ConfirmEnrollment?
    ensures CounterIs(t, Apply(t, e, codeAt).0, id, Mine(Accepted(t, e, codeAt), id))
  {
    if e.challenge in t.challenges {
      FailureCounter(t, e.challenge, id);
    }
  }

  lemma {:induction false} LoginCounter(t: Tables, e: Event, id: Id, codeAt: (Secret, nat) -> string)
    requires e.CompleteTotp?
    ensures CounterIs(t, Apply(t, e, codeAt).0, id, Mine(Accepted(t, e, codeAt), id))
  {
    if e.challenge in t.challenges {
      FailureCounter(t, e.challenge, id);
    }
  }

  lemma {:induction false} OtherChallengeCounter(t: Tables, e: Event, id: Id, codeAt: (Secret, nat) -> string)
    requires (e.CreateChallenge? || e.BeginEnrollment? || e.CompleteRecovery?) && AccountOk(t, id)
    ensures CounterIs(t, Apply(t, e, codeAt).0, id, Mine(Accepted(t, e, codeAt), id))
  {
    if e.CompleteRecovery? && e.challenge in t.challenges {
      FailureCounter(t, e.challenge, id);
    }
  }

  /** A call moves the account's counter exactly to the one it has accepted. */
  lemma {:induction false} CounterMoves(t: Tables, e: Event, id: Id, codeAt: (Secret, nat) -> string)
    requires AccountOk(t, id) && !Renewed(t, e, Apply(t, e, codeAt).0, id)
    ensures CounterIs(t, Apply(t, e, codeAt).0, id, Mine(Accepted(t, e, codeAt), id))
  {
    if e.ConfirmEnrollment? {
      ConfirmCounter(t, e, id, codeAt);
    } else if e.CompleteTotp? {
      LoginCounter(t, e, id, codeAt);
    } else if e.CreateChallenge? || e.BeginEnrollment? || e.CompleteRecovery? {
      OtherChallengeCounter(t, e, id, codeAt);
    }
  }

  lemma {:induction false} AcceptedIsNewer(t: Tables, e: Event, id: Id, codeAt: (Secret, nat) -> string)
    requires Accepted(t, e, codeAt).Some? && Accepted(t, e, codeAt).value.0 == id
    ensures id in t.accounts && Accepted(t, e, codeAt).value.1 > t.accounts[id].lastCounter
    ensures e.now / TOTP_PERIOD - 1 <= Accepted(t, e, codeAt).value.1 <= e.now / TOTP_PERIOD + 1
  {
    FreshIsNewer(codeAt, t.accounts[id], e.code, e.now);
  }

  /** The counter that the call has accepted for this account. */
  ghost function Mine(used: Option<(Id, nat)>, id: Id): Option<nat> {
    if used.Some? && used.value.0 == id then Some(used.value.1) else None
  }

  /** A counter accepted for the account being watched, and when. */
  datatype Use = Use(counter: nat, time: nat)

  /** `log` holds the uses since the account's secret was last installed or dropped. */
  datatype Watched = Watched(tables: Tables, log: seq<Use>)

  ghost function Watch(s: Watched, e: Event, id: Id, codeAt: (Secret, nat) -> string): Watched {
    var t' := Apply(s.tables, e, codeAt).0;
    var log := if Renewed(s.tables, e, t', id) then [] else s.log;
    var used := Mine(Accepted(s.tables, e, codeAt), id);
    Watched(t', log + if used.Some? then [Use(used.value, e.now)] else [])
  }

  ghost function WatchAll(s: Watched, events: seq<Event>, id: Id, codeAt: (Secret, nat) -> string): Watched {
    if events == [] then s else Watch(WatchAll(s, events[..|events| - 1], id, codeAt), events[|events| - 1], id, codeAt)
  }

  ghost predicate Rising(log: seq<Use>) {
    forall i, j :: RisesAt(log, i, j)
  }

  ghost predicate RisesAt(log: seq<Use>, i: int, j: int) {
    0 <= i < j < |log| ==> log[i].counter < log[j].counter
  }

  ghost predicate Timely(log: seq<Use>) {
    forall i :: 0 <= i < |log| ==> log[i].time / TOTP_PERIOD - 1 <= log[i].counter <= log[i].time / TOTP_PERIOD + 1
  }

  ghost predicate LogOk(s: Watched, id: Id) {
    && Rising(s.log) && Timely(s.log)
    && (s.log != [] ==> id in s.tables.accounts && s.log[|s.log| - 1].counter == s.tables.accounts[id].lastCounter)
  }

  lemma {:induction false} RisingAppend(log: seq<Use>, use: Use)
    requires Rising(log) && (log != [] ==> log[|log| - 1].counter < use.counter)
    ensures Rising(log + [use])
  {
    forall i, j ensures RisesAt(log + [use], i, j) {
      assert RisesAt(log, i, j) && RisesAt(log, i, |log| - 1);
    }
  }

  /** What a call does to the watched account: it accepts a newer counter and stores it, or it
      renews the secret, or it leaves the counter alone. */
  ghost predicate Moved(t: Tables, t': Tables, id: Id, used: Option<nat>, renewed: bool, time: nat) {
    if used.Some? then
      && !renewed && id in t.accounts && id in t'.accounts
      && used.value > t.accounts[id].lastCounter && t'.accounts[id].lastCounter == used.value
      && time / TOTP_PERIOD - 1 <= used.value <= time / TOTP_PERIOD + 1
    else
      renewed || (id in t.accounts && id in t'.accounts && t'.accounts[id].lastCounter == t.accounts[id].lastCounter)
  }

  lemma {:induction false} CallMoves(t: Tables, e: Event, id: Id, codeAt: (Secret, nat) -> string, time: nat)
    requires AccountOk(t, id) && (Mine(Accepted(t, e, codeAt), id).Some? ==> time == e.now)
    ensures Moved(t, Apply(t, e, codeAt).0, id, Mine(Accepted(t, e, codeAt), id),
        Renewed(t, e, Apply(t, e, codeAt).0, id), time)
  {
    if Mine(Accepted(t, e, codeAt), id).Some? {
      AcceptedIsNewer(t, e, id, codeAt);
      AcceptedAccount(t, e, id, codeAt);
    }
    if !Renewed(t, e, Apply(t, e, codeAt).0, id) {
      CounterMoves(t, e, id, codeAt);
    }
  }

  lemma {:induction false} LogMoves(s: Watched, s': Watched, id: Id, used: Option<nat>, renewed: bool, time: nat)
    requires LogOk(s, id) && Moved(s.tables, s'.tables, id, used, renewed, time)
    requires s'.log == (if renewed then [] else s.log) + (if used.Some? then [Use(used.value, time)] else [])
    ensures LogOk(s', id)
  {
    if used.Some? {
      RisingAppend(s.log, Use(used.value, time));
    } else {
      assert s'.log == if renewed then [] else s.log;
    }
  }

  lemma {:induction false} WatchOk(s: Watched, e: Event, id: Id, codeAt: (Secret, nat) -> string)
    requires LogOk(s, id) && AccountOk(s.tables, id)
    ensures LogOk(Watch(s, e, id, codeAt), id)
  {
    var used := Mine(Accepted(s.tables, e, codeAt), id);
    var time := if used.Some? then e.now else 0;
    CallMoves(s.tables, e, id, codeAt, time);
    LogMoves(s, Watch(s, e, id, codeAt), id, used, Renewed(s.tables, e, Apply(s.tables, e, codeAt).0, id), time);
  }

  /** An accepted counter is stored, and does not renew the secret. */
  lemma {:induction false} AcceptedAccount(t: Tables, e: Event, id: Id, codeAt: (Secret, nat) -> string)
    requires Accepted(t, e, codeAt).Some? && Accepted(t, e, codeAt).value.0 == id
    ensures id in Apply(t, e, codeAt).0.accounts && !Renewed(t, e, Apply(t, e, codeAt).0, id)
  {
  }

  /** Single use: in every history, the counters accepted for an account by enrolment, login,
      step-up and regeneration of its codes since its secret was installed rise strictly, and
      each is within one step of the clock at its use. */
  lemma {:induction false} SingleUse(events: seq<Event>, id: Id, codeAt: (Secret, nat) -> string)
    requires forall e <- events :: TenCodes(e)
    ensures var s := WatchAll(Watched(Tables(map[], map[], {}, map[]), []), events, id, codeAt);
      Rising(s.log) && Timely(s.log)
  {
    WatchRun(events, id, codeAt);
  }

  lemma {:induction false} WatchRun(events: seq<Event>, id: Id, codeAt: (Secret, nat) -> string)
    requires forall e <- events :: TenCodes(e)
    ensures var empty := Tables(map[], map[], {}, map[]);
      var s := WatchAll(Watched(empty, []), events, id, codeAt);
      s.tables == After(empty, events, codeAt) && LogOk(s, id)
  {
    if events != [] {
      var n := |events| - 1;
      var empty := Tables(map[], map[], {}, map[]);
      WatchRun(events[..n], id, codeAt);
      NeverOrphaned(events[..n], codeAt);
      WatchOk(WatchAll(Watched(empty, []), events[..n], id, codeAt), events[n], id, codeAt);
    }
  }

  // ---------------------------------------------------------------------------------------
  // The life of one session
  // ---------------------------------------------------------------------------------------

  /** The digest of the session that a successful call has issued. */
  ghost function IssuedBy(t: Tables, e: Event, codeAt: (Secret, nat) -> string): Option<Digest> {
    if Apply(t, e, codeAt).1 != Ok then None
    else if e.PasskeySession? then DigestOf(Issue(t.sessions, e.id, e.now, e.draws))
    else if (e.ConfirmEnrollment? || e.CompleteTotp?) && e.challenge in t.challenges then
      DigestOf(Issue(t.sessions, t.challenges[e.challenge].account, e.now, e.draws))
    else if e.CompleteRecovery? && e.challenge in t.challenges then
      var id := t.challenges[e.challenge].account;
      DigestOf(Issue(OtherSessions(t.sessions, id), id, e.now, e.draws))
    else None
  }

  ghost function DigestOf(issued: Option<(map<Digest, Session>, Digest)>): Option<Digest> {
    if issued.None? then None else Some(issued.value.1)
  }

  /** What really happened to a session: when it was issued, last touched, last stepped up. */
  datatype Life = Unborn | Life(born: int, touched: int, granted: Option<int>)

  datatype Traced = Traced(tables: Tables, clock: int, life: Life)

  predicate UsesSession(e: Event) {
    e.Authenticate? || e.MarkStepUp? || e.RequireStepUp?
  }

  function Time(e: Event, clock: int): int {
    if e.RegenerateCodes? || e.VerifyTotp? || e.CreateChallenge? || e.BeginEnrollment? || e.ConfirmEnrollment?
        || e.CompleteTotp?
       || e.CompleteRecovery? || UsesSession(e) || e.ListSessions? || e.PasskeySession? then e.now else clock
  }

  /** A call on the session finds it alive; step-up may still be missing. */
  ghost predicate Finds(t: Tables, e: Event, d: Digest) {
    UsesSession(e) && e.session == d && DoAuthenticate(t, d, true, e.now).1 == Ok
  }

  ghost function Trace(s: Traced, e: Event, d: Digest, codeAt: (Secret, nat) -> string): Traced {
    var t' := Apply(s.tables, e, codeAt).0;
    var now := Time(e, s.clock);
    var life :=
      if IssuedBy(s.tables, e, codeAt) == Some(d) then Life(now, now, None)
      else if s.life.Life? && Finds(s.tables, e, d) then
        Life(s.life.born, if e.Authenticate? && !e.touch then s.life.touched else now, if e.MarkStepUp? then Some(now)
            else s.life.granted)
      else s.life;
    Traced(t', now, life)
  }

  /** A step-up lasts for 300 seconds, but not longer than the session. */
  function GrantEnd(life: Life): int
    requires life.Life? && life.granted.Some?
  {
    if life.granted.value + 300 < life.born + 2592000 then life.granted.value + 300 else life.born + 2592000
  }

  /** The stored row tells the truth about the session's life. */
  ghost predicate Truthful(s: Traced, d: Digest) {
    d in s.tables.sessions ==>
      var row := s.tables.sessions[d];
      && s.life.Life? && s.life.born == row.created && s.life.touched == row.lastSeen <= s.clock
      && row.absolute == row.created + SESSION_ABSOLUTE
      && (if s.life.granted.None? then row.stepUpUntil <= 0
          else s.life.granted.value <= s.clock && row.stepUpUntil == GrantEnd(s.life))
  }

  lemma {:induction false} IssuedRow(sessions: map<Digest, Session>, id: Id, now: int, draws: seq<Digest>, d: Digest)
    requires Issue(sessions, id, now, draws).Some? && d in Issue(sessions, id, now, draws).value.0
    ensures var (sessions', issued) := Issue(sessions, id, now, draws).value;
      if d == issued then sessions'[d] == NewSession(id, now) else d in sessions && sessions'[d] == sessions[d]
  {
    RoomMade(sessions, id, now);
  }

  /** Calls that do not use the session leave its row, or remove it, or issue it anew. */
  lemma {:induction false} RowKept(t: Tables, e: Event, d: Digest, codeAt: (Secret, nat) -> string)
    requires !(UsesSession(e) && e.session == d) && d in Apply(t, e, codeAt).0.sessions
    ensures if IssuedBy(t, e, codeAt) == Some(d) then
              var row := Apply(t, e, codeAt).0.sessions[d]; row == NewSession(row.account, Time(e, 0))
            else d in t.sessions && Apply(t, e, codeAt).0.sessions[d] == t.sessions[d]
  {
    if Apply(t, e, codeAt).1 == Ok {
      if e.PasskeySession? {
        IssuedRow(t.sessions, e.id, e.now, e.draws, d);
      } else if e.ConfirmEnrollment? || e.CompleteTotp? {
        IssuedRow(t.sessions, t.challenges[e.challenge].account, e.now, e.draws, d);
      } else if e.CompleteRecovery? {
        var id := t.challenges[e.challenge].account;
        IssuedRow(OtherSessions(t.sessions, id), id, e.now, e.draws, d);
      }
    }
  }

  lemma {:induction false} TraceOk(s: Traced, e: Event, d: Digest, codeAt: (Secret, nat) -> string)
    requires Truthful(s, d) && s.clock <= Time(e, s.clock)
    ensures Truthful(Trace(s, e, d, codeAt), d)
  {
    var t' := Apply(s.tables, e, codeAt).0;
    if UsesSession(e) && e.session == d {
      UseOk(s, e, d, codeAt);
    } else if d in t'.sessions {
      RowKept(s.tables, e, d, codeAt);
    }
  }

  lemma {:induction false} UseOk(s: Traced, e: Event, d: Digest, codeAt: (Secret, nat) -> string)
    requires Truthful(s, d) && UsesSession(e) && e.session == d && s.clock <= e.now
    ensures Truthful(Trace(s, e, d, codeAt), d)
  {
    var (t', reply) := DoAuthenticate(s.tables, d, true, e.now);
    if d in s.tables.sessions && reply == Ok {
      assert Finds(s.tables, e, d);
    }
  }

  ghost function TraceAll(s: Traced, events: seq<Event>, d: Digest, codeAt: (Secret, nat) -> string): Traced {
    if events == [] then s else Trace(TraceAll(s, events[..|events| - 1], d, codeAt), events[|events| - 1], d, codeAt)
  }

  /** The clock never runs backwards. */
  ghost predicate Forward(s: Traced, events: seq<Event>, d: Digest, codeAt: (Secret, nat) -> string) {
    forall i :: 0 <= i < |events| ==>
      var before := TraceAll(s, events[..i], d, codeAt); before.clock <= Time(events[i], before.clock)
  }

  lemma {:induction false} TraceRun(events: seq<Event>, d: Digest, codeAt: (Secret, nat) -> string)
    requires Forward(Traced(Tables(map[], map[], {}, map[]), 0, Unborn), events, d, codeAt)
    ensures Truthful(TraceAll(Traced(Tables(map[], map[], {}, map[]), 0, Unborn), events, d, codeAt), d)
  {
    var s := Traced(Tables(map[], map[], {}, map[]), 0, Unborn);
    if events != [] {
      var n := |events| - 1;
      forall i | 0 <= i < n
        ensures var before := TraceAll(s, events[..n][..i], d, codeAt); before.clock <= Time(events[..n][i],
            before.clock)
      {
        assert events[..n][..i] == events[..i];
      }
      TraceRun(events[..n], d, codeAt);
      TraceOk(TraceAll(s, events[..n], d, codeAt), events[n], d, codeAt);
    }
  }

  /** In every history with a clock that does not run backwards: a session is accepted exactly
      if it is still stored, was issued less than 30 days before and last touched less than 72
      hours before; and step-up holds exactly if, besides, it was granted to that very session
      less than 300 seconds before and the session is not over. */
  lemma {:induction false} SessionLifetime(events: seq<Event>, d: Digest, now: nat, codeAt: (Secret, nat) -> string)
    requires Forward(Traced(Tables(map[], map[], {}, map[]), 0, Unborn), events, d, codeAt)
    requires forall e <- events :: TenCodes(e)
    ensures var s := TraceAll(Traced(Tables(map[], map[], {}, map[]), 0, Unborn), events, d, codeAt);
      s.clock <= now ==>
        && (DoAuthenticate(s.tables, d, true, now).1 == Ok <==>
              d in s.tables.sessions && s.life.Life? && now < s.life.born + 2592000 && now < s.life.touched + 259200)
        && (DoRequireStepUp(s.tables, d, now).1 == Ok <==>
              && DoAuthenticate(s.tables, d, true, now).1 == Ok
              && s.life.Life? && s.life.granted.Some? && s.life.granted.value <= now < GrantEnd(s.life))
  {
    TraceRun(events, d, codeAt);
    TraceTables(events, d, codeAt);
    NeverOrphaned(events, codeAt);
    assert SessionOk(After(Tables(map[], map[], {}, map[]), events, codeAt), d);
  }

  lemma {:induction false} TraceTables(events: seq<Event>, d: Digest, codeAt: (Secret, nat) -> string)
    ensures var empty := Tables(map[], map[], {}, map[]);
      TraceAll(Traced(empty, 0, Unborn), events, d, codeAt).tables == After(empty, events, codeAt)
  {
    if events != [] {
      TraceTables(events[..|events| - 1], d, codeAt);
    }
  }
}
