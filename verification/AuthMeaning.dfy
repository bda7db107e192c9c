/**
 What the transactions of the authentication store mean, row by row: exactly when a call
 succeeds, what a refused one leaves behind, and what becomes of every account, challenge,
 recovery code and session.  The numbers are those of the design, and nothing here follows the
 order in which the statements compute their results.
 */
module AuthMeaning {
  import opened Options
  import opened AuthTables
  import opened Eviction
  import opened AuthInvariant

  function Row<K, V>(rows: map<K, V>, key: K): Option<V> {
    if key in rows then Some(rows[key]) else None
  }

  // ---------------------------------------------------------------------------------------
  // When a call succeeds
  // ---------------------------------------------------------------------------------------

  /** The challenge is there, belongs to an account in this state and has not expired. */
  ghost predicate Open(t: Tables, d: Digest, now: int, state: Enrollment) {
    && d in t.challenges && t.challenges[d].account in t.accounts && now < t.challenges[d].expires
    && t.accounts[t.challenges[d].account].state == state
  }

  /** A counter within one step of the clock has this code. */
  ghost predicate Shows(codeAt: (Secret, nat) -> string, secret: Secret, code: string, now: nat, c: nat) {
    now / 30 - 1 <= c <= now / 30 + 1 && codeAt(secret, c) == code
  }

  /** The code is that of such a counter, newer than any used. */
  ghost predicate Unused(codeAt: (Secret, nat) -> string, a: Account, code: string, now: nat) {
    a.secret.Some? && exists c: nat :: Shows(codeAt, a.secret.value, code, now, c) && c > a.lastCounter
  }

  /** The counter is the newest with this code. */
  ghost predicate Newest(codeAt: (Secret, nat) -> string, a: Account, code: string, now: nat, c: nat) {
    && a.secret.Some? && Shows(codeAt, a.secret.value, code, now, c) && c > a.lastCounter
    && forall later: nat :: Shows(codeAt, a.secret.value, code, now, later) ==> later <= c
  }

  /** The session is there, belongs to an account, is younger than 30 days and was seen in the
      last 72 hours. */
  ghost predicate Lasting(t: Tables, d: Digest, now: int) {
    && d in t.sessions && t.sessions[d].account in t.accounts
    && now < t.sessions[d].absolute && now < t.sessions[d].lastSeen + 259200
  }

  /** Some token that was drawn is not in use. */
  ghost predicate Drawn(draws: seq<Digest>, used: set<Digest>) {
    exists d <- draws :: d !in used
  }

  /** The condition under which a call succeeds. */
  ghost predicate Grants(t: Tables, e: Event, codeAt: (Secret, nat) -> string) {
    match e
    case CreateAccount(id) => id !in t.accounts
    case Provision(id, _, _) => id !in t.accounts
    case Bootstrap(_, _, _) => true
    case RevokeSession(_) => true
    case SetRole(id, _) => id in t.accounts
    case ResetTotp(id) => id in t.accounts
    case RotateTotp(id, _, _) => id in t.accounts
    case DeleteAccount(id) => id in t.accounts
    case RevokeSessions(id) => id in t.accounts
    case ListSessions(id, _) => id in t.accounts
    case VerifyTotp(id, code, now) =>
      id in t.accounts && t.accounts[id].state == Active && Unused(codeAt, t.accounts[id], code, now)
    case RegenerateCodes(id, code, _, now) =>
      id in t.accounts && t.accounts[id].state == Active && Unused(codeAt, t.accounts[id], code, now)
    case CreateChallenge(id, draws, now) =>
      id in t.accounts && exists kept :: RoomyChallenges(t, id, now, kept) && Drawn(draws, kept.Keys)
    case BeginEnrollment(d, _, now) => Open(t, d, now, Required) || OwnsPending(t, d, now)
    case ConfirmEnrollment(d, code, _, draws, now) =>
      && OwnsPending(t, d, now) && Unused(codeAt, t.accounts[t.challenges[d].account], code, now)
      && Room(t.sessions, t.challenges[d].account, now, draws)
    case CompleteTotp(d, code, draws, now) =>
      && Open(t, d, now, Active) && Unused(codeAt, t.accounts[t.challenges[d].account], code, now)
      && Room(t.sessions, t.challenges[d].account, now, draws)
    case CompleteRecovery(d, codeDigest, draws, now) =>
      && Open(t, d, now, Active) && Code(t.challenges[d].account, codeDigest) in t.codes
      && Drawn(draws, LivingOthers(t.sessions, t.challenges[d].account, now).Keys)
    case PasskeySession(id, draws, now) => id in t.accounts && Room(t.sessions, id, now, draws)
    case Authenticate(d, _, now) => Lasting(t, d, now)
    case MarkStepUp(d, now) => Lasting(t, d, now)
    case RequireStepUp(d, now) => Lasting(t, d, now) && now < t.sessions[d].stepUpUntil
  }

  /** The challenge owns the pending enrolment of its account. */
  ghost predicate OwnsPending(t: Tables, d: Digest, now: int) {
    Open(t, d, now, Pending) && t.accounts[t.challenges[d].account].owner == Some(d)
  }

  ghost predicate Room(sessions: map<Digest, Session>, id: Id, now: int, draws: seq<Digest>) {
    exists kept :: RoomySessions(sessions, id, now, kept) && Drawn(draws, kept.Keys)
  }

  // ---------------------------------------------------------------------------------------
  // Making room
  // ---------------------------------------------------------------------------------------

  ghost predicate Lives(s: Session, now: int) {
    now < s.absolute && now < s.lastSeen + 259200
  }

  ghost function LivingOthers(sessions: map<Digest, Session>, id: Id, now: int): map<Digest, Session> {
    map d | d in sessions && sessions[d].account != id && Lives(sessions[d], now) :: sessions[d]
  }

  /** The rows of the account that are alive, as they are sorted. */
  ghost function LivingRanks(sessions: map<Digest, Session>, id: Id, now: int): set<Rank> {
    set d | d in sessions && sessions[d].account == id && Lives(sessions[d], now) ::
      Rank(sessions[d].lastSeen, sessions[d].created, d)
  }

  /** Of the rows ranked, `most` are kept or all, and none that is dropped comes after a kept one. */
  ghost predicate LastKept(ranks: set<Rank>, kept: set<Digest>, most: int) {
    var left := set r | r in ranks && r.key in kept;
    && |left| == (if |ranks| < most then |ranks| else most)
    && forall r, x :: r in left && x in ranks && x !in left ==> Leq(x, r)
  }

  /** What is kept of the sessions when one more of the account is to be added: all that are
      alive of others, and of its own all but the least recently seen, so that four are left. */
  ghost predicate RoomySessions(sessions: map<Digest, Session>, id: Id, now: int, kept: map<Digest, Session>) {
    && (forall d :: d in kept ==> Row(sessions, d) == Some(kept[d]) && Lives(kept[d], now))
    && (forall d :: d in sessions && sessions[d].account != id && Lives(sessions[d], now) ==> d in kept)
    && LastKept(LivingRanks(sessions, id, now), kept.Keys, 4)
  }

  ghost predicate Unexpired(t: Tables, d: Digest, now: int) {
    d in t.challenges && t.challenges[d].expires > now
  }

  /** The open challenges of the account, and those of them that no enrolment belongs to. */
  ghost function OpenOf(t: Tables, id: Id, now: int): set<Digest> {
    set d | d in t.challenges && Unexpired(t, d, now) && t.challenges[d].account == id
  }

  ghost function LooseRanks(t: Tables, id: Id, now: int): set<Rank>
    requires id in t.accounts
  {
    set d | d in t.challenges && Unexpired(t, d, now) && t.challenges[d].account == id
      && t.accounts[id].owner != Some(d) :: Rank(t.challenges[d].created, 0, d)
  }

  /** The same for challenges, where the one that owns the enrolment is always kept. */
  ghost predicate RoomyChallenges(t: Tables, id: Id, now: int, kept: map<Digest, Challenge>)
    requires id in t.accounts
  {
    var loose := LooseRanks(t, id, now);
    && (forall d :: d in kept ==> Row(t.challenges, d) == Some(kept[d]) && Unexpired(t, d, now))
    && (forall d :: Unexpired(t, d, now) && (t.challenges[d].account != id || t.accounts[id].owner == Some(d)) ==>
          d in kept)
    && LastKept(loose, kept.Keys, 4 - (|OpenOf(t, id, now)| - |loose|))
  }

  /** Only one choice of rows satisfies this. */
  lemma {:induction false} LastKeptOne(ranks: set<Rank>, a: set<Digest>, b: set<Digest>, most: int, r: Rank)
    requires OwnKeys(ranks) && LastKept(ranks, a, most) && LastKept(ranks, b, most) && r in ranks
    ensures r.key in a <==> r.key in b
  {
    var left, right := set r | r in ranks && r.key in a, set r | r in ranks && r.key in b;
    if r in left && r !in right {
      Another(left, right, r);
    } else if r in right && r !in left {
      Another(right, left, r);
    }
  }

  lemma {:induction false} Another(a: set<Rank>, b: set<Rank>, r: Rank)
    requires |a| == |b| && r in a && r !in b
    ensures exists x :: x in b && x !in a
  {
    if forall x :: x in b ==> x in a {
      assert b <= a - {r};
      SmallerSet(b, a - {r});
    }
  }

  lemma {:induction false} RoomySessionsOne(sessions: map<Digest, Session>, id: Id, now: int, a: map<Digest, Session>,
      b: map<Digest, Session>)
    requires RoomySessions(sessions, id, now, a) && RoomySessions(sessions, id, now, b)
    ensures a == b
  {
    forall d ensures d in a <==> d in b {
      if d in sessions && sessions[d].account == id && Lives(sessions[d], now) {
        LastKeptOne(LivingRanks(sessions, id, now), a.Keys, b.Keys, 4,
            Rank(sessions[d].lastSeen, sessions[d].created, d));
      }
    }
    assert forall d :: d in a ==> Row(sessions, d) == Some(a[d]) == Some(b[d]);
  }

  lemma {:induction false} RoomyChallengesOne(t: Tables, id: Id, now: int, a: map<Digest, Challenge>,
      b: map<Digest, Challenge>)
    requires id in t.accounts && RoomyChallenges(t, id, now, a) && RoomyChallenges(t, id, now, b)
    ensures a == b
  {
    var loose := LooseRanks(t, id, now);
    forall d ensures d in a <==> d in b {
      if Unexpired(t, d, now) && t.challenges[d].account == id && t.accounts[id].owner != Some(d) {
        LastKeptOne(loose, a.Keys, b.Keys, 4 - (|OpenOf(t, id, now)| - |loose|), Rank(t.challenges[d].created, 0, d));
      }
    }
    assert forall d :: d in a ==> Row(t.challenges, d) == Some(a[d]) == Some(b[d]);
  }

  /** Dropping the oldest rows keeps the last ones. */
  lemma {:induction false} DroppedOldest(ranks: set<Rank>, kept: set<Digest>, n: nat, most: int)
    requires OwnKeys(ranks) && forall r <- ranks :: r.key in kept <==> r.key !in KeysOf(Oldest(ranks, n))
    requires most >= 0 && n == if |ranks| < most then 0 else |ranks| - most
    ensures LastKept(ranks, kept, most)
  {
    var gone := Oldest(ranks, n);
    OldestSize(ranks, n);
    var left := set r | r in ranks && r.key in kept;
    forall r | r in ranks ensures r in left <==> r !in gone {
    }
    assert left == ranks - gone && |ranks| == |left| + |gone| by {
      assert ranks == left + gone;
    }
    forall r, x | r in left && x in ranks && x !in left ensures Leq(x, r) {
      OldestFirst(ranks, n, x, r);
    }
  }

  lemma {:induction false} LiveRanks(sessions: map<Digest, Session>, id: Id, now: int)
    ensures SessionRanks(LiveSessions(sessions, now), id) == LivingRanks(sessions, id, now)
  {
    var live := LiveSessions(sessions, now);
    forall d ensures d in live && live[d].account == id <==>
        d in sessions && sessions[d].account == id && Lives(sessions[d], now)
    {
    }
    assert forall d :: d in live ==> live[d] == sessions[d];
    forall r | r in SessionRanks(live, id) ensures r in LivingRanks(sessions, id, now) {
      assert r.key in live && r == Rank(sessions[r.key].lastSeen, sessions[r.key].created, r.key);
    }
    forall r | r in LivingRanks(sessions, id, now) ensures r in SessionRanks(live, id) {
      assert r.key in live && r == Rank(live[r.key].lastSeen, live[r.key].created, r.key);
    }
  }

  /** The sessions that the store keeps are these. */
  lemma {:induction false} SessionsKept(sessions: map<Digest, Session>, id: Id, now: int)
    ensures RoomySessions(sessions, id, now, RoomForSession(sessions, id, now))
  {
    var live, kept := LiveSessions(sessions, now), RoomForSession(sessions, id, now);
    var ranks := SessionRanks(live, id);
    LiveRanks(sessions, id, now);
    SessionRanksSize(live, id);
    var n := if |ranks| < 5 then 0 else |ranks| - 4;
    OldestRemoved(ranks, n);
    assert kept == live - KeysOf(Oldest(ranks, n)) by {
      assert Oldest(ranks, 0) == {} && KeysOf({}) == {};
    }
    forall r | r in ranks ensures r.key in kept <==> r.key !in KeysOf(Oldest(ranks, n)) {
      assert r.key in live;
    }
    DroppedOldest(ranks, kept.Keys, n, 4);
  }

  lemma {:induction false} LooseAre(t: Tables, id: Id, now: int)
    requires id in t.accounts
    ensures var cleaned := DeleteExpired(t, now);
      && id in cleaned.accounts && Removable(cleaned, id) == LooseRanks(t, id, now)
      && ChallengesOf(cleaned.challenges, id) == OpenOf(t, id, now)
  {
    var cleaned := DeleteExpired(t, now);
    forall d ensures d in cleaned.challenges <==> Unexpired(t, d, now) {
    }
    assert forall d :: d in cleaned.challenges ==> cleaned.challenges[d] == t.challenges[d];
    forall d: Digest | Unexpired(t, d, now)
      ensures cleaned.accounts[id].owner == Some(d) <==> t.accounts[id].owner == Some(d)
    {
    }
    forall r | r in Removable(cleaned, id) ensures r in LooseRanks(t, id, now) {
      assert Unexpired(t, r.key, now) && r == Rank(t.challenges[r.key].created, 0, r.key);
    }
    forall r | r in LooseRanks(t, id, now) ensures r in Removable(cleaned, id) {
      assert Unexpired(t, r.key, now) && r == Rank(cleaned.challenges[r.key].created, 0, r.key);
    }
  }

  lemma {:induction false} LooseDropped(t: Tables, id: Id, now: int)
    requires id in t.accounts
    ensures var loose, count := LooseRanks(t, id, now), |OpenOf(t, id, now)|;
      && OwnKeys(loose) && |loose| <= count <= |loose| + 1
      && RoomForChallenge(DeleteExpired(t, now), id) ==
         DeleteExpired(t, now).challenges - KeysOf(Oldest(loose, if count < 5 then 0 else count - 4))
  {
    LooseAre(t, id, now);
    RemovableSize(DeleteExpired(t, now), id);
    KeysOfSize(LooseRanks(t, id, now));
    SmallerSet(KeysOf(LooseRanks(t, id, now)), OpenOf(t, id, now));
    assert Oldest(LooseRanks(t, id, now), 0) == {} && KeysOf({}) == {};
  }

  /** The challenges that the store keeps are these. */
  lemma {:induction false} ChallengesKept(t: Tables, id: Id, now: int)
    requires id in t.accounts
    ensures RoomyChallenges(t, id, now, RoomForChallenge(DeleteExpired(t, now), id))
  {
    var open := DeleteExpired(t, now).challenges;
    var kept, ranks, count := RoomForChallenge(DeleteExpired(t, now), id), LooseRanks(t, id, now), |OpenOf(t, id, now)|;
    var n := if count < 5 then 0 else count - 4;
    LooseDropped(t, id, now);
    OldestRemoved(ranks, n);
    assert forall d :: d in open <==> Unexpired(t, d, now);
    forall r | r in ranks ensures r.key in kept <==> r.key !in KeysOf(Oldest(ranks, n)) {
      assert r.key in open;
    }
    DroppedOldest(ranks, kept.Keys, n, 4 - (count - |ranks|));
    assert forall d :: d in KeysOf(ranks) ==> t.challenges[d].account == id && t.accounts[id].owner != Some(d);
  }

  // ---------------------------------------------------------------------------------------
  // Exactly when
  // ---------------------------------------------------------------------------------------

  lemma {:induction false} FreeExactly(draws: seq<Digest>, used: set<Digest>)
    ensures FirstFree(draws, used).Some? <==> Drawn(draws, used)
  {
    if draws != [] {
      FreeExactly(draws[1..], used);
      assert draws[0] in draws && forall d :: d in draws <==> d == draws[0] || d in draws[1..];
    }
  }

  /** A code is accepted exactly if it is unused, and consumes the newest counter that has it. */
  lemma {:induction false} FreshExactly(codeAt: (Secret, nat) -> string, a: Account, code: string, now: nat)
    ensures Fresh(codeAt, a, code, now).Some? <==> Unused(codeAt, a, code, now)
    ensures Fresh(codeAt, a, code, now).Some? ==> Newest(codeAt, a, code, now, Fresh(codeAt, a, code, now).value)
  {
    if a.secret.Some? {
      var secret, c := a.secret.value, Matching(codeAt, a.secret.value, code, now);
      forall later: nat | Shows(codeAt, secret, code, now, later) ensures c.Some? && later <= c.value {
        assert later == now / 30 + 1 || later == now / 30 || later == now / 30 - 1;
      }
      assert c.Some? ==> Shows(codeAt, secret, code, now, c.value);
    }
  }

  /** The sessions after one was added to those kept. */
  ghost predicate Added(kept: map<Digest, Session>, id: Id, now: int, draws: seq<Digest>, after: map<Digest, Session>) {
    exists d <- draws :: d !in kept && after == kept[d := Session(id, now, now, now + 2592000, 0)]
  }

  lemma {:induction false} IssueExactly(sessions: map<Digest, Session>, id: Id, now: int, draws: seq<Digest>)
    ensures Issue(sessions, id, now, draws).Some? <==> Room(sessions, id, now, draws)
    ensures Issue(sessions, id, now, draws).Some? ==>
      Added(RoomForSession(sessions, id, now), id, now, draws, Issue(sessions, id, now, draws).value.0)
  {
    var kept := RoomForSession(sessions, id, now);
    SessionsKept(sessions, id, now);
    FreeExactly(draws, kept.Keys);
    if Room(sessions, id, now, draws) {
      var other :| RoomySessions(sessions, id, now, other) && Drawn(draws, other.Keys);
      RoomySessionsOne(sessions, id, now, kept, other);
    }
  }

  lemma {:induction false} IssueAlone(sessions: map<Digest, Session>, id: Id, now: int)
    ensures RoomForSession(OtherSessions(sessions, id), id, now) == LivingOthers(sessions, id, now)
  {
    var others := OtherSessions(sessions, id);
    SessionsKept(others, id, now);
    assert RoomySessions(others, id, now, LivingOthers(sessions, id, now)) by {
      assert LivingRanks(others, id, now) == {};
      assert forall d :: d in LivingOthers(sessions, id, now) ==> Row(others, d) == Some(sessions[d]);
    }
    RoomySessionsOne(others, id, now, RoomForSession(others, id, now), LivingOthers(sessions, id, now));
  }

  lemma {:induction false} ChallengeExactly(t: Tables, id: Id, draws: seq<Digest>, now: nat)
    requires id in t.accounts
    ensures DoCreateChallenge(t, id, draws, now).1 == Ok <==>
        exists kept :: RoomyChallenges(t, id, now, kept) && Drawn(draws, kept.Keys)
  {
    var kept := RoomForChallenge(DeleteExpired(t, now), id);
    ChallengesKept(t, id, now);
    FreeExactly(draws, kept.Keys);
    if other :| RoomyChallenges(t, id, now, other) && Drawn(draws, other.Keys) {
      RoomyChallengesOne(t, id, now, kept, other);
    }
  }

  /** The calls on challenges that answer with a code. */
  lemma {:induction false} CodeCallExactly(t: Tables, e: Event, codeAt: (Secret, nat) -> string)
    requires e.ConfirmEnrollment? || e.CompleteTotp? || e.CompleteRecovery?
    ensures Apply(t, e, codeAt).1 == Ok <==> Grants(t, e, codeAt)
    ensures Apply(t, e, codeAt).1 == Denied <==> Wrong(t, e, codeAt)
  {
    if Live(t, e.challenge, e.now) {
      var id := t.challenges[e.challenge].account;
      if e.CompleteRecovery? {
        IssueAlone(t.sessions, id, e.now);
        FreeExactly(e.draws, LivingOthers(t.sessions, id, e.now).Keys);
      } else {
        FreshExactly(codeAt, t.accounts[id], e.code, e.now);
        IssueExactly(t.sessions, id, e.now, e.draws);
      }
    }
  }

  /** The challenge would do, but the code is not one of the account. */
  ghost predicate Wrong(t: Tables, e: Event, codeAt: (Secret, nat) -> string) {
    match e
    case ConfirmEnrollment(d, code, _, _, now) =>
      OwnsPending(t, d, now) && !Unused(codeAt, t.accounts[t.challenges[d].account], code, now)
    case CompleteTotp(d, code, _, now) =>
      Open(t, d, now, Active) && !Unused(codeAt, t.accounts[t.challenges[d].account], code, now)
    case CompleteRecovery(d, codeDigest, _, now) =>
      Open(t, d, now, Active) && Code(t.challenges[d].account, codeDigest) !in t.codes
    case _ => false
  }

  /** A call succeeds exactly under its condition. */
  lemma {:induction false} OkExactly(t: Tables, e: Event, codeAt: (Secret, nat) -> string)
    ensures Apply(t, e, codeAt).1 == Ok <==> Grants(t, e, codeAt)
  {
    if e.ConfirmEnrollment? || e.CompleteTotp? || e.CompleteRecovery? {
      CodeCallExactly(t, e, codeAt);
    } else if e.VerifyTotp? || e.RegenerateCodes? || e.CreateChallenge? || e.PasskeySession? {
      AccountCallExactly(t, e, codeAt);
    }
  }

  lemma {:induction false} AccountCallExactly(t: Tables, e: Event, codeAt: (Secret, nat) -> string)
    requires e.VerifyTotp? || e.RegenerateCodes? || e.CreateChallenge? || e.PasskeySession?
    ensures Apply(t, e, codeAt).1 == Ok <==> Grants(t, e, codeAt)
  {
    if e.id in t.accounts {
      match e
      case VerifyTotp(id, code, now) => FreshExactly(codeAt, t.accounts[id], code, now);
      case RegenerateCodes(id, code, _, now) => FreshExactly(codeAt, t.accounts[id], code, now);
      case CreateChallenge(id, draws, now) => ChallengeExactly(t, id, draws, now);
      case PasskeySession(id, draws, now) => IssueExactly(t.sessions, id, now, draws);
    }
  }

  // ---------------------------------------------------------------------------------------
  // What a refused call leaves
  // ---------------------------------------------------------------------------------------

  /** One more failure of the challenge; the fifth removes it and the enrolment it owns. */
  ghost predicate Counted(t: Tables, d: Digest, t': Tables) {
    && d in t.challenges && t'.codes == t.codes && t'.sessions == t.sessions
    && (forall x :: x != d ==> Row(t'.challenges, x) == Row(t.challenges, x))
    && Row(t'.challenges, d) ==
         (if t.challenges[d].failures >= 4 then None
          else Some(t.challenges[d].(failures := t.challenges[d].failures + 1)))
    && forall id :: Row(t'.accounts, id) ==
         if id in t.accounts && t.accounts[id].owner == Some(d) && t.accounts[id].state == Pending
            && t.challenges[d].failures >= 4
         then Some(Account(Required, None, None, -1)) else Row(t.accounts, id)
  }

  /** A fault changes nothing, and a denial of a call on a challenge counts a wrong code. */
  lemma {:induction false} RefusalLeaves(t: Tables, e: Event, codeAt: (Secret, nat) -> string)
    ensures Apply(t, e, codeAt).1 == Fault ==> Apply(t, e, codeAt).0 == t
    ensures Apply(t, e, codeAt).1 == Denied && !e.Authenticate? && !e.MarkStepUp? && !e.RequireStepUp? ==>
      Wrong(t, e, codeAt) && Counted(t, e.challenge, Apply(t, e, codeAt).0)
  {
    if Apply(t, e, codeAt).1 == Denied && (e.ConfirmEnrollment? || e.CompleteTotp? || e.CompleteRecovery?) {
      CodeCallExactly(t, e, codeAt);
      FailureCounted(t, e.challenge);
    }
  }

  lemma {:induction false} FailureCounted(t: Tables, d: Digest)
    requires d in t.challenges
    ensures Counted(t, d, RecordFailure(t, d))
  {
  }

  // ---------------------------------------------------------------------------------------
  // What a call leaves of each row
  // ---------------------------------------------------------------------------------------

  predicate OnSession(e: Event) {
    e.Authenticate? || e.MarkStepUp? || e.RequireStepUp?
  }

  /** The row of a session after a call on it, whether it succeeds or not: it is removed once it
      is over; otherwise it was seen now, unless the caller does not touch it, and a step-up
      lasts for 300 seconds or as long as the session. */
  ghost function UsedRow(t: Tables, e: Event): Option<Session>
    requires OnSession(e)
  {
    var row := Row(t.sessions, e.session);
    if row.None? || row.value.account !in t.accounts then row
    else if !Lives(row.value, e.now) then None
    else
      var seen := if e.Authenticate? && !e.touch then row.value.lastSeen else Max(row.value.lastSeen, e.now);
      var until := if e.MarkStepUp? then Min(e.now + 300, row.value.absolute) else row.value.stepUpUntil;
      Some(row.value.(lastSeen := seen, stepUpUntil := until))
  }

  function Max(a: int, b: int): int { if a < b then b else a }

  function Min(a: int, b: int): int { if a < b then a else b }

  lemma {:induction false} SessionCall(t: Tables, e: Event, codeAt: (Secret, nat) -> string)
    requires OnSession(e)
    ensures var t' := Apply(t, e, codeAt).0;
      && (t'.accounts, t'.challenges, t'.codes) == (t.accounts, t.challenges, t.codes)
      && Row(t'.sessions, e.session) == UsedRow(t, e)
      && (forall d :: d != e.session ==> Row(t'.sessions, d) == Row(t.sessions, d))
      && Apply(t, e, codeAt).1 != Fault
  {
  }

  /** Calls that put an account into a state of their own and drop everything else of it. */
  predicate Resets(e: Event) {
    e.Provision? || e.Bootstrap? || e.RotateTotp? || e.ResetTotp? || e.DeleteAccount?
  }

  predicate OnChallenge(e: Event) {
    e.BeginEnrollment? || e.ConfirmEnrollment? || e.CompleteTotp? || e.CompleteRecovery?
  }

  /** The account a call is about. */
  ghost function Subject(t: Tables, e: Event): Option<Id> {
    if OnChallenge(e) then (if e.challenge in t.challenges then Some(t.challenges[e.challenge].account) else None)
    else if OnSession(e) || e.RevokeSession? then None
    else Some(e.id)
  }

  /** The enrolment of an account that is pending is given up. */
  ghost function GivenUp(a: Account): Account {
    if a.state == Pending then Account(Required, None, None, -1) else a
  }

  /** The row of its account after a call that succeeds. */
  ghost predicate SubjectAfter(t: Tables, e: Event, id: Id, codeAt: (Secret, nat) -> string, row: Option<Account>) {
    if e.DeleteAccount? then row == None
    else if e.CreateAccount? || e.ResetTotp? then row == Some(Account(Required, None, None, -1))
    else if e.Provision? || e.Bootstrap? || e.RotateTotp? then row == Some(Account(Active, Some(e.secret), None, -1))
    else row.Some? && id in t.accounts && ChangedAs(t, e, t.accounts[id], codeAt, row.value)
  }

  /** An account that stays: `a` before the call, `b` after it. */
  ghost predicate ChangedAs(t: Tables, e: Event, a: Account, codeAt: (Secret, nat) -> string, b: Account) {
    if e.SetRole? || e.RevokeSessions? then b == GivenUp(a)
    else if e.VerifyTotp? || e.RegenerateCodes? || e.CompleteTotp? then
      b == a.(lastCounter := b.lastCounter) && Consumes(codeAt, a, e.code, e.now, b.lastCounter)
    else if e.ConfirmEnrollment? then
      b == Account(Active, a.secret, None, b.lastCounter) && Consumes(codeAt, a, e.code, e.now, b.lastCounter)
    else if e.BeginEnrollment? && a.state == Required then b == Account(Pending, Some(e.secret), Some(e.challenge), -1)
    else if e.CreateChallenge? then b == OwnerExpired(t, a, e.now)
    else b == a
  }

  ghost predicate Consumes(codeAt: (Secret, nat) -> string, a: Account, code: string, now: nat, c: int) {
    c >= 0 && Newest(codeAt, a, code, now, c)
  }

  /** An account after the challenges that have expired are removed. */
  ghost function OwnerExpired(t: Tables, a: Account, now: int): Account {
    if a.owner.Some? && a.owner.value in t.challenges && t.challenges[a.owner.value].expires <= now then GivenUp(a)
    else a
  }

  /** The row of an account after a call that succeeds. */
  ghost predicate AccountAfter(t: Tables, e: Event, x: Id, codeAt: (Secret, nat) -> string, row: Option<Account>) {
    if Subject(t, e) == Some(x) then SubjectAfter(t, e, x, codeAt, row)
    else if e.CreateChallenge? && x in t.accounts then row == Some(OwnerExpired(t, t.accounts[x], e.now))
    else row == Row(t.accounts, x)
  }

  /** Accounts: only the one that the call is about changes, but for enrolments that expire. */
  lemma {:induction false} AccountRows(t: Tables, e: Event, x: Id, codeAt: (Secret, nat) -> string)
    requires Apply(t, e, codeAt).1 == Ok && !OnSession(e)
    ensures AccountAfter(t, e, x, codeAt, Row(Apply(t, e, codeAt).0.accounts, x))
  {
    if e.VerifyTotp? || e.RegenerateCodes? {
      VerifiedRow(t, e, x, codeAt);
    } else if e.CompleteTotp? || e.ConfirmEnrollment? {
      LoginRow(t, e, x, codeAt);
    } else if e.CreateChallenge? || e.BeginEnrollment? || e.CompleteRecovery? {
      ChallengeCallRow(t, e, x, codeAt);
    } else if Resets(e) {
      ResetRow(t, e, x, codeAt);
    } else {
      AdminRow(t, e, x, codeAt);
    }
  }

  lemma {:induction false} VerifiedRow(t: Tables, e: Event, x: Id, codeAt: (Secret, nat) -> string)
    requires Apply(t, e, codeAt).1 == Ok && (e.VerifyTotp? || e.RegenerateCodes?)
    ensures AccountAfter(t, e, x, codeAt, Row(Apply(t, e, codeAt).0.accounts, x))
  {
    FreshExactly(codeAt, t.accounts[e.id], e.code, e.now);
  }

  lemma {:induction false} LoginRow(t: Tables, e: Event, x: Id, codeAt: (Secret, nat) -> string)
    requires Apply(t, e, codeAt).1 == Ok && (e.CompleteTotp? || e.ConfirmEnrollment?)
    ensures AccountAfter(t, e, x, codeAt, Row(Apply(t, e, codeAt).0.accounts, x))
  {
    FreshExactly(codeAt, t.accounts[t.challenges[e.challenge].account], e.code, e.now);
  }

  lemma {:induction false} ChallengeCallRow(t: Tables, e: Event, x: Id, codeAt: (Secret, nat) -> string)
    requires Apply(t, e, codeAt).1 == Ok && (e.CreateChallenge? || e.BeginEnrollment? || e.CompleteRecovery?)
    ensures AccountAfter(t, e, x, codeAt, Row(Apply(t, e, codeAt).0.accounts, x))
  {
  }

  lemma {:induction false} ResetRow(t: Tables, e: Event, x: Id, codeAt: (Secret, nat) -> string)
    requires Apply(t, e, codeAt).1 == Ok && Resets(e)
    ensures AccountAfter(t, e, x, codeAt, Row(Apply(t, e, codeAt).0.accounts, x))
  {
  }

  lemma {:induction false} AdminRow(t: Tables, e: Event, x: Id, codeAt: (Secret, nat) -> string)
    requires Apply(t, e, codeAt).1 == Ok && !OnSession(e) && !OnChallenge(e)
    requires !e.VerifyTotp? && !e.RegenerateCodes? && !e.CreateChallenge? && !Resets(e)
    ensures AccountAfter(t, e, x, codeAt, Row(Apply(t, e, codeAt).0.accounts, x))
  {
  }

  /** Recovery codes: all but those of the account stay; it gets the ones drawn, loses the one
      used, or loses all. */
  lemma {:induction false} CodeRows(t: Tables, e: Event, c: Code, codeAt: (Secret, nat) -> string)
    requires Apply(t, e, codeAt).1 == Ok && !OnSession(e)
    ensures c in Apply(t, e, codeAt).0.codes <==>
      if Subject(t, e) != Some(c.account) then c in t.codes
      else if e.Provision? || e.Bootstrap? || e.RotateTotp? || e.RegenerateCodes? then c.digest in e.digests
      else if e.ConfirmEnrollment? then c in t.codes || c.digest in e.digests
      else if e.ResetTotp? || e.DeleteAccount? then false
      else if e.BeginEnrollment? then c in t.codes && t.accounts[c.account].state != Required
      else if e.CompleteRecovery? then c in t.codes && c.digest != e.codeDigest
      else c in t.codes
  {
  }

  /** Calls that drop all challenges of their account. */
  predicate DropsChallenges(e: Event) {
    Resets(e) || e.SetRole? || e.RevokeSessions? || e.RegenerateCodes? || e.ConfirmEnrollment? || e.CompleteRecovery?
  }

  /** Challenges: those of the account are dropped, or the one used; a new one is added to those
      kept; all others stay. */
  lemma {:induction false} ChallengeRows(t: Tables, e: Event, x: Digest, codeAt: (Secret, nat) -> string)
    requires Apply(t, e, codeAt).1 == Ok && !OnSession(e) && !e.CreateChallenge?
    ensures Row(Apply(t, e, codeAt).0.challenges, x) ==
      if e.CompleteTotp? && x == e.challenge then None
      else if DropsChallenges(e) && x in t.challenges && Subject(t, e) == Some(t.challenges[x].account) then None
      else Row(t.challenges, x)
  {
  }

  lemma {:induction false} NewChallenge(t: Tables, id: Id, draws: seq<Digest>, now: nat)
    requires DoCreateChallenge(t, id, draws, now).1 == Ok
    ensures var t' := DoCreateChallenge(t, id, draws, now).0;
      && t'.codes == t.codes && t'.sessions == t.sessions
      && exists kept, d ::
          && d in draws && d !in kept && RoomyChallenges(t, id, now, kept)
          && t'.challenges == kept[d := Challenge(id, now, now + 300, 0)]
  {
    var kept := RoomForChallenge(DeleteExpired(t, now), id);
    ChallengesKept(t, id, now);
    var d := FirstFree(draws, kept.Keys).value;
    assert DoCreateChallenge(t, id, draws, now).0.challenges == kept[d := Challenge(id, now, now + 300, 0)];
  }

  /** Calls that end all sessions of their account. */
  ghost predicate EndsSessions(t: Tables, e: Event) {
    || Resets(e) || e.RevokeSessions? || e.RegenerateCodes? || e.CompleteRecovery? || (e.SetRole? && e.revokeSessions)
    || (e.BeginEnrollment? && e.challenge in t.challenges && t.challenges[e.challenge].account in t.accounts
        && t.accounts[t.challenges[e.challenge].account].state == Required)
  }

  predicate Logins(e: Event) {
    e.ConfirmEnrollment? || e.CompleteTotp? || e.CompleteRecovery? || e.PasskeySession?
  }

  /** Sessions: those of the account are ended, or the one named, or all that are over; all
      others stay. */
  lemma {:induction false} SessionRows(t: Tables, e: Event, x: Digest, codeAt: (Secret, nat) -> string)
    requires Apply(t, e, codeAt).1 == Ok && !OnSession(e) && !Logins(e)
    ensures Row(Apply(t, e, codeAt).0.sessions, x) ==
      if x !in t.sessions || (e.RevokeSession? && x == e.session) then None
      else if EndsSessions(t, e) && Subject(t, e) == Some(t.sessions[x].account) then None
      else if e.ListSessions? && !Lives(t.sessions[x], e.now) then None
      else Row(t.sessions, x)
  {
  }

  ghost predicate LoginKeeps(t: Tables, e: Event, id: Id, kept: map<Digest, Session>)
    requires Logins(e)
  {
    if e.CompleteRecovery? then kept == LivingOthers(t.sessions, id, e.now)
    else RoomySessions(t.sessions, id, e.now, kept)
  }

  /** A login adds one session to those kept, which are the living ones of others alone, if it
      used a recovery code. */
  lemma {:induction false} LoginSessions(t: Tables, e: Event, codeAt: (Secret, nat) -> string)
    requires Apply(t, e, codeAt).1 == Ok && Logins(e)
    ensures Subject(t, e).Some?
    ensures exists kept ::
      && LoginKeeps(t, e, Subject(t, e).value, kept)
      && Added(kept, Subject(t, e).value, e.now, e.draws, Apply(t, e, codeAt).0.sessions)
  {
    var id := Subject(t, e).value;
    if e.CompleteRecovery? {
      IssueAlone(t.sessions, id, e.now);
      IssueExactly(OtherSessions(t.sessions, id), id, e.now, e.draws);
      assert LoginKeeps(t, e, id, LivingOthers(t.sessions, id, e.now));
    } else {
      SessionsKept(t.sessions, id, e.now);
      IssueExactly(t.sessions, id, e.now, e.draws);
      assert LoginKeeps(t, e, id, RoomForSession(t.sessions, id, e.now));
    }
  }

  /** A login with a recovery code, over an open challenge of an active account: without one of
      the account's codes it is denied, a failure is counted and no session is issued; with one it
      succeeds if a token is free, and then exactly that code is gone and the account has exactly
      the new session. */
  lemma {:induction false} RecoveryLogin(t: Tables, d: Digest, codeDigest: Digest, draws: seq<Digest>, now: nat)
    requires Open(t, d, now, Active)
    ensures var (id, (t', reply)) := (t.challenges[d].account, DoCompleteRecovery(t, d, codeDigest, draws, now));
      if Code(id, codeDigest) !in t.codes then reply == Denied && Counted(t, d, t')
      else if !Drawn(draws, LivingOthers(t.sessions, id, now).Keys) then reply == Fault && t' == t
      else
        && reply == Ok && t'.accounts == t.accounts
        && (forall c :: c in t'.codes <==> c in t.codes && c != Code(id, codeDigest))
        && Added(LivingOthers(t.sessions, id, now), id, now, draws, t'.sessions)
  {
    var id := t.challenges[d].account;
    IssueAlone(t.sessions, id, now);
    IssueExactly(OtherSessions(t.sessions, id), id, now, draws);
    FreeExactly(draws, LivingOthers(t.sessions, id, now).Keys);
    FailureCounted(t, d);
  }
}
