/**
 What every transaction of the authentication store keeps: enrolments are never orphaned, and
 challenges, recovery codes and sessions stay within their bounds.
 */
module AuthInvariant {
  import opened Options
  import opened AuthTables
  import opened Eviction

  /** Pending exactly with an owner, and the owner is a stored challenge of the same account. */
  ghost predicate AccountOk(t: Tables, id: Id) {
    id in t.accounts ==>
      var a := t.accounts[id];
      && (a.state == Pending <==> a.owner.Some?)
      && (a.state == Required <==> a.secret.None?)
      && (a.state == Required ==> a.lastCounter == -1) && a.lastCounter >= -1
      && (a.owner.Some? ==> a.owner.value in t.challenges && t.challenges[a.owner.value].account == id)
  }

  ghost predicate ChallengeOk(t: Tables, d: Digest) {
    d in t.challenges ==> t.challenges[d].account in t.accounts && t.challenges[d].failures < CHALLENGE_FAILURES
  }

  ghost predicate CodeOk(t: Tables, c: Code) {
    c in t.codes ==> c.account in t.accounts && t.accounts[c.account].state == Active
  }

  ghost predicate SessionOk(t: Tables, d: Digest) {
    d in t.sessions ==>
      && t.sessions[d].account in t.accounts
      && t.sessions[d].absolute == t.sessions[d].created + SESSION_ABSOLUTE
      && t.sessions[d].created <= t.sessions[d].lastSeen
  }

  ghost predicate CountsOk(t: Tables, id: Id) {
    && |ChallengesOf(t.challenges, id)| <= CHALLENGES_PER_ACCOUNT
    && |CodesOf(t.codes, id)| <= RECOVERY_CODES
    && |SessionsOf(t.sessions, id)| <= SESSIONS_PER_ACCOUNT
  }

  ghost predicate Inv(t: Tables) {
    && (forall id :: AccountOk(t, id))
    && (forall d :: ChallengeOk(t, d))
    && (forall c :: CodeOk(t, c))
    && (forall d :: SessionOk(t, d))
    && (forall id :: CountsOk(t, id))
  }

  // ---------------------------------------------------------------------------------------
  // Counting rows
  // ---------------------------------------------------------------------------------------

  lemma {:induction false} SmallerSet<T>(a: set<T>, b: set<T>)
    requires a <= b
    ensures |a| <= |b|
  {
    assert b == a + (b - a);
  }

  /** No account has more rows than before. */
  ghost predicate Fewer(t: Tables, t': Tables) {
    && (forall d :: d in t'.challenges ==> d in t.challenges && t'.challenges[d].account == t.challenges[d].account)
    && (forall c :: c in t'.codes ==> c in t.codes)
    && (forall d :: d in t'.sessions ==> d in t.sessions && t'.sessions[d].account == t.sessions[d].account)
  }

  lemma {:induction false} FewerCounts(t: Tables, t': Tables)
    requires Fewer(t, t') && forall id :: CountsOk(t, id)
    ensures forall id :: CountsOk(t', id)
  {
    forall id ensures CountsOk(t', id) {
      assert CountsOk(t, id);
      SmallerSet(ChallengesOf(t'.challenges, id), ChallengesOf(t.challenges, id));
      SmallerSet(CodesOf(t'.codes, id), CodesOf(t.codes, id));
      SmallerSet(SessionsOf(t'.sessions, id), SessionsOf(t.sessions, id));
    }
  }

  lemma {:induction false} CodesForSize(id: Id, digests: set<Digest>)
    ensures |CodesFor(id, digests)| <= |digests|
  {
    if digests == {} {
      assert CodesFor(id, digests) == {};
    } else {
      var d :| d in digests;
      CodesForSize(id, digests - {d});
      assert CodesFor(id, digests) == CodesFor(id, digests - {d}) + {Code(id, d)};
    }
  }

  ghost predicate OwnKeys(ranks: set<Rank>) {
    forall a, b :: a in ranks && b in ranks && a.key == b.key ==> a == b
  }

  lemma {:induction false} KeysOfSize(ranks: set<Rank>)
    requires OwnKeys(ranks)
    ensures |KeysOf(ranks)| == |ranks|
    decreases |ranks|
  {
    if ranks == {} {
      assert KeysOf(ranks) == {};
    } else {
      var r :| r in ranks;
      var rest := ranks - {r};
      KeysOfSize(rest);
      assert KeysOf(ranks) == KeysOf(rest) + {r.key};
      assert r.key !in KeysOf(rest);
    }
  }

  /** Removing the oldest of the rows ranked removes as many of them as asked for. */
  lemma {:induction false} OldestRemoved(ranks: set<Rank>, n: nat)
    requires OwnKeys(ranks) && n <= |ranks|
    ensures |KeysOf(Oldest(ranks, n))| == n && KeysOf(Oldest(ranks, n)) <= KeysOf(ranks)
  {
    OldestSize(ranks, n);
    KeysOfSize(Oldest(ranks, n));
  }

  lemma {:induction false} SetMinus(a: set<nat>, b: set<nat>)
    requires b <= a
    ensures |a - b| == |a| - |b|
  {
    assert a == (a - b) + b;
  }

  // ---------------------------------------------------------------------------------------
  // Making room
  // ---------------------------------------------------------------------------------------

  lemma {:induction false} SessionRanksSize(sessions: map<Digest, Session>, id: Id)
    ensures OwnKeys(SessionRanks(sessions, id)) && KeysOf(SessionRanks(sessions, id)) == SessionsOf(sessions, id)
    ensures |SessionRanks(sessions, id)| == |SessionsOf(sessions, id)|
  {
    var ranks := SessionRanks(sessions, id);
    forall d | d in SessionsOf(sessions, id) ensures d in KeysOf(ranks) {
      assert Rank(sessions[d].lastSeen, sessions[d].created, d) in ranks;
    }
    KeysOfSize(ranks);
  }

  lemma {:induction false} SessionsMinus(sessions: map<Digest, Session>, gone: set<Digest>, id: Id)
    requires gone <= SessionsOf(sessions, id)
    ensures |SessionsOf(sessions - gone, id)| == |SessionsOf(sessions, id)| - |gone|
  {
    SetMinus(SessionsOf(sessions, id), gone);
    assert SessionsOf(sessions - gone, id) == SessionsOf(sessions, id) - gone;
  }

  /** There is room for one more session of the account, and only sessions were removed. */
  lemma {:induction false} RoomMade(sessions: map<Digest, Session>, id: Id, now: int)
    ensures var kept := RoomForSession(sessions, id, now);
      && |SessionsOf(kept, id)| < SESSIONS_PER_ACCOUNT
      && (forall d :: d in kept ==> d in sessions && kept[d] == sessions[d] && Alive(kept[d], now))
  {
    var live := LiveSessions(sessions, now);
    var ranks := SessionRanks(live, id);
    SessionRanksSize(live, id);
    if |ranks| >= SESSIONS_PER_ACCOUNT {
      var n := |ranks| - SESSIONS_PER_ACCOUNT + 1;
      var gone := KeysOf(Oldest(ranks, n));
      OldestRemoved(ranks, n);
      SessionsMinus(live, gone, id);
      assert RoomForSession(sessions, id, now) == live - gone;
    }
  }

  lemma {:induction false} SessionAdded(sessions: map<Digest, Session>, kept: map<Digest, Session>, issued: Digest,
      s: Session, other: Id)
    requires |SessionsOf(kept, s.account)| < SESSIONS_PER_ACCOUNT
        && |SessionsOf(sessions, other)| <= SESSIONS_PER_ACCOUNT
    requires forall d :: d in kept ==> d in sessions && kept[d] == sessions[d]
    ensures |SessionsOf(kept[issued := s], other)| <= SESSIONS_PER_ACCOUNT
  {
    if other == s.account {
      SmallerSet(SessionsOf(kept[issued := s], other), SessionsOf(kept, other) + {issued});
    } else {
      SmallerSet(SessionsOf(kept[issued := s], other), SessionsOf(sessions, other));
    }
  }

  lemma {:induction false} IssuedCounts(sessions: map<Digest, Session>, id: Id, now: int, draws: seq<Digest>, other: Id)
    requires Issue(sessions, id, now, draws).Some? && |SessionsOf(sessions, other)| <= SESSIONS_PER_ACCOUNT
    ensures |SessionsOf(Issue(sessions, id, now, draws).value.0, other)| <= SESSIONS_PER_ACCOUNT
  {
    RoomMade(sessions, id, now);
    SessionAdded(sessions, RoomForSession(sessions, id, now), Issue(sessions, id, now, draws).value.1,
        NewSession(id, now), other);
  }

  lemma {:induction false} IssuedSession(t: Tables, t': Tables, id: Id, now: int, draws: seq<Digest>, d: Digest)
    requires SessionOk(t, d) && Issue(t.sessions, id, now, draws).Some?
        && t'.sessions == Issue(t.sessions, id, now, draws).value.0
    requires id in t'.accounts && t.accounts.Keys <= t'.accounts.Keys
    ensures SessionOk(t', d)
  {
    RoomMade(t.sessions, id, now);
  }

  lemma {:induction false} RemovableSize(t: Tables, id: Id)
    requires id in t.accounts
    ensures OwnKeys(Removable(t, id)) && KeysOf(Removable(t, id)) <= ChallengesOf(t.challenges, id)
    ensures |Removable(t, id)| >= |ChallengesOf(t.challenges, id)| - 1
    ensures forall d :: d in KeysOf(Removable(t, id)) ==> t.accounts[id].owner != Some(d)
  {
    var ranks, mine := Removable(t, id), ChallengesOf(t.challenges, id);
    var owner := if t.accounts[id].owner.Some? then {t.accounts[id].owner.value} else {};
    forall d | d in mine - owner ensures d in KeysOf(ranks) {
      assert Rank(t.challenges[d].created, 0, d) in ranks;
    }
    KeysOfSize(ranks);
    SmallerSet(mine - owner, KeysOf(ranks));
    SmallerSet(mine, (mine - owner) + owner);
  }

  lemma {:induction false} ChallengesMinus(challenges: map<Digest, Challenge>, gone: set<Digest>, id: Id)
    requires gone <= ChallengesOf(challenges, id)
    ensures |ChallengesOf(challenges - gone, id)| == |ChallengesOf(challenges, id)| - |gone|
  {
    SetMinus(ChallengesOf(challenges, id), gone);
    assert ChallengesOf(challenges - gone, id) == ChallengesOf(challenges, id) - gone;
  }

  /** There is room for one more challenge of the account, and its enrolment's own is kept. */
  lemma {:induction false} ChallengeRoomMade(t: Tables, id: Id)
    requires id in t.accounts
    ensures var kept := RoomForChallenge(t, id);
      && |ChallengesOf(kept, id)| < CHALLENGES_PER_ACCOUNT
      && (forall d :: d in kept ==> d in t.challenges && kept[d] == t.challenges[d])
      && (forall d :: d in t.challenges && d !in kept ==>
          t.challenges[d].account == id && t.accounts[id].owner != Some(d))
  {
    var count := |ChallengesOf(t.challenges, id)|;
    RemovableSize(t, id);
    if count >= CHALLENGES_PER_ACCOUNT {
      var n := count - CHALLENGES_PER_ACCOUNT + 1;
      var gone := KeysOf(Oldest(Removable(t, id), n));
      OldestRemoved(Removable(t, id), n);
      ChallengesMinus(t.challenges, gone, id);
      assert RoomForChallenge(t, id) == t.challenges - gone;
      assert forall d :: d in gone ==> d in ChallengesOf(t.challenges, id);
    }
  }

  // ---------------------------------------------------------------------------------------
  // Every transaction keeps the invariant
  // ---------------------------------------------------------------------------------------

  /** Rows are only removed, and what is left belongs to accounts that are still there. */
  lemma {:induction false} RemovalInv(t: Tables, t': Tables)
    requires Inv(t) && Fewer(t, t')
    requires forall id :: AccountOk(t', id)
    requires forall d :: d in t'.challenges ==>
        t'.challenges[d].account in t'.accounts && t'.challenges[d].failures < CHALLENGE_FAILURES
    requires forall c :: c in t'.codes ==> c.account in t'.accounts && t'.accounts[c.account].state == Active
    requires forall d :: d in t'.sessions ==> t'.sessions[d] == t.sessions[d] && t'.sessions[d].account in t'.accounts
    ensures Inv(t')
  {
    FewerCounts(t, t');
    forall d ensures SessionOk(t', d) {
      assert SessionOk(t, d);
    }
  }

  /** Nothing changes but rows of one account. */
  ghost predicate Confined(t: Tables, t': Tables, id: Id) {
    && (forall other :: other != id ==>
          (other in t'.accounts <==> other in t.accounts)
              && (other in t.accounts ==> t'.accounts[other] == t.accounts[other]))
    && (forall d :: d in t.challenges && t.challenges[d].account != id ==>
        d in t'.challenges && t'.challenges[d] == t.challenges[d])
    && (forall d :: d in t'.challenges && t'.challenges[d].account != id ==>
        d in t.challenges && t'.challenges[d] == t.challenges[d])
    && (forall c: Code :: c.account != id ==> (c in t'.codes <==> c in t.codes))
    && (forall d :: d in t.sessions && t.sessions[d].account != id ==>
        d in t'.sessions && t'.sessions[d] == t.sessions[d])
    && (forall d :: d in t'.sessions && t'.sessions[d].account != id ==>
        d in t.sessions && t'.sessions[d] == t.sessions[d])
  }

  ghost predicate LocalOk(t: Tables, id: Id) {
    && AccountOk(t, id) && CountsOk(t, id)
    && (forall d :: d in t.challenges && t.challenges[d].account == id ==> ChallengeOk(t, d))
    && (forall c: Code :: c.account == id ==> CodeOk(t, c))
    && (forall d :: d in t.sessions && t.sessions[d].account == id ==> SessionOk(t, d))
  }

  lemma {:induction false} ConfinedAccount(t: Tables, t': Tables, id: Id, other: Id)
    requires Confined(t, t', id) && other != id && AccountOk(t, other) && CountsOk(t, other)
    ensures AccountOk(t', other) && CountsOk(t', other)
  {
    assert ChallengesOf(t'.challenges, other) == ChallengesOf(t.challenges, other);
    assert CodesOf(t'.codes, other) == CodesOf(t.codes, other);
    assert SessionsOf(t'.sessions, other) == SessionsOf(t.sessions, other);
  }

  /** Then it is enough that the rows of that account are as they should be. */
  lemma {:induction false} ConfinedInv(t: Tables, t': Tables, id: Id)
    requires Inv(t) && Confined(t, t', id) && LocalOk(t', id)
    ensures Inv(t')
  {
    forall other ensures AccountOk(t', other) && CountsOk(t', other) {
      if other != id {
        assert AccountOk(t, other) && CountsOk(t, other);
        ConfinedAccount(t, t', id, other);
      }
    }
    forall d ensures ChallengeOk(t', d) && SessionOk(t', d) {
      assert ChallengeOk(t, d) && SessionOk(t, d);
    }
    forall c ensures CodeOk(t', c) {
      assert CodeOk(t, c);
    }
  }

  /** An account with no rows but its recovery codes. */
  lemma {:induction false} ResetInv(t: Tables, id: Id, account: Account, digests: set<Digest>)
    requires Inv(t) && account.owner.None? && account.state != Pending && account.lastCounter >= -1
    requires account.state == Required <==> account.secret.None?
    requires account.state == Required ==> account.lastCounter == -1 && digests == {}
    requires |digests| <= RECOVERY_CODES
    ensures Inv(Reset(t, id, account, digests))
  {
    var t' := Reset(t, id, account, digests);
    assert Confined(t, t', id);
    assert LocalOk(t', id) by {
      assert ChallengesOf(t'.challenges, id) == {} && SessionsOf(t'.sessions, id) == {};
      assert CodesOf(t'.codes, id) == CodesFor(id, digests);
      CodesForSize(id, digests);
    }
    ConfinedInv(t, t', id);
  }

  lemma {:induction false} CreateInv(t: Tables, id: Id)
    requires Inv(t)
    ensures Inv(DoCreateAccount(t, id).0)
  {
    if id !in t.accounts {
      var t' := DoCreateAccount(t, id).0;
      NoRows(t, id);
      ConfinedInv(t, t', id);
    }
  }

  /** An account that does not exist has no rows. */
  lemma {:induction false} NoRows(t: Tables, id: Id)
    requires Inv(t) && id !in t.accounts
    ensures CountsOk(t, id)
    ensures forall d :: d in t.challenges ==> t.challenges[d].account != id
    ensures forall c :: c in t.codes ==> c.account != id
    ensures forall d :: d in t.sessions ==> t.sessions[d].account != id
  {
    forall d | d in t.challenges ensures t.challenges[d].account != id {
      assert ChallengeOk(t, d);
    }
    forall c | c in t.codes ensures c.account != id {
      assert CodeOk(t, c);
    }
    forall d | d in t.sessions ensures t.sessions[d].account != id {
      assert SessionOk(t, d);
    }
  }

  lemma {:induction false} DeleteInv(t: Tables, id: Id)
    requires Inv(t)
    ensures Inv(DoDelete(t, id).0)
  {
    if id in t.accounts {
      var t' := DoDelete(t, id).0;
      assert ChallengesOf(t'.challenges, id) == {} && SessionsOf(t'.sessions, id) == {} && CodesOf(t'.codes, id) == {};
      ConfinedInv(t, t', id);
    }
  }

  /** Rows of an account are removed, and its enrolment is given up if it was pending. */
  lemma {:induction false} RevokeInv(t: Tables, t': Tables, id: Id)
    requires Inv(t) && id in t.accounts && (t' == RevokePending(t, id) || t' == RevokeAll(t, id))
    ensures Inv(t')
  {
    assert AccountOk(t, id) && CountsOk(t, id);
    assert ChallengesOf(t'.challenges, id) == {};
    SmallerSet(SessionsOf(t'.sessions, id), SessionsOf(t.sessions, id));
    forall c: Code | c.account == id ensures CodeOk(t', c) {
      assert CodeOk(t, c);
    }
    forall d | d in t'.sessions ensures SessionOk(t', d) {
      assert SessionOk(t, d);
    }
    ConfinedInv(t, t', id);
  }

  lemma {:induction false} ConsumedInv(t: Tables, id: Id, counter: nat)
    requires Inv(t) && id in t.accounts && t.accounts[id].state == Active
    ensures Inv(Consumed(t, id, counter))
  {
    var t' := Consumed(t, id, counter);
    assert AccountOk(t, id) && CountsOk(t, id);
    forall d ensures ChallengeOk(t', d) && SessionOk(t', d) {
      assert ChallengeOk(t, d) && SessionOk(t, d);
    }
    ConfinedInv(t, t', id);
  }

  lemma {:induction false} VerifyInv(t: Tables, id: Id, code: string, digests: set<Digest>, now: nat, codeAt: (Secret,
      nat) -> string)
    requires Inv(t) && |digests| <= RECOVERY_CODES
    ensures Inv(DoVerify(t, id, code, now, codeAt).0) && Inv(DoRegenerate(t, id, code, digests, now, codeAt).0)
  {
    if id in t.accounts && t.accounts[id].state == Active && Fresh(codeAt, t.accounts[id], code, now).Some? {
      assert AccountOk(t, id);
      var t' := DoVerify(t, id, code, now, codeAt).0;
      ConsumedInv(t, id, Fresh(codeAt, t.accounts[id], code, now).value);
      ResetInv(t', id, t'.accounts[id], digests);
    }
  }

  // Challenges

  lemma {:induction false} ExpiredAccount(t: Tables, now: int, id: Id)
    requires AccountOk(t, id)
    ensures AccountOk(DeleteExpired(t, now), id)
  {
  }

  lemma {:induction false} DeleteExpiredInv(t: Tables, now: int)
    requires Inv(t)
    ensures Inv(DeleteExpired(t, now))
  {
    var t' := DeleteExpired(t, now);
    forall id ensures AccountOk(t', id) {
      assert AccountOk(t, id);
      ExpiredAccount(t, now, id);
    }
    forall d | d in t'.challenges ensures t'.challenges[d].account in t'.accounts
        && t'.challenges[d].failures < CHALLENGE_FAILURES {
      assert ChallengeOk(t, d);
    }
    forall c | c in t'.codes ensures c.account in t'.accounts && t'.accounts[c.account].state == Active {
      assert CodeOk(t, c) && AccountOk(t, c.account);
    }
    forall d | d in t'.sessions ensures t'.sessions[d].account in t'.accounts {
      assert SessionOk(t, d);
    }
    RemovalInv(t, t');
  }

  lemma {:induction false} AddChallengeInv(t: Tables, id: Id, d: Digest, now: int)
    requires Inv(t) && id in t.accounts && d !in RoomForChallenge(t, id)
    ensures Inv(t.(challenges := RoomForChallenge(t, id)[d := Challenge(id, now, now + CHALLENGE_LIFETIME, 0)]))
  {
    var kept := RoomForChallenge(t, id);
    var t' := t.(challenges := kept[d := Challenge(id, now, now + CHALLENGE_LIFETIME, 0)]);
    ChallengeRoomMade(t, id);
    assert AccountOk(t, id) && CountsOk(t, id);
    SmallerSet(ChallengesOf(t'.challenges, id), ChallengesOf(kept, id) + {d});
    forall x ensures ChallengeOk(t', x) && SessionOk(t', x) {
      assert ChallengeOk(t, x) && SessionOk(t, x);
    }
    forall c ensures CodeOk(t', c) {
      assert CodeOk(t, c);
    }
    forall other ensures AccountOk(t', other) && CountsOk(t', other) {
      assert AccountOk(t, other) && CountsOk(t, other);
      if other != id {
        SmallerSet(ChallengesOf(t'.challenges, other), ChallengesOf(t.challenges, other));
      }
    }
  }

  lemma {:induction false} CreateChallengeInv(t: Tables, id: Id, draws: seq<Digest>, now: nat)
    requires Inv(t)
    ensures Inv(DoCreateChallenge(t, id, draws, now).0)
  {
    if id in t.accounts {
      var cleaned := DeleteExpired(t, now);
      DeleteExpiredInv(t, now);
      var d := FirstFree(draws, RoomForChallenge(cleaned, id).Keys);
      if d.Some? {
        AddChallengeInv(cleaned, id, d.value, now);
      }
    }
  }

  /** At most the account of the challenge belongs to it. */
  lemma {:induction false} OnlyOwner(t: Tables, digest: Digest)
    requires Inv(t) && digest in t.challenges
    ensures var id := t.challenges[digest].account;
      id in t.accounts
      && ReleaseOwnedBy(t.accounts, digest) ==
         if t.accounts[id].owner == Some(digest) then t.accounts[id := Released(t.accounts[id])] else t.accounts
  {
    var id := t.challenges[digest].account;
    assert ChallengeOk(t, digest);
    forall other | other in t.accounts && other != id ensures t.accounts[other].owner != Some(digest) {
      assert AccountOk(t, other);
    }
  }

  lemma {:induction false} RecordFailureInv(t: Tables, digest: Digest)
    requires Inv(t) && digest in t.challenges
    ensures Inv(RecordFailure(t, digest))
  {
    var id := t.challenges[digest].account;
    var t' := RecordFailure(t, digest);
    OnlyOwner(t, digest);
    assert AccountOk(t, id) && CountsOk(t, id) && ChallengeOk(t, digest);
    SmallerSet(ChallengesOf(t'.challenges, id), ChallengesOf(t.challenges, id));
    forall d ensures ChallengeOk(t', d) && SessionOk(t', d) {
      assert ChallengeOk(t, d) && SessionOk(t, d);
    }
    forall c ensures CodeOk(t', c) {
      assert CodeOk(t, c);
    }
    ConfinedInv(t, t', id);
  }

  lemma {:induction false} BeginInv(t: Tables, digest: Digest, secret: Secret, now: nat)
    requires Inv(t)
    ensures Inv(DoBegin(t, digest, secret, now).0)
  {
    if Live(t, digest, now) && t.accounts[t.challenges[digest].account].state == Required {
      var id := t.challenges[digest].account;
      var t' := DoBegin(t, digest, secret, now).0;
      assert CountsOk(t, id) && ChallengeOk(t, digest);
      assert CodesOf(t'.codes, id) == {} && SessionsOf(t'.sessions, id) == {};
      forall d ensures ChallengeOk(t', d) {
        assert ChallengeOk(t, d);
      }
      ConfinedInv(t, t', id);
    }
  }

  // Sessions

  lemma {:induction false} SessionsInv(t: Tables, sessions: map<Digest, Session>)
    requires Inv(t) && (forall d :: SessionOk(t.(sessions := sessions), d))
    requires forall id :: |SessionsOf(sessions, id)| <= SESSIONS_PER_ACCOUNT
    ensures Inv(t.(sessions := sessions))
  {
    var t' := t.(sessions := sessions);
    forall id ensures AccountOk(t', id) && CountsOk(t', id) {
      assert AccountOk(t, id) && CountsOk(t, id);
    }
    forall d ensures ChallengeOk(t', d) {
      assert ChallengeOk(t, d);
    }
    forall c ensures CodeOk(t', c) {
      assert CodeOk(t, c);
    }
  }

  lemma {:induction false} IssueInv(t: Tables, id: Id, now: int, draws: seq<Digest>)
    requires Inv(t) && id in t.accounts && Issue(t.sessions, id, now, draws).Some?
    ensures Inv(t.(sessions := Issue(t.sessions, id, now, draws).value.0))
  {
    var sessions := Issue(t.sessions, id, now, draws).value.0;
    forall d ensures SessionOk(t.(sessions := sessions), d) {
      assert SessionOk(t, d);
      IssuedSession(t, t.(sessions := sessions), id, now, draws, d);
    }
    forall other ensures |SessionsOf(sessions, other)| <= SESSIONS_PER_ACCOUNT {
      assert CountsOk(t, other);
      IssuedCounts(t.sessions, id, now, draws, other);
    }
    SessionsInv(t, sessions);
  }

  /** Sessions are removed, or changed without changing whose they are or how old. */
  lemma {:induction false} SessionsChangedInv(t: Tables, sessions: map<Digest, Session>)
    requires Inv(t)
    requires forall d :: d in sessions ==>
      && d in t.sessions && sessions[d].account == t.sessions[d].account && sessions[d].created == t.sessions[d].created
      && sessions[d].absolute == t.sessions[d].absolute && sessions[d].lastSeen >= t.sessions[d].lastSeen
    ensures Inv(t.(sessions := sessions))
  {
    forall d ensures SessionOk(t.(sessions := sessions), d) {
      assert SessionOk(t, d);
    }
    forall id ensures |SessionsOf(sessions, id)| <= SESSIONS_PER_ACCOUNT {
      assert CountsOk(t, id);
      SmallerSet(SessionsOf(sessions, id), SessionsOf(t.sessions, id));
    }
    SessionsInv(t, sessions);
  }

  lemma {:induction false} AuthenticateInv(t: Tables, d: Digest, touch: bool, now: nat)
    requires Inv(t)
    ensures Inv(DoAuthenticate(t, d, touch, now).0)
  {
    SessionsChangedInv(t, DoAuthenticate(t, d, touch, now).0.sessions);
  }

  lemma {:induction false} MarkStepUpInv(t: Tables, d: Digest, now: nat)
    requires Inv(t)
    ensures Inv(DoMarkStepUp(t, d, now).0)
  {
    SessionsChangedInv(t, DoMarkStepUp(t, d, now).0.sessions);
  }

  lemma {:induction false} RequireStepUpInv(t: Tables, d: Digest, now: nat)
    requires Inv(t)
    ensures Inv(DoRequireStepUp(t, d, now).0)
  {
    AuthenticateInv(t, d, true, now);
  }

  // Completing a challenge

  /** The tables after an enrolment was confirmed, without the session. */
  function Confirmed(t: Tables, id: Id, counter: nat, digests: set<Digest>): Tables
    requires id in t.accounts
  {
    t.(accounts := t.accounts[id := Account(Active, t.accounts[id].secret, None, counter)],
       challenges := OtherChallenges(t.challenges, id), codes := t.codes + CodesFor(id, digests))
  }

  lemma {:induction false} ConfirmedCounts(t: Tables, id: Id, counter: nat, digests: set<Digest>)
    requires Inv(t) && id in t.accounts && t.accounts[id].state == Pending && |digests| <= RECOVERY_CODES
    ensures AccountOk(Confirmed(t, id, counter, digests), id) && CountsOk(Confirmed(t, id, counter, digests), id)
  {
    var t' := Confirmed(t, id, counter, digests);
    assert AccountOk(t, id) && CountsOk(t, id);
    forall c: Code | c in t.codes ensures c.account != id {
      assert CodeOk(t, c);
    }
    assert ChallengesOf(t'.challenges, id) == {} && CodesOf(t'.codes, id) == CodesFor(id, digests);
    CodesForSize(id, digests);
  }

  lemma {:induction false} ConfirmedSessions(t: Tables, id: Id, counter: nat, digests: set<Digest>)
    requires Inv(t) && id in t.accounts
    ensures forall d :: SessionOk(Confirmed(t, id, counter, digests), d)
  {
    forall d ensures SessionOk(Confirmed(t, id, counter, digests), d) {
      assert SessionOk(t, d);
    }
  }

  lemma {:induction false} ConfirmStep(t: Tables, id: Id, counter: nat, digests: set<Digest>)
    requires Inv(t) && id in t.accounts && t.accounts[id].state == Pending && |digests| <= RECOVERY_CODES
    ensures Inv(Confirmed(t, id, counter, digests))
  {
    ConfirmedCounts(t, id, counter, digests);
    ConfirmedSessions(t, id, counter, digests);
    assert Confined(t, Confirmed(t, id, counter, digests), id);
    ConfinedInv(t, Confirmed(t, id, counter, digests), id);
  }

  lemma {:induction false} DropChallengeInv(t: Tables, digest: Digest)
    requires Inv(t) && digest in t.challenges
    requires t.challenges[digest].account in t.accounts && t.accounts[t.challenges[digest].account].state == Active
    ensures Inv(t.(challenges := t.challenges - {digest}))
  {
    var id := t.challenges[digest].account;
    var t' := t.(challenges := t.challenges - {digest});
    assert AccountOk(t, id) && CountsOk(t, id);
    SmallerSet(ChallengesOf(t'.challenges, id), ChallengesOf(t.challenges, id));
    forall d ensures ChallengeOk(t', d) && SessionOk(t', d) {
      assert ChallengeOk(t, d) && SessionOk(t, d);
    }
    forall c: Code ensures CodeOk(t', c) {
      assert CodeOk(t, c);
    }
    ConfinedInv(t, t', id);
  }

  lemma {:induction false} UseCodeInv(t: Tables, id: Id, code: Code)
    requires Inv(t) && id in t.accounts && t.accounts[id].state == Active && code.account == id
    ensures Inv(t.(challenges := OtherChallenges(t.challenges, id), codes := t.codes - {code},
        sessions := OtherSessions(t.sessions, id)))
  {
    var t' := t.(challenges := OtherChallenges(t.challenges, id), codes := t.codes - {code},
        sessions := OtherSessions(t.sessions, id));
    assert AccountOk(t, id) && CountsOk(t, id);
    assert ChallengesOf(t'.challenges, id) == {} && SessionsOf(t'.sessions, id) == {};
    SmallerSet(CodesOf(t'.codes, id), CodesOf(t.codes, id));
    forall c: Code ensures CodeOk(t', c) {
      assert CodeOk(t, c);
    }
    ConfinedInv(t, t', id);
  }

  lemma {:induction false} ConfirmInv(t: Tables, digest: Digest, code: string, digests: set<Digest>,
      draws: seq<Digest>, now: nat,
                                      codeAt: (Secret, nat) -> string)
    requires Inv(t) && |digests| <= RECOVERY_CODES
    ensures Inv(DoConfirm(t, digest, code, digests, draws, now, codeAt).0)
  {
    if Live(t, digest, now) {
      var id := t.challenges[digest].account;
      var account := t.accounts[id];
      if account.state == Pending && account.owner == Some(digest) {
        RecordFailureInv(t, digest);
        var counter, issued := Fresh(codeAt, account, code, now), Issue(t.sessions, id, now, draws);
        if counter.Some? && issued.Some? {
          IssueInv(t, id, now, draws);
          ConfirmStep(t.(sessions := issued.value.0), id, counter.value, digests);
        }
      }
    }
  }

  lemma {:induction false} CompleteTotpInv(t: Tables, digest: Digest, code: string, draws: seq<Digest>, now: nat,
                                           codeAt: (Secret, nat) -> string)
    requires Inv(t)
    ensures Inv(DoCompleteTotp(t, digest, code, draws, now, codeAt).0)
  {
    if Live(t, digest, now) {
      var id := t.challenges[digest].account;
      var account := t.accounts[id];
      if account.state == Active {
        RecordFailureInv(t, digest);
        var counter, issued := Fresh(codeAt, account, code, now), Issue(t.sessions, id, now, draws);
        if counter.Some? && issued.Some? {
          ConsumedInv(t, id, counter.value);
          var t1 := Consumed(t, id, counter.value);
          DropChallengeInv(t1, digest);
          IssueInv(t1.(challenges := t.challenges - {digest}), id, now, draws);
        }
      }
    }
  }

  lemma {:induction false} CompleteRecoveryInv(t: Tables, digest: Digest, codeDigest: Digest, draws: seq<Digest>,
      now: nat)
    requires Inv(t)
    ensures Inv(DoCompleteRecovery(t, digest, codeDigest, draws, now).0)
  {
    if Live(t, digest, now) {
      var id := t.challenges[digest].account;
      if t.accounts[id].state == Active {
        RecordFailureInv(t, digest);
        var code := Code(id, codeDigest);
        UseCodeInv(t, id, code);
        var t1 := t.(challenges := OtherChallenges(t.challenges, id), codes := t.codes - {code},
            sessions := OtherSessions(t.sessions, id));
        if Issue(t1.sessions, id, now, draws).Some? {
          IssueInv(t1, id, now, draws);
        }
      }
    }
  }

  lemma {:induction false} AccountCallsInv(t: Tables, e: Event, codeAt: (Secret, nat) -> string)
    requires Inv(t) && TenCodes(e)
    requires e.CreateAccount? || e.Provision? || e.Bootstrap? || e.SetRole? || e.ResetTotp? || e.RotateTotp?
        || e.DeleteAccount?
             || e.RevokeSessions?
    ensures Inv(Apply(t, e, codeAt).0)
  {
    match e
    case CreateAccount(id) => CreateInv(t, id);
    case Provision(id, secret, digests) => ResetInv(t, id, Installed(secret), digests);
    case Bootstrap(id, secret, digests) => ResetInv(t, id, Installed(secret), digests);
    case RotateTotp(id, secret, digests) => ResetInv(t, id, Installed(secret), digests);
    case ResetTotp(id) => ResetInv(t, id, NEW_ACCOUNT, {});
    case DeleteAccount(id) => DeleteInv(t, id);
    case SetRole(id, revokeSessions) =>
      if id in t.accounts {
        RevokeInv(t, RevokePending(t, id), id);
        RevokeInv(t, RevokeAll(t, id), id);
      }
    case RevokeSessions(id) =>
      if id in t.accounts {
        RevokeInv(t, RevokeAll(t, id), id);
      }
  }

  /** Every transaction keeps the invariant, however it ends. */
  lemma {:induction false} ApplyInv(t: Tables, e: Event, codeAt: (Secret, nat) -> string)
    requires Inv(t) && TenCodes(e)
    ensures Inv(Apply(t, e, codeAt).0)
  {
    match e
    case RegenerateCodes(id, code, digests, now) => VerifyInv(t, id, code, digests, now, codeAt);
    case VerifyTotp(id, code, now) => VerifyInv(t, id, code, {}, now, codeAt);
    case CreateChallenge(id, draws, now) => CreateChallengeInv(t, id, draws, now);
    case BeginEnrollment(challenge, secret, now) => BeginInv(t, challenge, secret, now);
    case ConfirmEnrollment(challenge, code, digests, draws, now) => ConfirmInv(t, challenge, code, digests, draws,
        now, codeAt);
    case CompleteTotp(challenge, code, draws, now) => CompleteTotpInv(t, challenge, code, draws, now, codeAt);
    case CompleteRecovery(challenge, codeDigest, draws, now) => CompleteRecoveryInv(t, challenge, codeDigest, draws,
        now);
    case Authenticate(session, touch, now) => AuthenticateInv(t, session, touch, now);
    case MarkStepUp(session, now) => MarkStepUpInv(t, session, now);
    case RequireStepUp(session, now) => RequireStepUpInv(t, session, now);
    case RevokeSession(session) => SessionsChangedInv(t, t.sessions - {session});
    case ListSessions(id, now) => SessionsChangedInv(t, LiveSessions(t.sessions, now));
    case PasskeySession(id, draws, now) =>
      if id in t.accounts && Issue(t.sessions, id, now, draws).Some? {
        IssueInv(t, id, now, draws);
      }
    case _ => AccountCallsInv(t, e, codeAt);
  }

  ghost function After(t: Tables, events: seq<Event>, codeAt: (Secret, nat) -> string): Tables {
    if events == [] then t else Apply(After(t, events[..|events| - 1], codeAt), events[|events| - 1], codeAt).0
  }

  /** Enrolment is never orphaned: after every sequence of calls on an empty store, an account
      is pending exactly if it has an owner, the owner is a stored challenge of that account,
      no account has more than 5 challenges (each with at most 4 failures), 10 recovery codes
      or 5 sessions, and only active accounts have recovery codes. */
  lemma {:induction false} NeverOrphaned(events: seq<Event>, codeAt: (Secret, nat) -> string)
    requires forall e <- events :: TenCodes(e)
    ensures Inv(After(Tables(map[], map[], {}, map[]), events, codeAt))
  {
    if events == [] {
      forall id ensures CountsOk(Tables(map[], map[], {}, map[]), id) {
        assert ChallengesOf(map[], id) == {} && CodesOf({}, id) == {} && SessionsOf(map[], id) == {};
      }
    } else {
      var n := |events| - 1;
      NeverOrphaned(events[..n], codeAt);
      ApplyInv(After(Tables(map[], map[], {}, map[]), events[..n], codeAt), events[n], codeAt);
    }
  }

  /** A successful recovery login leaves the account exactly one session, the new one. */
  lemma {:induction false} RecoveryLeavesOne(t: Tables, digest: Digest, codeDigest: Digest, draws: seq<Digest>,
      now: nat)
    requires DoCompleteRecovery(t, digest, codeDigest, draws, now).1 == Ok
    ensures var t' := DoCompleteRecovery(t, digest, codeDigest, draws, now).0;
      && |SessionsOf(t'.sessions, t.challenges[digest].account)| == 1
      && Code(t.challenges[digest].account, codeDigest) !in t'.codes
  {
    var id := t.challenges[digest].account;
    var others := OtherSessions(t.sessions, id);
    var t' := DoCompleteRecovery(t, digest, codeDigest, draws, now).0;
    RoomMade(others, id, now);
    assert SessionsOf(t'.sessions, id) == {Issue(others, id, now, draws).value.1};
  }
}
