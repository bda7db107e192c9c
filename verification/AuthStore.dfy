/**
 The authentication store as it runs: every call is one transaction that updates the tables
 statement by statement and restores them when it raises an error.
 */
module AuthStore {
  import opened Options
  import opened AuthTables
  import opened Eviction

  class Store {
    var accounts: map<Id, Account>
    var challenges: map<Digest, Challenge>
    var codes: set<Code>
    var sessions: map<Digest, Session>

    ghost function View(): Tables
      reads this
    {
      Tables(accounts, challenges, codes, sessions)
    }

    constructor ()
      ensures View() == Tables(map[], map[], {}, map[])
    {
      accounts, challenges, codes, sessions := map[], map[], {}, map[];
    }

    method Rollback(saved: Tables)
      modifies this
      ensures View() == saved
    {
      accounts, challenges, codes, sessions := saved.accounts, saved.challenges, saved.codes, saved.sessions;
    }

    // Statements

    method ReleasePendingEnrollment(digest: Digest)
      modifies `accounts
      ensures accounts == ReleaseOwnedBy(old(accounts), digest)
    {
      accounts := map id | id in accounts :: if accounts[id].owner == Some(digest) then Released(accounts[id])
          else accounts[id];
    }

    method RecordChallengeFailure(digest: Digest)
      requires digest in challenges
      modifies `accounts, `challenges
      ensures View() == RecordFailure(old(View()), digest)
    {
      var next := challenges[digest].failures + 1;
      if next >= CHALLENGE_FAILURES {
        ReleasePendingEnrollment(digest);
        challenges := challenges - {digest};
      } else {
        challenges := challenges[digest := challenges[digest].(failures := next)];
      }
    }

    method DeleteExpiredChallenges(now: int)
      modifies `accounts, `challenges
      ensures View() == DeleteExpired(old(View()), now)
    {
      accounts := map id | id in accounts :: if Lapsed(accounts[id], challenges, now) then Released(accounts[id])
          else accounts[id];
      challenges := map d | d in challenges && challenges[d].expires > now :: challenges[d];
    }

    method RevokePendingChallenges(id: Id)
      requires id in accounts
      modifies `accounts, `challenges
      ensures View() == RevokePending(old(View()), id)
    {
      accounts := accounts[id := Released(accounts[id])];
      challenges := OtherChallenges(challenges, id);
    }

    /** The last candidate around the current step whose code is the one given. */
    method MatchingTotpCounter(codeAt: (Secret, nat) -> string, secret: Secret, code: string,
        now: nat) returns (matching: Option<nat>)
      ensures matching == Matching(codeAt, secret, code, now)
    {
      var current := now / TOTP_PERIOD;
      matching := None;
      var candidate := if current > 0 then current - 1 else 0;
      while candidate < current + 2
        invariant current - 1 <= candidate <= current + 2
        invariant matching ==
          if candidate > current + 1 && codeAt(secret, current + 1) == code then Some(current + 1)
          else if candidate > current && codeAt(secret, current) == code then Some(current)
          else if current > 0 && candidate > current - 1 && codeAt(secret, current - 1) == code then Some(current - 1)
          else None
      {
        if codeAt(secret, candidate) == code {
          matching := Some(candidate);
        }
        candidate := candidate + 1;
      }
    }

    /** The counter that the code consumes, unless it is not newer than the last one. */
    method FreshCounter(codeAt: (Secret, nat) -> string, account: Account, code: string,
        now: nat) returns (counter: Option<nat>)
      ensures counter == Fresh(codeAt, account, code, now)
    {
      if account.secret.None? {
        return None;
      }
      counter := MatchingTotpCounter(codeAt, account.secret.value, code, now);
      if counter.Some? && counter.value <= account.lastCounter {
        counter := None;
      }
    }

    method StoreRecoveryCodes(id: Id, digests: set<Digest>)
      modifies `codes
      ensures codes == old(codes) + CodesFor(id, digests)
    {
      var rest := digests;
      while rest != {}
        invariant rest <= digests && codes == old(codes) + CodesFor(id, digests - rest)
        decreases |rest|
      {
        var d :| d in rest;
        codes := codes + {Code(id, d)};
        assert digests - (rest - {d}) == (digests - rest) + {d};
        rest := rest - {d};
      }
      assert digests - {} == digests;
    }

    method NewUniqueToken(draws: seq<Digest>, used: set<Digest>) returns (d: Option<Digest>)
      ensures d == FirstFree(draws, used)
    {
      var i := 0;
      while i < |draws|
        invariant 0 <= i <= |draws| && FirstFree(draws, used) == FirstFree(draws[i..], used)
      {
        if draws[i] !in used {
          return Some(draws[i]);
        }
        assert draws[i..][1..] == draws[i + 1..];
        i := i + 1;
      }
      d := None;
    }

    method IssueSession(id: Id, now: nat, draws: seq<Digest>) returns (issued: Option<Digest>)
      modifies `sessions
      ensures issued.Some? <==> Issue(old(sessions), id, now, draws).Some?
      ensures issued.Some? ==> (sessions, issued.value) == Issue(old(sessions), id, now, draws).value
    {
      sessions := LiveSessions(sessions, now);
      var ranks := SessionRanks(sessions, id);
      if |ranks| >= SESSIONS_PER_ACCOUNT {
        var gone := FindOldest(ranks, |ranks| - SESSIONS_PER_ACCOUNT + 1);
        sessions := sessions - KeysOf(gone);
      }
      issued := NewUniqueToken(draws, sessions.Keys);
      if issued.Some? {
        sessions := sessions[issued.value := NewSession(id, now)];
      }
    }

    // Challenges and enrolment

    method CreatePendingChallenge(id: Id, draws: seq<Digest>, now: nat) returns (r: Reply)
      modifies this
      ensures (View(), r) == DoCreateChallenge(old(View()), id, draws, now)
    {
      if id !in accounts {
        return Fault;
      }
      var saved := Tables(accounts, challenges, codes, sessions);
      DeleteExpiredChallenges(now);
      var count := |ChallengesOf(challenges, id)|;
      if count >= CHALLENGES_PER_ACCOUNT {
        var removable := Removable(Tables(accounts, challenges, codes, sessions), id);
        var gone := FindOldest(removable, count - CHALLENGES_PER_ACCOUNT + 1);
        challenges := challenges - KeysOf(gone);
      }
      var d := NewUniqueToken(draws, challenges.Keys);
      if d.None? {
        Rollback(saved);
        return Fault;
      }
      challenges := challenges[d.value := Challenge(id, now, now + CHALLENGE_LIFETIME, 0)];
      r := Ok;
    }

    method BeginTotpEnrollment(digest: Digest, secret: Secret, now: nat) returns (r: Reply)
      modifies this
      ensures (View(), r) == DoBegin(old(View()), digest, secret, now)
    {
      if digest !in challenges || challenges[digest].account !in accounts || now >= challenges[digest].expires {
        return Fault;
      }
      var id := challenges[digest].account;
      if accounts[id].state == Active {
        return Fault;
      }
      if accounts[id].state == Pending {
        return if accounts[id].owner == Some(digest) then Ok else Fault;
      }
      accounts := accounts[id := Account(Pending, Some(secret), Some(digest), -1)];
      codes := OtherCodes(codes, id);
      sessions := OtherSessions(sessions, id);
      r := Ok;
    }

    method ConfirmTotpEnrollment(digest: Digest, code: string, digests: set<Digest>, draws: seq<Digest>, now: nat,
                                 codeAt: (Secret, nat) -> string) returns (r: Reply)
      modifies this
      ensures (View(), r) == DoConfirm(old(View()), digest, code, digests, draws, now, codeAt)
    {
      if digest !in challenges || challenges[digest].account !in accounts || now >= challenges[digest].expires {
        return Fault;
      }
      var id := challenges[digest].account;
      if accounts[id].state != Pending || accounts[id].owner != Some(digest) {
        return Fault;
      }
      var counter := FreshCounter(codeAt, accounts[id], code, now);
      if counter.None? {
        RecordChallengeFailure(digest);
        return Denied;
      }
      var saved := Tables(accounts, challenges, codes, sessions);
      accounts := accounts[id := accounts[id].(state := Active, owner := None, lastCounter := counter.value)];
      StoreRecoveryCodes(id, digests);
      challenges := OtherChallenges(challenges, id);
      var issued := IssueSession(id, now, draws);
      if issued.None? {
        Rollback(saved);
        return Fault;
      }
      r := Ok;
    }

    method CompleteTotpChallenge(digest: Digest, code: string, draws: seq<Digest>, now: nat, codeAt: (Secret,
        nat) -> string)
      returns (r: Reply)
      modifies this
      ensures (View(), r) == DoCompleteTotp(old(View()), digest, code, draws, now, codeAt)
    {
      if digest !in challenges || challenges[digest].account !in accounts || now >= challenges[digest].expires {
        return Fault;
      }
      var id := challenges[digest].account;
      if accounts[id].state != Active {
        return Fault;
      }
      var counter := FreshCounter(codeAt, accounts[id], code, now);
      if counter.None? {
        RecordChallengeFailure(digest);
        return Denied;
      }
      var saved := Tables(accounts, challenges, codes, sessions);
      accounts := accounts[id := accounts[id].(lastCounter := counter.value)];
      challenges := challenges - {digest};
      var issued := IssueSession(id, now, draws);
      if issued.None? {
        Rollback(saved);
        return Fault;
      }
      r := Ok;
    }

    method CompleteRecoveryChallenge(digest: Digest, codeDigest: Digest, draws: seq<Digest>,
        now: nat) returns (r: Reply)
      modifies this
      ensures (View(), r) == DoCompleteRecovery(old(View()), digest, codeDigest, draws, now)
    {
      if digest !in challenges || challenges[digest].account !in accounts || now >= challenges[digest].expires {
        return Fault;
      }
      var id := challenges[digest].account;
      if accounts[id].state != Active {
        return Fault;
      }
      if Code(id, codeDigest) !in codes {
        RecordChallengeFailure(digest);
        return Denied;
      }
      var saved := Tables(accounts, challenges, codes, sessions);
      codes := codes - {Code(id, codeDigest)};
      challenges := OtherChallenges(challenges, id);
      sessions := OtherSessions(sessions, id);
      var issued := IssueSession(id, now, draws);
      if issued.None? {
        Rollback(saved);
        return Fault;
      }
      r := Ok;
    }

    // The second factor itself

    method VerifyTotp(id: Id, code: string, now: nat, codeAt: (Secret, nat) -> string) returns (r: Reply)
      modifies this
      ensures (View(), r) == DoVerify(old(View()), id, code, now, codeAt)
    {
      if id !in accounts || accounts[id].state != Active {
        return Fault;
      }
      var counter := FreshCounter(codeAt, accounts[id], code, now);
      if counter.None? {
        return Fault;
      }
      accounts := accounts[id := accounts[id].(lastCounter := counter.value)];
      r := Ok;
    }

    method RegenerateRecoveryCodes(id: Id, code: string, digests: set<Digest>, now: nat, codeAt: (Secret,
        nat) -> string)
      returns (r: Reply)
      modifies this
      ensures (View(), r) == DoRegenerate(old(View()), id, code, digests, now, codeAt)
    {
      r := VerifyTotp(id, code, now, codeAt);
      if r != Ok {
        return Fault;
      }
      codes := OtherCodes(codes, id);
      StoreRecoveryCodes(id, digests);
      challenges := OtherChallenges(challenges, id);
      sessions := OtherSessions(sessions, id);
      assert accounts[id := accounts[id]] == accounts;
    }

    method RotateTotp(id: Id, secret: Secret, digests: set<Digest>) returns (r: Reply)
      modifies this
      ensures (View(), r) == if id !in old(accounts) then (old(View()), Fault)
          else DoInstall(old(View()), id, secret, digests)
    {
      if id !in accounts {
        return Fault;
      }
      accounts := accounts[id := Account(Active, Some(secret), None, -1)];
      codes := OtherCodes(codes, id);
      StoreRecoveryCodes(id, digests);
      challenges := OtherChallenges(challenges, id);
      sessions := OtherSessions(sessions, id);
      r := Ok;
    }

    method SetRole(id: Id, revokeSessions: bool) returns (r: Reply)
      modifies this
      ensures (View(), r) == DoSetRole(old(View()), id, revokeSessions)
    {
      if id !in accounts {
        return Fault;
      }
      RevokePendingChallenges(id);
      if revokeSessions {
        sessions := OtherSessions(sessions, id);
      }
      r := Ok;
    }

    // Sessions

    method AuthenticateSession(digest: Digest, touch: bool, now: nat) returns (r: Reply)
      modifies `sessions
      ensures (View(), r) == DoAuthenticate(old(View()), digest, touch, now)
    {
      if digest !in sessions || sessions[digest].account !in accounts {
        return Denied;
      }
      var row := sessions[digest];
      if now >= row.absolute || now - row.lastSeen >= SESSION_IDLE {
        sessions := sessions - {digest};
        return Denied;
      }
      var effective := if touch && now > row.lastSeen then now else row.lastSeen;
      if touch && effective != row.lastSeen {
        sessions := sessions[digest := row.(lastSeen := effective)];
      }
      r := Ok;
    }

    method MarkStepUp(digest: Digest, now: nat) returns (r: Reply)
      modifies `sessions
      ensures (View(), r) == DoMarkStepUp(old(View()), digest, now)
    {
      r := AuthenticateSession(digest, true, now);
      if r == Ok && digest in sessions {
        var row := sessions[digest];
        var until := if now + STEP_UP < row.absolute then now + STEP_UP else row.absolute;
        sessions := sessions[digest := row.(stepUpUntil := until)];
      }
    }

    method RequireStepUp(digest: Digest, now: nat) returns (r: Reply)
      modifies `sessions
      ensures (View(), r) == DoRequireStepUp(old(View()), digest, now)
    {
      var before := sessions;
      r := AuthenticateSession(digest, true, now);
      if r == Ok && digest in before && now >= before[digest].stepUpUntil {
        r := Denied;
      }
    }
  }
}
