/**
 The tables of the authentication store and its transactions, each as one function from the
 tables before to the tables after: accounts with their TOTP enrolment, pending challenges,
 recovery codes and sessions.  Digests are taken to be injective and are compared as numbers.
 */
module AuthTables {
  import opened Options
  import opened Eviction

  const TOTP_PERIOD := 30
  const CHALLENGE_LIFETIME := 5 * 60
  const CHALLENGE_FAILURES := 5
  const CHALLENGES_PER_ACCOUNT := 5
  const RECOVERY_CODES := 10
  const SESSION_IDLE := 72 * 60 * 60
  const SESSION_ABSOLUTE := 30 * 24 * 60 * 60
  const SESSIONS_PER_ACCOUNT := 5
  const STEP_UP := 5 * 60

  type Id = string
  type Digest = nat
  type Secret = string

  datatype Enrollment = Required | Pending | Active

  datatype Account = Account(state: Enrollment, secret: Option<Secret>, owner: Option<Digest>, lastCounter: int)

  datatype Challenge = Challenge(account: Id, created: int, expires: int, failures: nat)

  datatype Code = Code(account: Id, digest: Digest)

  datatype Session = Session(account: Id, created: int, lastSeen: int, absolute: int, stepUpUntil: int)

  datatype Tables = Tables(accounts: map<Id, Account>, challenges: map<Digest, Challenge>, codes: set<Code>,
                           sessions: map<Digest, Session>)

  /** How a call ends: `Fault` rolled the transaction back, `Denied` is an error after what the
      transaction did was kept. */
  datatype Reply = Ok | Denied | Fault

  // ---------------------------------------------------------------------------------------
  // Statements
  // ---------------------------------------------------------------------------------------

  const NEW_ACCOUNT := Account(Required, None, None, -1)

  function Installed(secret: Secret): Account {
    Account(Active, Some(secret), None, -1)
  }

  function OtherChallenges(challenges: map<Digest, Challenge>, id: Id): map<Digest, Challenge> {
    map d | d in challenges && challenges[d].account != id :: challenges[d]
  }

  function OtherSessions(sessions: map<Digest, Session>, id: Id): map<Digest, Session> {
    map d | d in sessions && sessions[d].account != id :: sessions[d]
  }

  function OtherCodes(codes: set<Code>, id: Id): set<Code> {
    set c | c in codes && c.account != id
  }

  function CodesFor(id: Id, digests: set<Digest>): set<Code> {
    set d | d in digests :: Code(id, d)
  }

  function ChallengesOf(challenges: map<Digest, Challenge>, id: Id): set<Digest> {
    set d | d in challenges && challenges[d].account == id
  }

  function SessionsOf(sessions: map<Digest, Session>, id: Id): set<Digest> {
    set d | d in sessions && sessions[d].account == id
  }

  function CodesOf(codes: set<Code>, id: Id): set<Code> {
    set c | c in codes && c.account == id
  }

  /** Give up an enrolment that has not been confirmed. */
  function Released(a: Account): Account {
    if a.state == Pending then NEW_ACCOUNT else a
  }

  predicate Lapsed(a: Account, challenges: map<Digest, Challenge>, now: int) {
    a.owner.Some? && a.owner.value in challenges && challenges[a.owner.value].expires <= now
  }

  function DeleteExpired(t: Tables, now: int): Tables {
    t.(accounts := map id | id in t.accounts :: if Lapsed(t.accounts[id], t.challenges, now) then
        Released(t.accounts[id]) else t.accounts[id],
       challenges := map d | d in t.challenges && t.challenges[d].expires > now :: t.challenges[d])
  }

  function ReleaseOwnedBy(accounts: map<Id, Account>, digest: Digest): map<Id, Account> {
    map id | id in accounts :: if accounts[id].owner == Some(digest) then Released(accounts[id]) else accounts[id]
  }

  /** Count a failure of a challenge; the fifth one removes it and frees its enrolment. */
  function RecordFailure(t: Tables, digest: Digest): Tables
    requires digest in t.challenges
  {
    var failures := t.challenges[digest].failures + 1;
    if failures >= CHALLENGE_FAILURES then
      t.(accounts := ReleaseOwnedBy(t.accounts, digest), challenges := t.challenges - {digest})
    else
      t.(challenges := t.challenges[digest := t.challenges[digest].(failures := failures)])
  }

  function RevokePending(t: Tables, id: Id): Tables
    requires id in t.accounts
  {
    t.(accounts := t.accounts[id := Released(t.accounts[id])], challenges := OtherChallenges(t.challenges, id))
  }

  function RevokeAll(t: Tables, id: Id): Tables
    requires id in t.accounts
  {
    RevokePending(t, id).(sessions := OtherSessions(t.sessions, id))
  }

  /** The account as given, and nothing else left of it. */
  function Reset(t: Tables, id: Id, account: Account, digests: set<Digest>): Tables {
    Tables(t.accounts[id := account], OtherChallenges(t.challenges, id),
        OtherCodes(t.codes, id) + CodesFor(id, digests),
           OtherSessions(t.sessions, id))
  }

  /** The challenge with that digest, if it is still good. */
  predicate Live(t: Tables, digest: Digest, now: int) {
    digest in t.challenges && t.challenges[digest].account in t.accounts && now < t.challenges[digest].expires
  }

  /** The last counter of the steps around `now` whose code is the one given (section 5.2 of
      RFC 6238); `codeAt` computes the code of a counter. */
  function Matching(codeAt: (Secret, nat) -> string, secret: Secret, code: string, now: nat): Option<nat> {
    var current := now / TOTP_PERIOD;
    if codeAt(secret, current + 1) == code then Some(current + 1)
    else if codeAt(secret, current) == code then Some(current)
    else if current > 0 && codeAt(secret, current - 1) == code then Some(current - 1)
    else None
  }

  /** The counter that the code would consume, if it is newer than any consumed before. */
  function Fresh(codeAt: (Secret, nat) -> string, account: Account, code: string, now: nat): Option<nat> {
    if account.secret.None? then None
    else
      var counter := Matching(codeAt, account.secret.value, code, now);
      if counter.Some? && counter.value > account.lastCounter then counter else None
  }

  function FirstFree(draws: seq<Digest>, used: set<Digest>): (d: Option<Digest>)
    ensures d.Some? ==> d.value in draws && d.value !in used
  {
    if draws == [] then None
    else if draws[0] !in used then Some(draws[0])
    else FirstFree(draws[1..], used)
  }

  predicate Alive(s: Session, now: int) {
    now < s.absolute && now < s.lastSeen + SESSION_IDLE
  }

  function LiveSessions(sessions: map<Digest, Session>, now: int): map<Digest, Session> {
    map d | d in sessions && Alive(sessions[d], now) :: sessions[d]
  }

  function SessionRanks(sessions: map<Digest, Session>, id: Id): set<Rank> {
    set d | d in sessions && sessions[d].account == id :: Rank(sessions[d].lastSeen, sessions[d].created, d)
  }

  function KeysOf(ranks: set<Rank>): set<nat> {
    set r | r in ranks :: r.key
  }

  /** The sessions left when one more of the account is to be added. */
  ghost function RoomForSession(sessions: map<Digest, Session>, id: Id, now: int): map<Digest, Session> {
    var live := LiveSessions(sessions, now);
    var ranks := SessionRanks(live, id);
    if |ranks| < SESSIONS_PER_ACCOUNT then live else live - KeysOf(Oldest(ranks, |ranks| - SESSIONS_PER_ACCOUNT + 1))
  }

  function NewSession(id: Id, now: int): Session {
    Session(id, now, now, now + SESSION_ABSOLUTE, 0)
  }

  /** The sessions after one was issued, and its digest. */
  ghost function Issue(sessions: map<Digest, Session>, id: Id, now: int, draws: seq<Digest>): Option<(map<Digest,
      Session>, Digest)> {
    var kept := RoomForSession(sessions, id, now);
    var d := FirstFree(draws, kept.Keys);
    if d.None? then None else Some((kept[d.value := NewSession(id, now)], d.value))
  }

  /** Challenges that may be removed to make room: all but the one an enrolment belongs to. */
  function Removable(t: Tables, id: Id): set<Rank>
    requires id in t.accounts
  {
    set d | d in t.challenges && t.challenges[d].account == id && t.accounts[id].owner != Some(d)
      :: Rank(t.challenges[d].created, 0, d)
  }

  ghost function RoomForChallenge(t: Tables, id: Id): map<Digest, Challenge>
    requires id in t.accounts
  {
    var count := |ChallengesOf(t.challenges, id)|;
    if count < CHALLENGES_PER_ACCOUNT then t.challenges
    else t.challenges - KeysOf(Oldest(Removable(t, id), count - CHALLENGES_PER_ACCOUNT + 1))
  }

  // ---------------------------------------------------------------------------------------
  // Transactions
  // ---------------------------------------------------------------------------------------

  datatype Event =
    | CreateAccount(id: Id)
    | Provision(id: Id, secret: Secret, digests: set<Digest>)
    | Bootstrap(id: Id, secret: Secret, digests: set<Digest>)
    | SetRole(id: Id, revokeSessions: bool)
    | ResetTotp(id: Id)
    | RotateTotp(id: Id, secret: Secret, digests: set<Digest>)
    | RegenerateCodes(id: Id, code: string, digests: set<Digest>, now: nat)
    | VerifyTotp(id: Id, code: string, now: nat)
    | DeleteAccount(id: Id)
    | CreateChallenge(id: Id, draws: seq<Digest>, now: nat)
    | BeginEnrollment(challenge: Digest, secret: Secret, now: nat)
    | ConfirmEnrollment(challenge: Digest, code: string, digests: set<Digest>, draws: seq<Digest>, now: nat)
    | CompleteTotp(challenge: Digest, code: string, draws: seq<Digest>, now: nat)
    | CompleteRecovery(challenge: Digest, codeDigest: Digest, draws: seq<Digest>, now: nat)
    | Authenticate(session: Digest, touch: bool, now: nat)
    | MarkStepUp(session: Digest, now: nat)
    | RequireStepUp(session: Digest, now: nat)
    | RevokeSession(session: Digest)
    | RevokeSessions(id: Id)
    | ListSessions(id: Id, now: nat)
    | PasskeySession(id: Id, draws: seq<Digest>, now: nat)

  /** Ten codes are drawn whenever codes are drawn. */
  predicate TenCodes(e: Event) {
    e.Provision? || e.Bootstrap? || e.RotateTotp? || e.RegenerateCodes? || e.ConfirmEnrollment? ==>
        |e.digests| == RECOVERY_CODES
  }

  function DoCreateAccount(t: Tables, id: Id): (Tables, Reply) {
    if id in t.accounts then (t, Fault) else (t.(accounts := t.accounts[id := NEW_ACCOUNT]), Ok)
  }

  function DoInstall(t: Tables, id: Id, secret: Secret, digests: set<Digest>): (Tables, Reply) {
    (Reset(t, id, Installed(secret), digests), Ok)
  }

  function DoSetRole(t: Tables, id: Id, revokeSessions: bool): (Tables, Reply) {
    if id !in t.accounts then (t, Fault) else (if revokeSessions then RevokeAll(t, id) else RevokePending(t, id), Ok)
  }

  function DoDelete(t: Tables, id: Id): (Tables, Reply) {
    if id !in t.accounts then (t, Fault)
    else
      (Tables(t.accounts - {id}, OtherChallenges(t.challenges, id), OtherCodes(t.codes, id),
          OtherSessions(t.sessions, id)), Ok)
  }

  function Consumed(t: Tables, id: Id, counter: int): Tables
    requires id in t.accounts
  {
    t.(accounts := t.accounts[id := t.accounts[id].(lastCounter := counter)])
  }

  function DoVerify(t: Tables, id: Id, code: string, now: nat, codeAt: (Secret, nat) -> string): (Tables, Reply) {
    if id !in t.accounts || t.accounts[id].state != Active then (t, Fault)
    else
      var counter := Fresh(codeAt, t.accounts[id], code, now);
      if counter.None? then (t, Fault) else (Consumed(t, id, counter.value), Ok)
  }

  function DoRegenerate(t: Tables, id: Id, code: string, digests: set<Digest>, now: nat, codeAt: (Secret,
      nat) -> string): (Tables, Reply) {
    var (t', reply) := DoVerify(t, id, code, now, codeAt);
    if reply != Ok then (t, Fault) else (Reset(t', id, t'.accounts[id], digests), Ok)
  }

  ghost function DoCreateChallenge(t: Tables, id: Id, draws: seq<Digest>, now: nat): (Tables, Reply) {
    if id !in t.accounts then (t, Fault)
    else
      var cleaned := DeleteExpired(t, now);
      var kept := RoomForChallenge(cleaned, id);
      var d := FirstFree(draws, kept.Keys);
      if d.None? then (t, Fault)
      else (cleaned.(challenges := kept[d.value := Challenge(id, now, now + CHALLENGE_LIFETIME, 0)]), Ok)
  }

  function DoBegin(t: Tables, digest: Digest, secret: Secret, now: nat): (Tables, Reply) {
    if !Live(t, digest, now) then (t, Fault)
    else
      var id := t.challenges[digest].account;
      var account := t.accounts[id];
      if account.state == Active then (t, Fault)
      else if account.state == Pending then (t, if account.owner == Some(digest) then Ok else Fault)
      else
        (t.(accounts := t.accounts[id := Account(Pending, Some(secret), Some(digest), -1)],
            codes := OtherCodes(t.codes, id), sessions := OtherSessions(t.sessions, id)), Ok)
  }

  ghost function DoConfirm(t: Tables, digest: Digest, code: string, digests: set<Digest>, draws: seq<Digest>, now: nat,
                           codeAt: (Secret, nat) -> string): (Tables, Reply)
  {
    if !Live(t, digest, now) then (t, Fault)
    else
      var id := t.challenges[digest].account;
      var account := t.accounts[id];
      if account.state != Pending || account.owner != Some(digest) then (t, Fault)
      else
        var counter := Fresh(codeAt, account, code, now);
        if counter.None? then (RecordFailure(t, digest), Denied)
        else
          var issued := Issue(t.sessions, id, now, draws);
          if issued.None? then (t, Fault)
          else
            (Tables(t.accounts[id := Account(Active, account.secret, None, counter.value)],
                OtherChallenges(t.challenges, id),
                    t.codes + CodesFor(id, digests), issued.value.0), Ok)
  }

  ghost function DoCompleteTotp(t: Tables, digest: Digest, code: string, draws: seq<Digest>, now: nat,
                                codeAt: (Secret, nat) -> string): (Tables, Reply)
  {
    if !Live(t, digest, now) then (t, Fault)
    else
      var id := t.challenges[digest].account;
      var account := t.accounts[id];
      if account.state != Active then (t, Fault)
      else
        var counter := Fresh(codeAt, account, code, now);
        if counter.None? then (RecordFailure(t, digest), Denied)
        else
          var issued := Issue(t.sessions, id, now, draws);
          if issued.None? then (t, Fault)
          else (Consumed(t, id, counter.value).(challenges := t.challenges - {digest}, sessions := issued.value.0), Ok)
  }

  ghost function DoCompleteRecovery(t: Tables, digest: Digest, codeDigest: Digest, draws: seq<Digest>,
      now: nat): (Tables, Reply) {
    if !Live(t, digest, now) then (t, Fault)
    else
      var id := t.challenges[digest].account;
      if t.accounts[id].state != Active then (t, Fault)
      else if Code(id, codeDigest) !in t.codes then (RecordFailure(t, digest), Denied)
      else
        var issued := Issue(OtherSessions(t.sessions, id), id, now, draws);
        if issued.None? then (t, Fault)
        else
          (t.(challenges := OtherChallenges(t.challenges, id), codes := t.codes - {Code(id, codeDigest)},
              sessions := issued.value.0), Ok)
  }

  /** Look a session up; a dead one is removed, a live one may be touched. */
  function DoAuthenticate(t: Tables, digest: Digest, touch: bool, now: nat): (Tables, Reply) {
    if digest !in t.sessions || t.sessions[digest].account !in t.accounts then (t, Denied)
    else
      var s := t.sessions[digest];
      if !Alive(s, now) then (t.(sessions := t.sessions - {digest}), Denied)
      else if touch && now > s.lastSeen then (t.(sessions := t.sessions[digest := s.(lastSeen := now)]), Ok)
      else (t, Ok)
  }

  function DoMarkStepUp(t: Tables, digest: Digest, now: nat): (Tables, Reply) {
    var (t', reply) := DoAuthenticate(t, digest, true, now);
    if reply != Ok || digest !in t'.sessions then (t', reply)
    else
      var s := t'.sessions[digest];
      var until := if now + STEP_UP < s.absolute then now + STEP_UP else s.absolute;
      (t'.(sessions := t'.sessions[digest := s.(stepUpUntil := until)]), Ok)
  }

  function DoRequireStepUp(t: Tables, digest: Digest, now: nat): (Tables, Reply) {
    var (t', reply) := DoAuthenticate(t, digest, true, now);
    if reply == Ok && digest in t.sessions && now >= t.sessions[digest].stepUpUntil then (t', Denied) else (t', reply)
  }

  ghost function DoPasskeySession(t: Tables, id: Id, draws: seq<Digest>, now: nat): (Tables, Reply) {
    if id !in t.accounts then (t, Fault)
    else
      var issued := Issue(t.sessions, id, now, draws);
      if issued.None? then (t, Fault) else (t.(sessions := issued.value.0), Ok)
  }

  ghost function Apply(t: Tables, e: Event, codeAt: (Secret, nat) -> string): (Tables, Reply) {
    match e
    case CreateAccount(id) => DoCreateAccount(t, id)
    case Provision(id, secret, digests) => if id in t.accounts then (t, Fault) else DoInstall(t, id, secret, digests)
    case Bootstrap(id, secret, digests) => DoInstall(t, id, secret, digests)
    case SetRole(id, revokeSessions) => DoSetRole(t, id, revokeSessions)
    case ResetTotp(id) => if id !in t.accounts then (t, Fault) else (Reset(t, id, NEW_ACCOUNT, {}), Ok)
    case RotateTotp(id, secret, digests) => if id !in t.accounts then (t, Fault) else DoInstall(t, id, secret, digests)
    case RegenerateCodes(id, code, digests, now) => DoRegenerate(t, id, code, digests, now, codeAt)
    case VerifyTotp(id, code, now) => DoVerify(t, id, code, now, codeAt)
    case DeleteAccount(id) => DoDelete(t, id)
    case CreateChallenge(id, draws, now) => DoCreateChallenge(t, id, draws, now)
    case BeginEnrollment(challenge, secret, now) => DoBegin(t, challenge, secret, now)
    case ConfirmEnrollment(challenge, code, digests, draws, now) => DoConfirm(t, challenge, code, digests, draws, now,
        codeAt)
    case CompleteTotp(challenge, code, draws, now) => DoCompleteTotp(t, challenge, code, draws, now, codeAt)
    case CompleteRecovery(challenge, codeDigest, draws, now) => DoCompleteRecovery(t, challenge, codeDigest, draws, now)
    case Authenticate(session, touch, now) => DoAuthenticate(t, session, touch, now)
    case MarkStepUp(session, now) => DoMarkStepUp(t, session, now)
    case RequireStepUp(session, now) => DoRequireStepUp(t, session, now)
    case RevokeSession(session) => (t.(sessions := t.sessions - {session}), Ok)
    case RevokeSessions(id) => if id !in t.accounts then (t, Fault) else (RevokeAll(t, id), Ok)
    case ListSessions(id, now) =>
      if id !in t.accounts then (t, Fault) else (t.(sessions := LiveSessions(t.sessions, now)), Ok)
    case PasskeySession(id, draws, now) => DoPasskeySession(t, id, draws, now)
  }
}
