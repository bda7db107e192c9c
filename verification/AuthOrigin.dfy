/**
 Where recovery codes and sessions come from, over whole histories of the authentication store:
 a code is good for one login, and a session was earned by a login and ends with every call that
 ends the sessions of its account.
 */
module AuthOrigin {
  import opened Options
  import opened AuthTables
  import opened AuthInvariant
  import opened AuthMeaning

  /** One call: the tables it finds and leaves, and its reply. */
  datatype Call = Call(before: Tables, event: Event, reply: Reply, after: Tables)

  /** The tables after the first `n` calls. */
  function TablesAt(calls: seq<Call>, n: nat): Tables
    requires n <= |calls|
  {
    if n == 0 then Tables(map[], map[], {}, map[]) else calls[n - 1].after
  }

  ghost predicate CallAt(calls: seq<Call>, k: nat, codeAt: (Secret, nat) -> string) {
    k < |calls| ==>
      && calls[k].before == TablesAt(calls, k)
      && (calls[k].after, calls[k].reply) == Apply(calls[k].before, calls[k].event, codeAt)
  }

  /** Any sequence of calls on an empty store. */
  ghost predicate History(calls: seq<Call>, codeAt: (Secret, nat) -> string) {
    forall k :: CallAt(calls, k, codeAt)
  }

  /** The `k`-th call succeeds and is about this account. */
  ghost predicate Done(calls: seq<Call>, k: nat, id: Id) {
    k < |calls| && calls[k].reply == Ok && Subject(calls[k].before, calls[k].event) == Some(id)
  }

  // ---------------------------------------------------------------------------------------
  // Recovery codes
  // ---------------------------------------------------------------------------------------

  predicate DrawsCodes(e: Event) {
    e.Provision? || e.Bootstrap? || e.RotateTotp? || e.RegenerateCodes? || e.ConfirmEnrollment?
  }

  /** The `k`-th call hands this code out. */
  ghost predicate HandsOut(calls: seq<Call>, k: nat, c: Code) {
    Done(calls, k, c.account) && DrawsCodes(calls[k].event) && c.digest in calls[k].event.digests
  }

  /** The `k`-th call logs in with this code. */
  ghost predicate Spends(calls: seq<Call>, k: nat, c: Code) {
    Done(calls, k, c.account) && calls[k].event.CompleteRecovery? && calls[k].event.codeDigest == c.digest
  }

  ghost predicate UnspentSince(calls: seq<Call>, k: nat, n: nat, c: Code) {
    k < n && HandsOut(calls, k, c) && forall m :: k < m < n ==> !Spends(calls, m, c)
  }

  /** A stored code was handed out and has not been used since. */
  lemma {:induction false} CodeOrigin(calls: seq<Call>, n: nat, c: Code, codeAt: (Secret, nat) -> string)
    requires History(calls, codeAt) && n <= |calls| && c in TablesAt(calls, n).codes
    ensures exists k: nat :: UnspentSince(calls, k, n, c)
  {
    CodeBefore(calls, n - 1, c, codeAt);
    if HandsOut(calls, n - 1, c) {
      assert UnspentSince(calls, n - 1, n, c);
    } else {
      CodeOrigin(calls, n - 1, c, codeAt);
      var k: nat :| UnspentSince(calls, k, n - 1, c);
      assert UnspentSince(calls, k, n, c);
    }
  }

  lemma {:induction false} CodeBefore(calls: seq<Call>, k: nat, c: Code, codeAt: (Secret, nat) -> string)
    requires History(calls, codeAt) && k < |calls| && c in TablesAt(calls, k + 1).codes
    ensures HandsOut(calls, k, c) || (c in TablesAt(calls, k).codes && !Spends(calls, k, c))
  {
    assert CallAt(calls, k, codeAt);
    CodeStep(calls[k].before, calls[k].event, c, codeAt);
  }

  /** A code that is there after a call was handed out by it, or was there before and was not
      the one used. */
  lemma {:induction false} CodeStep(t: Tables, e: Event, c: Code, codeAt: (Secret, nat) -> string)
    requires c in Apply(t, e, codeAt).0.codes
    ensures
      || (Apply(t, e, codeAt).1 == Ok && Subject(t, e) == Some(c.account) && DrawsCodes(e) && c.digest in e.digests)
      || (c in t.codes && !(Apply(t, e, codeAt).1 == Ok && Subject(t, e) == Some(c.account) && e.CompleteRecovery?
            && e.codeDigest == c.digest))
  {
    if OnSession(e) {
      SessionCall(t, e, codeAt);
    } else if Apply(t, e, codeAt).1 == Ok {
      CodeRows(t, e, c, codeAt);
    } else {
      RefusalLeaves(t, e, codeAt);
    }
  }

  /** A recovery code is good for one login: each login with it uses a code that was handed out
      before, and after an earlier login with the same code. */
  lemma {:induction false} RecoverySingleUse(calls: seq<Call>, j: nat, c: Code, codeAt: (Secret, nat) -> string)
    requires History(calls, codeAt) && Spends(calls, j, c)
    ensures exists k: nat :: k < j && HandsOut(calls, k, c) && NotSpentAfter(calls, k, j, c)
  {
    CodeStored(calls, j, c, codeAt);
    CodeOrigin(calls, j, c, codeAt);
    var k: nat :| UnspentSince(calls, k, j, c);
    assert NotSpentAfter(calls, k, j, c);
  }

  /** Every login with this code before the `j`-th call came before the `k`-th. */
  ghost predicate NotSpentAfter(calls: seq<Call>, k: nat, j: nat, c: Code) {
    forall i: nat :: i < j && Spends(calls, i, c) ==> i <= k
  }

  lemma {:induction false} CodeStored(calls: seq<Call>, j: nat, c: Code, codeAt: (Secret, nat) -> string)
    requires History(calls, codeAt) && Spends(calls, j, c)
    ensures c in TablesAt(calls, j).codes
  {
    assert CallAt(calls, j, codeAt);
    OkExactly(calls[j].before, calls[j].event, codeAt);
  }

  // ---------------------------------------------------------------------------------------
  // Sessions
  // ---------------------------------------------------------------------------------------

  /** The `k`-th call issues a session of the account at this time. */
  ghost predicate LogsIn(calls: seq<Call>, k: nat, id: Id, time: int) {
    Done(calls, k, id) && Logins(calls[k].event) && calls[k].event.now == time
  }

  /** The `k`-th call ends the session, or all of its account. */
  ghost predicate Ends(calls: seq<Call>, k: nat, d: Digest, id: Id) {
    && k < |calls| && calls[k].reply == Ok
    && ((calls[k].event.RevokeSession? && calls[k].event.session == d)
        || (Done(calls, k, id) && EndsSessions(calls[k].before, calls[k].event)))
  }

  ghost predicate EarnedSince(calls: seq<Call>, k: nat, n: nat, d: Digest, id: Id, created: int) {
    k < n && LogsIn(calls, k, id, created) && forall m :: k < m < n ==> !Ends(calls, m, d, id)
  }

  /** A session that is there after a call was issued by it, or was there before, of the same
      account and age, and was not ended. */
  lemma {:induction false} SessionStep(t: Tables, e: Event, d: Digest, codeAt: (Secret, nat) -> string, t': Tables,
      ok: bool)
    requires d in t'.sessions && t' == Apply(t, e, codeAt).0 && (ok <==> Apply(t, e, codeAt).1 == Ok)
    ensures IssuedNow(t, e, ok, t'.sessions[d]) || StillThere(t, e, ok, d, t'.sessions[d])
  {
    assert Row(t'.sessions, d) == Some(t'.sessions[d]);
    if OnSession(e) {
      SessionCall(t, e, codeAt);
    } else if !ok {
      RefusalLeaves(t, e, codeAt);
    } else if Logins(e) {
      LoginStep(t, e, d, codeAt);
    } else {
      SessionRows(t, e, d, codeAt);
    }
  }

  ghost predicate IssuedNow(t: Tables, e: Event, ok: bool, row: Session) {
    ok && Logins(e) && Subject(t, e) == Some(row.account) && row.created == e.now
  }

  ghost predicate StillThere(t: Tables, e: Event, ok: bool, d: Digest, row: Session) {
    && d in t.sessions && t.sessions[d].account == row.account && t.sessions[d].created == row.created
    && !(ok && e.RevokeSession? && e.session == d)
    && !(ok && EndsSessions(t, e) && Subject(t, e) == Some(row.account))
  }

  lemma {:induction false} LoginStep(t: Tables, e: Event, d: Digest, codeAt: (Secret, nat) -> string)
    requires Logins(e) && Apply(t, e, codeAt).1 == Ok && d in Apply(t, e, codeAt).0.sessions
    ensures var row := Apply(t, e, codeAt).0.sessions[d];
      IssuedNow(t, e, true, row) || StillThere(t, e, true, d, row)
  {
    LoginSessions(t, e, codeAt);
    var id, after := Subject(t, e).value, Apply(t, e, codeAt).0.sessions;
    var kept :| LoginKeeps(t, e, id, kept) && Added(kept, id, e.now, e.draws, after);
    AddedRow(t, e, id, d, kept, after);
  }

  lemma {:induction false} AddedRow(t: Tables, e: Event, id: Id, d: Digest, kept: map<Digest, Session>,
      after: map<Digest, Session>)
    requires Logins(e) && Subject(t, e) == Some(id) && d in after
    requires LoginKeeps(t, e, id, kept) && Added(kept, id, e.now, e.draws, after)
    ensures IssuedNow(t, e, true, after[d]) || StillThere(t, e, true, d, after[d])
  {
    var x :| x in e.draws && x !in kept && after == kept[x := Session(id, e.now, e.now, e.now + 2592000, 0)];
    if d != x {
      assert d in kept && after[d] == kept[d];
      assert Row(t.sessions, d) == Some(kept[d]);
    }
  }

  lemma {:induction false} SessionBefore(calls: seq<Call>, k: nat, d: Digest, row: Session,
      codeAt: (Secret, nat) -> string)
    requires History(calls, codeAt) && k < |calls| && Row(calls[k].after.sessions, d) == Some(row)
    ensures LogsIn(calls, k, row.account, row.created) ||
      var sessions := TablesAt(calls, k).sessions;
      && d in sessions && sessions[d].account == row.account && sessions[d].created == row.created
      && !Ends(calls, k, d, row.account)
  {
    assert CallAt(calls, k, codeAt);
    SessionStep(calls[k].before, calls[k].event, d, codeAt, calls[k].after, calls[k].reply == Ok);
  }

  /** Every session was earned by a login of its account at the time it bears, and nothing has
      ended it or the sessions of its account since. */
  lemma {:induction false} SessionEarned(calls: seq<Call>, n: nat, d: Digest, row: Session,
      codeAt: (Secret, nat) -> string)
    requires History(calls, codeAt) && n <= |calls| && Row(TablesAt(calls, n).sessions, d) == Some(row)
    ensures exists k: nat :: EarnedSince(calls, k, n, d, row.account, row.created)
  {
    SessionBefore(calls, n - 1, d, row, codeAt);
    if LogsIn(calls, n - 1, row.account, row.created) {
      assert EarnedSince(calls, n - 1, n, d, row.account, row.created);
    } else {
      SessionEarned(calls, n - 1, d, TablesAt(calls, n - 1).sessions[d], codeAt);
      var k: nat :| EarnedSince(calls, k, n - 1, d, row.account, row.created);
      assert EarnedSince(calls, k, n, d, row.account, row.created);
    }
  }
}
