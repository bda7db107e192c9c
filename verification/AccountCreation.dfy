/**
 Creating an account: a credential and a mailbox made by two commands, with compensation when
 anything fails.  A command that reports failure may have taken effect; a listing that answers
 is truthful.
 */
module AccountCreation {
  import opened Options

  datatype Resource = Credential | Mailbox

  /** Which of the two resources exist for one username. */
  datatype Presence = Presence(credential: bool, mailbox: bool) {
    predicate Of(kind: Resource) {
      if kind == Credential then credential else mailbox
    }
  }

  class Accounts {
    var credentials: set<string>
    var mailboxes: set<string>
    /** The name being worked on, and its presence after every command. */
    const watched: string
    ghost var trace: seq<Presence>
    /** How many commands have not done what they were for. */
    ghost var faults: nat

    constructor (credentials: set<string>, mailboxes: set<string>, watched: string)
      ensures this.credentials == credentials && this.mailboxes == mailboxes && this.watched == watched && trace == []
    {
      this.credentials, this.mailboxes, this.watched := credentials, mailboxes, watched;
      trace, faults := [], 0;
    }

    function Names(kind: Resource): set<string>
      reads this
    {
      if kind == Credential then credentials else mailboxes
    }

    function Here(): Presence
      reads this
    {
      Presence(watched in credentials, watched in mailboxes)
    }

    /** A truthful listing, if it answers. */
    method List(kind: Resource) returns (names: Option<set<string>>)
      modifies `faults
      ensures names.Some? ==> names.value == Names(kind)
      ensures faults == if names.Some? then old(faults) else old(faults) + 1
    {
      var answered: bool := *;
      names := if answered then Some(Names(kind)) else None;
      faults := if answered then faults else faults + 1;
    }

    /** Create or remove one resource of the watched name; a failure may have taken effect, and a
        command that reports success may have done nothing. */
    method Change(kind: Resource, present: bool) returns (ok: bool)
      modifies this
      ensures Here().Of(kind) == present || Here().Of(kind) == old(Here()).Of(kind)
      ensures forall other :: other != kind ==> Here().Of(other) == old(Here()).Of(other)
      ensures OthersKept(old(credentials), old(mailboxes))
      ensures trace == old(trace) + [Here()]
      ensures faults == if ok && Here().Of(kind) == present then old(faults) else old(faults) + 1
    {
      ok := *;
      var effect: bool := *;
      if effect {
        if kind == Credential {
          credentials := if present then credentials + {watched} else credentials - {watched};
        } else {
          mailboxes := if present then mailboxes + {watched} else mailboxes - {watched};
        }
      }
      faults := if ok && Here().Of(kind) == present then faults else faults + 1;
      trace := trace + [Here()];
    }

    ghost predicate OthersKept(credentials0: set<string>, mailboxes0: set<string>)
      reads this
    {
      credentials - {watched} == credentials0 - {watched} && mailboxes - {watched} == mailboxes0 - {watched}
    }

    /** Whether the watched name is listed, asked at most twice. */
    method Observe(kind: Resource) returns (present: Option<bool>)
      modifies `faults
      ensures present.Some? ==> present.value == Here().Of(kind)
      ensures faults >= old(faults)
      ensures faults < old(faults) + 2 ==> present.Some?
    {
      for attempt := 0 to 2
        invariant faults == old(faults) + attempt
      {
        var names := List(kind);
        if names.Some? {
          return Some(watched in names.value);
        }
      }
      present := None;
    }
  }

  /** From position `from` on, nothing that was there at the baseline was ever missing. */
  ghost predicate Preserved(trace: seq<Presence>, from: nat, baseline: Presence) {
    from <= |trace| && forall i, kind: Resource :: from <= i < |trace| && baseline.Of(kind) ==> trace[i].Of(kind)
  }

  /** How the call ends.  `Partial` names the resources seen to be newly created. */
  datatype Outcome =
    | Created
    | Reraised
    | Partial(completed: set<Resource>, rollbackSucceeded: bool)

  /** Remove only what was seen to be new, and report what the final listings show. */
  method Compensate(accounts: Accounts, baseline: Presence, ghost from: nat)
    returns (completed: set<Resource>, rollbackSucceeded: bool, ghost verified: bool)
    requires Preserved(accounts.trace, from, baseline)
    requires forall kind: Resource :: baseline.Of(kind) ==> accounts.Here().Of(kind)
    modifies accounts
    ensures Preserved(accounts.trace, from, baseline)
    ensures forall kind: Resource :: baseline.Of(kind) ==> accounts.Here().Of(kind)
    ensures accounts.OthersKept(old(accounts.credentials), old(accounts.mailboxes))
    ensures rollbackSucceeded ==> accounts.Here() == baseline
    ensures verified ==> (rollbackSucceeded <==> accounts.Here() == baseline)
    ensures completed <= (set kind: Resource | !baseline.Of(kind))
    ensures accounts.Here() != baseline && verified ==> completed != {}
    ensures accounts.faults >= old(accounts.faults)
    ensures accounts.faults == old(accounts.faults) ==>
      && verified && rollbackSucceeded
      && completed == set kind: Resource | !baseline.Of(kind) && old(accounts.Here()).Of(kind)
  {
    var credential := accounts.Observe(Credential);
    var mailbox := accounts.Observe(Mailbox);
    var credentialCreated := !baseline.credential && credential == Some(true);
    var mailboxCreated := !baseline.mailbox && mailbox == Some(true);
    if mailboxCreated {
      var _ := accounts.Change(Mailbox, false);
    }
    if credentialCreated {
      var _ := accounts.Change(Credential, false);
    }
    credential := accounts.Observe(Credential);
    mailbox := accounts.Observe(Mailbox);
    credentialCreated := credentialCreated || (!baseline.credential && credential == Some(true));
    mailboxCreated := mailboxCreated || (!baseline.mailbox && mailbox == Some(true));
    completed := (if credentialCreated then {Credential} else {}) + (if mailboxCreated then {Mailbox} else {});
    rollbackSucceeded := credential.Some? && mailbox.Some?
      && credential.value == baseline.credential && mailbox.value == baseline.mailbox;
    verified := credential.Some? && mailbox.Some?;
  }

  /** Create the watched account.  A resource that existed before is there in every state;
      a normal return means both exist; the original error, or a partial failure that claims
      a successful rollback, means that exactly what was there before is there now.  It returns
      normally exactly if no command fails, and if only one does, the rollback succeeds. */
  method CreateAccount(accounts: Accounts) returns (r: Outcome, ghost verified: bool)
    modifies accounts
    ensures Preserved(accounts.trace, |old(accounts.trace)|, old(accounts.Here()))
    ensures forall kind: Resource :: old(accounts.Here()).Of(kind) ==> accounts.Here().Of(kind)
    ensures accounts.OthersKept(old(accounts.credentials), old(accounts.mailboxes))
    ensures r == Created ==> accounts.Here() == Presence(true, true)
    ensures r == Reraised || (r.Partial? && r.rollbackSucceeded) ==> accounts.Here() == old(accounts.Here())
    ensures r.Partial? && verified ==> (r.rollbackSucceeded <==> accounts.Here() == old(accounts.Here()))
    ensures r.Partial? ==> forall kind <- r.completed :: !old(accounts.Here()).Of(kind)
    ensures r == Created <==> accounts.faults == old(accounts.faults)
    ensures accounts.faults == old(accounts.faults) + 1 ==> r == Reraised || (r.Partial? && r.rollbackSucceeded)
  {
    ghost var from := |accounts.trace|;
    verified := false;
    var credentials := accounts.List(Credential);
    if credentials.None? {
      return Reraised, verified;
    }
    var mailboxes := accounts.List(Mailbox);
    if mailboxes.None? {
      return Reraised, verified;
    }
    var baseline := Presence(accounts.watched in credentials.value, accounts.watched in mailboxes.value);
    var ok := accounts.Change(Credential, true);
    if ok {
      ok := accounts.Change(Mailbox, true);
      if ok {
        credentials := accounts.List(Credential);
        if credentials.Some? && accounts.watched in credentials.value {
          mailboxes := accounts.List(Mailbox);
          if mailboxes.Some? && accounts.watched in mailboxes.value {
            return Created, verified;
          }
        }
      }
    }
    var completed, rollbackSucceeded;
    completed, rollbackSucceeded, verified := Compensate(accounts, baseline, from);
    r := if completed == {} && rollbackSucceeded then Reraised else Partial(completed, rollbackSucceeded);
  }
}
