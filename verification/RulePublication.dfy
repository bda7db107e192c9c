/** The rule operations of the dispatcher and the snapshots that delivery reads. */
module RulePublication {
  import opened Options
  import opened MailRules
  import opened FilterEvaluation

  // Delivery is paused by publishing an empty snapshot, then the stored rules are changed, then
  // they are read back and published.  Publishing is atomic but may report failure either way; a
  // failed change of the stored rules is rolled back; reading them may fail as well.  Delivery
  // may read a snapshot at any moment in between.  At its start the dispatcher replaces whatever
  // snapshots it finds.

  type Account = string
  type Lists = map<Account, seq<Rule>>

  /** A moment: the stored rules and the published snapshots. */
  datatype Moment = Moment(stored: Lists, snapshots: Lists)

  /** An account's snapshot is empty or equal to its stored rules. */
  ghost predicate AgreedFor(m: Moment, a: Account) {
    a in m.snapshots ==> m.snapshots[a] == [] || (a in m.stored && m.snapshots[a] == m.stored[a])
  }

  ghost predicate Agreed(m: Moment) {
    && (forall a :: AgreedFor(m, a))
    && (forall a :: a in m.stored ==> Valid(m.stored[a]))
  }

  ghost predicate AgreedFrom(trace: seq<Moment>, from: nat) {
    from <= |trace| && forall i :: from <= i < |trace| ==> Agreed(trace[i])
  }

  datatype Reply = Done(deliveryReady: bool) | Failed

  /** How publishing the stored rules ends; if they cannot be read, nothing is published. */
  datatype Publication = Complete | Incomplete | Unread

  /** The step at which an operation failed: before the change was stored, when the stored rules
      were read for publishing, or when they were read once more for the answer. */
  datatype Step = Nowhere | BeforeChange | AtRecords | AtListing

  /** How one publication goes: it works, or fails before or after its effect. */
  datatype Publishing = Works | FailsBefore | FailsAfter

  /** What goes well in an operation: pausing delivery, the transaction, reading the stored
      rules for publishing, publishing them, and reading them for the answer. */
  datatype Luck = Luck(pause: Publishing, commit: bool, records: bool, publish: Publishing, listing: bool)

  /** A request: `fits` says whether the rule compiles, its mailbox exists and so on. */
  datatype Request = Request(account: Account, op: Operation, fits: bool, luck: Luck)

  lemma {:induction false} ResultValid(rules: seq<Rule>, op: Operation)
    requires Valid(rules)
    ensures Result(rules, op).Some? ==> Valid(Result(rules, op).value)
  {
    match op
    case CreateRule(rule) => CreateValid(rules, rule);
    case UpdateRule(rule) => UpdateValid(rules, rule);
    case DeleteRule(id) => DeleteValid(rules, id);
    case ReorderRules(ids) => ReorderValid(rules, ids);
  }

  /** The rules after a run of operations, impossible ones being refused. */
  function After(rules: seq<Rule>, ops: seq<Operation>): seq<Rule> {
    if ops == [] then rules
    else
      var before := After(rules, ops[..|ops| - 1]);
      var next := Result(before, ops[|ops| - 1]);
      if next.None? then before else next.value
  }

  /** After every run of operations the positions are 0 to n-1 with n at most 100, the ids are
      different, and the delivery filter accepts the list. */
  lemma {:induction false} AlwaysAcceptable(rules: seq<Rule>, ops: seq<Operation>, goodId: RuleId -> bool)
    requires Valid(rules)
    ensures Valid(After(rules, ops))
    ensures (forall r <- After(rules, ops) :: goodId(r.id)) ==> Acceptable(After(rules, ops), goodId)
  {
    if ops != [] {
      var n := |ops| - 1;
      AlwaysAcceptable(rules, ops[..n], goodId);
      ResultValid(After(rules, ops[..n]), ops[n]);
    }
    if forall r <- After(rules, ops) :: goodId(r.id) {
      StoredIsAcceptable(After(rules, ops), goodId);
    }
  }

  /** Agreement of a longer trace from two parts. */
  lemma {:induction false} Extended(before: seq<Moment>, trace: seq<Moment>, from: nat)
    requires AgreedFrom(before, from) && AgreedFrom(trace, |before|) && before <= trace
    ensures AgreedFrom(trace, from)
  {
    forall i | from <= i < |trace| ensures Agreed(trace[i]) {
      assert i < |before| ==> trace[i] == before[i];
    }
  }

  lemma {:induction false} Published(m: Moment, a: Account, rules: seq<Rule>)
    requires Agreed(m) && (rules == [] || (a in m.stored && rules == m.stored[a]))
    ensures Agreed(m.(snapshots := m.snapshots[a := rules]))
  {
    var m' := m.(snapshots := m.snapshots[a := rules]);
    forall other ensures AgreedFor(m', other) {
      assert AgreedFor(m, other);
    }
  }

  /** A change of the stored rules is safe while the snapshot is empty or absent. */
  lemma {:induction false} Stored(m: Moment, a: Account, rules: seq<Rule>)
    requires Agreed(m) && Valid(rules) && (a in m.snapshots ==> m.snapshots[a] == [])
    ensures Agreed(m.(stored := m.stored[a := rules]))
  {
    var m' := m.(stored := m.stored[a := rules]);
    forall other ensures AgreedFor(m', other) {
      assert AgreedFor(m, other);
    }
  }

  class Dispatcher {
    const publishes: bool
    var stored: Lists
    var snapshots: Lists
    ghost var trace: seq<Moment>

    ghost function Now(): Moment
      reads this
    {
      Moment(stored, snapshots)
    }

    /** Without a snapshot directory there are no snapshots. */
    ghost predicate Ok()
      reads this
    {
      Agreed(Now()) && (!publishes ==> snapshots == map[])
    }

    /** A dispatcher over stored rules and whatever snapshots there are. */
    constructor (publishes: bool, stored: Lists, snapshots: Lists)
      ensures this.publishes == publishes && this.stored == stored && trace == []
      ensures this.snapshots == if publishes then snapshots else map[]
    {
      this.publishes := publishes;
      this.stored, this.snapshots, trace := stored, if publishes then snapshots else map[], [];
    }

    /** Replace all snapshots by the stored rules: the old ones are removed first, one by one,
        then the new ones are published, one by one.  `readable` says that rules and directory
        can be read, `unsafe` that the directory holds something that is no snapshot, and
        `failsAt` at which removal or publication there is a failure, if at any.  Success means
        that exactly the stored rules are published, and nothing but these fails it.  From the
        moment all old snapshots are gone, agreement holds, whatever fails then; before it,
        nothing but old snapshots is left. */
    method Reconcile(readable: bool, unsafe: bool, failsAt: Option<nat>)
      returns (ok: bool, ghost purged: bool, ghost from: nat)
      requires forall a :: a in stored ==> Valid(stored[a])
      requires !publishes ==> snapshots == map[]
      modifies `snapshots, `trace
      ensures purged ==> Ok() && AgreedFrom(trace, from)
      ensures !purged ==> !ok && snapshots.Items <= old(snapshots).Items
      ensures ok ==> purged && snapshots == if publishes then stored else map[]
      ensures !publishes || (readable && !unsafe && failsAt == None) ==> ok
      ensures readable && failsAt == None ==> purged
      ensures old(trace) <= trace
    {
      from, purged := |trace|, !publishes;
      if !publishes {
        return true, purged, from;
      }
      if !readable {
        return false, purged, from;
      }
      var left;
      ok, left := Purge(failsAt);
      if !ok {
        return false, purged, from;
      }
      purged, from := true, |trace|;
      if unsafe {
        return false, purged, from;
      }
      ok := PublishAll(left, from);
    }

    /** Remove every snapshot, in whatever order; a failure leaves some. */
    method Purge(failsAt: Option<nat>) returns (ok: bool, left: Option<nat>)
      requires forall a :: a in stored ==> Valid(stored[a])
      modifies `snapshots, `trace
      ensures snapshots.Items <= old(snapshots).Items && old(trace) <= trace
      ensures ok ==> snapshots == map[] && Agreed(Now())
      ensures failsAt == None ==> ok && left == None
    {
      ok, left := true, failsAt;
      while snapshots != map[]
        invariant snapshots.Items <= old(snapshots).Items && old(trace) <= trace
        invariant failsAt == None ==> left == None
        decreases |snapshots|
      {
        var a :| a in snapshots;
        ok := left != Some(0);
        var effect: bool := *;
        if ok || effect {
          snapshots := snapshots - {a};
        }
        trace := trace + [Now()];
        if !ok {
          return;
        }
        left := if left.Some? then Some(left.value - 1) else None;
      }
      ok := true;
    }

    /** Publish every account's stored rules, in whatever order; a failure leaves some out. */
    method PublishAll(failsAt: Option<nat>, ghost from: nat) returns (ok: bool)
      requires Ok() && AgreedFrom(trace, from) && snapshots == map[] && publishes
      modifies `snapshots, `trace
      ensures Ok() && AgreedFrom(trace, from) && old(trace) <= trace
      ensures ok ==> snapshots == stored
      ensures failsAt == None ==> ok
    {
      var rest, left := stored.Keys, failsAt;
      ok := true;
      while rest != {}
        invariant Ok() && AgreedFrom(trace, from) && old(trace) <= trace
        invariant rest <= stored.Keys && snapshots.Keys == stored.Keys - rest
        invariant forall a :: a in snapshots ==> a in stored && snapshots[a] == stored[a]
        invariant failsAt == None ==> left == None
      {
        var a :| a in rest;
        var how: Publishing := *;
        how := if left != Some(0) then Works else if how == Works then FailsBefore else how;
        ok := Publish(a, stored[a], how, from);
        if !ok {
          return;
        }
        left := if left.Some? then Some(left.value - 1) else None;
        rest := rest - {a};
      }
      ok := true;
    }

    method Publish(a: Account, rules: seq<Rule>, how: Publishing, ghost from: nat) returns (ok: bool)
      requires Ok() && AgreedFrom(trace, from) && (rules == [] || (a in stored && rules == stored[a]))
      modifies `snapshots, `trace
      ensures Ok() && AgreedFrom(trace, from) && old(trace) <= trace
      ensures snapshots == if publishes && how != FailsBefore then old(snapshots)[a := rules] else old(snapshots)
      ensures ok <==> !publishes || how == Works
    {
      if !publishes {
        return true;
      }
      if how != FailsBefore {
        Published(Now(), a, rules);
        snapshots := snapshots[a := rules];
      }
      trace := trace + [Now()];
      ok := how == Works;
    }

    method Commit(a: Account, rules: seq<Rule>, ghost from: nat)
      requires Ok() && AgreedFrom(trace, from) && Valid(rules) && (a in snapshots ==> snapshots[a] == [])
      modifies `stored, `trace
      ensures Ok() && AgreedFrom(trace, from) && old(trace) <= trace
      ensures stored == old(stored)[a := rules]
    {
      Stored(Now(), a, rules);
      stored := stored[a := rules];
      trace := trace + [Now()];
    }

    /** Read an account's stored rules and publish them. */
    method PublishStored(a: Account, luck: Luck, ghost from: nat) returns (p: Publication)
      requires Ok() && AgreedFrom(trace, from) && a in stored
      modifies `snapshots, `trace
      ensures Ok() && AgreedFrom(trace, from) && old(trace) <= trace
      ensures p == Unread <==> publishes && !luck.records
      ensures p == Complete <==> !publishes || (luck.records && luck.publish == Works)
      ensures snapshots == if publishes && luck.records && luck.publish != FailsBefore
        then old(snapshots)[a := stored[a]] else old(snapshots)
    {
      if !publishes {
        return Complete;
      }
      if !luck.records {
        return Unread;
      }
      var ok := Publish(a, stored[a], luck.publish, from);
      p := if ok then Complete else Incomplete;
    }

    /** The transaction, while delivery is paused; a creation that fails publishes what is stored. */
    method Change(a: Account, op: Operation, rules: Option<seq<Rule>>, luck: Luck, ghost from: nat) returns (ok: bool)
      requires Ok() && AgreedFrom(trace, from) && a in stored && (a in snapshots ==> snapshots[a] == [])
      requires rules == Result(stored[a], op)
      modifies this
      ensures Ok() && AgreedFrom(trace, from) && old(trace) <= trace
      ensures ok <==> rules.Some? && luck.commit
      ensures ok ==> stored == old(stored)[a := rules.value] && snapshots == old(snapshots)
      ensures !ok ==> stored == old(stored)
      ensures !ok ==>
        if op.CreateRule? && publishes && luck.records && luck.publish != FailsBefore
        then snapshots == old(snapshots)[a := stored[a]] else snapshots == old(snapshots)
    {
      ResultValid(stored[a], op);
      ok := rules.Some? && luck.commit;
      if ok {
        Commit(a, rules.value, from);
      } else if op.CreateRule? {
        var _ := PublishStored(a, luck, from);
      }
    }

    /** One rule operation.  In every moment each snapshot is absent, empty or equal to the
        stored rules.  The operation is carried out, with its effect on the rules of this
        account and no other, exactly if it is possible and pausing and the transaction work.
        It then succeeds unless the rules cannot be read back, which leaves delivery paused, or,
        reordering, cannot be read for the answer.  A creation whose transaction fails does
        not leave delivery paused, if publishing works. */
    method Perform(a: Account, op: Operation, fits: bool, luck: Luck) returns (r: Reply, ghost step: Step)
      requires Ok()
      modifies this
      ensures Ok() && AgreedFrom(trace, |old(trace)|) && old(trace) <= trace
      ensures step == BeforeChange <==>
        a !in old(stored) || !fits || !Possible(old(stored)[a], op)
        || !luck.commit || (publishes && luck.pause != Works)
      ensures step == BeforeChange ==> stored == old(stored)
      ensures step != BeforeChange ==>
        && a in stored && Effect(old(stored)[a], op, stored[a]) && stored == old(stored)[a := stored[a]]
      ensures step == AtRecords ==> publishes && !luck.records && a in snapshots && snapshots[a] == []
      ensures step == AtListing ==> op.ReorderRules? && !luck.listing
      ensures step == Nowhere ==> (publishes ==> luck.records) && (op.ReorderRules? ==> luck.listing)
      ensures r.Done? <==> step == Nowhere
      ensures r.Done? ==> (r.deliveryReady <==> !publishes || luck.publish == Works)
      ensures (r.Done? || step == AtListing) && publishes ==>
        a in snapshots && snapshots[a] == if luck.publish == FailsBefore then [] else stored[a]
      ensures forall b :: b != a ==>
        (b in snapshots <==> b in old(snapshots)) && (b in snapshots ==> snapshots[b] == old(snapshots)[b])
      ensures step == BeforeChange && op.CreateRule? && a in stored && fits && AllPublished(publishes, luck) ==>
        a in snapshots && snapshots[a] == stored[a]
      ensures step == BeforeChange && !op.CreateRule? && publishes && luck.pause == Works ==>
        a !in stored || !fits || !Possible(stored[a], op) || (a in snapshots && snapshots[a] == [])
    {
      ghost var from := |trace|;
      if a !in stored || !fits {
        return Failed, BeforeChange;
      }
      var rules := Result(stored[a], op);
      ResultMeaning(stored[a], op);
      if rules.None? && !op.CreateRule? {
        return Failed, BeforeChange;
      }
      var ok := Publish(a, [], luck.pause, from);
      if !ok {
        return Failed, BeforeChange;
      }
      ok := Change(a, op, rules, luck, from);
      if !ok {
        return Failed, BeforeChange;
      }
      var p := PublishStored(a, luck, from);
      if p == Unread {
        return Failed, AtRecords;
      }
      if op.ReorderRules? && !luck.listing {
        return Failed, AtListing;
      }
      r, step := Done(p == Complete), Nowhere;
    }

    /** A whole run of operations, whatever fails in it: at every moment snapshots agree, and
        from one operation to the next the stored rules change only by its effect. */
    method Serve(requests: seq<Request>) returns (replies: seq<Reply>, ghost states: seq<Lists>)
      requires Ok()
      modifies this
      ensures Ok() && AgreedFrom(trace, |old(trace)|) && old(trace) <= trace
      ensures |replies| == |requests| && |states| == |requests| + 1
      ensures states[0] == old(stored) && states[|requests|] == stored
      ensures forall i :: 0 <= i < |requests| ==> Answered(publishes, requests[i], states[i], replies[i], states[i + 1])
    {
      ghost var from := |trace|;
      replies, states := [], [stored];
      for i := 0 to |requests|
        invariant Ok() && AgreedFrom(trace, from) && old(trace) <= trace
        invariant |replies| == i && |states| == i + 1 && states[0] == old(stored) && states[i] == stored
        invariant forall j :: 0 <= j < i ==> Answered(publishes, requests[j], states[j], replies[j], states[j + 1])
      {
        ghost var before := trace;
        var reply, _ := Perform(requests[i].account, requests[i].op, requests[i].fits, requests[i].luck);
        Extended(before, trace, from);
        replies, states := replies + [reply], states + [stored];
      }
    }

    /** What delivery makes of a message at this moment: no target, or the simple meaning of
        the stored rules; never an error.  While the stored rules are published it is their
        meaning, for every message in range that can be read. */
    method DeliverMessage(a: Account, size: nat, readable: bool, goodId: RuleId -> bool,
        matches: string -> bool) returns (r: Outcome)
      requires Ok() && (a in stored ==> forall i :: 0 <= i < |stored[a]| ==> goodId(stored[a][i].id))
      ensures r.Filed? && FiledAt(Now(), a, size, readable, matches, r.target)
    {
      var snapshot := if a in snapshots then Some(snapshots[a]) else None;
      if snapshot.Some? {
        SnapshotIsAcceptable(Now(), a, goodId);
      }
      r := EvaluateFilterMessage(size, snapshot, readable, goodId, matches);
      FiledWell(Now(), a, size, readable, matches, r.target);
    }
  }

  /** One operation seen from outside: the stored rules are as before, or the rules of this
      account have changed by its effect; a good answer means the latter, and an operation that
      is possible and meets no failure gets a good answer. */
  ghost predicate Answered(publishes: bool, q: Request, before: Lists, r: Reply, after: Lists) {
    && (after == before || Changed(q.account, q.op, before, after))
    && (r.Done? ==> q.fits && Changed(q.account, q.op, before, after))
    && (q.account in before && q.fits && Possible(before[q.account], q.op) && Unfailing(q.luck) ==> r == Done(true))
  }

  ghost predicate Changed(a: Account, op: Operation, before: Lists, after: Lists) {
    && a in before && a in after && Possible(before[a], op) && Effect(before[a], op, after[a])
    && after == before[a := after[a]]
  }

  predicate Unfailing(luck: Luck) {
    luck.pause == Works && luck.commit && luck.records && luck.publish == Works && luck.listing
  }

  /** Snapshots are published, and no publication fails. */
  predicate AllPublished(publishes: bool, luck: Luck) {
    publishes && luck.pause == Works && luck.records && luck.publish == Works
  }

  /** A target that the filter may give a message at this moment: that of the stored rules if
      they are published, and none if the snapshot is absent or empty or the message is out of
      range or cannot be read. */
  ghost predicate FiledAt(m: Moment, a: Account, size: nat, readable: bool, matches: string -> bool,
      target: Option<string>) {
    && (target.Some? ==> a in m.stored && Delivers(m.stored[a], matches, target))
    && (InRange(size) && readable && a in m.snapshots && a in m.stored && m.snapshots[a] == m.stored[a] ==>
          Delivers(m.stored[a], matches, target))
    && (!InRange(size) || !readable || a !in m.snapshots || m.snapshots[a] == [] ==> target == None)
  }

  /** Every answer of the filter from the snapshot of a moment at which agreement holds is such
      a target; so it is at all the moments inside an operation. */
  lemma {:induction false} FiledWell(m: Moment, a: Account, size: nat, readable: bool, matches: string -> bool,
      target: Option<string>)
    requires Agreed(m)
    requires !InRange(size) || !readable || a !in m.snapshots ==> target == None
    requires InRange(size) && readable && a in m.snapshots ==> Delivers(m.snapshots[a], matches, target)
    ensures FiledAt(m, a, size, readable, matches, target)
  {
    assert AgreedFor(m, a);
  }

  /** The same for every moment of a trace, as `Perform` and `Serve` leave it. */
  lemma {:induction false} FiledAlways(trace: seq<Moment>, from: nat, i: nat, a: Account, size: nat, readable: bool,
                                       matches: string -> bool, target: Option<string>)
    requires AgreedFrom(trace, from) && from <= i < |trace|
    requires !InRange(size) || !readable || a !in trace[i].snapshots ==> target == None
    requires InRange(size) && readable && a in trace[i].snapshots ==> Delivers(trace[i].snapshots[a], matches, target)
    ensures FiledAt(trace[i], a, size, readable, matches, target)
  {
    FiledWell(trace[i], a, size, readable, matches, target);
  }

  lemma {:induction false} SnapshotIsAcceptable(m: Moment, a: Account, goodId: RuleId -> bool)
    requires Agreed(m) && a in m.snapshots && (a in m.stored ==> forall i :: 0 <= i < |m.stored[a]| ==>
        goodId(m.stored[a][i].id))
    ensures Acceptable(m.snapshots[a], goodId)
  {
    assert AgreedFor(m, a);
    StoredIsAcceptable(m.snapshots[a], goodId);
  }
}
