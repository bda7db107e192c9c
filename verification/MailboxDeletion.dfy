/** Deleting a mailbox without losing its mail. */
module MailboxDeletion {
  import opened Options
  import opened MailboxContents
  import opened MessageWindow

  // `migrate_and_delete_mailbox` renames the mailbox to a quarantine name, copies its messages to
  // the target, removes them from the quarantine and then removes the quarantine.  Between any
  // two commands others deliver mail and create mailboxes; a command that reports failure may
  // have taken full, partial or no effect.

  const ATTEMPTS := 4

  type Boxes = map<string, Mailbox>
  type Ledger = map<string, multiset<string>>

  function Has(boxes: Boxes, name: string): multiset<string> {
    if name in boxes then multiset(Contents(boxes[name])) else multiset{}
  }

  function Sent(delivered: Ledger, name: string): multiset<string> {
    if name in delivered then delivered[name] else multiset{}
  }

  ghost predicate Ordered(mb: Mailbox) {
    && (forall i :: 0 <= i < |mb| ==> mb[i].uid >= 1)
    && (forall i, j :: Before(mb, i, j))
  }

  lemma {:induction false} OrderedAppend(mb: Mailbox, contents: seq<string>)
    requires Ordered(mb)
    ensures Ordered(Append(mb, contents))
  {
    var mb' := Append(mb, contents);
    forall i, j ensures Before(mb', i, j) {
      assert Before(mb, i, j);
      assert Before(mb, i, |mb| - 1);
    }
  }

  lemma {:induction false} OrderedCons(m: Message, rest: Mailbox)
    requires Ordered(rest) && m.uid >= 1 && forall n :: n in rest ==> m.uid < n.uid
    ensures Ordered([m] + rest)
  {
    var mb := [m] + rest;
    forall i, j ensures Before(mb, i, j) {
      assert Before(rest, i - 1, j - 1);
      if 0 <= i < j < |mb| {
        assert rest[j - 1] in rest;
      }
    }
  }

  lemma {:induction false} OrderedTail(mb: Mailbox)
    requires Ordered(mb) && mb != []
    ensures Ordered(mb[1..]) && forall n :: n in mb[1..] ==> mb[0].uid < n.uid
  {
    var rest := mb[1..];
    forall i, j ensures Before(rest, i, j) {
      assert Before(mb, i + 1, j + 1);
    }
    forall k | 0 <= k < |rest| ensures mb[0].uid < rest[k].uid {
      assert Before(mb, 0, k + 1);
    }
  }

  lemma {:induction false} OrderedKeep(mb: Mailbox, p: Message -> bool)
    requires Ordered(mb)
    ensures Ordered(Keep(mb, p))
  {
    if mb != [] {
      OrderedTail(mb);
      OrderedKeep(mb[1..], p);
      KeepAll(mb[1..], p);
      OrderedCons(mb[0], Keep(mb[1..], p));
    }
  }

  // ---------------------------------------------------------------------------------------
  // The mail store and its commands
  // ---------------------------------------------------------------------------------------

  /** What deliveries and creations by others may make of the mailboxes. */
  ghost predicate Grown(boxes: Boxes, boxes': Boxes, unnamed: set<string>) {
    && (forall n :: n in boxes ==> n in boxes' && boxes[n] <= boxes'[n])
    && (forall n :: n in unnamed && n in boxes' ==> n in boxes && boxes'[n] == boxes[n])
  }

  /** Every mailbox gained exactly what was delivered to it. */
  ghost predicate Accounted(boxes: Boxes, delivered: Ledger, boxes': Boxes, delivered': Ledger) {
    forall n :: AccountedAt(boxes, delivered, boxes', delivered', n)
  }

  ghost predicate AccountedAt(boxes: Boxes, delivered: Ledger, boxes': Boxes, delivered': Ledger, n: string) {
    Has(boxes', n) + Sent(delivered, n) == Has(boxes, n) + Sent(delivered', n)
  }

  lemma {:induction false} AccountedTwice(a: Boxes, da: Ledger, b: Boxes, db: Ledger, c: Boxes, dc: Ledger)
    requires Accounted(a, da, b, db) && Accounted(b, db, c, dc)
    ensures Accounted(a, da, c, dc)
  {
    forall n ensures AccountedAt(a, da, c, dc, n) {
      assert AccountedAt(a, da, b, db, n) && AccountedAt(b, db, c, dc, n);
      Cancel(Has(a, n), Sent(da, n), Has(b, n), Sent(db, n), Has(c, n), Sent(dc, n));
    }
  }

  lemma {:induction false} Cancel(a: multiset<string>, da: multiset<string>, b: multiset<string>, db: multiset<string>,
                                  c: multiset<string>, dc: multiset<string>)
    requires b + da == a + db && c + db == b + dc
    ensures c + da == a + dc
  {
    forall x: string ensures (c + da)[x] == (a + dc)[x] {
      assert (b + da)[x] == (a + db)[x] && (c + db)[x] == (b + dc)[x];
    }
  }

  lemma {:induction false} DeliveryCounted(boxes: Boxes, name: string, mb: Mailbox, contents: seq<string>)
    requires mb == if name in boxes then boxes[name] else []
    ensures Has(boxes[name := Append(mb, contents)], name) == Has(boxes, name) + multiset(contents)
  {
    AppendContents(mb, contents);
    assert Contents([]) == [];
  }

  lemma {:induction false} DeliveryAccounted(boxes: Boxes, delivered: Ledger, name: string, mb: Mailbox,
      contents: seq<string>)
    requires mb == if name in boxes then boxes[name] else []
    ensures Accounted(boxes, delivered, boxes[name := Append(mb, contents)],
                      delivered[name := Sent(delivered, name) + multiset(contents)])
  {
    var boxes' := boxes[name := Append(mb, contents)];
    var delivered' := delivered[name := Sent(delivered, name) + multiset(contents)];
    DeliveryCounted(boxes, name, mb, contents);
    forall n ensures AccountedAt(boxes, delivered, boxes', delivered', n) {
      if n == name {
        MoreOnBothSides(Has(boxes, n), Sent(delivered, n), multiset(contents));
      } else {
        assert Has(boxes', n) == Has(boxes, n) && Sent(delivered', n) == Sent(delivered, n);
      }
    }
  }

  lemma {:induction false} MoreOnBothSides(a: multiset<string>, d: multiset<string>, more: multiset<string>)
    ensures (a + more) + d == a + (d + more)
  {
  }

  /** The states between two commands, the last one being that in which the next command acts. */
  ghost predicate Interlude(boxes: Boxes, passed: seq<Boxes>, unnamed: set<string>) {
    passed != [] && forall i :: 0 <= i < |passed| ==> Grown(boxes, passed[i], unnamed)
  }

  /** The newest message has a number beyond the last UID there can be. */
  ghost predicate Overflows(mb: Mailbox) {
    mb != [] && mb[|mb| - 1].uid > MAX_UID
  }

  /** A rename command that was issued, with the names that were last listed before it. */
  datatype Rename = Rename(from: string, to: string, listed: set<string>)

  /** Every mailbox but one is as it was. */
  ghost predicate OnlyTouched(boxes: Boxes, boxes': Boxes, name: string) {
    forall n :: n != name ==> (n in boxes' <==> n in boxes) && (n in boxes ==> boxes'[n] == boxes[n])
  }

  /** No rename issued since was to a name that the listing before it had shown. */
  ghost predicate NoneListed(before: seq<Rename>, renames: seq<Rename>) {
    before <= renames && forall i :: |before| <= i < |renames| ==> renames[i].to !in renames[i].listed
  }

  function Renamed(boxes: Boxes, from: string, to: string): Boxes
    requires from in boxes
  {
    (boxes - {from})[to := boxes[from]]
  }

  class MailStore {
    /** Names that nobody else knows. */
    const unnamed: set<string>
    var boxes: Boxes
    ghost var delivered: Ledger
    ghost var trace: seq<Boxes>
    ghost var listed: set<string>
    ghost var renames: seq<Rename>
    /** The answers of all listings. */
    ghost var listings: seq<set<string>>
    /** How many commands have not done what they were for, although the mailboxes allowed it. */
    ghost var faults: nat

    ghost predicate Valid()
      reads this
    {
      forall n :: n in boxes ==> Ordered(boxes[n])
    }

    constructor (boxes: Boxes, unnamed: set<string>)
      requires forall n :: n in boxes ==> Ordered(boxes[n])
      ensures Valid() && this.boxes == boxes && this.unnamed == unnamed && trace == [] && renames == []
    {
      this.boxes, this.unnamed := boxes, unnamed;
      delivered, trace, listed, renames, listings, faults := map[], [], {}, [], [], 0;
    }

    /** Somebody else delivers to a mailbox, which is created if need be. */
    method Deliver(name: string, contents: seq<string>)
      requires Valid() && name !in unnamed
      modifies `boxes, `delivered
      ensures Valid() && Grown(old(boxes), boxes, unnamed) && Accounted(old(boxes), old(delivered), boxes, delivered)
    {
      var mb := if name in boxes then boxes[name] else [];
      OrderedAppend(mb, contents);
      DeliveryAccounted(boxes, delivered, name, mb, contents);
      boxes := boxes[name := Append(mb, contents)];
      delivered := delivered[name := Sent(delivered, name) + multiset(contents)];
    }

    /** What others do between two commands. */
    method Others() returns (ghost passed: seq<Boxes>)
      requires Valid()
      modifies `boxes, `delivered, `trace
      ensures Valid() && trace == old(trace) + passed && Interlude(old(boxes), passed, unnamed)
      ensures boxes == passed[|passed| - 1]
      ensures Accounted(old(boxes), old(delivered), boxes, delivered)
    {
      passed := [boxes];
      var n: int := *;
      while n > 0
        invariant Valid() && Interlude(old(boxes), passed, unnamed) && trace == old(trace)
        invariant boxes == passed[|passed| - 1]
        invariant Accounted(old(boxes), old(delivered), boxes, delivered)
      {
        var name, contents := *, *;
        if name !in unnamed {
          ghost var before, ledger := boxes, delivered;
          Deliver(name, contents);
          GrownTwice(old(boxes), before, boxes, unnamed);
          AccountedTwice(old(boxes), old(delivered), before, ledger, boxes, delivered);
          passed := passed + [boxes];
        }
        n := n - 1;
      }
      trace := trace + passed;
    }

    /** List the mailboxes; an answer is truthful. */
    method List() returns (names: Option<set<string>>, ghost passed: seq<Boxes>)
      requires Valid()
      modifies `boxes, `delivered, `trace, `listed, `listings, `faults
      ensures Valid() && trace == old(trace) + passed && Interlude(old(boxes), passed, unnamed)
      ensures boxes == passed[|passed| - 1]
      ensures Accounted(old(boxes), old(delivered), boxes, delivered)
      ensures listed == if names.Some? then names.value else old(listed)
      ensures listings == if names.Some? then old(listings) + [names.value] else old(listings)
      ensures names.Some? ==> names.value == boxes.Keys
      ensures faults == if names.Some? then old(faults) else old(faults) + 1
    {
      passed := Others();
      var answered: bool := *;
      names := if answered then Some(boxes.Keys) else None;
      if answered {
        listed, listings := boxes.Keys, listings + [boxes.Keys];
      } else {
        faults := faults + 1;
      }
    }

    /** The UID of the newest message, 0 for none. */
    method Latest(name: string) returns (uid: Option<nat>, ghost passed: seq<Boxes>)
      requires Valid()
      modifies `boxes, `delivered, `trace, `faults
      ensures Valid() && trace == old(trace) + passed && Interlude(old(boxes), passed, unnamed)
      ensures boxes == passed[|passed| - 1]
      ensures Accounted(old(boxes), old(delivered), boxes, delivered)
      ensures faults >= old(faults)
      ensures faults == old(faults) && name in boxes && !Overflows(boxes[name]) ==> uid.Some?
      ensures uid.Some? ==> name in boxes
      ensures uid.Some? && uid.value == 0 ==> boxes[name] == []
      ensures uid.Some? ==> forall i :: 0 <= i < |boxes[name]| ==> boxes[name][i].uid <= uid.value
    {
      passed := Others();
      var answered: bool := *;
      if !answered {
        faults := faults + 1;
      }
      if !answered || name !in boxes {
        return None, passed;
      }
      var records := ListUid(boxes[name], 0);
      if records == [] {
        return Some(0), passed;
      }
      assert records[0].uid == boxes[name][|boxes[name]| - 1].uid;
      if |records| != 1 || !(1 <= records[0].uid <= MAX_UID) {
        return None, passed;
      }
      uid := Some(records[0].uid);
      LastIsNewest(boxes[name]);
    }

    /** Whether the bounded window of the newest messages is non-empty. */
    method Occupied(name: string) returns (any: Option<bool>, ghost passed: seq<Boxes>)
      requires Valid()
      modifies `boxes, `delivered, `trace, `faults
      ensures Valid() && trace == old(trace) + passed && Interlude(old(boxes), passed, unnamed)
      ensures boxes == passed[|passed| - 1]
      ensures Accounted(old(boxes), old(delivered), boxes, delivered)
      ensures faults >= old(faults)
      ensures faults == old(faults) && name in boxes && boxes[name] == [] ==> any == Some(false)
      ensures any == Some(false) ==> name in boxes && boxes[name] == []
    {
      passed := Others();
      var answered: bool := *;
      if !answered {
        faults := faults + 1;
      }
      if !answered || name !in boxes {
        return None, passed;
      }
      var window := ListMessageWindow(boxes[name], boxes[name], 1, 0);
      if !window.Found? {
        return None, passed;
      }
      any := Some(window.records != []);
    }

    /** Rename a mailbox: refused if the new name is taken (section 6.3.5 of RFC 3501).  Even a
        report of success may be wrong. */
    method RenameBox(from: string, to: string) returns (ok: bool, ghost passed: seq<Boxes>)
      requires Valid()
      modifies `boxes, `delivered, `trace, `renames, `faults
      ensures Valid() && trace == old(trace) + passed + [boxes] && Interlude(old(boxes), passed, unnamed)
      ensures var mid := passed[|passed| - 1];
        && Accounted(old(boxes), old(delivered), mid, delivered)
        && (boxes == mid || (from in mid && to !in mid && boxes == Renamed(mid, from, to)))
        && (ok ==> from in mid && to !in mid)
        && (faults == old(faults) ==>
              (ok <==> from in mid && to !in mid) && (ok ==> boxes == Renamed(mid, from, to)))
      ensures faults >= old(faults)
      ensures renames == old(renames) + [Rename(from, to, listed)]
    {
      passed := Others();
      renames := renames + [Rename(from, to, listed)];
      ok := *;
      if from !in boxes || to in boxes {
        ok := false;
      } else {
        var effect: bool := *;
        faults := if ok && effect then faults else faults + 1;
        if effect {
          boxes := Renamed(boxes, from, to);
        }
      }
      trace := trace + [boxes];
    }

    /** Copy the messages with UIDs 1 to `upTo`; a failed copy may have copied some of them. */
    method Copy(from: string, upTo: nat, to: string) returns (ok: bool, ghost passed: seq<Boxes>)
      requires Valid() && from != to
      modifies `boxes, `delivered, `trace, `faults
      ensures Valid() && trace == old(trace) + passed + [boxes] && Interlude(old(boxes), passed, unnamed)
      ensures var mid := passed[|passed| - 1];
        && Accounted(old(boxes), old(delivered), mid, delivered)
        && boxes.Keys == mid.Keys
        && (forall n :: n in mid && n != to ==> boxes[n] == mid[n])
        && (to in mid ==> mid[to] <= boxes[to])
        && (faults == old(faults) ==> (ok <==> from in mid && to in mid))
        && (ok ==>
              && from in mid && to in mid
              && boxes[to] == Append(mid[to], Contents(Keep(mid[from], (m: Message) => 1 <= m.uid <= upTo))))
      ensures faults >= old(faults)
    {
      passed := Others();
      ok := *;
      if from !in boxes || to !in boxes {
        ok := false;
      } else {
        faults := if ok then faults else faults + 1;
        var chosen: set<nat> := *;
        var all := ok;
        var copied := Contents(Keep(boxes[from], (m: Message) => 1 <= m.uid <= upTo && (all || m.uid in chosen)));
        OrderedAppend(boxes[to], copied);
        if ok {
          KeepSame(boxes[from], (m: Message) => 1 <= m.uid <= upTo && (all || m.uid in chosen),
                   (m: Message) => 1 <= m.uid <= upTo);
        }
        boxes := boxes[to := Append(boxes[to], copied)];
      }
      trace := trace + [boxes];
    }

    /** Remove the messages with UIDs 1 to `upTo`; a failure may have removed some of them. */
    method RemoveMessages(name: string, upTo: nat) returns (ok: bool, ghost passed: seq<Boxes>)
      requires Valid()
      modifies `boxes, `delivered, `trace, `faults
      ensures Valid() && trace == old(trace) + passed + [boxes] && Interlude(old(boxes), passed, unnamed)
      ensures var mid := passed[|passed| - 1];
        && Accounted(old(boxes), old(delivered), mid, delivered)
        && OnlyTouched(mid, boxes, name) && (name in boxes <==> name in mid)
        && (ok ==> name in mid && boxes[name] == Keep(mid[name], (m: Message) => !(1 <= m.uid <= upTo)))
        && (faults == old(faults) ==> (ok <==> name in mid))
      ensures faults >= old(faults)
    {
      passed := Others();
      ok := *;
      if name !in boxes {
        ok := false;
      } else {
        faults := if ok then faults else faults + 1;
        var spared: set<nat> := *;
        var none := ok;
        var stays := (m: Message) => !(1 <= m.uid <= upTo) || (!none && m.uid in spared);
        OrderedKeep(boxes[name], stays);
        if ok {
          KeepSame(boxes[name], stays, (m: Message) => !(1 <= m.uid <= upTo));
        }
        boxes := boxes[name := Keep(boxes[name], stays)];
      }
      trace := trace + [boxes];
    }

    /** Remove a mailbox; even a report of success may be wrong. */
    method RemoveBox(name: string) returns (ok: bool, ghost passed: seq<Boxes>)
      requires Valid()
      modifies `boxes, `delivered, `trace, `faults
      ensures Valid() && trace == old(trace) + passed + [boxes] && Interlude(old(boxes), passed, unnamed)
      ensures var mid := passed[|passed| - 1];
        && Accounted(old(boxes), old(delivered), mid, delivered)
        && OnlyTouched(mid, boxes, name)
        && (name in boxes ==> name in mid && boxes[name] == mid[name])
        && (faults == old(faults) ==> (ok <==> name in mid) && (ok ==> name !in boxes))
      ensures faults >= old(faults)
    {
      passed := Others();
      ok := *;
      if name !in boxes {
        ok := false;
      } else {
        var effect: bool := *;
        faults := if ok && effect then faults else faults + 1;
        if effect {
          boxes := boxes - {name};
        }
      }
      trace := trace + [boxes];
    }
  }

  lemma {:induction false} GrownTwice(a: Boxes, b: Boxes, c: Boxes, unnamed: set<string>)
    requires Grown(a, b, unnamed) && Grown(b, c, unnamed)
    ensures Grown(a, c, unnamed)
  {
    forall n | n in a ensures n in c && a[n] <= c[n] {
      assert a[n] <= b[n] <= c[n];
    }
  }

  lemma {:induction false} LastIsNewest(mb: Mailbox)
    requires Ordered(mb) && mb != []
    ensures forall i :: 0 <= i < |mb| ==> mb[i].uid <= mb[|mb| - 1].uid
  {
    forall i | 0 <= i < |mb| ensures mb[i].uid <= mb[|mb| - 1].uid {
      assert Before(mb, i, |mb| - 1);
    }
  }

  // ---------------------------------------------------------------------------------------
  // The mail being watched
  // ---------------------------------------------------------------------------------------

  /** `mail` is what the source held when the operation began, `before` what the target held. */
  datatype Watch = Watch(source: string, quarantine: string, target: string, mail: multiset<string>,
      before: multiset<string>)

  ghost predicate HeldIn(b: Boxes, name: string, mail: multiset<string>) {
    mail <= Has(b, name)
  }

  /** One of the three mailboxes holds all of the watched mail. */
  ghost predicate Held(b: Boxes, w: Watch) {
    HeldIn(b, w.source, w.mail) || HeldIn(b, w.quarantine, w.mail) || HeldIn(b, w.target, w.mail)
  }

  /** And so it was in every state from position `from` on. */
  ghost predicate Safe(b: Boxes, trace: seq<Boxes>, from: nat, w: Watch) {
    from <= |trace| && Held(b, w) && forall i :: from <= i < |trace| ==> Held(trace[i], w)
  }

  lemma {:induction false} GrownHas(b: Boxes, b': Boxes, unnamed: set<string>, name: string, mail: multiset<string>)
    requires Grown(b, b', unnamed)
    ensures HeldIn(b, name, mail) ==> HeldIn(b', name, mail)
  {
    if name in b {
      var n := |b[name]|;
      assert b'[name] == b[name] + b'[name][n..];
      ContentsConcat(b[name], b'[name][n..]);
      assert Has(b, name) <= Has(b', name);
    }
  }

  lemma {:induction false} GrownHeld(b: Boxes, b': Boxes, unnamed: set<string>, w: Watch)
    requires Grown(b, b', unnamed) && Held(b, w)
    ensures Held(b', w)
  {
    GrownHas(b, b', unnamed, w.source, w.mail);
    GrownHas(b, b', unnamed, w.quarantine, w.mail);
    GrownHas(b, b', unnamed, w.target, w.mail);
  }

  /** Whatever others do between commands, the watched mail stays held. */
  lemma {:induction false} SafeInterlude(b: Boxes, passed: seq<Boxes>, unnamed: set<string>, trace: seq<Boxes>,
      from: nat, w: Watch)
    requires Interlude(b, passed, unnamed) && Safe(b, trace, from, w)
    ensures Safe(passed[|passed| - 1], trace + passed, from, w)
  {
    forall i | 0 <= i < |passed| ensures Held(passed[i], w) {
      GrownHeld(b, passed[i], unnamed, w);
    }
  }

  lemma {:induction false} SafeCommand(b: Boxes, b': Boxes, trace: seq<Boxes>, from: nat, w: Watch)
    requires Safe(b, trace, from, w) && Held(b', w)
    ensures Safe(b', trace + [b'], from, w)
  {
  }

  lemma {:induction false} RenamedHeld(b: Boxes, from: string, to: string, w: Watch)
    requires Held(b, w) && from in b && to !in b
    requires {from, to} == {w.source, w.quarantine} && w.target != w.source && w.target != w.quarantine
    ensures Held(Renamed(b, from, to), w)
  {
    var b' := Renamed(b, from, to);
    assert Has(b', to) == Has(b, from);
    assert w.target in b ==> Has(b', w.target) == Has(b, w.target);
  }

  // ---------------------------------------------------------------------------------------
  // Where the operation stands
  // ---------------------------------------------------------------------------------------

  ghost predicate Distinct(w: Watch) {
    w.source != w.quarantine && w.source != w.target && w.quarantine != w.target
  }

  /** Nothing has happened yet: only deliveries have come. */
  ghost predicate Untouched(b: Boxes, d: Ledger, w: Watch) {
    && w.target in b && w.quarantine !in b
    && Has(b, w.source) == w.mail + Sent(d, w.source)
    && Has(b, w.target) == w.before + Sent(d, w.target)
  }

  /** Unless the source has come back, `late` is all that was ever delivered to it. */
  ghost predicate Settled(b: Boxes, d: Ledger, w: Watch, late: multiset<string>) {
    w.source !in b ==> Sent(d, w.source) == late
  }

  ghost predicate Quarantined(b: Boxes, d: Ledger, w: Watch, late: multiset<string>) {
    && w.target in b && w.quarantine in b && Settled(b, d, w, late)
    && Has(b, w.quarantine) == w.mail + late
    && Has(b, w.target) == w.before + Sent(d, w.target)
  }

  /** The target has the mail, whatever is left of the quarantine. */
  ghost predicate Migrated(b: Boxes, d: Ledger, w: Watch, late: multiset<string>) {
    && w.target in b && Settled(b, d, w, late)
    && Has(b, w.target) == w.before + (w.mail + late) + Sent(d, w.target)
  }

  /** Source and quarantine are gone, and the target has gained the mail and all deliveries. */
  ghost predicate Finished(b: Boxes, d: Ledger, w: Watch) {
    && w.source !in b && w.quarantine !in b && w.target in b
    && Has(b, w.target) == w.before + (w.mail + Sent(d, w.source)) + Sent(d, w.target)
  }

  lemma {:induction false} GrownUntouched(b: Boxes, d: Ledger, b': Boxes, d': Ledger, unnamed: set<string>, w: Watch)
    requires Grown(b, b', unnamed) && Accounted(b, d, b', d') && w.quarantine in unnamed
    requires Untouched(b, d, w)
    ensures Untouched(b', d', w)
  {
    assert AccountedAt(b, d, b', d', w.source) && AccountedAt(b, d, b', d', w.target);
    Cancel(w.mail, multiset{}, Has(b, w.source), Sent(d, w.source), Has(b', w.source), Sent(d', w.source));
    Cancel(w.before, multiset{}, Has(b, w.target), Sent(d, w.target), Has(b', w.target), Sent(d', w.target));
  }

  lemma {:induction false} GrownSettled(b: Boxes, d: Ledger, b': Boxes, d': Ledger, unnamed: set<string>, w: Watch,
      late: multiset<string>)
    requires Grown(b, b', unnamed) && Accounted(b, d, b', d') && Settled(b, d, w, late)
    ensures Settled(b', d', w, late)
  {
    if w.source !in b' {
      assert AccountedAt(b, d, b', d', w.source);
      assert multiset{} + Sent(d, w.source) == Sent(d, w.source)
          && multiset{} + Sent(d', w.source) == Sent(d', w.source);
    }
  }

  lemma {:induction false} GrownQuarantined(b: Boxes, d: Ledger, b': Boxes, d': Ledger, unnamed: set<string>,
      w: Watch, late: multiset<string>)
    requires Grown(b, b', unnamed) && Accounted(b, d, b', d') && w.quarantine in unnamed
    requires Quarantined(b, d, w, late) && w.quarantine in b'
    ensures Quarantined(b', d', w, late) && b'[w.quarantine] == b[w.quarantine]
  {
    assert AccountedAt(b, d, b', d', w.target);
    GrownSettled(b, d, b', d', unnamed, w, late);
    Cancel(w.before, multiset{}, Has(b, w.target), Sent(d, w.target), Has(b', w.target), Sent(d', w.target));
  }

  lemma {:induction false} GrownMigrated(b: Boxes, d: Ledger, b': Boxes, d': Ledger, unnamed: set<string>, w: Watch,
      late: multiset<string>)
    requires Grown(b, b', unnamed) && Accounted(b, d, b', d') && Migrated(b, d, w, late)
    ensures Migrated(b', d', w, late)
  {
    var all := w.before + (w.mail + late);
    assert AccountedAt(b, d, b', d', w.target);
    GrownSettled(b, d, b', d', unnamed, w, late);
    Cancel(all, multiset{}, Has(b, w.target), Sent(d, w.target), Has(b', w.target), Sent(d', w.target));
  }

  /** What may stop the operation although no command fails: the source was created anew while
      its mail is in quarantine or when the quarantine is gone, or UIDs have run out. */
  ghost predicate Disturbed(b: Boxes, w: Watch) {
    || (w.source in b && w.quarantine in b)
    || (w.source in b && w.quarantine !in b && HeldIn(b, w.target, w.before + w.mail))
    || OverflowIn(b, w.source) || OverflowIn(b, w.quarantine)
  }

  ghost predicate OverflowIn(b: Boxes, name: string) {
    name in b && Overflows(b[name])
  }

  /** Once disturbed, always disturbed. */
  lemma {:induction false} StaysDisturbed(b: Boxes, b': Boxes, unnamed: set<string>, w: Watch)
    requires Disturbed(b, w) && w.quarantine in unnamed && Grown(b, b', unnamed)
    requires forall n :: n in b' ==> Ordered(b'[n])
    ensures Disturbed(b', w)
  {
    GrownHas(b, b', unnamed, w.target, w.before + w.mail);
    forall n | OverflowIn(b, n) ensures OverflowIn(b', n) {
      assert b'[n][|b[n]| - 1] == b[n][|b[n]| - 1];
      LastIsNewest(b'[n]);
    }
  }

  // ---------------------------------------------------------------------------------------
  // The phases
  // ---------------------------------------------------------------------------------------

  /** What the quarantining rename does, whether it reports success or not. */
  lemma {:induction false} QuarantineStep(b: Boxes, d: Ledger, mid: Boxes, d': Ledger, b': Boxes,
      unnamed: set<string>, w: Watch)
    requires Grown(b, mid, unnamed) && Accounted(b, d, mid, d') && w.quarantine in unnamed && Distinct(w)
    requires Untouched(b, d, w) && (b' == mid || (w.source in mid && b' == Renamed(mid, w.source, w.quarantine)))
    ensures Held(b', w) && (b' != mid ==> Quarantined(b', d', w, Sent(d', w.source)))
  {
    GrownUntouched(b, d, mid, d', unnamed, w);
    if b' != mid {
      assert Has(b', w.quarantine) == Has(mid, w.source) && Has(b', w.target) == Has(mid, w.target);
    }
  }

  /** A phase that fails: a command has failed, or the operation was disturbed. */
  ghost predicate Excused(store: MailStore, faults: nat, w: Watch)
    reads store
  {
    store.faults > faults || Disturbed(store.boxes, w)
  }

  /** Nothing is lost from the records. */
  twostate predicate Onward(store: MailStore)
    reads store
  {
    old(store.faults) <= store.faults && old(store.listings) <= store.listings
  }

  /** Rename the source away. */
  method RenameAway(store: MailStore, source: string, quarantine: string, ghost w: Watch, ghost from: nat)
    returns (ok: bool, ghost late: multiset<string>)
    requires store.Valid() && Distinct(w) && w.quarantine in store.unnamed
    requires (source, quarantine) == (w.source, w.quarantine)
    requires Untouched(store.boxes, store.delivered, w) && Safe(store.boxes, store.trace, from, w)
    requires quarantine !in store.listed && source in store.boxes
    modifies store
    ensures store.Valid() && Safe(store.boxes, store.trace, from, w) && Onward(store)
    ensures ok && source !in store.boxes ==> Quarantined(store.boxes, store.delivered, w, late)
    ensures store.faults == old(store.faults) ==> ok && source !in store.boxes && quarantine in store.boxes
    ensures NoneListed(old(store.renames), store.renames)
  {
    ghost var b0, d0, t0 := store.boxes, store.delivered, store.trace;
    ghost var passed;
    ok, passed := store.RenameBox(source, quarantine);
    ghost var mid := passed[|passed| - 1];
    SafeInterlude(b0, passed, store.unnamed, t0, from, w);
    QuarantineStep(b0, d0, mid, store.delivered, store.boxes, store.unnamed, w);
    SafeCommand(mid, store.boxes, t0 + passed, from, w);
    late := Sent(store.delivered, source);
    assert Grown(b0, mid, store.unnamed);
    assert source in mid && quarantine !in mid;
  }

  /** Rename the source away and check the listing. */
  method Quarantine(store: MailStore, source: string, quarantine: string, target: string, ghost w: Watch,
      ghost from: nat)
    returns (ok: bool, ghost late: multiset<string>)
    requires store.Valid() && Distinct(w) && w.quarantine in store.unnamed
    requires (source, quarantine, target) == (w.source, w.quarantine, w.target)
    requires Untouched(store.boxes, store.delivered, w) && Safe(store.boxes, store.trace, from, w)
    requires quarantine !in store.listed && source in store.boxes
    modifies store
    ensures store.Valid() && Safe(store.boxes, store.trace, from, w) && Onward(store)
    ensures ok ==> Quarantined(store.boxes, store.delivered, w, late)
    ensures ok || Excused(store, old(store.faults), w)
    ensures NoneListed(old(store.renames), store.renames)
  {
    ok, late := RenameAway(store, source, quarantine, w, from);
    if !ok {
      return;
    }
    ghost var b1, d1, t1 := store.boxes, store.delivered, store.trace;
    var names;
    ghost var passed;
    names, passed := store.List();
    SafeInterlude(b1, passed, store.unnamed, t1, from, w);
    assert Grown(b1, store.boxes, store.unnamed);
    ok := names.Some? && source !in names.value && quarantine in names.value && target in names.value;
    if source !in b1 {
      GrownQuarantined(b1, d1, store.boxes, store.delivered, store.unnamed, w, late);
    }
  }

  /** What copying the whole quarantine does, whether it reports success or not. */
  lemma {:induction false} CopyStep(mid: Boxes, b': Boxes, d: Ledger, ok: bool, anchor: nat, w: Watch,
      late: multiset<string>)
    requires Quarantined(mid, d, w, late) && Distinct(w) && Ordered(mid[w.quarantine])
    requires forall i :: 0 <= i < |mid[w.quarantine]| ==> mid[w.quarantine][i].uid <= anchor
    requires b'.Keys == mid.Keys && forall n :: n in mid && n != w.target ==> b'[n] == mid[n]
    requires ok ==> b'[w.target] == Append(mid[w.target],
        Contents(Keep(mid[w.quarantine], (m: Message) => 1 <= m.uid <= anchor)))
    ensures Held(b', w) && (ok ==> Migrated(b', d, w, late))
  {
    var q := mid[w.quarantine];
    assert Has(b', w.quarantine) == Has(mid, w.quarantine);
    if ok {
      KeepAll(q, (m: Message) => 1 <= m.uid <= anchor);
      AppendContents(mid[w.target], Contents(q));
      assert Has(b', w.target) == Has(mid, w.target) + (w.mail + late);
    }
  }

  lemma {:induction false} NothingToCopy(b: Boxes, d: Ledger, w: Watch, late: multiset<string>)
    requires Quarantined(b, d, w, late) && b[w.quarantine] == []
    ensures Migrated(b, d, w, late)
  {
    assert Contents([]) == [];
    assert w.mail + late == multiset{};
  }

  /** The quarantine exists, and its messages are numbered up to the anchor. */
  ghost predicate Anchored(b: Boxes, quarantine: string, anchor: nat) {
    && quarantine in b && (anchor == 0 ==> b[quarantine] == [])
    && forall i :: 0 <= i < |b[quarantine]| ==> b[quarantine][i].uid <= anchor
  }

  /** Copy everything up to the newest message and check the listing. */
  method CopyOut(store: MailStore, source: string, quarantine: string, target: string,
                 ghost w: Watch, ghost late: multiset<string>, ghost from: nat)
    returns (ok: bool, anchor: nat)
    requires store.Valid() && Distinct(w) && w.quarantine in store.unnamed
    requires (source, quarantine, target) == (w.source, w.quarantine, w.target)
    requires Quarantined(store.boxes, store.delivered, w, late) && Safe(store.boxes, store.trace, from, w)
    modifies store
    ensures store.Valid() && Safe(store.boxes, store.trace, from, w) && Onward(store)
    ensures ok ==> Migrated(store.boxes, store.delivered, w, late) && Anchored(store.boxes, quarantine, anchor)
    ensures ok || Excused(store, old(store.faults), w)
    ensures store.renames == old(store.renames)
  {
    ghost var b0, d0, t0 := store.boxes, store.delivered, store.trace;
    anchor := 0;
    ghost var passed;
    var latest;
    latest, passed := store.Latest(quarantine);
    ghost var b1, d1, t1 := store.boxes, store.delivered, store.trace;
    SafeInterlude(b0, passed, store.unnamed, t0, from, w);
    assert Grown(b0, b1, store.unnamed);
    if latest.None? {
      return false, 0;
    }
    anchor := latest.value;
    GrownQuarantined(b0, d0, b1, d1, store.unnamed, w, late);
    ok := true;
    if anchor != 0 {
      ok := CopyMessages(store, quarantine, anchor, target, w, late, from);
      if !ok {
        return;
      }
    } else {
      NothingToCopy(b1, d1, w, late);
    }
    ok := Recheck(store, source, quarantine, target, anchor, w, late, from);
  }

  method CopyMessages(store: MailStore, quarantine: string, anchor: nat, target: string,
                      ghost w: Watch, ghost late: multiset<string>, ghost from: nat)
    returns (ok: bool)
    requires store.Valid() && Distinct(w) && w.quarantine in store.unnamed
    requires (quarantine, target) == (w.quarantine, w.target) && anchor > 0
    requires Quarantined(store.boxes, store.delivered, w, late) && Safe(store.boxes, store.trace, from, w)
    requires Anchored(store.boxes, quarantine, anchor)
    modifies store
    ensures store.Valid() && Safe(store.boxes, store.trace, from, w) && Onward(store)
    ensures ok ==> Migrated(store.boxes, store.delivered, w, late) && Anchored(store.boxes, quarantine, anchor)
    ensures ok || store.faults > old(store.faults)
    ensures store.renames == old(store.renames)
  {
    ghost var b0, d0, t0 := store.boxes, store.delivered, store.trace;
    ghost var passed;
    ok, passed := store.Copy(quarantine, anchor, target);
    ghost var mid := passed[|passed| - 1];
    SafeInterlude(b0, passed, store.unnamed, t0, from, w);
    assert Grown(b0, mid, store.unnamed);
    GrownQuarantined(b0, d0, mid, store.delivered, store.unnamed, w, late);
    CopyStep(mid, store.boxes, store.delivered, ok, anchor, w, late);
    SafeCommand(mid, store.boxes, t0 + passed, from, w);
  }

  /** List the mailboxes once the target has the mail. */
  method ListMigrated(store: MailStore, ghost w: Watch, ghost late: multiset<string>, ghost from: nat)
    returns (names: Option<set<string>>)
    requires store.Valid() && Migrated(store.boxes, store.delivered, w, late) && Safe(store.boxes, store.trace, from, w)
    modifies store
    ensures store.Valid() && Safe(store.boxes, store.trace, from, w) && Onward(store)
    ensures Migrated(store.boxes, store.delivered, w, late) && store.renames == old(store.renames)
    ensures Grown(old(store.boxes), store.boxes, store.unnamed)
    ensures names.Some? ==> names.value == store.boxes.Keys
    ensures store.faults == if names.Some? then old(store.faults) else old(store.faults) + 1
  {
    ghost var b0, d0, t0 := store.boxes, store.delivered, store.trace;
    ghost var passed;
    names, passed := store.List();
    SafeInterlude(b0, passed, store.unnamed, t0, from, w);
    assert Grown(b0, store.boxes, store.unnamed);
    GrownMigrated(b0, d0, store.boxes, store.delivered, store.unnamed, w, late);
  }

  /** The listing must still show quarantine and target, and no new source. */
  method Recheck(store: MailStore, source: string, quarantine: string, target: string, ghost anchor: nat,
                 ghost w: Watch, ghost late: multiset<string>, ghost from: nat)
    returns (ok: bool)
    requires store.Valid() && Migrated(store.boxes, store.delivered, w, late) && Safe(store.boxes, store.trace, from, w)
    requires (source, quarantine, target) == (w.source, w.quarantine, w.target) && w.quarantine in store.unnamed
    requires Anchored(store.boxes, quarantine, anchor)
    modifies store
    ensures store.Valid() && Safe(store.boxes, store.trace, from, w) && Onward(store)
    ensures Migrated(store.boxes, store.delivered, w, late) && Anchored(store.boxes, quarantine, anchor)
    ensures ok || Excused(store, old(store.faults), w)
    ensures store.renames == old(store.renames)
  {
    var names := ListMigrated(store, w, late, from);
    ok := names.Some? && source !in names.value && quarantine in names.value && target in names.value;
  }

  /** A command that leaves source and target alone, once the target has the mail. */
  lemma {:induction false} MigratedStep(b: Boxes, d: Ledger, mid: Boxes, d': Ledger, b': Boxes, unnamed: set<string>,
      w: Watch, late: multiset<string>)
    requires Grown(b, mid, unnamed) && Accounted(b, d, mid, d') && Distinct(w) && Migrated(b, d, w, late)
    requires OnlyTouched(mid, b', w.quarantine)
    ensures Migrated(b', d', w, late) && Held(b', w)
  {
    GrownMigrated(b, d, mid, d', unnamed, w, late);
    assert Has(b', w.target) == Has(mid, w.target);
  }

  /** What is left of the quarantine once everything up to the anchor is removed. */
  lemma {:induction false} KeepNone(mb: Mailbox, anchor: nat)
    requires Ordered(mb) && forall i :: 0 <= i < |mb| ==> mb[i].uid <= anchor
    ensures Keep(mb, (m: Message) => !(1 <= m.uid <= anchor)) == []
  {
    if mb != [] {
      OrderedTail(mb);
      KeepNone(mb[1..], anchor);
    }
  }

  /** Remove the copied messages. */
  method RemoveCopied(store: MailStore, quarantine: string, anchor: nat,
                      ghost w: Watch, ghost late: multiset<string>, ghost from: nat)
    returns (ok: bool)
    requires store.Valid() && Distinct(w) && quarantine == w.quarantine && w.quarantine in store.unnamed
    requires Migrated(store.boxes, store.delivered, w, late) && Safe(store.boxes, store.trace, from, w)
    requires Anchored(store.boxes, quarantine, anchor)
    modifies store
    ensures store.Valid() && Safe(store.boxes, store.trace, from, w) && Onward(store)
    ensures Migrated(store.boxes, store.delivered, w, late)
    ensures ok ==> Anchored(store.boxes, quarantine, 0)
    ensures ok || store.faults > old(store.faults)
    ensures store.renames == old(store.renames)
  {
    ghost var b0, d0, t0 := store.boxes, store.delivered, store.trace;
    ghost var passed;
    ok, passed := store.RemoveMessages(quarantine, anchor);
    ghost var mid := passed[|passed| - 1];
    SafeInterlude(b0, passed, store.unnamed, t0, from, w);
    MigratedStep(b0, d0, mid, store.delivered, store.boxes, store.unnamed, w, late);
    SafeCommand(mid, store.boxes, t0 + passed, from, w);
    assert Grown(b0, mid, store.unnamed);
    KeepNone(mid[quarantine], anchor);
  }

  /** Remove the copied messages, and check that nothing else was in the quarantine. */
  method EmptyOut(store: MailStore, source: string, quarantine: string, target: string, anchor: nat,
                  ghost w: Watch, ghost late: multiset<string>, ghost from: nat)
    returns (ok: bool)
    requires store.Valid() && Distinct(w) && w.quarantine in store.unnamed
    requires (source, quarantine, target) == (w.source, w.quarantine, w.target)
    requires Migrated(store.boxes, store.delivered, w, late) && Safe(store.boxes, store.trace, from, w)
    requires Anchored(store.boxes, quarantine, anchor)
    modifies store
    ensures store.Valid() && Safe(store.boxes, store.trace, from, w) && Onward(store)
    ensures Migrated(store.boxes, store.delivered, w, late)
    ensures ok ==> quarantine in store.boxes
    ensures ok || Excused(store, old(store.faults), w)
    ensures store.renames == old(store.renames)
  {
    if anchor != 0 {
      ok := RemoveCopied(store, quarantine, anchor, w, late, from);
      if !ok {
        return;
      }
    }
    ghost var b1, d1, t1 := store.boxes, store.delivered, store.trace;
    ghost var passed;
    var any;
    any, passed := store.Occupied(quarantine);
    SafeInterlude(b1, passed, store.unnamed, t1, from, w);
    assert Grown(b1, store.boxes, store.unnamed);
    GrownMigrated(b1, d1, store.boxes, store.delivered, store.unnamed, w, late);
    if any != Some(false) {
      return false;
    }
    ok := Recheck(store, source, quarantine, target, 0, w, late, from);
  }

  lemma {:induction false} SeenBack(b: Boxes, d: Ledger, w: Watch, late: multiset<string>)
    requires Migrated(b, d, w, late) && w.source in b && w.quarantine !in b
    ensures Disturbed(b, w)
  {
    assert w.before + w.mail <= w.before + (w.mail + late) + Sent(d, w.target);
  }

  /** Remove the quarantine and check the listing. */
  method RemoveQuarantine(store: MailStore, source: string, quarantine: string, target: string,
                          ghost w: Watch, ghost late: multiset<string>, ghost from: nat)
    returns (ok: bool)
    requires store.Valid() && Distinct(w) && w.quarantine in store.unnamed && quarantine in store.boxes
    requires (source, quarantine, target) == (w.source, w.quarantine, w.target)
    requires Migrated(store.boxes, store.delivered, w, late) && Safe(store.boxes, store.trace, from, w)
    modifies store
    ensures store.Valid() && Safe(store.boxes, store.trace, from, w) && Onward(store)
    ensures ok ==> Finished(store.boxes, store.delivered, w)
    ensures ok || Excused(store, old(store.faults), w)
    ensures store.renames == old(store.renames)
  {
    ok := RemoveIt(store, quarantine, w, late, from);
    if !ok {
      return;
    }
    var names := ListMigrated(store, w, late, from);
    ok := names.Some? && source !in names.value && quarantine !in names.value && target in names.value;
    if source in store.boxes && quarantine !in store.boxes {
      SeenBack(store.boxes, store.delivered, w, late);
    }
  }

  method RemoveIt(store: MailStore, quarantine: string, ghost w: Watch, ghost late: multiset<string>, ghost from: nat)
    returns (ok: bool)
    requires store.Valid() && Distinct(w) && w.quarantine in store.unnamed
    requires quarantine == w.quarantine && quarantine in store.boxes
    requires Migrated(store.boxes, store.delivered, w, late) && Safe(store.boxes, store.trace, from, w)
    modifies store
    ensures store.Valid() && Safe(store.boxes, store.trace, from, w) && Onward(store)
    ensures Migrated(store.boxes, store.delivered, w, late)
    ensures store.faults == old(store.faults) ==> ok && quarantine !in store.boxes
    ensures store.renames == old(store.renames)
  {
    ghost var b0, d0, t0 := store.boxes, store.delivered, store.trace;
    ghost var passed;
    ok, passed := store.RemoveBox(quarantine);
    ghost var mid := passed[|passed| - 1];
    SafeInterlude(b0, passed, store.unnamed, t0, from, w);
    MigratedStep(b0, d0, mid, store.delivered, store.boxes, store.unnamed, w, late);
    SafeCommand(mid, store.boxes, t0 + passed, from, w);
    assert Grown(b0, mid, store.unnamed);
  }

  /** Best effort after a failure: bring the quarantine back under the original name, unless
      that name is seen to exist again.  Unless a command fails, the source exists afterwards or
      there is no quarantine. */
  method Restore(store: MailStore, source: string, quarantine: string, ghost w: Watch, ghost from: nat)
    requires store.Valid() && Distinct(w) && (source, quarantine) == (w.source, w.quarantine)
    requires Safe(store.boxes, store.trace, from, w) && w.quarantine in store.unnamed
    modifies store
    ensures store.Valid() && Safe(store.boxes, store.trace, from, w) && Onward(store)
    ensures store.faults == old(store.faults) ==> source in store.boxes || quarantine !in store.boxes
    ensures Disturbed(old(store.boxes), w) ==> Disturbed(store.boxes, w)
    ensures NoneListed(old(store.renames), store.renames)
  {
    ghost var b0, t0 := store.boxes, store.trace;
    var names;
    ghost var passed;
    names, passed := store.List();
    SafeInterlude(b0, passed, store.unnamed, t0, from, w);
    if Disturbed(b0, w) {
      StaysDisturbed(b0, store.boxes, store.unnamed, w);
    }
    if names.None? || source in names.value || quarantine !in names.value {
      return;
    }
    RenameBack(store, source, quarantine, w, from);
  }

  method RenameBack(store: MailStore, source: string, quarantine: string, ghost w: Watch, ghost from: nat)
    requires store.Valid() && Distinct(w) && (source, quarantine) == (w.source, w.quarantine)
    requires Safe(store.boxes, store.trace, from, w) && w.quarantine in store.unnamed
    requires source !in store.boxes && quarantine in store.boxes && source !in store.listed
    modifies store
    ensures store.Valid() && Safe(store.boxes, store.trace, from, w) && Onward(store)
    ensures store.faults == old(store.faults) ==> source in store.boxes
    ensures Disturbed(old(store.boxes), w) ==> Disturbed(store.boxes, w)
    ensures NoneListed(old(store.renames), store.renames)
  {
    ghost var b1, t1 := store.boxes, store.trace;
    var ok;
    ghost var passed;
    ok, passed := store.RenameBox(quarantine, source);
    ghost var mid, b2, t2 := passed[|passed| - 1], store.boxes, store.trace;
    SafeInterlude(b1, passed, store.unnamed, t1, from, w);
    BackAgain(b1, mid, b2, store.unnamed, w);
    SafeCommand(mid, b2, t1 + passed, from, w);
    if ok {
      var _, more := store.List();
      SafeInterlude(b2, more, store.unnamed, t2, from, w);
      if Disturbed(b2, w) {
        StaysDisturbed(b2, store.boxes, store.unnamed, w);
      }
    }
  }

  /** What renaming back does, whether it reports success or not. */
  lemma {:induction false} BackAgain(b: Boxes, mid: Boxes, b': Boxes, unnamed: set<string>, w: Watch)
    requires Grown(b, mid, unnamed) && Held(mid, w) && Distinct(w) && w.quarantine in unnamed
    requires w.source !in b && w.quarantine in b
    requires b' == mid || (w.source !in mid && b' == Renamed(mid, w.quarantine, w.source))
    ensures Held(b', w) && w.quarantine in mid && (Disturbed(b, w) ==> Disturbed(b', w))
  {
    if b' != mid {
      RenamedHeld(mid, w.quarantine, w.source, w);
    }
  }

  // ---------------------------------------------------------------------------------------
  // The whole operation
  // ---------------------------------------------------------------------------------------

  datatype Result = Done | Failed | Rejected

  /** The first drawn name that is not in use. */
  method PickName(existing: set<string>, draws: seq<string>) returns (name: Option<string>)
    requires |draws| == ATTEMPTS
    ensures name.Some? ==> name.value in draws && name.value !in existing
    ensures name.None? <==> forall draw <- draws :: draw in existing
  {
    var i := 0;
    while i < ATTEMPTS
      invariant 0 <= i <= ATTEMPTS && forall j :: 0 <= j < i ==> draws[j] in existing
    {
      if draws[i] !in existing {
        return Some(draws[i]);
      }
      i := i + 1;
    }
    name := None;
  }

  /** Everything after the checks. */
  method Migrate(store: MailStore, source: string, quarantine: string, target: string, ghost w: Watch, ghost from: nat)
    returns (r: Result)
    requires store.Valid() && Distinct(w) && w.quarantine in store.unnamed
    requires (source, quarantine, target) == (w.source, w.quarantine, w.target)
    requires Untouched(store.boxes, store.delivered, w) && Safe(store.boxes, store.trace, from, w)
    requires quarantine !in store.listed && source in store.boxes
    modifies store
    ensures store.Valid() && Safe(store.boxes, store.trace, from, w) && Onward(store)
    ensures r == Done || r == Failed
    ensures r == Done ==> Finished(store.boxes, store.delivered, w)
    ensures r == Failed ==> Excused(store, old(store.faults), w) && Restored(store, old(store.faults), w)
    ensures NoneListed(old(store.renames), store.renames)
  {
    var ok := MoveOut(store, source, quarantine, target, w, from);
    if !ok {
      Restore(store, source, quarantine, w, from);
      return Failed;
    }
    r := Done;
  }

  /** The mail does not stay in the quarantine unless restoring it has failed too: two commands
      have failed, or one on top of a disturbance. */
  ghost predicate Restored(store: MailStore, faults: nat, w: Watch)
    reads store
  {
    || w.source in store.boxes || w.quarantine !in store.boxes
    || store.faults >= faults + 2
    || (store.faults >= faults + 1 && Disturbed(store.boxes, w))
  }

  method MoveOut(store: MailStore, source: string, quarantine: string, target: string, ghost w: Watch, ghost from: nat)
    returns (ok: bool)
    requires store.Valid() && Distinct(w) && w.quarantine in store.unnamed
    requires (source, quarantine, target) == (w.source, w.quarantine, w.target)
    requires Untouched(store.boxes, store.delivered, w) && Safe(store.boxes, store.trace, from, w)
    requires quarantine !in store.listed && source in store.boxes
    modifies store
    ensures store.Valid() && Safe(store.boxes, store.trace, from, w) && Onward(store)
    ensures ok ==> Finished(store.boxes, store.delivered, w)
    ensures ok || Excused(store, old(store.faults), w)
    ensures NoneListed(old(store.renames), store.renames)
  {
    var anchor;
    ghost var late;
    ok, late := Quarantine(store, source, quarantine, target, w, from);
    if ok {
      ok, anchor := CopyOut(store, source, quarantine, target, w, late, from);
      if ok {
        ok := EmptyOut(store, source, quarantine, target, anchor, w, late, from);
        if ok {
          ok := RemoveQuarantine(store, source, quarantine, target, w, late, from);
        }
      }
    }
  }

  /** Why a deletion is refused at once, by the names that the first listing has shown. */
  ghost predicate Refused(names: set<string>, source: string, target: string, isProtected: string -> bool) {
    || isProtected(source) || source !in names || source == target || target !in names
    || exists child: string :: source + "/" + child in names
  }

  lemma {:induction false} ChildListed(names: set<string>, source: string)
    ensures (exists name | name in names :: source + "/" <= name) <==> exists child: string ::
        source + "/" + child in names
  {
    if name :| name in names && source + "/" <= name {
      assert source + "/" + name[|source| + 1..] == name;
    }
    if child: string :| source + "/" + child in names {
      assert source + "/" <= source + "/" + child;
    }
  }

  method CheckNames(names: set<string>, source: string, target: string, isProtected: string -> bool)
    returns (refused: bool)
    ensures refused <==> Refused(names, source, target, isProtected)
  {
    ChildListed(names, source);
    if isProtected(source) || source !in names {
      return true;
    }
    if exists name | name in names :: source + "/" <= name {
      return true;
    }
    refused := source == target || target !in names;
  }

  /** The mail of the source as the operation begins; the quarantine is not always chosen. */
  ghost function Watched(b: Boxes, source: string, quarantine: Option<string>, target: string): Watch {
    Watch(source, if quarantine.Some? then quarantine.value else source, target, Has(b, source), Has(b, target))
  }

  /** Only others have done anything. */
  twostate predicate Unchanged(store: MailStore)
    reads store
  {
    && Grown(old(store.boxes), store.boxes, store.unnamed)
    && Accounted(old(store.boxes), map[], store.boxes, store.delivered) && store.renames == old(store.renames)
  }

  /** Delete a mailbox, moving its mail to the target.  Whatever fails and whatever others
      deliver meanwhile, in every state one of source, quarantine and target holds all the mail
      the source held at the start.  After a normal return the mailbox and its quarantine are
      gone and the target has gained that mail and later deliveries, each exactly once.  No
      rename is ever issued to a name that the listing before it has shown.

      It is refused exactly if the first listing shows a reason, and then nothing has changed
      but what others did.  It fails without having done anything only if that listing fails or
      all drawn names are in use.  Otherwise it fails only if a command fails or it is disturbed,
      and the mail is not left in the quarantine unless restoring it fails as well. */
  method MigrateAndDeleteMailbox(store: MailStore, source: string, target: string, isProtected: string -> bool,
      draws: seq<string>)
    returns (r: Result, ghost quarantine: Option<string>)
    requires store.Valid() && |draws| == ATTEMPTS && forall draw <- draws :: draw in store.unnamed
    modifies store
    ensures store.Valid() && Onward(store)
    ensures Safe(store.boxes, store.trace, |old(store.trace)|, Watched(old(store.boxes), source, quarantine, target))
    ensures r == Done ==>
      quarantine.Some? && Finished(store.boxes, store.delivered, Watched(old(store.boxes), source, quarantine, target))
    ensures |store.listings| == |old(store.listings)| ==>
      r == Failed && quarantine.None? && store.faults > old(store.faults)
    ensures |store.listings| > |old(store.listings)| ==>
      (r == Rejected <==> Refused(store.listings[|old(store.listings)|], source, target, isProtected))
    ensures quarantine.None? ==> Unchanged(store)
    ensures r == Failed && quarantine.None? ==>
      store.faults > old(store.faults) || forall draw <- draws :: draw in store.boxes
    ensures r == Failed && quarantine.Some? ==>
      var w := Watched(old(store.boxes), source, quarantine, target);
      Excused(store, old(store.faults), w) && Restored(store, old(store.faults), w)
    ensures r == Rejected ==> quarantine.None?
    ensures NoneListed(old(store.renames), store.renames)
  {
    ghost var b0, t0 := store.boxes, store.trace;
    quarantine := None;
    store.delivered := map[];
    ghost var passed;
    var names;
    names, passed := store.List();
    SafeInterlude(b0, passed, store.unnamed, t0, |t0|, Watched(b0, source, None, target));
    if names.None? {
      return Failed, None;
    }
    var refused := CheckNames(names.value, source, target, isProtected);
    if refused {
      return Rejected, None;
    }
    var drawn := PickName(names.value, draws);
    if drawn.None? {
      return Failed, None;
    }
    quarantine := drawn;
    ghost var w := Watched(b0, source, drawn, target);
    SafeInterlude(b0, passed, store.unnamed, t0, |t0|, w);
    BeginUntouched(b0, store.boxes, store.delivered, w);
    r := Migrate(store, source, drawn.value, target, w, |t0|);
  }

  lemma {:induction false} BeginUntouched(b0: Boxes, b: Boxes, d: Ledger, w: Watch)
    requires Accounted(b0, map[], b, d) && w.target in b && w.quarantine !in b
    requires w.mail == Has(b0, w.source) && w.before == Has(b0, w.target)
    ensures Untouched(b, d, w)
  {
    assert AccountedAt(b0, map[], b, d, w.source) && AccountedAt(b0, map[], b, d, w.target);
    assert Has(b, w.source) + multiset{} == Has(b, w.source) && Has(b, w.target) + multiset{} == Has(b, w.target);
  }
}
