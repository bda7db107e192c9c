/**
 The resumable run of one filing rule over the mail an account already has: `rules.run_step`
 evaluates at most one batch of one source mailbox, moves the matching messages and stores
 cursors from which the next call goes on, while new mail keeps arriving.
 */
module RuleRun {
  import opened MailboxContents
  import opened MessageWindow

  const BATCH := 20
  const MAX_SOURCES := 64

  datatype Source = Source(mailbox: string, cursor: nat, done: bool)

  datatype Status = Queued | Running | Completed | Failed

  datatype Run = Run(sources: seq<Source>, index: nat, status: Status, scanned: nat, matched: nat, moved: nat,
      failed: nat)

  type Boxes = map<string, Mailbox>

  // ---------------------------------------------------------------------------------------
  // Messages of a mailbox
  // ---------------------------------------------------------------------------------------

  function Matching(mb: Mailbox, matches: string -> bool): Mailbox {
    Keep(mb, (m: Message) => matches(m.content))
  }

  function Unmatched(mb: Mailbox, matches: string -> bool): Mailbox {
    Keep(mb, (m: Message) => !matches(m.content))
  }

  function Uids(mb: Mailbox): set<nat> {
    set m | m in mb :: m.uid
  }

  /** The move command: the named messages leave the source and arrive in the target. */
  function Move(boxes: Boxes, source: string, uids: set<nat>, target: string): Boxes
    requires source in boxes && target in boxes
  {
    var left := boxes[source := Keep(boxes[source], (m: Message) => m.uid !in uids)];
    left[target := Append(left[target], Contents(Keep(boxes[source], (m: Message) => m.uid in uids)))]
  }

  // ---------------------------------------------------------------------------------------
  // One step
  // ---------------------------------------------------------------------------------------

  function NextOpen(sources: seq<Source>, index: nat): (n: nat)
    requires index <= |sources|
    ensures index <= n <= |sources|
    ensures forall i :: index <= i < n ==> sources[i].done
    ensures n < |sources| ==> !sources[n].done
    decreases |sources| - index
  {
    if index < |sources| && sources[index].done then NextOpen(sources, index + 1) else index
  }

  function Messages(records: seq<Record>): Mailbox {
    seq(|records|, i requires 0 <= i < |records| => Message(records[i].uid, records[i].content))
  }

  /** The state that a batch of source `index` leaves; `candidates` were evaluated and `next`
      is the UID to go on from. */
  function Advance(run: Run, index: nat, candidates: Mailbox, next: nat, matches: string -> bool): Run
    requires index < |run.sources|
  {
    var sources := run.sources[index := run.sources[index].(cursor := next, done := next == 0)];
    var index' := if next == 0 then NextOpen(sources, index + 1) else index;
    var found := |Matching(candidates, matches)|;
    Run(sources, index', if index' == |sources| then Completed else Running,
        run.scanned + |candidates|, run.matched + found, run.moved + found, run.failed)
  }

  function Fail(run: Run, index: nat): Run {
    run.(index := index, status := Failed, failed := run.failed + 1)
  }

  /** What the call makes of the window of source `index`. */
  function Work(boxes: Boxes, run: Run, index: nat, window: Window, target: string, matches: string -> bool): (Boxes,
      Run, Mailbox)
    requires index < |run.sources| && run.sources[index].mailbox in boxes
  {
    if !window.Found? then (boxes, Fail(run, index), [])
    else
      var ordered := Messages(window.records);
      var candidates := ordered[..Min(BATCH, |ordered|)];
      var next := if |ordered| > BATCH then ordered[BATCH].uid else 0;
      var uids := Uids(Matching(candidates, matches));
      if uids != {} && target !in boxes then (boxes, Fail(run, index), [])
      else
        (if uids == {} then boxes else Move(boxes, run.sources[index].mailbox, uids, target),
         Advance(run, index, candidates, next, matches),
         candidates)
  }

  /** One call: the boxes, the run and the messages evaluated, in order. */
  function Step(boxes: Boxes, run: Run, target: string, matches: string -> bool): (Boxes, Run, Mailbox)
    requires run.index <= |run.sources|
  {
    if run.status.Completed? || run.status.Failed? then (boxes, run, [])
    else
      var index := NextOpen(run.sources, run.index);
      if index == |run.sources| then (boxes, run.(index := index, status := Completed), [])
      else if run.sources[index].mailbox !in boxes then (boxes, Fail(run, index), [])
      else
        var source := run.sources[index];
        var mb := boxes[source.mailbox];
        Work(boxes, run, index, ListMessageWindow(mb, mb, BATCH, source.cursor), target, matches)
  }

  function UidList(mb: Mailbox): seq<nat> {
    seq(|mb|, i requires 0 <= i < |mb| => mb[i].uid)
  }

  /** The UIDs that a command may name: between 1 and 50, in range and distinct. */
  predicate Selectable(uids: seq<nat>) {
    && 1 <= |uids| <= 50
    && (forall u <- uids :: 1 <= u <= MAX_UID)
    && (forall i, j :: 0 <= i < j < |uids| ==> uids[i] != uids[j])
  }

  /** The call as it runs: the source's entry is updated in place in the stored list, and the
      matching UIDs are collected one by one. */
  method RunStep(boxes: Boxes, run: Run, target: string, matches: string -> bool) returns (boxes': Boxes, run': Run)
    requires run.index <= |run.sources|
    ensures (boxes', run') == (Step(boxes, run, target, matches).0, Step(boxes, run, target, matches).1)
  {
    boxes', run' := boxes, run;
    if run.status.Completed? || run.status.Failed? {
      return;
    }
    var index := SkipDone(run.sources, run.index);
    if index == |run.sources| {
      run' := run.(index := index, status := Completed);
      return;
    }
    var source := run.sources[index];
    if source.mailbox !in boxes {
      run' := Fail(run, index);
      return;
    }
    var window := ListMessageWindow(boxes[source.mailbox], boxes[source.mailbox], BATCH, source.cursor);
    boxes', run' := WorkStep(boxes, run, index, window, target, matches);
  }

  method WorkStep(boxes: Boxes, run: Run, index: nat, window: Window, target: string, matches: string -> bool)
    returns (boxes': Boxes, run': Run)
    requires index < |run.sources| && run.sources[index].mailbox in boxes
    ensures (boxes', run') == (Work(boxes, run, index, window, target, matches).0,
        Work(boxes, run, index, window, target, matches).1)
  {
    boxes', run' := boxes, Fail(run, index);
    if !window.Found? {
      return;
    }
    var ordered := Messages(window.records);
    var candidates := ordered[..Min(BATCH, |ordered|)];
    var next := if |ordered| > BATCH then ordered[BATCH].uid else 0;
    var found := Evaluate(candidates, matches);
    assert found != [] ==> found[0].uid in Uids(found);
    if found != [] {
      if target !in boxes {
        return;
      }
      boxes' := Move(boxes, run.sources[index].mailbox, Uids(found), target);
    }
    var sources, at := run.sources, index;
    sources := sources[at := sources[at].(cursor := next, done := next == 0)];
    if next == 0 {
      at := SkipDone(sources, at + 1);
    }
    run' := Run(sources, at, if at >= |sources| then Completed else Running,
                run.scanned + |candidates|, run.matched + |found|, run.moved + |found|, run.failed);
  }

  method Evaluate(candidates: Mailbox, matches: string -> bool) returns (found: Mailbox)
    ensures found == Matching(candidates, matches)
  {
    found := [];
    for i := 0 to |candidates|
      invariant found + Matching(candidates[i..], matches) == Matching(candidates, matches)
    {
      if matches(candidates[i].content) {
        found := found + [candidates[i]];
      }
      assert candidates[i..][1..] == candidates[i + 1..];
    }
  }

  method SkipDone(sources: seq<Source>, from: nat) returns (index: nat)
    requires from <= |sources|
    ensures index == NextOpen(sources, from)
  {
    index := from;
    while index < |sources| && sources[index].done
      invariant from <= index <= |sources| && NextOpen(sources, from) == NextOpen(sources, index)
    {
      index := index + 1;
    }
  }

  /** The check every stored state passes when it is read back. */
  ghost predicate Revalidates(run: Run) {
    && |run.sources| <= MAX_SOURCES && run.index <= |run.sources|
    && (forall i :: 0 <= i < |run.sources| ==>
          run.sources[i].cursor <= MAX_UID && (run.sources[i].done ==> run.sources[i].cursor == 0))
    && (forall i, j :: 0 <= i < j < |run.sources| ==> run.sources[i].mailbox != run.sources[j].mailbox)
  }

  // ---------------------------------------------------------------------------------------
  // One batch of one mailbox
  // ---------------------------------------------------------------------------------------

  /** How many messages of the original mailbox are not newer than the cursor. */
  function Left(original: Mailbox, cursor: nat): (n: nat)
    ensures n <= |original|
  {
    if original == [] then 0
    else if original[|original| - 1].uid <= cursor then |original|
    else Left(original[..|original| - 1], cursor)
  }

  lemma {:induction false} ValidSlice(mb: Mailbox, lo: nat, hi: nat)
    requires Valid(mb) && lo <= hi <= |mb|
    ensures Valid(mb[lo..hi])
  {
    forall i, j ensures Before(mb[lo..hi], i, j) {
      assert Before(mb, lo + i, lo + j);
    }
  }

  lemma {:induction false} LeftAt(original: Mailbox, r: nat)
    requires Valid(original) && r <= |original|
    ensures Left(original, CursorAt(original, r)) == r
  {
    if r < |original| {
      ValidSlice(original, 0, |original| - 1);
      assert Before(original, r - 1, |original| - 1);
      LeftAt(original[..|original| - 1], r);
    }
  }

  function CursorAt(original: Mailbox, r: nat): nat
    requires r <= |original|
  {
    if r == 0 then 0 else original[r - 1].uid
  }

  function Standing(original: Mailbox, r: nat, arrived: Mailbox, matches: string -> bool): Mailbox
    requires r <= |original|
  {
    original[..r] + Unmatched(original[r..], matches) + arrived
  }

  /** Where a source stands: the oldest messages are untouched, those evaluated without a
      match stay, the matching ones are gone, and later arrivals follow. */
  ghost predicate SourceOk(original: Mailbox, arrived: Mailbox, mb: Mailbox, cursor: nat, done: bool,
      matches: string -> bool) {
    var r := Left(original, cursor);
    && Valid(original) && Valid(mb)
    && cursor == CursorAt(original, r)
    && (done <==> cursor == 0)
    && (r > 0 ==> (|original| - r) % BATCH == 0)
    && mb == Standing(original, r, arrived, matches)
  }

  lemma {:induction false} ValidCons(m: Message, rest: Mailbox)
    requires 1 <= m.uid <= MAX_UID && Valid(rest) && forall n :: n in rest ==> m.uid < n.uid
    ensures Valid([m] + rest)
  {
    var mb := [m] + rest;
    forall i, j ensures Before(mb, i, j) {
      assert Before(rest, i - 1, j - 1);
      if 0 <= i < j < |mb| {
        assert rest[j - 1] in rest;
      }
    }
  }

  lemma {:induction false} KeepValid(mb: Mailbox, p: Message -> bool)
    requires Valid(mb)
    ensures Valid(Keep(mb, p))
  {
    if mb != [] {
      ValidSlice(mb, 1, |mb|);
      assert mb[1..|mb|] == mb[1..];
      KeepValid(mb[1..], p);
      KeepAll(mb[1..], p);
      Sides(mb, 0);
      ValidCons(mb[0], Keep(mb[1..], p));
    }
  }

  /** The oldest message of the next batch when `r` messages are left. */
  function BatchStart(r: nat): (n: nat)
    ensures n <= r
  {
    if r < BATCH then 0 else r - BATCH
  }

  lemma {:induction false} SliceMessages(mb: Mailbox, lo: nat, hi: nat)
    requires lo <= hi <= |mb|
    ensures Messages(Slice(mb, lo, hi)) == Reverse(mb[lo..hi])
  {
  }

  /** The window of a source is its next batch, newest first, and one message more. */
  lemma {:induction false} BatchWindow(mb: Mailbox, r: nat)
    requires Valid(mb) && 1 <= r <= |mb|
    ensures var w := ListMessageWindow(mb, mb, BATCH, mb[r - 1].uid);
      && w.Found?
      && Messages(w.records) == Reverse(mb[WindowStart(r, BATCH)..r])
  {
    UidAnswer(mb, mb[r - 1].uid);
    WindowAtAnchor(mb, mb, BATCH, mb[r - 1].uid, r);
    SliceMessages(mb, WindowStart(r, BATCH), r);
  }

  lemma {:induction false} DistinctUids(mb: Mailbox, i: nat, j: nat)
    requires Valid(mb) && i < |mb| && j < |mb| && i != j
    ensures mb[i].uid != mb[j].uid
  {
    assert Before(mb, i, j) && Before(mb, j, i);
  }

  lemma {:induction false} OtherSegment(a: Mailbox, b: Mailbox, c: Mailbox, m: Message, n: Message)
    requires Valid(a + b + c) && (m in a || m in c) && n in b
    ensures m.uid != n.uid
  {
    var mb := a + b + c;
    var j :| 0 <= j < |b| && b[j] == n;
    if m in a {
      var i :| 0 <= i < |a| && a[i] == m;
      DistinctUids(mb, i, |a| + j);
    } else {
      var i :| 0 <= i < |c| && c[i] == m;
      DistinctUids(mb, |a| + |b| + i, |a| + j);
    }
  }

  lemma {:induction false} SameSegment(a: Mailbox, b: Mailbox, c: Mailbox, m: Message, n: Message)
    requires Valid(a + b + c) && m in b && n in b && m.uid == n.uid
    ensures m == n
  {
    var mb := a + b + c;
    var i :| 0 <= i < |b| && b[i] == m;
    var j :| 0 <= j < |b| && b[j] == n;
    if i != j {
      DistinctUids(mb, |a| + i, |a| + j);
    }
  }

  /** Which messages a set of matching candidates names. */
  lemma {:induction false} NamedExactly(a: Mailbox, b: Mailbox, c: Mailbox, matches: string -> bool)
    requires Valid(a + b + c)
    ensures var uids := Uids(Matching(b, matches));
      && (forall m :: m in a || m in c ==> m.uid !in uids)
      && (forall m :: m in b ==> (m.uid in uids <==> matches(m.content)))
  {
    KeepAll(b, (m: Message) => matches(m.content));
    forall m, n | m in b && n in b && m.uid == n.uid ensures m == n {
      SameSegment(a, b, c, m, n);
    }
    forall m, n | (m in a || m in c) && n in b ensures m.uid != n.uid {
      OtherSegment(a, b, c, m, n);
    }
  }

  /** Moving the matching candidates out leaves the rest of the mailbox as it was. */
  lemma {:induction false} BatchMoved(a: Mailbox, b: Mailbox, c: Mailbox, matches: string -> bool)
    requires Valid(a + b + c)
    ensures var uids := Uids(Matching(b, matches));
      && Keep(a + b + c, (m: Message) => m.uid !in uids) == a + Unmatched(b, matches) + c
      && Keep(a + b + c, (m: Message) => m.uid in uids) == Matching(b, matches)
  {
    var uids := Uids(Matching(b, matches));
    NamedExactly(a, b, c, matches);
    var stays, goes := (m: Message) => m.uid !in uids, (m: Message) => m.uid in uids;
    KeepConcat(a + b, c, stays);
    KeepConcat(a, b, stays);
    KeepConcat(a + b, c, goes);
    KeepConcat(a, b, goes);
    KeepAll(a, stays);
    KeepAll(c, stays);
    KeepAll(a, goes);
    KeepAll(c, goes);
    KeepSame(b, stays, (m: Message) => !matches(m.content));
    KeepSame(b, goes, (m: Message) => matches(m.content));
  }

  /** Evaluating newest first finds the same messages. */
  lemma {:induction false} MatchingReversed(mb: Mailbox, matches: string -> bool)
    ensures Uids(Matching(Reverse(mb), matches)) == Uids(Matching(mb, matches))
    ensures multiset(Contents(Matching(Reverse(mb), matches))) == multiset(Contents(Matching(mb, matches)))
  {
    if mb != [] {
      var p := (m: Message) => matches(m.content);
      var n := |mb| - 1;
      var last, front := [mb[n]], mb[..n];
      MatchingReversed(front, matches);
      assert front + last == mb;
      KeepConcat(front, last, p);
      KeepConcat(last, Reverse(front), p);
      ContentsConcat(Matching(front, matches), Matching(last, matches));
      ContentsConcat(Matching(last, matches), Matching(Reverse(front), matches));
      var x, y, z := Matching(front, matches), Matching(last, matches), Matching(Reverse(front), matches);
      assert Uids(x + y) == Uids(x) + Uids(y);
      assert Uids(y + z) == Uids(y) + Uids(z);
    }
  }

  /** What a step reads from a window: the batch, newest first, and the UID to go on from. */
  ghost predicate BatchRead(window: Window, batch: Mailbox, next: nat) {
    && window.Found?
    && var ordered := Messages(window.records);
    && ordered[..Min(BATCH, |ordered|)] == Reverse(batch)
    && (if |ordered| > BATCH then ordered[BATCH].uid else 0) == next
  }

  /** The next batch of a mailbox whose oldest `r` messages are those of `original`. */
  lemma {:induction false} NextBatch(original: Mailbox, rest: Mailbox, r: nat)
    requires 1 <= r <= |original| && Valid(original[..r] + rest)
    ensures var mb := original[..r] + rest;
      var r' := BatchStart(r);
      BatchRead(ListMessageWindow(mb, mb, BATCH, original[r - 1].uid), original[r'..r], CursorAt(original, r'))
  {
    var mb := original[..r] + rest;
    var lo := WindowStart(r, BATCH);
    BatchWindow(mb, r);
    assert mb[lo..r] == original[lo..r];
    BatchCut(original, lo, r);
  }

  lemma {:induction false} BatchCut(original: Mailbox, lo: nat, r: nat)
    requires r <= |original| && lo == WindowStart(r, BATCH)
    ensures var ordered := Reverse(original[lo..r]);
      var r' := BatchStart(r);
      && ordered[..Min(BATCH, |ordered|)] == Reverse(original[r'..r])
      && (if |ordered| > BATCH then ordered[BATCH].uid else 0) == (if r' == 0 then 0 else original[r' - 1].uid)
  {
  }

  /** The same mailbox after the matching messages of that batch were moved. */
  lemma {:induction false} BatchKept(original: Mailbox, rest: Mailbox, r: nat, matches: string -> bool)
    requires r <= |original| && Valid(original[..r] + rest)
    ensures var mb := original[..r] + rest;
      var r' := BatchStart(r);
      var uids := Uids(Matching(original[r'..r], matches));
      && Keep(mb, (m: Message) => m.uid !in uids) == original[..r'] + Unmatched(original[r'..r], matches) + rest
      && Valid(original[..r'] + Unmatched(original[r'..r], matches) + rest)
      && Keep(mb, (m: Message) => m.uid in uids) == Matching(original[r'..r], matches)
  {
    var r' := BatchStart(r);
    var a, b := original[..r'], original[r'..r];
    var uids := Uids(Matching(b, matches));
    assert original[..r] == a + b;
    BatchMoved(a, b, rest, matches);
    KeepValid(a + b + rest, (m: Message) => m.uid !in uids);
  }

  /** What a step does with a source: it evaluates the next batch newest first, and the
      source stands where it should with the batch behind it. */
  lemma {:induction false} SourceAdvances(original: Mailbox, arrived: Mailbox, mb: Mailbox, cursor: nat,
      matches: string -> bool)
    requires SourceOk(original, arrived, mb, cursor, false, matches)
    ensures var r := Left(original, cursor);
      var r' := BatchStart(r);
      var w := ListMessageWindow(mb, mb, BATCH, cursor);
      r > 0 && BatchRead(w, original[r'..r], CursorAt(original, r'))
  {
    var r := Left(original, cursor);
    var rest := Unmatched(original[r..], matches) + arrived;
    assert mb == original[..r] + rest;
    NextBatch(original, rest, r);
  }

  lemma {:induction false} SourceAt(original: Mailbox, arrived: Mailbox, mb: Mailbox, r: nat, matches: string -> bool)
    requires Valid(original) && Valid(mb) && r <= |original| && (r > 0 ==> (|original| - r) % BATCH == 0)
    requires mb == Standing(original, r, arrived, matches)
    ensures var cursor := CursorAt(original, r);
      SourceOk(original, arrived, mb, cursor, cursor == 0, matches) && Left(original, cursor) == r
  {
    LeftAt(original, r);
  }

  lemma {:induction false} SourceKept(original: Mailbox, arrived: Mailbox, mb: Mailbox, cursor: nat,
      matches: string -> bool)
    requires SourceOk(original, arrived, mb, cursor, false, matches)
    ensures var r := Left(original, cursor);
      var r' := BatchStart(r);
      var uids := Uids(Matching(original[r'..r], matches));
      var next := CursorAt(original, r');
      && SourceOk(original, arrived, Keep(mb, (m: Message) => m.uid !in uids), next, next == 0, matches)
      && Left(original, next) == r'
      && Keep(mb, (m: Message) => m.uid in uids) == Matching(original[r'..r], matches)
  {
    var r := Left(original, cursor);
    var r' := BatchStart(r);
    var rest := Unmatched(original[r..], matches) + arrived;
    assert mb == original[..r] + rest;
    BatchKept(original, rest, r, matches);
    UnmatchedSplit(original, r', r, arrived, matches);
    SourceAt(original, arrived, original[..r'] + Unmatched(original[r'..r], matches) + rest, r', matches);
  }

  lemma {:induction false} UnmatchedSplit(original: Mailbox, r': nat, r: nat, arrived: Mailbox, matches: string -> bool)
    requires r' <= r <= |original|
    ensures original[..r'] + Unmatched(original[r'..r], matches) + (Unmatched(original[r..], matches) + arrived) ==
            original[..r'] + Unmatched(original[r'..], matches) + arrived
  {
    assert original[r'..] == original[r'..r] + original[r..];
    KeepConcat(original[r'..r], original[r..], (m: Message) => !matches(m.content));
  }

  // ---------------------------------------------------------------------------------------
  // Whole runs
  // ---------------------------------------------------------------------------------------

  /** The account when the run is created: its mailboxes, the sources in order, the target. */
  datatype Start = Start(boxes: Boxes, names: seq<string>, target: string)

  /** `arrived` is the mail others have delivered since, `log` the messages evaluated so far
      in order, `steps` the number of calls that had something to do. */
  datatype State = State(boxes: Boxes, run: Run, arrived: map<string, Mailbox>, log: seq<(string, Message)>, steps: nat)

  datatype Event = Deliver(box: string, messages: Mailbox) | CallStep

  function Latest(mb: Mailbox): nat {
    if mb == [] then 0 else mb[|mb| - 1].uid
  }

  ghost predicate StartOk(start: Start) {
    && |start.names| <= MAX_SOURCES && start.target in start.boxes && start.target !in start.names
    && (forall j :: 0 <= j < |start.names| ==> start.names[j] in start.boxes && Valid(start.boxes[start.names[j]]))
    && (forall i, j :: 0 <= i < j < |start.names| ==> start.names[i] != start.names[j])
  }

  function FirstRun(start: Start): Run
    requires forall j :: 0 <= j < |start.names| ==> start.names[j] in start.boxes
  {
    var sources := seq(|start.names|, j requires 0 <= j < |start.names| =>
      var cursor := Latest(start.boxes[start.names[j]]); Source(start.names[j], cursor, cursor == 0));
    var index := NextOpen(sources, 0);
    Run(sources, index, if index == |sources| then Completed else Queued, 0, 0, 0, 0)
  }

  function Begin(start: Start): State
    requires forall j :: 0 <= j < |start.names| ==> start.names[j] in start.boxes
  {
    State(start.boxes, FirstRun(start), map name | name in start.boxes :: [], [], 0)
  }

  ghost predicate Enabled(s: State, e: Event) {
    e.Deliver? ==>
      && e.box in s.boxes && e.box in s.arrived
      && (Valid(s.boxes[e.box]) ==> Valid(s.boxes[e.box] + e.messages))
  }

  function Tagged(name: string, mb: Mailbox): seq<(string, Message)> {
    seq(|mb|, i requires 0 <= i < |mb| => (name, mb[i]))
  }

  ghost function Next(s: State, e: Event, target: string, matches: string -> bool): State
    requires Enabled(s, e) && s.run.index <= |s.run.sources|
  {
    match e
    case Deliver(box, messages) =>
      s.(boxes := s.boxes[box := s.boxes[box] + messages], arrived := s.arrived[box := s.arrived[box] + messages])
    case CallStep =>
      if s.run.status.Completed? || s.run.status.Failed? then s
      else
        var (boxes, run, evaluated) := Step(s.boxes, s.run, target, matches);
        var index := NextOpen(s.run.sources, s.run.index);
        var name := if index < |s.run.sources| then s.run.sources[index].mailbox else target;
        State(boxes, run, s.arrived, s.log + Tagged(name, evaluated), s.steps + 1)
  }

  // Where the run stands, computed from its cursors

  ghost function LeftOf(start: Start, run: Run, j: nat): (n: nat)
    requires Fits(start, run) && j < |start.names|
    ensures n <= |start.boxes[start.names[j]]|
  {
    Left(start.boxes[start.names[j]], run.sources[j].cursor)
  }

  ghost predicate Fits(start: Start, run: Run) {
    && |run.sources| == |start.names|
    && (forall j :: 0 <= j < |start.names| ==>
        start.names[j] in start.boxes && run.sources[j].mailbox == start.names[j])
  }

  /** The parts of a sequence of sequences, one after the other. */
  function Flat<T>(parts: seq<seq<T>>): seq<T> {
    if parts == [] then [] else Flat(parts[..|parts| - 1]) + parts[|parts| - 1]
  }

  function Sum(counts: seq<nat>): nat {
    if counts == [] then 0 else Sum(counts[..|counts| - 1]) + counts[|counts| - 1]
  }

  function Batches(count: nat): nat {
    (count + BATCH - 1) / BATCH
  }

  ghost function PassedIn(start: Start, run: Run, j: nat): seq<(string, Message)>
    requires Fits(start, run) && j < |start.names|
  {
    Tagged(start.names[j], Reverse(start.boxes[start.names[j]][LeftOf(start, run, j)..]))
  }

  ghost function BatchesIn(start: Start, run: Run, j: nat): nat
    requires Fits(start, run) && j < |start.names|
  {
    Batches(|start.boxes[start.names[j]]| - LeftOf(start, run, j))
  }

  /** The messages that the cursors have passed, source by source. */
  ghost function PassedParts(start: Start, run: Run): seq<seq<(string, Message)>>
    requires Fits(start, run)
  {
    seq(|start.names|, j requires 0 <= j < |start.names| => PassedIn(start, run, j))
  }

  ghost function PassedBatches(start: Start, run: Run): seq<nat>
    requires Fits(start, run)
  {
    seq(|start.names|, j requires 0 <= j < |start.names| => BatchesIn(start, run, j))
  }

  function Plain(log: seq<(string, Message)>): Mailbox {
    seq(|log|, i requires 0 <= i < |log| => log[i].1)
  }

  ghost predicate SourcesOk(start: Start, s: State, matches: string -> bool)
    requires Fits(start, s.run)
  {
    forall j :: 0 <= j < |start.names| ==>
      && start.names[j] in s.boxes && start.names[j] in s.arrived
      && SourceOk(start.boxes[start.names[j]], s.arrived[start.names[j]], s.boxes[start.names[j]],
                  s.run.sources[j].cursor, s.run.sources[j].done, matches)
  }

  ghost predicate RunOk(start: Start, run: Run)
    requires Fits(start, run)
  {
    && run.index <= |run.sources| && !run.status.Failed? && run.failed == 0
    && (run.status.Completed? <==> run.index == |run.sources|)
    && (forall j :: 0 <= j < run.index ==> run.sources[j].done)
    && (run.index < |run.sources| ==> !run.sources[run.index].done)
    && (forall j :: run.index < j < |run.sources| ==> LeftOf(start, run, j) == |start.boxes[start.names[j]]|)
  }

  ghost predicate LogOk(start: Start, s: State, matches: string -> bool)
    requires Fits(start, s.run)
  {
    && s.log == Flat(PassedParts(start, s.run))
    && s.steps == Sum(PassedBatches(start, s.run))
    && s.run.scanned == |s.log|
    && s.run.matched == s.run.moved == |Matching(Plain(s.log), matches)|
  }

  /** The target holds what it held, what others delivered, and the matches found so far. */
  ghost predicate TargetOk(start: Start, s: State, matches: string -> bool) {
    && start.target in start.boxes && start.target in s.boxes && start.target in s.arrived
    && multiset(Contents(s.boxes[start.target])) ==
       multiset(Contents(start.boxes[start.target])) + multiset(Contents(s.arrived[start.target]))
       + multiset(Contents(Matching(Plain(s.log), matches)))
  }

  ghost predicate Inv(start: Start, s: State, matches: string -> bool) {
    && StartOk(start) && Fits(start, s.run)
    && SourcesOk(start, s, matches) && RunOk(start, s.run) && LogOk(start, s, matches) && TargetOk(start, s, matches)
  }

  // Creation

  lemma {:induction false} FreshSource(original: Mailbox, matches: string -> bool)
    requires Valid(original)
    ensures SourceOk(original, [], original, Latest(original), Latest(original) == 0, matches)
    ensures Left(original, Latest(original)) == |original|
  {
    LeftAt(original, |original|);
    var n := |original|;
    assert original[n..] == [] && original[..n] == original;
    assert Unmatched(original[n..], matches) == [];
    assert original == original + [] + [];
  }

  lemma {:induction false} FlatEmpty<T>(parts: seq<seq<T>>)
    requires forall j :: 0 <= j < |parts| ==> parts[j] == []
    ensures Flat(parts) == []
  {
    if parts != [] {
      FlatEmpty(parts[..|parts| - 1]);
    }
  }

  lemma {:induction false} SumZero(counts: seq<nat>)
    requires forall j :: 0 <= j < |counts| ==> counts[j] == 0
    ensures Sum(counts) == 0
  {
    if counts != [] {
      SumZero(counts[..|counts| - 1]);
    }
  }

  lemma {:induction false} NothingPassedIn(start: Start, run: Run, j: nat)
    requires Fits(start, run) && j < |start.names|
    requires LeftOf(start, run, j) == |start.boxes[start.names[j]]|
    ensures PassedIn(start, run, j) == [] && BatchesIn(start, run, j) == 0
  {
    var original := start.boxes[start.names[j]];
    assert Reverse(original[|original|..]) == [];
  }

  lemma {:induction false} NothingPassed(start: Start, run: Run)
    requires Fits(start, run)
    requires forall j :: 0 <= j < |start.names| ==> LeftOf(start, run, j) == |start.boxes[start.names[j]]|
    ensures Flat(PassedParts(start, run)) == [] && Sum(PassedBatches(start, run)) == 0
  {
    forall j | 0 <= j < |start.names| ensures PassedParts(start, run)[j] == [] && PassedBatches(start, run)[j] == 0 {
      NothingPassedIn(start, run, j);
    }
    FlatEmpty(PassedParts(start, run));
    SumZero(PassedBatches(start, run));
  }

  lemma {:induction false} BeginSource(start: Start, matches: string -> bool, j: nat)
    requires StartOk(start) && j < |start.names|
    ensures var s := Begin(start);
      && SourceOk(start.boxes[start.names[j]], [], start.boxes[start.names[j]],
                  s.run.sources[j].cursor, s.run.sources[j].done, matches)
      && LeftOf(start, s.run, j) == |start.boxes[start.names[j]]|
  {
    FreshSource(start.boxes[start.names[j]], matches);
  }

  lemma {:induction false} BeginSources(start: Start, s: State, matches: string -> bool)
    requires StartOk(start) && s == Begin(start)
    ensures Fits(start, s.run) && SourcesOk(start, s, matches)
    ensures forall j :: 0 <= j < |start.names| ==> LeftOf(start, s.run, j) == |start.boxes[start.names[j]]|
  {
    forall j | 0 <= j < |start.names|
      ensures start.names[j] in s.boxes && start.names[j] in s.arrived
      ensures SourceOk(start.boxes[start.names[j]], s.arrived[start.names[j]], s.boxes[start.names[j]],
                       s.run.sources[j].cursor, s.run.sources[j].done, matches)
      ensures LeftOf(start, s.run, j) == |start.boxes[start.names[j]]|
    {
      BeginSource(start, matches, j);
    }
  }

  lemma {:induction false} BeginTarget(start: Start, s: State, matches: string -> bool)
    requires StartOk(start) && s == Begin(start)
    ensures TargetOk(start, s, matches) && |Matching(Plain(s.log), matches)| == 0
  {
    assert Plain(s.log) == [] && Matching([], matches) == [] && Contents([]) == [];
  }

  lemma {:induction false} BeginInv(start: Start, matches: string -> bool)
    requires StartOk(start)
    ensures Inv(start, Begin(start), matches)
  {
    var s := Begin(start);
    BeginSources(start, s, matches);
    BeginTarget(start, s, matches);
    NothingPassed(start, s.run);
  }

  // Deliveries

  lemma {:induction false} DeliveredSource(original: Mailbox, arrived: Mailbox, mb: Mailbox, cursor: nat, done: bool,
      matches: string -> bool, more: Mailbox)
    requires SourceOk(original, arrived, mb, cursor, done, matches) && Valid(mb + more)
    ensures SourceOk(original, arrived + more, mb + more, cursor, done, matches)
  {
    var r := Left(original, cursor);
    assert mb + more == original[..r] + Unmatched(original[r..], matches) + (arrived + more);
  }

  lemma {:induction false} DeliverSources(start: Start, s: State, s': State, e: Event, matches: string -> bool)
    requires Inv(start, s, matches) && e.Deliver? && Enabled(s, e) && s' == Next(s, e, start.target, matches)
    ensures SourcesOk(start, s', matches)
  {
    forall j | 0 <= j < |start.names|
      ensures start.names[j] in s'.boxes && start.names[j] in s'.arrived
      ensures SourceOk(start.boxes[start.names[j]], s'.arrived[start.names[j]], s'.boxes[start.names[j]],
                       s'.run.sources[j].cursor, s'.run.sources[j].done, matches)
    {
      var name := start.names[j];
      if name == e.box {
        DeliveredSource(start.boxes[name], s.arrived[name], s.boxes[name],
                        s.run.sources[j].cursor, s.run.sources[j].done, matches, e.messages);
      }
    }
  }

  lemma {:induction false} DeliverTarget(start: Start, s: State, s': State, e: Event, matches: string -> bool)
    requires Inv(start, s, matches) && e.Deliver? && Enabled(s, e) && s' == Next(s, e, start.target, matches)
    ensures TargetOk(start, s', matches)
  {
    if e.box == start.target {
      ContentsConcat(s.boxes[e.box], e.messages);
      ContentsConcat(s.arrived[e.box], e.messages);
    }
  }

  lemma {:induction false} DeliverInv(start: Start, s: State, e: Event, matches: string -> bool)
    requires Inv(start, s, matches) && e.Deliver? && Enabled(s, e)
    ensures Inv(start, Next(s, e, start.target, matches), matches)
  {
    var s' := Next(s, e, start.target, matches);
    DeliverSources(start, s, s', e, matches);
    DeliverTarget(start, s, s', e, matches);
  }

  // Steps

  /** The batch a step works on. */
  ghost function Batch(start: Start, run: Run): Mailbox
    requires Fits(start, run) && run.index < |run.sources|
  {
    var r := LeftOf(start, run, run.index);
    start.boxes[start.names[run.index]][BatchStart(r)..r]
  }

  ghost function NextCursor(start: Start, run: Run): nat
    requires Fits(start, run) && run.index < |run.sources|
  {
    CursorAt(start.boxes[start.names[run.index]], BatchStart(LeftOf(start, run, run.index)))
  }

  lemma {:induction false} WorkShape(boxes: Boxes, run: Run, index: nat, window: Window, target: string,
      matches: string -> bool, batch: Mailbox, next: nat)
    requires index < |run.sources| && run.sources[index].mailbox in boxes && target in boxes
    requires BatchRead(window, batch, next)
    ensures var uids := Uids(Matching(batch, matches));
      Work(boxes, run, index, window, target, matches) ==
        (if uids == {} then boxes else Move(boxes, run.sources[index].mailbox, uids, target),
         Advance(run, index, Reverse(batch), next, matches),
         Reverse(batch))
  {
    MatchingReversed(batch, matches);
  }

  lemma {:induction false} StepShape(start: Start, s: State, matches: string -> bool)
    requires Inv(start, s, matches) && s.run.index < |s.run.sources|
    ensures var i := s.run.index;
      var batch := Batch(start, s.run);
      var uids := Uids(Matching(batch, matches));
      Step(s.boxes, s.run, start.target, matches) ==
        (if uids == {} then s.boxes else Move(s.boxes, start.names[i], uids, start.target),
         Advance(s.run, i, Reverse(batch), NextCursor(start, s.run), matches),
         Reverse(batch))
  {
    var i := s.run.index;
    var name := start.names[i];
    var mb := s.boxes[name];
    var cursor := s.run.sources[i].cursor;
    var window := ListMessageWindow(mb, mb, BATCH, cursor);
    assert NextOpen(s.run.sources, i) == i;
    SourceAdvances(start.boxes[name], s.arrived[name], mb, cursor, matches);
    WorkShape(s.boxes, s.run, i, window, start.target, matches, Batch(start, s.run), NextCursor(start, s.run));
  }

  lemma {:induction false} MoveEffect(boxes: Boxes, name: string, target: string, found: Mailbox)
    requires name in boxes && target in boxes && name != target
    requires Keep(boxes[name], (m: Message) => m.uid in Uids(found)) == found
    ensures var uids := Uids(found);
      var boxes' := if uids == {} then boxes else Move(boxes, name, uids, target);
      && boxes'.Keys == boxes.Keys
      && boxes'[name] == Keep(boxes[name], (m: Message) => m.uid !in uids)
      && boxes'[target] == Append(boxes[target], Contents(found))
      && (forall other :: other in boxes && other != name && other != target ==> boxes'[other] == boxes[other])
  {
    if found != [] {
      assert found[0].uid in Uids(found);
    }
    if Uids(found) == {} {
      KeepAll(boxes[name], (m: Message) => m.uid !in Uids(found));
      assert Contents(found) == [];
      assert Append(boxes[target], []) == boxes[target];
    }
  }

  /** The boxes and cursors that a step leaves, box by box. */
  ghost predicate Stepped(start: Start, s: State, s': State, matches: string -> bool)
    requires Fits(start, s.run) && s.run.index < |s.run.sources|
  {
    var i := s.run.index;
    var name := start.names[i];
    var batch := Batch(start, s.run);
    var next := NextCursor(start, s.run);
    && name in s.boxes && name in s.arrived && start.target in s.boxes
    && s'.boxes.Keys == s.boxes.Keys && s'.arrived == s.arrived
    && SourceOk(start.boxes[name], s.arrived[name], s'.boxes[name], next, next == 0, matches)
    && Left(start.boxes[name], next) == BatchStart(LeftOf(start, s.run, i))
    && s'.boxes[start.target] == Append(s.boxes[start.target], Contents(Matching(batch, matches)))
    && (forall other :: other in s.boxes && other != name && other != start.target ==>
        s'.boxes[other] == s.boxes[other])
    && s'.run == Advance(s.run, i, Reverse(batch), next, matches)
    && s'.log == s.log + Tagged(name, Reverse(batch)) && s'.steps == s.steps + 1
  }

  lemma {:induction false} StepEffect(start: Start, s: State, matches: string -> bool)
    requires Inv(start, s, matches) && s.run.index < |s.run.sources|
    ensures Stepped(start, s, Next(s, CallStep, start.target, matches), matches)
  {
    var i := s.run.index;
    var name := start.names[i];
    StepShape(start, s, matches);
    SourceKept(start.boxes[name], s.arrived[name], s.boxes[name], s.run.sources[i].cursor, matches);
    MoveEffect(s.boxes, name, start.target, Matching(Batch(start, s.run), matches));
  }

  lemma {:induction false} StepSources(start: Start, s: State, s': State, matches: string -> bool)
    requires Inv(start, s, matches) && s.run.index < |s.run.sources| && Stepped(start, s, s', matches)
    ensures Fits(start, s'.run) && SourcesOk(start, s', matches)
  {
    forall j | 0 <= j < |start.names|
      ensures start.names[j] in s'.boxes && start.names[j] in s'.arrived
      ensures SourceOk(start.boxes[start.names[j]], s'.arrived[start.names[j]], s'.boxes[start.names[j]],
                       s'.run.sources[j].cursor, s'.run.sources[j].done, matches)
    {
      if j != s.run.index {
        assert s'.boxes[start.names[j]] == s.boxes[start.names[j]];
      }
    }
  }

  lemma {:induction false} StepTarget(start: Start, s: State, s': State, matches: string -> bool)
    requires Inv(start, s, matches) && s.run.index < |s.run.sources| && Stepped(start, s, s', matches)
    ensures TargetOk(start, s', matches)
  {
    var batch := Batch(start, s.run);
    AppendContents(s.boxes[start.target], Contents(Matching(batch, matches)));
    LogGrows(s.log, start.names[s.run.index], Reverse(batch), matches);
    MatchingReversed(batch, matches);
  }

  lemma {:induction false} LogGrows(log: seq<(string, Message)>, name: string, evaluated: Mailbox,
      matches: string -> bool)
    ensures Matching(Plain(log + Tagged(name, evaluated)), matches) ==
        Matching(Plain(log), matches) + Matching(evaluated, matches)
    ensures multiset(Contents(Matching(Plain(log + Tagged(name, evaluated)), matches))) ==
            multiset(Contents(Matching(Plain(log), matches))) + multiset(Contents(Matching(evaluated, matches)))
  {
    assert Plain(log + Tagged(name, evaluated)) == Plain(log) + evaluated;
    KeepConcat(Plain(log), evaluated, (m: Message) => matches(m.content));
    ContentsConcat(Matching(Plain(log), matches), Matching(evaluated, matches));
  }

  lemma {:induction false} AdvanceRun(start: Start, run: Run, candidates: Mailbox, next: nat, matches: string -> bool)
    requires Fits(start, run) && RunOk(start, run) && run.index < |run.sources|
    ensures var run' := Advance(run, run.index, candidates, next, matches);
      Fits(start, run') && RunOk(start, run')
  {
    var run' := Advance(run, run.index, candidates, next, matches);
    assert forall j :: 0 <= j < |run.sources| && j != run.index ==> run'.sources[j] == run.sources[j];
    assert forall j :: run.index < j < |run.sources| ==> LeftOf(start, run', j) == LeftOf(start, run, j);
  }

  lemma {:induction false} StepRun(start: Start, s: State, s': State, matches: string -> bool)
    requires Inv(start, s, matches) && s.run.index < |s.run.sources| && Stepped(start, s, s', matches)
    ensures Fits(start, s'.run) && RunOk(start, s'.run)
  {
    AdvanceRun(start, s.run, Reverse(Batch(start, s.run)), NextCursor(start, s.run), matches);
  }

  lemma {:induction false} BatchesGrow(size: nat, r: nat)
    requires 0 < r <= size && (size - r) % BATCH == 0
    ensures Batches(size - BatchStart(r)) == Batches(size - r) + 1
  {
  }

  lemma {:induction false} TaggedSplit(name: string, original: Mailbox, r': nat, r: nat)
    requires r' <= r <= |original|
    ensures Tagged(name, Reverse(original[r'..])) == Tagged(name, Reverse(original[r..]))
        + Tagged(name, Reverse(original[r'..r]))
  {
    assert original[r'..] == original[r'..r] + original[r..];
  }

  /** `run'` differs from `run` only in that source `i` has one more batch behind it. */
  ghost predicate OneBatchMore(start: Start, run: Run, run': Run, i: nat) {
    && Fits(start, run) && Fits(start, run') && i < |start.names|
    && (forall j :: 0 <= j < |start.names| && j != i ==> LeftOf(start, run', j) == LeftOf(start, run, j))
    && (forall j :: i < j < |start.names| ==> LeftOf(start, run, j) == |start.boxes[start.names[j]]|)
    && LeftOf(start, run', i) == BatchStart(LeftOf(start, run, i))
    && LeftOf(start, run, i) > 0 && (|start.boxes[start.names[i]]| - LeftOf(start, run, i)) % BATCH == 0
  }

  lemma {:induction false} PassedInGrows(start: Start, run: Run, run': Run, i: nat, j: nat)
    requires OneBatchMore(start, run, run', i) && j < |start.names|
    ensures j != i ==>
        PassedIn(start, run', j) == PassedIn(start, run, j) && BatchesIn(start, run', j) == BatchesIn(start, run, j)
    ensures j == i ==> var r := LeftOf(start, run, i);
      && PassedIn(start, run', j) ==
         PassedIn(start, run, j) + Tagged(start.names[i], Reverse(start.boxes[start.names[i]][BatchStart(r)..r]))
      && BatchesIn(start, run', j) == BatchesIn(start, run, j) + 1
    ensures j > i ==> PassedIn(start, run, j) == []
  {
    if j == i {
      var r := LeftOf(start, run, i);
      TaggedSplit(start.names[i], start.boxes[start.names[j]], BatchStart(r), r);
      BatchesGrow(|start.boxes[start.names[i]]|, r);
    } else if j > i {
      NothingPassedIn(start, run, j);
    }
  }

  /** A sequence of parts grows at its end when its last non-empty part does. */
  lemma {:induction false} FlatGrows<T>(parts: seq<seq<T>>, parts': seq<seq<T>>, i: nat, more: seq<T>)
    requires |parts| == |parts'| && i < |parts| && parts'[i] == parts[i] + more
    requires forall j :: 0 <= j < |parts| && j != i ==> parts'[j] == parts[j]
    requires forall j :: i < j < |parts| ==> parts[j] == []
    ensures Flat(parts') == Flat(parts) + more
  {
    var n := |parts| - 1;
    if i == n {
      assert parts[..n] == parts'[..n];
    } else {
      FlatGrows(parts[..n], parts'[..n], i, more);
    }
  }

  lemma {:induction false} SumGrows(counts: seq<nat>, counts': seq<nat>, i: nat)
    requires |counts| == |counts'| && i < |counts| && counts'[i] == counts[i] + 1
    requires forall j :: 0 <= j < |counts| && j != i ==> counts'[j] == counts[j]
    ensures Sum(counts') == Sum(counts) + 1
  {
    var n := |counts| - 1;
    if i == n {
      assert counts[..n] == counts'[..n];
    } else {
      SumGrows(counts[..n], counts'[..n], i);
    }
  }

  /** Then the log grows by exactly that batch, because no later source has been touched. */
  lemma {:induction false} PassedGrows(start: Start, run: Run, run': Run, i: nat)
    requires OneBatchMore(start, run, run', i)
    ensures var r := LeftOf(start, run, i);
      var batch := start.boxes[start.names[i]][BatchStart(r)..r];
      Flat(PassedParts(start, run')) == Flat(PassedParts(start, run)) + Tagged(start.names[i], Reverse(batch))
    ensures Sum(PassedBatches(start, run')) == Sum(PassedBatches(start, run)) + 1
  {
    var r := LeftOf(start, run, i);
    var more := Tagged(start.names[i], Reverse(start.boxes[start.names[i]][BatchStart(r)..r]));
    var parts, parts' := PassedParts(start, run), PassedParts(start, run');
    var counts, counts' := PassedBatches(start, run), PassedBatches(start, run');
    forall j | 0 <= j < |start.names|
      ensures j != i ==> parts'[j] == parts[j] && counts'[j] == counts[j]
      ensures j == i ==> parts'[j] == parts[j] + more && counts'[j] == counts[j] + 1
      ensures j > i ==> parts[j] == []
    {
      PassedInGrows(start, run, run', i, j);
    }
    FlatGrows(parts, parts', i, more);
    SumGrows(counts, counts', i);
  }

  lemma {:induction false} AdvanceMore(start: Start, run: Run, candidates: Mailbox, next: nat, matches: string -> bool)
    requires Fits(start, run) && RunOk(start, run) && CursorsOk(start, run) && run.index < |run.sources|
    requires Left(start.boxes[start.names[run.index]], next) == BatchStart(LeftOf(start, run, run.index))
    ensures OneBatchMore(start, run, Advance(run, run.index, candidates, next, matches), run.index)
  {
    AdvanceRun(start, run, candidates, next, matches);
    var run' := Advance(run, run.index, candidates, next, matches);
    assert forall j :: 0 <= j < |start.names| && j != run.index ==> run'.sources[j] == run.sources[j];
  }

  lemma {:induction false} StepLog(start: Start, s: State, s': State, matches: string -> bool)
    requires Inv(start, s, matches) && s.run.index < |s.run.sources| && Stepped(start, s, s', matches)
    ensures Fits(start, s'.run) && LogOk(start, s', matches)
  {
    var batch := Batch(start, s.run);
    assert OneBatchMore(start, s.run, s'.run, s.run.index) by {
      Cursors(start, s, matches);
      AdvanceMore(start, s.run, Reverse(batch), NextCursor(start, s.run), matches);
    }
    PassedGrows(start, s.run, s'.run, s.run.index);
    LogGrows(s.log, start.names[s.run.index], Reverse(batch), matches);
  }

  lemma {:induction false} NextInv(start: Start, s: State, e: Event, matches: string -> bool)
    requires Inv(start, s, matches) && Enabled(s, e)
    ensures Inv(start, Next(s, e, start.target, matches), matches)
  {
    if e.Deliver? {
      DeliverInv(start, s, e, matches);
    } else if s.run.index < |s.run.sources| {
      StepEffect(start, s, matches);
      StepInv(start, s, Next(s, e, start.target, matches), matches);
    }
  }

  lemma {:induction false} StepInv(start: Start, s: State, s': State, matches: string -> bool)
    requires Inv(start, s, matches) && s.run.index < |s.run.sources| && Stepped(start, s, s', matches)
    ensures Inv(start, s', matches)
  {
    StepSources(start, s, s', matches);
    StepRun(start, s, s', matches);
    StepLog(start, s, s', matches);
    StepTarget(start, s, s', matches);
  }

  /** The UIDs a step asks to be moved are always a selection the command accepts. */
  lemma {:induction false} SelectionAccepted(start: Start, s: State, matches: string -> bool)
    requires Inv(start, s, matches) && s.run.index < |s.run.sources|
    ensures var found := Matching(Reverse(Batch(start, s.run)), matches);
      found != [] ==> Selectable(UidList(found))
  {
    var original := start.boxes[start.names[s.run.index]];
    var r := LeftOf(start, s.run, s.run.index);
    assert start.names[s.run.index] in start.boxes && Valid(original);
    ValidSlice(original, BatchStart(r), r);
    DistinctMatches(Batch(start, s.run), matches);
  }

  lemma {:induction false} ReversedSelectable(kept: Mailbox)
    requires Valid(kept) && 1 <= |kept| <= BATCH
    ensures Selectable(UidList(Reverse(kept)))
  {
    var uids := UidList(Reverse(kept));
    forall i, j | 0 <= i < j < |uids| ensures uids[i] != uids[j] {
      assert Before(kept, |kept| - 1 - j, |kept| - 1 - i);
    }
    forall u | u in uids ensures 1 <= u <= MAX_UID {
      var i :| 0 <= i < |uids| && uids[i] == u;
      assert uids[i] == kept[|kept| - 1 - i].uid;
    }
  }

  lemma {:induction false} DistinctMatches(batch: Mailbox, matches: string -> bool)
    requires Valid(batch) && |batch| <= BATCH
    ensures var found := Matching(Reverse(batch), matches);
      found != [] ==> Selectable(UidList(found))
  {
    var p := (m: Message) => matches(m.content);
    KeepValid(batch, p);
    MatchingFlips(batch, matches);
    KeepShorter(batch, p);
    if Matching(batch, matches) != [] {
      ReversedSelectable(Matching(batch, matches));
    }
  }

  lemma {:induction false} MatchingFlips(mb: Mailbox, matches: string -> bool)
    ensures Matching(Reverse(mb), matches) == Reverse(Matching(mb, matches))
  {
    if mb != [] {
      var p := (m: Message) => matches(m.content);
      var n := |mb| - 1;
      var front, last := mb[..n], [mb[n]];
      MatchingFlips(front, matches);
      assert front + last == mb;
      KeepConcat(front, last, p);
      KeepConcat(last, Reverse(front), p);
      assert Matching(mb, matches) == Matching(front, matches) + Matching(last, matches);
      if matches(mb[n].content) {
        assert Matching(last, matches) == last;
      } else {
        assert Matching(last, matches) == [];
      }
    }
  }

  lemma {:induction false} KeepShorter(mb: Mailbox, p: Message -> bool)
    ensures |Keep(mb, p)| <= |mb|
  {
    if mb != [] {
      KeepShorter(mb[1..], p);
    }
  }

  // ---------------------------------------------------------------------------------------
  // What every run achieves
  // ---------------------------------------------------------------------------------------

  ghost predicate History(start: Start, states: seq<State>, events: seq<Event>, matches: string -> bool) {
    && StartOk(start) && |states| == |events| + 1 && states[0] == Begin(start)
    && forall k :: 0 <= k < |events| ==>
         && Enabled(states[k], events[k]) && states[k].run.index <= |states[k].run.sources|
         && states[k + 1] == Next(states[k], events[k], start.target, matches)
  }

  lemma {:induction false} HistoryInv(start: Start, states: seq<State>, events: seq<Event>, matches: string -> bool,
      k: nat)
    requires History(start, states, events, matches) && k < |states|
    ensures Inv(start, states[k], matches)
  {
    if k == 0 {
      BeginInv(start, matches);
    } else {
      HistoryInv(start, states, events, matches, k - 1);
      NextInv(start, states[k - 1], events[k - 1], matches);
    }
  }

  ghost predicate SourcesExist(start: Start) {
    forall j :: 0 <= j < |start.names| ==> start.names[j] in start.boxes
  }

  /** All messages of the sources as they were at the start, source by source and newest
      first: what a run has to evaluate. */
  ghost function AllParts(start: Start): seq<seq<(string, Message)>>
    requires SourcesExist(start)
  {
    seq(|start.names|, j requires 0 <= j < |start.names| => Tagged(start.names[j],
        Reverse(start.boxes[start.names[j]])))
  }

  ghost function Everything(start: Start): seq<(string, Message)>
    requires SourcesExist(start)
  {
    Flat(AllParts(start))
  }

  ghost function AllBatches(start: Start): seq<nat>
    requires SourcesExist(start)
  {
    seq(|start.names|, j requires 0 <= j < |start.names| => Batches(|start.boxes[start.names[j]]|))
  }

  ghost function TotalBatches(start: Start): nat
    requires SourcesExist(start)
  {
    Sum(AllBatches(start))
  }

  lemma {:induction false} FlatPrefix<T>(parts: seq<seq<T>>, whole: seq<seq<T>>, i: nat)
    requires |parts| == |whole|
    requires forall j :: 0 <= j < |parts| && j < i ==> parts[j] == whole[j]
    requires i < |parts| ==> parts[i] <= whole[i]
    requires forall j :: i < j < |parts| ==> parts[j] == []
    ensures Flat(parts) <= Flat(whole)
  {
    if parts != [] {
      var n := |parts| - 1;
      FlatPrefix(parts[..n], whole[..n], i);
      if n <= i {
        assert parts[..n] == whole[..n];
      }
    }
  }

  lemma {:induction false} SumBound(counts: seq<nat>, bounds: seq<nat>)
    requires |counts| == |bounds| && forall j :: 0 <= j < |counts| ==> counts[j] <= bounds[j]
    ensures Sum(counts) <= Sum(bounds)
  {
    if counts != [] {
      SumBound(counts[..|counts| - 1], bounds[..|counts| - 1]);
    }
  }

  lemma {:induction false} SumStrict(counts: seq<nat>, bounds: seq<nat>, i: nat)
    requires |counts| == |bounds| && i < |counts| && counts[i] < bounds[i]
    requires forall j :: 0 <= j < |counts| ==> counts[j] <= bounds[j]
    ensures Sum(counts) < Sum(bounds)
  {
    var n := |counts| - 1;
    if i == n {
      SumBound(counts[..n], bounds[..n]);
    } else {
      SumStrict(counts[..n], bounds[..n], i);
    }
  }

  lemma {:induction false} DoneSource(start: Start, s: State, matches: string -> bool, j: nat)
    requires Inv(start, s, matches) && j < |start.names|
    ensures s.run.sources[j].done <==> LeftOf(start, s.run, j) == 0
    ensures LeftOf(start, s.run, j) > 0 ==> (|start.boxes[start.names[j]]| - LeftOf(start, s.run, j)) % BATCH == 0
    ensures s.run.sources[j].cursor <= MAX_UID && (s.run.sources[j].done <==> s.run.sources[j].cursor == 0)
  {
  }

  /** How far one source is. */
  lemma {:induction false} PartOfSource(start: Start, run: Run, j: nat)
    requires Fits(start, run) && CursorsOk(start, run) && j < |start.names|
    ensures PassedIn(start, run, j) <= AllParts(start)[j] && BatchesIn(start, run, j) <= AllBatches(start)[j]
    ensures run.sources[j].done ==>
        PassedIn(start, run, j) == AllParts(start)[j] && BatchesIn(start, run, j) == AllBatches(start)[j]
    ensures !run.sources[j].done ==> BatchesIn(start, run, j) < AllBatches(start)[j]
    ensures LeftOf(start, run, j) == |start.boxes[start.names[j]]| ==> PassedIn(start, run, j) == []
  {
    var original := start.boxes[start.names[j]];
    var r := LeftOf(start, run, j);
    TaggedSplit(start.names[j], original, 0, r);
    assert original[0..] == original;
    if r == |original| {
      NothingPassedIn(start, run, j);
    }
  }

  /** What the invariant says about cursors. */
  ghost predicate CursorsOk(start: Start, run: Run)
    requires Fits(start, run)
  {
    forall j :: 0 <= j < |start.names| ==>
      && run.sources[j].cursor <= MAX_UID
      && (run.sources[j].done <==> run.sources[j].cursor == 0)
      && (run.sources[j].done <==> LeftOf(start, run, j) == 0)
      && (LeftOf(start, run, j) > 0 ==> (|start.boxes[start.names[j]]| - LeftOf(start, run, j)) % BATCH == 0)
  }

  lemma {:induction false} Cursors(start: Start, s: State, matches: string -> bool)
    requires Inv(start, s, matches)
    ensures CursorsOk(start, s.run)
  {
    forall j | 0 <= j < |start.names|
      ensures s.run.sources[j].cursor <= MAX_UID
      ensures s.run.sources[j].done <==> s.run.sources[j].cursor == 0
      ensures s.run.sources[j].done <==> LeftOf(start, s.run, j) == 0
      ensures LeftOf(start, s.run, j) > 0 ==> (|start.boxes[start.names[j]]| - LeftOf(start, s.run, j)) % BATCH == 0
    {
      DoneSource(start, s, matches, j);
    }
  }

  lemma {:induction false} Progress(start: Start, run: Run)
    requires Fits(start, run) && RunOk(start, run) && CursorsOk(start, run)
    ensures Flat(PassedParts(start, run)) <= Everything(start)
    ensures Sum(PassedBatches(start, run)) <= TotalBatches(start)
    ensures run.index == |start.names| ==> Flat(PassedParts(start, run)) == Everything(start)
    ensures run.index == |start.names| <==> Sum(PassedBatches(start, run)) == TotalBatches(start)
  {
    var parts, whole := PassedParts(start, run), AllParts(start);
    var counts, bounds := PassedBatches(start, run), AllBatches(start);
    var i := run.index;
    forall j | 0 <= j < |start.names|
      ensures parts[j] <= whole[j] && counts[j] <= bounds[j]
      ensures j < i ==> parts[j] == whole[j] && counts[j] == bounds[j]
      ensures j == i ==> counts[j] < bounds[j]
      ensures j > i ==> parts[j] == []
    {
      PartOfSource(start, run, j);
    }
    FlatPrefix(parts, whole, i);
    SumBound(counts, bounds);
    if i == |start.names| {
      assert parts == whole && counts == bounds;
    } else {
      SumStrict(counts, bounds, i);
    }
  }

  /** Exactly once: at every moment of every run, the messages evaluated so far are the
      beginning of what has to be evaluated, in that order; the counters count them; every
      state stored re-validates, a source is done exactly when its cursor is 0, the run never
      fails, and it is completed exactly after as many calls as there are batches. */
  lemma {:induction false} RunIsExact(start: Start, states: seq<State>, events: seq<Event>, matches: string -> bool,
      k: nat)
    requires History(start, states, events, matches) && k < |states|
    ensures var s := states[k];
      && Revalidates(s.run) && !s.run.status.Failed?
      && (forall j :: 0 <= j < |s.run.sources| ==> (s.run.sources[j].done <==> s.run.sources[j].cursor == 0))
      && s.log <= Everything(start)
      && s.run.scanned == |s.log| && s.run.matched == s.run.moved == |Matching(Plain(s.log), matches)|
      && s.steps <= TotalBatches(start)
      && (s.run.status.Completed? <==> s.steps == TotalBatches(start))
  {
    HistoryInv(start, states, events, matches, k);
    Cursors(start, states[k], matches);
    Progress(start, states[k].run);
  }

  lemma {:induction false} FinishedSource(original: Mailbox, arrived: Mailbox, mb: Mailbox, cursor: nat,
      matches: string -> bool)
    requires SourceOk(original, arrived, mb, cursor, true, matches)
    ensures mb == Unmatched(original, matches) + arrived
  {
    assert original[0..] == original;
  }

  /** When the run is completed, every message that was in a source at the start has been
      evaluated exactly once, source by source in descending UID order; each source holds its
      unmatched messages and later arrivals, and the target has gained exactly the matches. */
  lemma {:induction false} CompletedRun(start: Start, states: seq<State>, events: seq<Event>, matches: string -> bool,
      k: nat)
    requires History(start, states, events, matches) && k < |states| && states[k].run.status.Completed?
    ensures var s := states[k];
      && s.log == Everything(start)
      && (forall j :: 0 <= j < |start.names| ==>
            && start.names[j] in s.boxes && start.names[j] in s.arrived
            && s.boxes[start.names[j]] == Unmatched(start.boxes[start.names[j]], matches) + s.arrived[start.names[j]])
      && TargetOk(start, s, matches)
  {
    var s := states[k];
    HistoryInv(start, states, events, matches, k);
    Cursors(start, s, matches);
    Progress(start, s.run);
    forall j | 0 <= j < |start.names|
      ensures s.boxes[start.names[j]] == Unmatched(start.boxes[start.names[j]], matches) + s.arrived[start.names[j]]
    {
      FinishedSource(start.boxes[start.names[j]], s.arrived[start.names[j]], s.boxes[start.names[j]],
                     s.run.sources[j].cursor, matches);
    }
  }
}
