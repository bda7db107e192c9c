/**
 One call of the rule run on whatever mailboxes there are: when it fails and what it leaves
 then, and that mail is neither lost nor doubled and the counters tell what was moved.
 */
module RuleStep {
  import opened MessageWindow
  import opened MailboxContents
  import opened RuleRun

  /** A stored run that is not over: its sources are done exactly if their cursor is 0. */
  ghost predicate Active(run: Run) {
    && run.index <= |run.sources| && !run.status.Completed? && !run.status.Failed?
    && forall j :: 0 <= j < |run.sources| ==>
        (run.sources[j].done <==> run.sources[j].cursor == 0) && run.sources[j].cursor <= MAX_UID
  }

  /** The source that the next call works on: the first from `index` on that is not done. */
  ghost predicate WorksOn(run: Run, i: nat) {
    && run.index <= i < |run.sources| && !run.sources[i].done
    && forall j :: run.index <= j < i ==> run.sources[j].done
  }

  /** The message with the cursor's UID is the `k`-th of the mailbox. */
  ghost predicate StandsAt(mb: Mailbox, cursor: nat, k: nat) {
    1 <= k <= |mb| && mb[k - 1].uid == cursor
  }

  /** What is evaluated then: it and the nineteen before it. */
  function Evaluated(mb: Mailbox, k: nat): Mailbox
    requires k <= |mb|
  {
    mb[if k < 20 then 0 else k - 20..k]
  }

  lemma {:induction false} WindowOf(mb: Mailbox, cursor: nat, k: nat)
    requires Valid(mb) && StandsAt(mb, cursor, k)
    ensures BatchRead(ListMessageWindow(mb, mb, BATCH, cursor), Evaluated(mb, k),
                      if k <= 20 then 0 else mb[k - 21].uid)
  {
    BatchWindow(mb, k);
    BatchCut(mb, WindowStart(k, BATCH), k);
  }

  lemma {:induction false} NoWindow(mb: Mailbox, cursor: nat)
    requires Valid(mb) && 0 < cursor <= MAX_UID && forall k: nat :: !StandsAt(mb, cursor, k)
    ensures !ListMessageWindow(mb, mb, BATCH, cursor).Found?
  {
    UidAnswer(mb, cursor);
    forall i | 0 <= i < |mb| ensures mb[i].uid != cursor {
      assert !StandsAt(mb, cursor, i + 1);
    }
  }

  lemma {:induction false} OnlyPlace(mb: Mailbox, cursor: nat, k: nat, l: nat)
    requires Valid(mb) && StandsAt(mb, cursor, k) && StandsAt(mb, cursor, l)
    ensures k == l
  {
    if k != l {
      DistinctUids(mb, k - 1, l - 1);
    }
  }

  /** A message that is evaluated next matches. */
  ghost predicate SomeMatch(mb: Mailbox, cursor: nat, matches: string -> bool) {
    exists k: nat :: StandsAt(mb, cursor, k) && exists m <- Evaluated(mb, k) :: matches(m.content)
  }

  /** Why a call fails: the source is gone, the message at its cursor is gone, or there is
      something to move and no mailbox to move it to. */
  ghost predicate Hindered(boxes: Boxes, source: Source, target: string, matches: string -> bool) {
    || source.mailbox !in boxes
    || (forall k: nat :: !StandsAt(boxes[source.mailbox], source.cursor, k))
    || (target !in boxes && SomeMatch(boxes[source.mailbox], source.cursor, matches))
  }

  lemma {:induction false} StepWorks(boxes: Boxes, run: Run, target: string, matches: string -> bool, i: nat)
    requires Active(run) && WorksOn(run, i)
    ensures var source := run.sources[i];
      Step(boxes, run, target, matches) ==
        if source.mailbox !in boxes then (boxes, Fail(run, i), [])
        else
          var mb := boxes[source.mailbox];
          Work(boxes, run, i, ListMessageWindow(mb, mb, BATCH, source.cursor), target, matches)
  {
    assert NextOpen(run.sources, run.index) == i;
  }

  /** A call that fails leaves all mail where it is and all counters but that of failures. */
  lemma {:induction false} FailsExactly(boxes: Boxes, run: Run, target: string, matches: string -> bool, i: nat)
    requires Active(run) && WorksOn(run, i) && forall n :: n in boxes ==> Valid(boxes[n])
    ensures var (boxes', run', _) := Step(boxes, run, target, matches);
      && (run'.status.Failed? <==> Hindered(boxes, run.sources[i], target, matches))
      && (run'.status.Failed? ==>
            boxes' == boxes && run' == run.(index := i, status := Failed, failed := run.failed + 1))
  {
    var source := run.sources[i];
    StepWorks(boxes, run, target, matches, i);
    if source.mailbox in boxes {
      WorkFails(boxes, run, target, matches, i, boxes[source.mailbox], source.cursor);
    }
  }

  lemma {:induction false} WorkFails(boxes: Boxes, run: Run, target: string, matches: string -> bool, i: nat,
      mb: Mailbox, cursor: nat)
    requires i < |run.sources| && run.sources[i].mailbox in boxes && mb == boxes[run.sources[i].mailbox] && Valid(mb)
    requires cursor == run.sources[i].cursor && 0 < cursor <= MAX_UID
    ensures var (boxes', run', _) := Work(boxes, run, i, ListMessageWindow(mb, mb, BATCH, cursor), target, matches);
      && (run'.status.Failed? <==> Hindered(boxes, run.sources[i], target, matches))
      && (run'.status.Failed? ==> boxes' == boxes && run' == Fail(run, i))
  {
    if k: nat :| StandsAt(mb, cursor, k) {
      WindowOf(mb, cursor, k);
      var next := if k <= 20 then 0 else mb[k - 21].uid;
      WorkFailsWith(boxes, run, target, matches, i, ListMessageWindow(mb, mb, BATCH, cursor), Evaluated(mb, k), next);
      SomeMatchAt(mb, cursor, k, matches);
    } else {
      NoWindow(mb, cursor);
    }
  }

  lemma {:induction false} WorkFailsWith(boxes: Boxes, run: Run, target: string, matches: string -> bool, i: nat,
      window: Window, batch: Mailbox, next: nat)
    requires i < |run.sources| && run.sources[i].mailbox in boxes && BatchRead(window, batch, next)
    ensures var (boxes', run', _) := Work(boxes, run, i, window, target, matches);
      && (run'.status.Failed? <==> target !in boxes && exists m <- batch :: matches(m.content))
      && (run'.status.Failed? ==> boxes' == boxes && run' == Fail(run, i))
  {
    FoundAny(batch, matches);
  }

  lemma {:induction false} SomeMatchAt(mb: Mailbox, cursor: nat, k: nat, matches: string -> bool)
    requires Valid(mb) && StandsAt(mb, cursor, k)
    ensures SomeMatch(mb, cursor, matches) <==> exists m <- Evaluated(mb, k) :: matches(m.content)
  {
    forall l: nat | StandsAt(mb, cursor, l) ensures l == k {
      OnlyPlace(mb, cursor, k, l);
    }
  }

  lemma {:induction false} FoundAny(batch: Mailbox, matches: string -> bool)
    ensures Uids(Matching(Reverse(batch), matches)) != {} <==> exists m <- batch :: matches(m.content)
  {
    MatchingReversed(batch, matches);
    KeepAll(batch, (m: Message) => matches(m.content));
    if m :| m in batch && matches(m.content) {
      assert m in Matching(batch, matches) && m.uid in Uids(Matching(batch, matches));
    }
  }

  // ---------------------------------------------------------------------------------------
  // What a call moves
  // ---------------------------------------------------------------------------------------

  /** The boxes after the matching ones among the messages evaluated went to the target. */
  ghost predicate MovedOut(boxes: Boxes, name: string, target: string, k: nat, matches: string -> bool, boxes': Boxes)
    requires name in boxes && target in boxes && k <= |boxes[name]|
  {
    var mb, batch := boxes[name], Evaluated(boxes[name], k);
    && boxes'.Keys == boxes.Keys
    && boxes'[name] == mb[..k - |batch|] + Unmatched(batch, matches) + mb[k..]
    && boxes'[target] == Append(boxes[target], Contents(Matching(batch, matches)))
    && forall other :: other in boxes && other != name && other != target ==> boxes'[other] == boxes[other]
  }

  /** A call that does not fail evaluates the messages at its cursor, moves exactly those that
      match to the end of the target, in order, and counts them; nothing else changes. */
  lemma {:induction false} MovesExactly(boxes: Boxes, run: Run, target: string, matches: string -> bool, i: nat, k: nat)
    requires Active(run) && WorksOn(run, i) && run.sources[i].mailbox in boxes && target in boxes
    requires run.sources[i].mailbox != target && Valid(boxes[run.sources[i].mailbox])
    requires StandsAt(boxes[run.sources[i].mailbox], run.sources[i].cursor, k)
    ensures var (name, (boxes', run', _)) := (run.sources[i].mailbox, Step(boxes, run, target, matches));
      && MovedOut(boxes, name, target, k, matches, boxes')
      && run'.scanned == run.scanned + |Evaluated(boxes[name], k)| && run'.failed == run.failed
      && run'.matched - run.matched == run'.moved - run.moved == |boxes[name]| - |boxes'[name]|
  {
    var name, mb, cursor := run.sources[i].mailbox, boxes[run.sources[i].mailbox], run.sources[i].cursor;
    StepWorks(boxes, run, target, matches, i);
    WindowOf(mb, cursor, k);
    WorkMoves(boxes, run, target, matches, i, ListMessageWindow(mb, mb, BATCH, cursor), k,
              if k <= 20 then 0 else mb[k - 21].uid);
  }

  lemma {:induction false} WorkMoves(boxes: Boxes, run: Run, target: string, matches: string -> bool, i: nat,
      window: Window, k: nat, next: nat)
    requires i < |run.sources| && run.sources[i].mailbox in boxes && target in boxes
    requires run.sources[i].mailbox != target && Valid(boxes[run.sources[i].mailbox])
    requires k <= |boxes[run.sources[i].mailbox]|
    requires BatchRead(window, Evaluated(boxes[run.sources[i].mailbox], k), next)
    ensures var (name, (boxes', run', _)) := (run.sources[i].mailbox, Work(boxes, run, i, window, target, matches));
      && MovedOut(boxes, name, target, k, matches, boxes')
      && run'.scanned == run.scanned + |Evaluated(boxes[name], k)| && run'.failed == run.failed
      && run'.matched - run.matched == run'.moved - run.moved == |boxes[name]| - |boxes'[name]|
  {
    var name, batch := run.sources[i].mailbox, Evaluated(boxes[run.sources[i].mailbox], k);
    WorkShape(boxes, run, i, window, target, matches, batch, next);
    BatchOut(boxes[name], k, matches);
    MoveEffect(boxes, name, target, Matching(batch, matches));
  }

  lemma {:induction false} BatchOut(mb: Mailbox, k: nat, matches: string -> bool)
    requires Valid(mb) && k <= |mb|
    ensures var batch := Evaluated(mb, k);
      var uids := Uids(Matching(batch, matches));
      && Keep(mb, (m: Message) => m.uid !in uids) == mb[..k - |batch|] + Unmatched(batch, matches) + mb[k..]
      && Keep(mb, (m: Message) => m.uid in uids) == Matching(batch, matches)
      && |Matching(Reverse(batch), matches)| == |batch| - |Unmatched(batch, matches)|
  {
    var batch := Evaluated(mb, k);
    assert mb == mb[..k - |batch|] + batch + mb[k..];
    BatchMoved(mb[..k - |batch|], batch, mb[k..], matches);
    MatchingReversed(batch, matches);
    SameSize(Contents(Matching(Reverse(batch), matches)), Contents(Matching(batch, matches)));
    BothParts(batch, matches);
  }

  lemma {:induction false} SameSize(a: seq<string>, b: seq<string>)
    requires multiset(a) == multiset(b)
    ensures |a| == |b|
  {
    assert |a| == |multiset(a)| && |b| == |multiset(b)|;
  }

  lemma {:induction false} BothParts(mb: Mailbox, matches: string -> bool)
    ensures |Matching(mb, matches)| + |Unmatched(mb, matches)| == |mb|
  {
    if mb != [] {
      BothParts(mb[1..], matches);
    }
  }
}
