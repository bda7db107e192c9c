/**
 A mailbox as its clients see it (section 2.3.1.1 of RFC 3501: UIDs strictly increase), and
 the bounded, UID-anchored window that `MaddyService.list_message_window` reads with two
 commands between which the mailbox may change.
 */
module MessageWindow {

  const MAX_UID: nat := 0xFFFF_FFFF

  datatype Message = Message(uid: nat, content: string)

  /** A message as the command lists it: with its current sequence number. */
  datatype Record = Record(sequence: nat, uid: nat, content: string)

  type Mailbox = seq<Message>

  ghost predicate Before(mb: Mailbox, i: int, j: int) {
    0 <= i < j < |mb| ==> mb[i].uid < mb[j].uid
  }

  ghost predicate Valid(mb: Mailbox) {
    && (forall i :: 0 <= i < |mb| ==> 1 <= mb[i].uid <= MAX_UID)
    && (forall i, j :: Before(mb, i, j))
  }

  /** The messages on either side of position `k`. */
  lemma {:induction false} Sides(mb: Mailbox, k: nat)
    requires Valid(mb) && k < |mb|
    ensures forall i :: 0 <= i < |mb| ==> (mb[i].uid < mb[k].uid <==> i < k) && (mb[i].uid == mb[k].uid <==> i == k)
  {
    forall i | 0 <= i < |mb|
      ensures (mb[i].uid < mb[k].uid <==> i < k) && (mb[i].uid == mb[k].uid <==> i == k)
    {
      assert Before(mb, i, k) && Before(mb, k, i);
    }
  }

  lemma {:induction false} AscendingRecords(mb: Mailbox, lo: nat, hi: nat)
    requires Valid(mb) && lo <= hi <= |mb|
    ensures Ascending(Records(mb)[lo..hi])
  {
    var rs := Records(mb)[lo..hi];
    forall i, j | 0 <= i < j < |rs| ensures rs[i].uid < rs[j].uid {
      assert Before(mb, lo + i, lo + j);
    }
  }

  function Records(mb: Mailbox): seq<Record> {
    seq(|mb|, i requires 0 <= i < |mb| => Record(i + 1, mb[i].uid, mb[i].content))
  }

  // ---------------------------------------------------------------------------------------
  // Truthful answers of the list command
  // ---------------------------------------------------------------------------------------

  /** The message with this UID; 0 asks for the newest. */
  function ListUid(mb: Mailbox, uid: nat): seq<Record> {
    if uid == 0 then (if mb == [] then [] else [Records(mb)[|mb| - 1]])
    else Filter(Records(mb), (r: Record) => r.uid == uid)
  }

  /** The messages whose sequence numbers lie between the two bounds. */
  function ListSequence(mb: Mailbox, lower: nat, upper: nat): seq<Record> {
    Filter(Records(mb), (r: Record) => lower <= r.sequence <= upper)
  }

  function Filter(records: seq<Record>, keep: Record -> bool): seq<Record> {
    if records == [] then []
    else
      var rest := Filter(records[..|records| - 1], keep);
      if keep(records[|records| - 1]) then rest + [records[|records| - 1]] else rest
  }

  // ---------------------------------------------------------------------------------------
  // The window
  // ---------------------------------------------------------------------------------------

  datatype Window = Found(records: seq<Record>) | StaleCursor | BadAnswer | BadArgument

  function Insert(r: Record, sorted: seq<Record>): seq<Record> {
    if sorted == [] then [r]
    else if r.uid > sorted[0].uid then [r] + sorted
    else [sorted[0]] + Insert(r, sorted[1..])
  }

  function SortDescending(records: seq<Record>): seq<Record> {
    if records == [] then []
    else Insert(records[|records| - 1], SortDescending(records[..|records| - 1]))
  }

  predicate PlausibleAnchor(r: Record) {
    1 <= r.uid <= MAX_UID && r.sequence > 0
  }

  predicate PlausibleWindow(records: seq<Record>) {
    && (forall r <- records :: PlausibleAnchor(r))
    && (forall i, j :: 0 <= i < j < |records| ==> records[i].uid != records[j].uid)
  }

  /** The window below `cursor` (0: below the newest message); `first` and `second` are the
      mailbox at the two commands. */
  function ListMessageWindow(first: Mailbox, second: Mailbox, limit: int, cursor: int): Window {
    if !(1 <= limit <= 200 && 0 <= cursor <= MAX_UID) then BadArgument
    else
      var anchors := ListUid(first, cursor);
      if anchors == [] then (if cursor == 0 then Found([]) else StaleCursor)
      else if |anchors| != 1 || !PlausibleAnchor(anchors[0]) then BadAnswer
      else if cursor != 0 && anchors[0].uid != cursor then StaleCursor
      else
        var anchor := anchors[0];
        Checked(ListSequence(second, if anchor.sequence > limit then anchor.sequence - limit else 1, anchor.sequence),
            anchor, limit)
  }

  /** The second answer, checked against the anchor. */
  function Checked(records: seq<Record>, anchor: Record, limit: nat): Window {
    if |records| > limit + 1 || !PlausibleWindow(records) then BadAnswer
    else
      var ordered := SortDescending(records);
      var matching := Filter(ordered, (r: Record) => r.uid == anchor.uid);
      if |matching| != 1 || matching[0].sequence != anchor.sequence
         || ordered == [] || ordered[0].uid != anchor.uid
      then StaleCursor else Found(ordered)
  }

  /** The simple meaning: the newest `count` messages not newer than `anchor`. */
  function Newest(mb: Mailbox, anchor: nat, count: nat): seq<Record> {
    var ordered := SortDescending(Filter(Records(mb), (r: Record) => r.uid <= anchor));
    if count < |ordered| then ordered[..count] else ordered
  }

  // ---------------------------------------------------------------------------------------
  // Lists that are already in mailbox order
  // ---------------------------------------------------------------------------------------

  function Reverse<T>(s: seq<T>): (r: seq<T>)
    ensures |r| == |s|
    ensures forall i :: 0 <= i < |s| ==> r[i] == s[|s| - 1 - i]
  {
    if s == [] then [] else [s[|s| - 1]] + Reverse(s[..|s| - 1])
  }

  ghost predicate Ascending(records: seq<Record>) {
    forall i, j :: 0 <= i < j < |records| ==> records[i].uid < records[j].uid
  }

  lemma {:induction false} SortReverses(records: seq<Record>)
    requires Ascending(records)
    ensures SortDescending(records) == Reverse(records)
  {
    if records != [] {
      SortReverses(records[..|records| - 1]);
    }
  }

  /** Filtering by a condition that holds exactly between two positions takes a slice. */
  lemma {:induction false} FilterSlice(records: seq<Record>, keep: Record -> bool, lo: nat, hi: nat)
    requires lo <= hi <= |records|
    requires forall i :: 0 <= i < |records| ==> (keep(records[i]) <==> lo <= i < hi)
    ensures Filter(records, keep) == records[lo..hi]
  {
    if records == [] {
    } else if hi == |records| && lo < hi {
      FilterSlice(records[..|records| - 1], keep, lo, hi - 1);
      assert records[lo..hi] == records[..|records| - 1][lo..hi - 1] + [records[|records| - 1]];
    } else if hi == |records| {
      FilterSlice(records[..|records| - 1], keep, 0, 0);
      assert records[lo..hi] == [];
    } else {
      FilterSlice(records[..|records| - 1], keep, lo, hi);
    }
  }

  /** The records of positions lo..hi, newest first. */
  function Slice(mb: Mailbox, lo: nat, hi: nat): seq<Record>
    requires lo <= hi <= |mb|
  {
    Reverse(Records(mb)[lo..hi])
  }

  /** Where a window of `limit + 1` messages ending at position `k` begins. */
  function WindowStart(k: nat, limit: nat): (n: nat)
    ensures n <= k
  {
    if k <= limit then 0 else k - (limit + 1)
  }

  lemma {:induction false} UpToAnchor(mb: Mailbox, k: nat)
    requires Valid(mb) && 1 <= k <= |mb|
    ensures Filter(Records(mb), (r: Record) => r.uid <= mb[k - 1].uid) == Records(mb)[..k]
  {
    var rs := Records(mb);
    Sides(mb, k - 1);
    FilterSlice(rs, (r: Record) => r.uid <= mb[k - 1].uid, 0, k);
    assert rs[0..k] == rs[..k];
  }

  lemma {:induction false} ReversedEnd(rs: seq<Record>, n: nat)
    requires n <= |rs|
    ensures Reverse(rs)[..n] == Reverse(rs[|rs| - n..])
  {
  }

  lemma {:induction false} NewestIsSlice(mb: Mailbox, k: nat, count: nat)
    requires Valid(mb) && 1 <= k <= |mb|
    ensures Newest(mb, mb[k - 1].uid, count + 1) == Slice(mb, WindowStart(k, count), k)
  {
    var rs := Records(mb)[..k];
    UpToAnchor(mb, k);
    assert SortDescending(rs) == Reverse(rs) by {
      AscendingRecords(mb, 0, k);
      assert Records(mb)[0..k] == rs;
      SortReverses(rs);
    }
    if count + 1 < k {
      ReversedEnd(rs, count + 1);
      assert rs[k - (count + 1)..] == Records(mb)[k - (count + 1)..k];
    } else {
      assert rs == Records(mb)[0..k];
    }
  }

  /** Position of the message with this UID. */
  lemma {:induction false} UidAnswer(mb: Mailbox, uid: nat)
    requires Valid(mb) && uid != 0
    ensures ListUid(mb, uid) == [] <==> forall i :: 0 <= i < |mb| ==> mb[i].uid != uid
    ensures forall i :: 0 <= i < |mb| && mb[i].uid == uid ==> ListUid(mb, uid) == [Records(mb)[i]]
  {
    var rs := Records(mb);
    if i :| 0 <= i < |mb| && mb[i].uid == uid {
      Sides(mb, i);
      FilterSlice(rs, (r: Record) => r.uid == uid, i, i + 1);
      assert rs[i..i + 1] == [rs[i]];
    } else {
      FilterSlice(rs, (r: Record) => r.uid == uid, 0, 0);
    }
  }

  function Min(a: nat, b: nat): nat {
    if a <= b then a else b
  }

  lemma {:induction false} SequenceAnswer(mb: Mailbox, lower: nat, upper: nat)
    requires 1 <= lower <= upper
    ensures ListSequence(mb, lower, upper) == Records(mb)[Min(lower - 1, |mb|)..Min(upper, |mb|)]
  {
    FilterSlice(Records(mb), (r: Record) => lower <= r.sequence <= upper, Min(lower - 1, |mb|), Min(upper, |mb|));
  }

  // ---------------------------------------------------------------------------------------
  // What a window is
  // ---------------------------------------------------------------------------------------

  /** The anchor a window hangs from: the cursor, or the newest UID of the first look. */
  function Anchor(first: Mailbox, cursor: nat): nat {
    if cursor != 0 || first == [] then cursor else first[|first| - 1].uid
  }

  /** The sequence number under which the first look shows the anchor. */
  lemma {:induction false} AnchorPosition(first: Mailbox, cursor: nat) returns (k: nat)
    requires Valid(first) && ListUid(first, cursor) != []
    ensures 1 <= k <= |first| && first[k - 1].uid == Anchor(first, cursor)
    ensures ListUid(first, cursor) == [Records(first)[k - 1]]
  {
    if cursor == 0 {
      k := |first|;
    } else {
      UidAnswer(first, cursor);
      var i :| 0 <= i < |first| && first[i].uid == cursor;
      k := i + 1;
    }
  }

  /** Whatever happened between the two commands, a window that is returned is exactly what
      filter-sort-take gives on the mailbox of the second command; a wrong answer of the
      command is never the reason for a refusal. */
  lemma {:induction false} WindowIsNewest(first: Mailbox, second: Mailbox, limit: int, cursor: int)
    requires Valid(first) && Valid(second) && 1 <= limit <= 200 && 0 <= cursor <= MAX_UID
    ensures var w := ListMessageWindow(first, second, limit, cursor);
      && (w.Found? || w.StaleCursor?)
      && (w.Found? ==> w.records == if cursor == 0 && first == [] then []
          else Newest(second, Anchor(first, cursor), limit + 1))
  {
    if ListUid(first, cursor) != [] {
      var k := AnchorPosition(first, cursor);
      WindowAtAnchor(first, second, limit, cursor, k);
      if k <= |second| {
        NewestIsSlice(second, k, limit);
      }
    } else if cursor != 0 {
      UidAnswer(first, cursor);
    }
  }

  /** The window is found exactly when the second look still shows the anchor under the
      sequence number the first look gave it. */
  lemma {:induction false} WindowAtAnchor(first: Mailbox, second: Mailbox, limit: int, cursor: int, k: nat)
    requires Valid(first) && Valid(second) && 1 <= limit <= 200 && 0 <= cursor <= MAX_UID
    requires 1 <= k <= |first| && ListUid(first, cursor) == [Records(first)[k - 1]]
    requires first[k - 1].uid == Anchor(first, cursor)
    ensures var w := ListMessageWindow(first, second, limit, cursor);
      if k <= |second| && second[k - 1].uid == Anchor(first, cursor) then
        w == Found(Slice(second, WindowStart(k, limit), k))
      else
        w == StaleCursor
  {
    var lower := if k > limit then k - limit else 1;
    var anchor := Records(first)[k - 1];
    assert PlausibleAnchor(anchor);
    assert ListMessageWindow(first, second, limit, cursor) == Checked(ListSequence(second, lower, k), anchor, limit);
    SecondLook(second, anchor, limit);
  }

  lemma {:induction false} SecondLook(mb: Mailbox, anchor: Record, limit: nat)
    requires Valid(mb) && anchor.sequence >= 1 && limit >= 1
    ensures var k := anchor.sequence;
      Checked(ListSequence(mb, if k > limit then k - limit else 1, k), anchor, limit) ==
      if k <= |mb| && mb[k - 1].uid == anchor.uid then Found(Slice(mb, WindowStart(k, limit), k)) else StaleCursor
  {
    var k := anchor.sequence;
    var lower := if k > limit then k - limit else 1;
    var lo, hi := Min(lower - 1, |mb|), Min(k, |mb|);
    assert ListSequence(mb, lower, k) == Records(mb)[lo..hi] by {
      SequenceAnswer(mb, lower, k);
    }
    assert k <= |mb| ==> lo == WindowStart(k, limit) < hi == k;
    CheckedSlice(mb, lo, hi, anchor, limit);
  }

  lemma {:induction false} CheckedSlice(mb: Mailbox, lo: nat, hi: nat, anchor: Record, limit: nat)
    requires Valid(mb) && lo <= hi <= |mb| && hi - lo <= limit + 1 && hi <= anchor.sequence
    ensures Checked(Records(mb)[lo..hi], anchor, limit) ==
      if lo < hi && hi == anchor.sequence && mb[hi - 1].uid == anchor.uid then Found(Slice(mb, lo, hi)) else StaleCursor
  {
    var rs := Records(mb);
    var answer := rs[lo..hi];
    AscendingRecords(mb, lo, hi);
    SortReverses(answer);
    var ordered := Reverse(answer);
    if ordered != [] && ordered[0].uid == anchor.uid {
      assert Filter(ordered, (r: Record) => r.uid == anchor.uid) == [rs[hi - 1]] by {
        FilterSlice(ordered, (r: Record) => r.uid == anchor.uid, 0, 1);
        assert ordered[0..1] == [rs[hi - 1]];
      }
    }
  }
}
