/**
 Message pages: `_messages_list` cuts the window down to what fits one response frame, and a
 client follows `next_offset` from page to page while mail keeps arriving.
 */
module MessagePages {
  import opened Options
  import opened MessageWindow

  const FRAME_LIMIT := 48 * 1024
  const FIELD_LIMIT := 512

  datatype Page = Page(items: seq<Record>, offset: nat, limit: nat, next: Option<nat>)

  datatype Listing = Listed(page: Page) | Oversized | Refused(window: Window)

  /** A record as it is sent, its text cut to the field limit. */
  function Bounded(r: Record): Record {
    if |r.content| > FIELD_LIMIT then r.(content := r.content[..FIELD_LIMIT]) else r
  }

  function AllBounded(records: seq<Record>): seq<Record> {
    seq(|records|, i requires 0 <= i < |records| => Bounded(records[i]))
  }

  /** The page that carries the first `n` messages of the window. */
  function Draft(messages: seq<Record>, n: nat, offset: nat, limit: nat): Page
    requires n <= |messages|
  {
    Page(AllBounded(messages[..n]), offset, limit, if n < |messages| then Some(messages[n].uid) else None)
  }

  /** How many messages beyond `n` still fit, adding one at a time. */
  function Fitting(messages: seq<Record>, candidates: nat, n: nat, offset: nat, limit: nat,
      frame: Page -> nat): (m: nat)
    requires n <= candidates <= |messages|
    ensures n <= m <= candidates
    ensures n < m ==> frame(Draft(messages, m, offset, limit)) <= FRAME_LIMIT
    ensures m < candidates ==> frame(Draft(messages, m + 1, offset, limit)) > FRAME_LIMIT
    decreases candidates - n
  {
    if n == candidates || frame(Draft(messages, n + 1, offset, limit)) > FRAME_LIMIT then n
    else Fitting(messages, candidates, n + 1, offset, limit, frame)
  }

  /** The page made from a window; `frame` gives the size of a page as it is sent. */
  function Fill(messages: seq<Record>, limit: nat, cursor: nat, frame: Page -> nat): Listing {
    var offset := if cursor == 0 && messages != [] then messages[0].uid else cursor;
    var candidates := Min(limit, |messages|);
    var n := Fitting(messages, candidates, 0, offset, limit, frame);
    if candidates > 0 && n == 0 then Oversized else Listed(Draft(messages, n, offset, limit))
  }

  /** The same page, built record by record. */
  method BuildPage(messages: seq<Record>, limit: nat, cursor: nat, frame: Page -> nat) returns (r: Listing)
    ensures r == Fill(messages, limit, cursor, frame)
  {
    var offset := if cursor == 0 && messages != [] then messages[0].uid else cursor;
    var candidates := messages[..Min(limit, |messages|)];
    var page: seq<Record> := [];
    var fits := true;
    while |page| < |candidates| && fits
      invariant |page| <= |candidates| && page == AllBounded(messages[..|page|])
      invariant Fitting(messages, |candidates|, 0, offset, limit, frame) ==
                if fits then Fitting(messages, |candidates|, |page|, offset, limit, frame) else |page|
      decreases |candidates| - |page|, fits
    {
      var trialPage := page + [Bounded(candidates[|page|])];
      var trialNext := if |trialPage| < |messages| then Some(messages[|trialPage|].uid) else None;
      var trial := Page(trialPage, offset, limit, trialNext);
      assert trialPage == AllBounded(messages[..|trialPage|]);
      if frame(trial) > FRAME_LIMIT {
        fits := false;
      } else {
        page := trialPage;
      }
    }
    if candidates != [] && page == [] {
      return Oversized;
    }
    r := Listed(Page(page, offset, limit, if |page| < |messages| then Some(messages[|page|].uid) else None));
  }

  function MessagesList(first: Mailbox, second: Mailbox, limit: int, cursor: int, frame: Page -> nat): Listing {
    var window := ListMessageWindow(first, second, limit, cursor);
    if !window.Found? || limit < 1 || cursor < 0 then Refused(window)
    else Fill(SortDescending(window.records), limit, cursor, frame)
  }

  // ---------------------------------------------------------------------------------------
  // Following next_offset
  // ---------------------------------------------------------------------------------------

  /** The mailbox at the two commands of one page request. */
  datatype Look = Look(first: Mailbox, second: Mailbox)

  /** Between any two commands the mailbox only gains mail. */
  ghost predicate Growing(base: Mailbox, looks: seq<Look>)
    decreases looks
  {
    Valid(base) && (looks != [] ==>
      && base <= looks[0].first <= looks[0].second
      && Valid(looks[0].first) && Valid(looks[0].second)
      && (|looks| > 1 ==> looks[0].second <= looks[1].first)
      && Growing(base, looks[1..]))
  }

  datatype End = Finished | Unfinished | Failed(reason: Listing)

  /** Follow `next_offset` from `cursor` on; `list` answers one page request. */
  function Follow(looks: seq<Look>, cursor: int, list: (Look, int) -> Listing): (seq<Page>, End)
    decreases looks
  {
    if looks == [] then ([], Unfinished)
    else
      var listing := list(looks[0], cursor);
      if !listing.Listed? then ([], Failed(listing))
      else if listing.page.next.None? then ([listing.page], Finished)
      else
        var (pages, end) := Follow(looks[1..], listing.page.next.value, list);
        ([listing.page] + pages, end)
  }

  function Items(pages: seq<Page>): seq<Record> {
    if pages == [] then [] else pages[0].items + Items(pages[1..])
  }

  /** What a client should see: the oldest `k` messages, newest first. */
  function Expected(base: Mailbox, k: nat): seq<Record>
    requires k <= |base|
  {
    AllBounded(Slice(base, 0, k))
  }

  lemma {:induction false} SliceSorted(mb: Mailbox, lo: nat, hi: nat)
    requires Valid(mb) && lo <= hi <= |mb|
    ensures SortDescending(Slice(mb, lo, hi)) == Slice(mb, lo, hi)
  {
    AscendingRecords(mb, lo, hi);
    SortStable(Slice(mb, lo, hi));
  }

  lemma {:induction false} SortStable(records: seq<Record>)
    requires forall i, j :: 0 <= i < j < |records| ==> records[i].uid > records[j].uid
    ensures SortDescending(records) == records
  {
    if records != [] {
      var n := |records| - 1;
      SortStable(records[..n]);
      InsertLast(records[n], records[..n]);
      assert records[..n] + [records[n]] == records;
    }
  }

  lemma {:induction false} InsertLast(r: Record, sorted: seq<Record>)
    requires forall i :: 0 <= i < |sorted| ==> sorted[i].uid >= r.uid
    ensures Insert(r, sorted) == sorted + [r]
  {
    if sorted != [] {
      InsertLast(r, sorted[1..]);
      assert [sorted[0]] + (sorted[1..] + [r]) == sorted + [r];
    }
  }

  // ---------------------------------------------------------------------------------------
  // One page of what is still to be shown, newest first
  // ---------------------------------------------------------------------------------------

  function Next(all: seq<Record>): Option<nat> {
    if all == [] then None else Some(all[0].uid)
  }

  /** The page that shows only the first message of `all`. */
  function Single(all: seq<Record>, limit: nat): Page
    requires all != []
  {
    Page([all[0]], all[0].uid, limit, Next(all[1..]))
  }

  /** That page fits the frame. */
  predicate FitsAlone(all: seq<Record>, limit: nat, frame: Page -> nat)
    requires all != []
  {
    frame(Single(all, limit)) <= FRAME_LIMIT
  }

  /** The first `n` messages fit, each on a page of its own. */
  ghost predicate FirstFit(all: seq<Record>, n: nat, limit: nat, frame: Page -> nat)
    requires n <= |all|
  {
    forall i | 0 <= i < n :: FitsAlone(all[i..], limit, frame)
  }

  ghost predicate AllFit(all: seq<Record>, limit: nat, frame: Page -> nat) {
    FirstFit(all, |all|, limit, frame)
  }

  /** One page of `all`: refused exactly if the first message does not fit a frame of its own,
      and otherwise the longest run of messages from it on that fits, with the offset of the
      next one. */
  ghost predicate GoodPage(l: Listing, all: seq<Record>, limit: nat, frame: Page -> nat)
    requires all != []
  {
    if FitsAlone(all, limit, frame) then
      l.Listed? && var m := |l.page.items|;
      && 1 <= m <= |all| && m <= limit
      && l.page == Page(all[..m], all[0].uid, limit, Next(all[m..]))
      && frame(l.page) <= FRAME_LIMIT
      && (m < limit && m < |all| ==>
            frame(Page(all[..m + 1], all[0].uid, limit, Next(all[m + 1..]))) > FRAME_LIMIT)
    else
      l == Oversized
  }

  /** The window at the head of `all`, with one message more than a page. */
  ghost predicate WindowOf(all: seq<Record>, messages: seq<Record>, limit: nat) {
    && all != [] && limit >= 1 && |messages| == Min(limit + 1, |all|)
    && AllBounded(messages) == all[..|messages|]
  }

  lemma {:induction false} DraftOf(all: seq<Record>, messages: seq<Record>, limit: nat, m: nat)
    requires WindowOf(all, messages, limit) && m <= |messages| && m <= limit
    ensures Draft(messages, m, all[0].uid, limit) == Page(all[..m], all[0].uid, limit, Next(all[m..]))
  {
    assert AllBounded(messages[..m]) == AllBounded(messages)[..m] == all[..m];
    assert m < |messages| ==> Bounded(messages[m]) == AllBounded(messages)[m] == all[m];
  }

  lemma {:induction false} FilledPage(all: seq<Record>, messages: seq<Record>, limit: nat, cursor: nat,
      frame: Page -> nat)
    requires WindowOf(all, messages, limit) && (cursor == 0 || cursor == all[0].uid)
    ensures GoodPage(Fill(messages, limit, cursor, frame), all, limit, frame)
  {
    var candidates := Min(limit, |messages|);
    assert messages[0].uid == AllBounded(messages)[0].uid == all[0].uid;
    DraftOf(all, messages, limit, 1);
    assert all[..1] == [all[0]];
    var m := Fitting(messages, candidates, 0, all[0].uid, limit, frame);
    DraftOf(all, messages, limit, m);
    if m < candidates {
      DraftOf(all, messages, limit, m + 1);
    }
    FitsFirst(messages, candidates, all[0].uid, limit, frame);
  }

  lemma {:induction false} FitsFirst(messages: seq<Record>, candidates: nat, offset: nat, limit: nat,
      frame: Page -> nat)
    requires 1 <= candidates <= |messages|
    ensures Fitting(messages, candidates, 0, offset, limit, frame) == 0 <==>
        frame(Draft(messages, 1, offset, limit)) > FRAME_LIMIT
  {
  }

  lemma {:induction false} WindowBelow(base: Mailbox, mb: Mailbox, k: nat, limit: nat)
    requires 1 <= k <= |base| && base <= mb && limit >= 1
    ensures WindowOf(Expected(base, k), Slice(mb, WindowStart(k, limit), k), limit)
  {
    var lo, all := WindowStart(k, limit), Expected(base, k);
    var window := AllBounded(Slice(mb, lo, k));
    assert |all| == k && |window| == k - lo;
    forall i | 0 <= i < k - lo ensures window[i] == all[i] {
      assert Slice(mb, lo, k)[i] == Slice(base, 0, k)[i];
    }
    assert window == all[..k - lo];
  }

  lemma {:induction false} ListingIsFilled(first: Mailbox, second: Mailbox, k: nat, limit: int, cursor: int,
      frame: Page -> nat)
    requires Valid(first) && Valid(second) && 1 <= k <= |first| <= |second| && first[k - 1] == second[k - 1]
    requires 1 <= limit <= 200
    requires cursor == first[k - 1].uid || (cursor == 0 && k == |first|)
    ensures MessagesList(first, second, limit, cursor, frame) ==
            Fill(Slice(second, WindowStart(k, limit), k), limit, cursor, frame)
  {
    if cursor != 0 {
      UidAnswer(first, cursor);
    }
    WindowAtAnchor(first, second, limit, cursor, k);
    SliceSorted(second, WindowStart(k, limit), k);
  }

  /** The cursor stands at the `k`-th message of `base`, which the mailbox has since kept. */
  ghost predicate Below(base: Mailbox, look: Look, k: nat, cursor: int) {
    && Valid(look.first) && Valid(look.second) && base <= look.first <= look.second
    && 1 <= k <= |base|
    && (cursor == base[k - 1].uid || (cursor == 0 && k == |base| && look.first == base))
  }

  lemma {:induction false} OnePage(base: Mailbox, look: Look, k: nat, limit: int, cursor: int, frame: Page -> nat)
    requires Below(base, look, k, cursor) && 1 <= limit <= 200
    ensures GoodPage(MessagesList(look.first, look.second, limit, cursor, frame), Expected(base, k), limit, frame)
  {
    ListedBelow(base, look, k, limit, cursor, frame);
    FilledBelow(base, look.second, k, limit, cursor, frame);
  }

  lemma {:induction false} ListedBelow(base: Mailbox, look: Look, k: nat, limit: int, cursor: int,
      frame: Page -> nat)
    requires Below(base, look, k, cursor) && 1 <= limit <= 200
    ensures MessagesList(look.first, look.second, limit, cursor, frame) ==
            Fill(Slice(look.second, WindowStart(k, limit), k), limit, cursor, frame)
  {
    assert look.first[k - 1] == base[k - 1] == look.second[k - 1];
    ListingIsFilled(look.first, look.second, k, limit, cursor, frame);
  }

  lemma {:induction false} FilledBelow(base: Mailbox, mb: Mailbox, k: nat, limit: nat, cursor: nat,
      frame: Page -> nat)
    requires 1 <= k <= |base| && base <= mb && limit >= 1 && (cursor == 0 || cursor == base[k - 1].uid)
    ensures GoodPage(Fill(Slice(mb, WindowStart(k, limit), k), limit, cursor, frame), Expected(base, k), limit, frame)
  {
    WindowBelow(base, mb, k, limit);
    ExpectedAt(base, k, 0);
    FilledPage(Expected(base, k), Slice(mb, WindowStart(k, limit), k), limit, cursor, frame);
  }

  lemma {:induction false} ExpectedAt(base: Mailbox, k: nat, i: nat)
    requires i < k <= |base|
    ensures |Expected(base, k)| == k && Expected(base, k)[i].uid == base[k - 1 - i].uid
  {
  }

  lemma {:induction false} ExpectedFrom(base: Mailbox, k: nat, m: nat)
    requires m <= k <= |base|
    ensures |Expected(base, k)| == k && Expected(base, k)[m..] == Expected(base, k - m)
  {
  }

  // ---------------------------------------------------------------------------------------
  // Frames that grow with the page
  // ---------------------------------------------------------------------------------------

  /** A page without all of its items but one, as the window would have offered it. */
  function Alone(page: Page, i: nat): Page
    requires i < |page.items|
  {
    Page([page.items[i]], page.items[i].uid, page.limit,
      if i + 1 < |page.items| then Some(page.items[i + 1].uid) else page.next)
  }

  /** The page begins at its newest message. */
  ghost predicate Headed(page: Page) {
    forall i :: 0 <= i < |page.items| ==> page.items[i].uid <= page.offset
  }

  /** A frame that never shrinks when records are added to a page. */
  ghost predicate Steady(frame: Page -> nat) {
    forall page: Page, i: nat :: i < |page.items| && Headed(page) ==> frame(Alone(page, i)) <= frame(page)
  }

  ghost predicate Descending(all: seq<Record>) {
    forall i, j :: 0 <= i < j < |all| ==> all[i].uid > all[j].uid
  }

  /** The messages of a page within the frame fit alone, if the frame is steady. */
  lemma {:induction false} PageFits(l: Listing, all: seq<Record>, limit: nat, frame: Page -> nat)
    requires all != [] && Descending(all) && l.Listed? && GoodPage(l, all, limit, frame) && Steady(frame)
    ensures FirstFit(all, |l.page.items|, limit, frame)
  {
    forall i | 0 <= i < |l.page.items| ensures FitsAlone(all[i..], limit, frame) {
      ItemAlone(l.page, all, i, limit);
      assert frame(Alone(l.page, i)) <= frame(l.page);
    }
  }

  lemma {:induction false} ItemAlone(page: Page, all: seq<Record>, i: nat, limit: nat)
    requires i < |page.items| <= |all| && page.items == all[..|page.items|] && page.limit == limit
    requires page.next == Next(all[|page.items|..])
    ensures Alone(page, i) == Single(all[i..], limit)
  {
    assert all[i..][1..] == all[i + 1..];
  }

  // ---------------------------------------------------------------------------------------
  // Whole walks
  // ---------------------------------------------------------------------------------------

  /** A walk over `all`: nothing is refused as stale, the pages deliver a prefix of it, each
      non-empty and within the frame; a finished walk delivered all of it; a failed one stopped
      exactly before a message that does not fit a frame of its own; and one given as many
      requests as there are messages does not stay open. */
  ghost predicate GoodWalk(walk: (seq<Page>, End), all: seq<Record>, requests: nat, limit: nat, frame: Page -> nat) {
    var (pages, end) := walk;
    && Items(pages) <= all
    && (end == Finished ==> Items(pages) == all)
    && (end.Failed? ==>
          && end.reason == Oversized && |Items(pages)| < |all|
          && !FitsAlone(all[|Items(pages)|..], limit, frame))
    && (end == Unfinished ==> requests < |all|)
    && (all != [] ==> forall p <- pages :: 1 <= |p.items| <= limit && frame(p) <= FRAME_LIMIT)
    && (Steady(frame) ==> FirstFit(all, |Items(pages)|, limit, frame))
  }

  lemma {:induction false} WalkFurther(walk: (seq<Page>, End), all: seq<Record>, l: Listing, rest: (seq<Page>, End),
      requests: nat, limit: nat, frame: Page -> nat)
    requires all != [] && Descending(all) && l.Listed? && GoodPage(l, all, limit, frame) && |l.page.items| < |all|
    requires GoodWalk(rest, all[|l.page.items|..], requests, limit, frame)
    requires walk == ([l.page] + rest.0, rest.1)
    ensures GoodWalk(walk, all, requests + 1, limit, frame)
  {
    var m, n := |l.page.items|, |Items(rest.0)|;
    WalkItems(walk.0, l.page, rest.0, all);
    assert all[m..][n..] == all[m + n..];
    if Steady(frame) {
      PageFits(l, all, limit, frame);
      FitJoin(all, m, n, limit, frame);
    }
  }

  /** One page and those behind it deliver a prefix of `all`, or all of it. */
  lemma {:induction false} WalkItems(pages: seq<Page>, page: Page, rest: seq<Page>, all: seq<Record>)
    requires pages == [page] + rest && |page.items| <= |all| && page.items == all[..|page.items|]
    requires Items(rest) <= all[|page.items|..]
    ensures Items(pages) == page.items + Items(rest) && Items(pages) <= all
    ensures Items(rest) == all[|page.items|..] ==> Items(pages) == all
  {
    assert all == all[..|page.items|] + all[|page.items|..];
    assert pages[1..] == rest;
  }

  lemma {:induction false} FitJoin(all: seq<Record>, m: nat, n: nat, limit: nat, frame: Page -> nat)
    requires m + n <= |all| && FirstFit(all, m, limit, frame) && FirstFit(all[m..], n, limit, frame)
    ensures FirstFit(all, m + n, limit, frame)
  {
    forall i | 0 <= i < m + n ensures FitsAlone(all[i..], limit, frame) {
      if i >= m {
        assert all[m..][i - m..] == all[i..];
      }
    }
  }

  /** Walks without a page: no request was made, or the first one found a message too large. */
  lemma {:induction false} WalkNone(walk: (seq<Page>, End), all: seq<Record>, requests: nat, limit: nat,
      frame: Page -> nat)
    requires all != [] && walk.0 == []
    requires (walk.1 == Unfinished && requests == 0) || (walk.1 == Failed(Oversized) && !FitsAlone(all, limit, frame))
    ensures GoodWalk(walk, all, requests, limit, frame)
  {
    assert all[0..] == all;
  }

  lemma {:induction false} WalkEnds(walk: (seq<Page>, End), all: seq<Record>, l: Listing, requests: nat,
      limit: nat, frame: Page -> nat)
    requires all != [] && Descending(all) && l.Listed? && GoodPage(l, all, limit, frame) && |l.page.items| == |all|
    requires walk == ([l.page], Finished)
    ensures GoodWalk(walk, all, requests, limit, frame)
  {
    assert all[..|all|] == all;
    assert Items([l.page]) == l.page.items + Items([]);
    if Steady(frame) {
      PageFits(l, all, limit, frame);
    }
  }

  /** Every page the client meets on its way down is good. */
  ghost predicate GoodPages(all: seq<Record>, looks: seq<Look>, limit: nat, cursor: int,
      list: (Look, int) -> Listing, frame: Page -> nat)
    requires all != []
    decreases looks
  {
    looks != [] ==>
      var l := list(looks[0], cursor);
      && GoodPage(l, all, limit, frame)
      && (l.Listed? && |l.page.items| < |all| ==>
            GoodPages(all[|l.page.items|..], looks[1..], limit, l.page.next.value, list, frame))
  }

  lemma {:induction false} FollowFrom(all: seq<Record>, looks: seq<Look>, limit: nat, cursor: int,
      list: (Look, int) -> Listing, frame: Page -> nat)
    requires all != [] && Descending(all) && GoodPages(all, looks, limit, cursor, list, frame)
    ensures GoodWalk(Follow(looks, cursor, list), all, |looks|, limit, frame)
    decreases looks
  {
    var walk := Follow(looks, cursor, list);
    if looks == [] || !list(looks[0], cursor).Listed? {
      WalkNone(walk, all, |looks|, limit, frame);
    } else {
      var l := list(looks[0], cursor);
      if |l.page.items| < |all| {
        FollowFrom(all[|l.page.items|..], looks[1..], limit, l.page.next.value, list, frame);
        WalkFurther(walk, all, l, Follow(looks[1..], l.page.next.value, list), |looks| - 1, limit, frame);
      } else {
        WalkEnds(walk, all, l, |looks|, limit, frame);
      }
    }
  }

  /** The cursor stands at the `k`-th message of `base`; 0 stands for the newest one. */
  ghost predicate StandsAt(base: Mailbox, looks: seq<Look>, k: nat, cursor: int) {
    && 1 <= k <= |base|
    && (cursor == base[k - 1].uid || (cursor == 0 && k == |base| && looks != [] && looks[0].first == base))
  }

  lemma {:induction false} ServedWell(base: Mailbox, looks: seq<Look>, k: nat, limit: nat, cursor: int,
      list: (Look, int) -> Listing, frame: Page -> nat)
    requires forall look, k, cursor | Below(base, look, k, cursor) ::
        GoodPage(list(look, cursor), Expected(base, k), limit, frame)
    requires Growing(base, looks) && StandsAt(base, looks, k, cursor)
    ensures GoodPages(Expected(base, k), looks, limit, cursor, list, frame)
    decreases looks
  {
    if looks != [] {
      assert Below(base, looks[0], k, cursor);
      var l := list(looks[0], cursor);
      if l.Listed? && |l.page.items| < k {
        var m := |l.page.items|;
        ExpectedFrom(base, k, m);
        ExpectedAt(base, k, m);
        ServedWell(base, looks[1..], k - m, limit, l.page.next.value, list, frame);
      }
    }
  }

  /** The expected list holds every message of the mailbox once, in descending UID order, with its
      text or the first 512 characters of it. */
  lemma {:induction false} ExpectedOrder(base: Mailbox)
    requires Valid(base)
    ensures |Expected(base, |base|)| == |base|
    ensures forall i :: 0 <= i < |base| ==> Expected(base, |base|)[i].uid == base[|base| - 1 - i].uid
    ensures forall i, j :: 0 <= i < j < |base| ==> Expected(base, |base|)[i].uid > Expected(base, |base|)[j].uid
    ensures forall i :: 0 <= i < |base| ==>
      var sent, text := Expected(base, |base|)[i].content, base[|base| - 1 - i].content;
      sent <= text && |sent| == if |text| <= 512 then |text| else 512
  {
    var all := Expected(base, |base|);
    assert forall i :: 0 <= i < |base| ==> all[i].uid == base[|base| - 1 - i].uid;
    forall i, j | 0 <= i < j < |base| ensures all[i].uid > all[j].uid {
      assert Before(base, |base| - 1 - j, |base| - 1 - i);
    }
  }

  /** The pages that a client gets from offset 0 on. */
  function Walk(looks: seq<Look>, limit: int, frame: Page -> nat): (seq<Page>, End) {
    Follow(looks, 0, (look: Look, cursor: int) => MessagesList(look.first, look.second, limit, cursor, frame))
  }

  /** What is to be delivered: the mailbox at the first command, as `ExpectedOrder` describes. */
  function Wanted(looks: seq<Look>): seq<Record>
    requires looks != []
  {
    Expected(looks[0].first, |looks[0].first|)
  }

  /** Over a mailbox that only gains mail every walk is good, whatever the frame. */
  lemma {:induction false} PagingIsGood(looks: seq<Look>, limit: int, frame: Page -> nat)
    requires looks != [] && Growing(looks[0].first, looks) && 1 <= limit <= 200
    ensures GoodWalk(Walk(looks, limit, frame), Wanted(looks), |looks|, limit, frame)
  {
    var base := looks[0].first;
    var list := (look: Look, cursor: int) => MessagesList(look.first, look.second, limit, cursor, frame);
    if base == [] {
      EmptyPage(looks[0].second, limit, frame);
    } else {
      forall look, k, cursor | Below(base, look, k, cursor)
        ensures GoodPage(list(look, cursor), Expected(base, k), limit, frame)
      {
        OnePage(base, look, k, limit, cursor, frame);
      }
      ServedWell(base, looks, |base|, limit, 0, list, frame);
      ExpectedOrder(base);
      FollowFrom(Wanted(looks), looks, limit, 0, list, frame);
    }
  }

  /** Paging is complete: from offset 0, over a mailbox that only gains mail and whose messages
      each fit a frame alone, as many requests as there are messages give every message that was
      there at the first command and then stop. */
  lemma {:induction false} PagingIsComplete(looks: seq<Look>, limit: int, frame: Page -> nat)
    requires looks != [] && Growing(looks[0].first, looks) && 1 <= limit <= 200
    requires |looks| >= |looks[0].first| && AllFit(Wanted(looks), limit, frame)
    ensures var (pages, end) := Walk(looks, limit, frame);
      end == Finished && Items(pages) == Wanted(looks)
  {
    PagingIsGood(looks, limit, frame);
    ExpectedOrder(looks[0].first);
  }

  /** For a frame that never shrinks when records are added, the condition is exact. */
  lemma {:induction false} CompleteExactly(looks: seq<Look>, limit: int, frame: Page -> nat)
    requires looks != [] && Growing(looks[0].first, looks) && 1 <= limit <= 200
    requires |looks| >= |looks[0].first| && Steady(frame)
    ensures Walk(looks, limit, frame).1 == Finished <==> AllFit(Wanted(looks), limit, frame)
  {
    PagingIsGood(looks, limit, frame);
    if AllFit(Wanted(looks), limit, frame) {
      PagingIsComplete(looks, limit, frame);
    }
  }

  lemma {:induction false} EmptyPage(second: Mailbox, limit: int, frame: Page -> nat)
    requires 1 <= limit <= 200
    ensures MessagesList([], second, limit, 0, frame) == Listed(Page([], 0, limit, None))
  {
    assert ListUid([], 0) == [];
  }

  // ---------------------------------------------------------------------------------------
  // The frame of the helper
  // ---------------------------------------------------------------------------------------

  function Digits(n: nat): (d: nat)
    ensures d >= 1
  {
    if n < 10 then 1 else 1 + Digits(n / 10)
  }

  lemma {:induction false} DigitsGrow(a: nat, b: nat)
    requires a <= b
    ensures Digits(a) <= Digits(b)
  {
    if a >= 10 {
      DigitsGrow(a / 10, b / 10);
    }
  }

  /** The size of one record: its UID, and `body` for its other members. */
  function ObjectSize(r: Record, body: Record -> nat): nat {
    |"{'uid': }"| + Digits(r.uid) + body(r)
  }

  function ObjectsSize(items: seq<Record>, body: Record -> nat): nat {
    if items == [] then 0 else ObjectSize(items[0], body) + ObjectsSize(items[1..], body)
  }

  /** The size of the other members of a page. */
  const PAGE_SIZE := |"{'items': [], 'offset': , 'limit': , 'total': null, 'next_offset': }"|

  function NextSize(next: Option<nat>): nat {
    if next.Some? then Digits(next.value) else |"null"|
  }

  /** The size of a page as the helper encodes it, with a comma and a space between records. */
  function EncodedSize(page: Page, body: Record -> nat): nat {
    PAGE_SIZE + ObjectsSize(page.items, body) + (if page.items == [] then 0 else 2 * (|page.items| - 1))
      + Digits(page.offset) + Digits(page.limit) + NextSize(page.next)
  }

  function Encoded(body: Record -> nat): Page -> nat {
    (page: Page) => EncodedSize(page, body)
  }

  lemma {:induction false} ObjectsApart(items: seq<Record>, i: nat, body: Record -> nat)
    requires i < |items|
    ensures ObjectSize(items[i], body) <= ObjectsSize(items, body)
    ensures i + 1 < |items| ==>
      ObjectSize(items[i], body) + ObjectSize(items[i + 1], body) <= ObjectsSize(items, body)
  {
    if i > 0 {
      ObjectsApart(items[1..], i - 1, body);
      assert items[1..][i - 1] == items[i];
    } else if |items| > 1 {
      assert ObjectsSize(items[1..], body) >= ObjectSize(items[1], body);
    }
  }

  /** What is added to a page takes more room than the offset it makes unnecessary. */
  lemma {:induction false} EncodedSteady(body: Record -> nat)
    ensures Steady(Encoded(body))
  {
    forall page: Page, i: nat | i < |page.items| && Headed(page)
      ensures Encoded(body)(Alone(page, i)) <= Encoded(body)(page)
    {
      ObjectsApart(page.items, i, body);
      DigitsGrow(page.items[i].uid, page.offset);
      AloneSize(page, i, body);
    }
  }

  lemma {:induction false} AloneSize(page: Page, i: nat, body: Record -> nat)
    requires i < |page.items|
    ensures Encoded(body)(Alone(page, i)) == PAGE_SIZE + ObjectSize(page.items[i], body)
        + Digits(page.items[i].uid) + Digits(page.limit) + NextSize(Alone(page, i).next)
  {
    assert Alone(page, i).items[1..] == [];
    assert ObjectsSize(Alone(page, i).items, body) == ObjectSize(page.items[i], body) + ObjectsSize([], body);
  }

  /** The room that the first message of `all` needs in a frame of its own. */
  function Room(all: seq<Record>, limit: nat, body: Record -> nat): nat
    requires all != []
  {
    PAGE_SIZE + ObjectSize(all[0], body) + Digits(all[0].uid) + Digits(limit) + NextSize(Next(all[1..]))
  }

  lemma {:induction false} FitsRoom(all: seq<Record>, limit: nat, body: Record -> nat)
    requires all != []
    ensures FitsAlone(all, limit, Encoded(body)) <==> Room(all, limit, body) <= FRAME_LIMIT
  {
    AloneSize(Single(all, limit), 0, body);
  }

  /** There is room for each message alone. */
  ghost predicate RoomForAll(all: seq<Record>, limit: nat, body: Record -> nat) {
    forall i | 0 <= i < |all| :: Room(all[i..], limit, body) <= FRAME_LIMIT
  }

  lemma {:induction false} AllFitRoom(all: seq<Record>, limit: nat, body: Record -> nat)
    ensures AllFit(all, limit, Encoded(body)) <==> RoomForAll(all, limit, body)
  {
    forall i | 0 <= i < |all|
      ensures FitsAlone(all[i..], limit, Encoded(body)) <==> Room(all[i..], limit, body) <= FRAME_LIMIT
    {
      FitsRoom(all[i..], limit, body);
    }
  }

  /** The helper's own frames: the walk delivers the mailbox if and only if there is room for
      each message alone. */
  lemma {:induction false} HelperCompleteExactly(looks: seq<Look>, limit: int, body: Record -> nat)
    requires looks != [] && Growing(looks[0].first, looks) && 1 <= limit <= 200 && |looks| >= |looks[0].first|
    ensures var (pages, end) := Walk(looks, limit, Encoded(body));
      && (end == Finished <==> RoomForAll(Wanted(looks), limit, body))
      && (end == Finished ==> Items(pages) == Wanted(looks))
  {
    EncodedSteady(body);
    AllFitRoom(Wanted(looks), limit, body);
    CompleteExactly(looks, limit, Encoded(body));
    PagingIsGood(looks, limit, Encoded(body));
  }

  // ---------------------------------------------------------------------------------------
  // A message that is never delivered
  // ---------------------------------------------------------------------------------------

  function Length(texts: seq<string>): nat {
    if texts == [] then 0 else |texts[0]| + Length(texts[1..])
  }

  /** The members of a record among which are its flags, which are not cut; `flags` are those of
      the message with a UID, and `rest` is everything else. */
  function Flagged(flags: nat -> seq<string>, rest: Record -> nat): Record -> nat {
    (r: Record) => Length(flags(r.uid)) + rest(r)
  }

  /** A message whose flags alone exceed the frame stops every walk: with any number of requests
      it and all older messages are never delivered. */
  lemma {:induction false} FlagsStopPaging(looks: seq<Look>, limit: int, flags: nat -> seq<string>,
      rest: Record -> nat, i: nat)
    requires looks != [] && Growing(looks[0].first, looks) && 1 <= limit <= 200 && i < |Wanted(looks)|
    requires Length(flags(Wanted(looks)[i].uid)) > FRAME_LIMIT
    ensures var (pages, end) := Walk(looks, limit, Encoded(Flagged(flags, rest)));
      end != Finished && |Items(pages)| <= i
  {
    var all, frame := Wanted(looks), Encoded(Flagged(flags, rest));
    EncodedSteady(Flagged(flags, rest));
    PagingIsGood(looks, limit, frame);
    FlagsTooLong(all[i..], limit, flags, rest);
    WalkStops(Walk(looks, limit, frame), all, |looks|, limit, frame, i);
  }

  lemma {:induction false} FlagsTooLong(all: seq<Record>, limit: nat, flags: nat -> seq<string>, rest: Record -> nat)
    requires all != [] && Length(flags(all[0].uid)) > FRAME_LIMIT
    ensures !FitsAlone(all, limit, Encoded(Flagged(flags, rest)))
  {
    FitsRoom(all, limit, Flagged(flags, rest));
  }

  lemma {:induction false} WalkStops(walk: (seq<Page>, End), all: seq<Record>, requests: nat, limit: nat,
      frame: Page -> nat, i: nat)
    requires GoodWalk(walk, all, requests, limit, frame) && Steady(frame)
    requires i < |all| && !FitsAlone(all[i..], limit, frame)
    ensures walk.1 != Finished && |Items(walk.0)| <= i
  {
  }

  /** One message with one flag of 50000 characters, which the flag line may have, is not listed. */
  lemma {:induction false} LongFlagIsOversized(mb: Mailbox, flag: string, rest: Record -> nat, limit: int)
    requires mb == [Message(1, "")] && |flag| == 50000 && 1 <= limit <= 200
    ensures MessagesList(mb, mb, limit, 0, Encoded(Flagged(_ => [flag], rest))) == Oversized
  {
    assert [flag][1..] == [];
    assert Valid(mb) && Below(mb, Look(mb, mb), 1, 0);
    ExpectedAt(mb, 1, 0);
    FlagsTooLong(Expected(mb, 1), limit, _ => [flag], rest);
    OnePage(mb, Look(mb, mb), 1, limit, 0, Encoded(Flagged(_ => [flag], rest)));
  }
}
