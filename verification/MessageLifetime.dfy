/**
 How long the message-list cache answers for the helper: entries live for five seconds, a reader
 fetches only if it has to, and fetches again only if its mailbox was invalidated.
 */
module MessageLifetime {
  import opened MessageCache

  const LIFETIME := 5

  // ---------------------------------------------------------------------------------------
  // One key, one entry
  // ---------------------------------------------------------------------------------------

  ghost predicate Apart(cache: seq<Item>, i: int, j: int) {
    0 <= i < j < |cache| ==> cache[i].key != cache[j].key
  }

  ghost predicate OwnKeys(cache: seq<Item>) {
    forall i, j :: Apart(cache, i, j)
  }

  lemma {:induction false} KeepOwnKeys(cache: seq<Item>, p: Item -> bool)
    requires OwnKeys(cache)
    ensures OwnKeys(Keep(cache, p))
  {
    if cache != [] {
      var n := |cache| - 1;
      var rest := cache[..n];
      forall i, j ensures Apart(rest, i, j) {
        assert Apart(cache, i, j);
      }
      KeepOwnKeys(rest, p);
      forall i, j ensures Apart(Keep(cache, p), i, j) {
        assert Apart(Keep(rest, p), i, j);
        if 0 <= i < j < |Keep(cache, p)| && j == |Keep(rest, p)| {
          assert Keep(rest, p)[i] in rest;
          var k :| 0 <= k < n && rest[k] == Keep(rest, p)[i];
          assert Apart(cache, k, n);
        }
      }
    }
  }

  lemma {:induction false} PruneOwnKeys(cache: seq<Item>, now: int)
    requires OwnKeys(cache)
    ensures OwnKeys(Prune(cache, now))
  {
    var live := Keep(cache, (it: Item) => it.expiresAt > now);
    KeepOwnKeys(cache, (it: Item) => it.expiresAt > now);
    var shift := if |live| < CAPACITY then 0 else |live| - CAPACITY + 1;
    forall i, j ensures Apart(Prune(cache, now), i, j) {
      assert Apart(live, i + shift, j + shift);
    }
  }

  lemma {:induction false} PutOwnKeys(cache: seq<Item>, item: Item)
    requires OwnKeys(cache)
    ensures OwnKeys(Put(cache, item))
  {
    var k := Find(cache, item.key);
    forall i, j ensures Apart(Put(cache, item), i, j) {
      assert Apart(cache, i, j) && Apart(cache, i, k) && Apart(cache, k, j);
    }
  }

  lemma {:induction false} StepOwnKeys(s: System, e: Event)
    requires OwnKeys(s.gate.cache) && Enabled(s, e)
    ensures OwnKeys(Step(s, e).gate.cache)
  {
    match e
    case Resume(c, now, expiresAt) =>
      PruneOwnKeys(s.gate.cache, now);
      PutOwnKeys(Prune(s.gate.cache, now), Item(s.callers[c].key, expiresAt, s.callers[c].progress.page));
    case Mutate(_, scope) => KeepOwnKeys(s.gate.cache, (it: Item) => it.key.scope != scope);
    case Settle(t) => KeepOwnKeys(s.gate.cache, (it: Item) => it.key.scope != s.tasks[t].scope);
    case Break(t) => KeepOwnKeys(s.gate.cache, (it: Item) => it.key.scope != s.tasks[t].scope);
    case InvalidateAccount(a) => KeepOwnKeys(s.gate.cache, (it: Item) => it.key.scope.account != a);
    case InvalidateScope(scope) => KeepOwnKeys(s.gate.cache, (it: Item) => it.key.scope != scope);
    case _ =>
  }

  lemma {:induction false} KeysStayApart(states: seq<System>, events: seq<Event>, i: nat)
    requires Behaviour(states, events) && i < |states|
    ensures OwnKeys(states[i].gate.cache)
  {
    if i > 0 {
      KeysStayApart(states, events, i - 1);
      StepOwnKeys(states[i - 1], events[i - 1]);
    }
  }

  // ---------------------------------------------------------------------------------------
  // When a reader waits, returns or fetches
  // ---------------------------------------------------------------------------------------

  /** The cache has this page for the key, and it has not expired. */
  ghost predicate Fresh(s: System, key: Key, now: int, page: Page) {
    && key.scope !in s.gate.quarantined
    && exists it <- s.gate.cache :: it.key == key && it.page == page && it.expiresAt > now
  }

  /** In every history a reader's turn waits exactly while a delete of its mailbox is running,
      and otherwise returns exactly a page that is fresh, and fetches exactly if there is none. */
  lemma {:induction false} TurnExactly(states: seq<System>, events: seq<Event>, i: nat)
    requires Behaviour(states, events) && i < |events| && events[i].Turn?
    ensures var (s, c) := (states[i], events[i].caller);
      var (key, after) := (s.callers[c].key, states[i + 1].callers[c]);
      && (Writers(s.tasks, key.scope) != {} ==> after.Waiting? && Writers(s.tasks, key.scope) <= after.writers)
      && (Writers(s.tasks, key.scope) == {} ==> after.Returned? || after.Fetching?)
      && (forall page :: after == Returned(key, page) <==>
            Writers(s.tasks, key.scope) == {} && Fresh(s, key, events[i].now, page))
  {
    var s, c, now := states[i], events[i].caller, events[i].now;
    var key := s.callers[c].key;
    BehaviourInv(states, events, i);
    KeysStayApart(states, events, i);
    assert ScopeOk(s, key.scope);
    var k := Find(s.gate.cache, key);
    forall it | it in s.gate.cache && it.key == key ensures k < |s.gate.cache| && it == s.gate.cache[k] {
      var j :| 0 <= j < |s.gate.cache| && s.gate.cache[j] == it;
      assert Apart(s.gate.cache, k, j);
    }
    assert Writers(s.tasks, key.scope) <= s.gate.Tracked(key.scope) - Done(s.tasks);
  }

  // ---------------------------------------------------------------------------------------
  // How old a page can be
  // ---------------------------------------------------------------------------------------

  /** The time of every event; it never runs backwards, and readers go by it. */
  ghost predicate Timed(events: seq<Event>, times: seq<int>) {
    && |times| == |events|
    && (forall i, j :: 0 <= i < j < |times| ==> times[i] <= times[j])
    && (forall i :: 0 <= i < |events| && events[i].Turn? ==> events[i].now == times[i])
    && (forall i :: 0 <= i < |events| && events[i].Resume? ==>
          events[i].now == times[i] && events[i].expiresAt == times[i] + LIFETIME)
  }

  /** At event `j` the helper reads this page: it is what the mailbox shows then. */
  ghost predicate ReadAt(states: seq<System>, events: seq<Event>, j: nat, key: Key, page: Page) {
    && j < |events| && j < |states| && events[j].Serve?
    && states[j].served < |states[j].log| && states[j].log[states[j].served].ListRequest?
    && states[j].log[states[j].served].key == key
    && page == Page(states[j].boxes(key.scope).view(key.query), states[j].boxes(key.scope).foreign)
  }

  /** At event `k` a reader resumes with this page. */
  ghost predicate TakenAt(states: seq<System>, events: seq<Event>, k: nat, key: Key, page: Page) {
    && k < |events| && k < |states| && events[k].Resume?
    && events[k].caller in states[k].callers
    && var caller := states[k].callers[events[k].caller];
    && caller.Fetching? && caller.key == key && caller.progress == Told(page)
  }

  /** A page that a reader was told is one that the helper has read. */
  lemma {:induction false} ToldWasRead(states: seq<System>, events: seq<Event>, i: nat, c: CallerId)
    requires Behaviour(states, events) && i < |states| && c in states[i].callers
    requires states[i].callers[c].Fetching? && states[i].callers[c].progress.Told?
    ensures exists j :: 0 <= j < i && ReadAt(states, events, j, states[i].callers[c].key,
        states[i].callers[c].progress.page)
  {
    var s, e, caller := states[i - 1], events[i - 1], states[i].callers[c];
    BehaviourInv(states, events, i - 1);
    assert CallerOk(s, c);
    if c in s.callers && s.callers[c] == caller {
      ToldWasRead(states, events, i - 1, c);
    } else {
      ToldNow(s, e, c);
      assert ReadAt(states, events, i - 1, caller.key, caller.progress.page);
    }
  }

  lemma {:induction false} ToldNow(s: System, e: Event, c: CallerId)
    requires Enabled(s, e) && c in Step(s, e).callers && CallerOk(s, c)
    requires Step(s, e).callers[c].Fetching? && Step(s, e).callers[c].progress.Told?
    requires !(c in s.callers && s.callers[c] == Step(s, e).callers[c])
    ensures e.Serve? && s.log[s.served].ListRequest? && s.log[s.served].key == Step(s, e).callers[c].key
    ensures var key := Step(s, e).callers[c].key;
      Step(s, e).callers[c].progress.page == Page(s.boxes(key.scope).view(key.query), s.boxes(key.scope).foreign)
  {
  }

  /** Every cached page was taken by a reader, and expires five seconds later. */
  lemma {:induction false} CachedWasTaken(states: seq<System>, events: seq<Event>, times: seq<int>, i: nat, it: Item)
    requires Behaviour(states, events) && Timed(events, times) && i < |states| && it in states[i].gate.cache
    ensures exists k :: 0 <= k < i && TakenAt(states, events, k, it.key, it.page) && it.expiresAt == times[k] + LIFETIME
  {
    var s, e := states[i - 1], events[i - 1];
    if it in s.gate.cache {
      CachedWasTaken(states, events, times, i - 1, it);
    } else {
      CachedNow(s, e, it);
      assert TakenAt(states, events, i - 1, it.key, it.page);
    }
  }

  lemma {:induction false} CachedNow(s: System, e: Event, it: Item)
    requires Enabled(s, e) && it in Step(s, e).gate.cache && it !in s.gate.cache
    ensures e.Resume? && it == Item(s.callers[e.caller].key, e.expiresAt, s.callers[e.caller].progress.page)
  {
    if e.Resume? {
      StoreBounded(s.gate.cache, Item(s.callers[e.caller].key, e.expiresAt, s.callers[e.caller].progress.page), e.now);
    }
  }

  /** The page that is returned at event `i` was read by the helper at event `j`, and taken for
      it at event `k`, less than five seconds before. */
  ghost predicate Recent(states: seq<System>, events: seq<Event>, times: seq<int>, i: nat, key: Key, page: Page,
      j: int, k: int)
    requires |times| == |events|
  {
    && 0 <= j < k <= i < |times| && ReadAt(states, events, j, key, page) && TakenAt(states, events, k, key, page)
    && times[i] < times[k] + LIFETIME
  }

  /** In every history a page that a reader returns is what the mailbox showed when the helper
      read it for a reader, this one or another, who got it less than five seconds before. */
  lemma {:induction false} ReturnedPageIsRecent(states: seq<System>, events: seq<Event>, times: seq<int>, i: nat,
      c: CallerId, key: Key, page: Page)
    requires Behaviour(states, events) && Timed(events, times) && i < |events|
    requires c in states[i + 1].callers && states[i + 1].callers[c] == Returned(key, page)
    requires c !in states[i].callers || !states[i].callers[c].Returned?
    ensures exists j, k :: Recent(states, events, times, i, key, page, j, k)
  {
    var s, e := states[i], events[i];
    assert Enabled(s, e) && states[i + 1] == Step(s, e);
    ReturnedHow(s, e, c);
    var k := i;
    if e.Turn? {
      var it :| it in s.gate.cache && it.key == key && it.page == page && it.expiresAt > e.now;
      CachedWasTaken(states, events, times, i, it);
      k :| 0 <= k < i && TakenAt(states, events, k, it.key, it.page) && it.expiresAt == times[k] + LIFETIME;
    }
    assert TakenAt(states, events, k, key, page);
    ToldWasRead(states, events, k, events[k].caller);
    var j :| 0 <= j < k && ReadAt(states, events, j, key, page);
    assert Recent(states, events, times, i, key, page, j, k);
  }

  lemma {:induction false} ReturnedHow(s: System, e: Event, c: CallerId)
    requires Enabled(s, e) && c in Step(s, e).callers && Step(s, e).callers[c].Returned?
    requires c !in s.callers || !s.callers[c].Returned?
    ensures var after := Step(s, e).callers[c];
      && (e.Turn? || e.Resume?) && e.caller == c && c in s.callers && s.callers[c].key == after.key
      && (e.Turn? ==> exists it <- s.gate.cache :: it.key == after.key && it.page == after.page && it.expiresAt > e.now)
      && (e.Resume? ==> s.callers[c].progress == Told(after.page))
  {
    if e.Turn? {
      var k := Find(s.gate.cache, s.callers[c].key);
      if k < |s.gate.cache| {
        assert s.gate.cache[k] in s.gate.cache;
      }
    }
  }

  /** The lifetime does not bound how long an answer is under way: a reader that resumes late
      returns a page that the mailbox has not shown for any given time. */
  lemma {:induction false} LateAnswer(s: System, key: Key, view: Query -> seq<string>, delay: nat)
    returns (states: seq<System>, events: seq<Event>, times: seq<int>)
    requires Init(s) && view(key.query) != s.boxes(key.scope).view(key.query)
    ensures Behaviour(states, events) && Timed(events, times) && |events| == 6 && states[0] == s
    ensures 0 in states[6].callers && states[6].callers[0].Returned? && states[6].callers[0].key == key
    ensures forall i :: 5 <= i <= 6 ==>
      states[i].boxes(key.scope).view(key.query) != states[6].callers[0].page.items
    ensures times[5] - times[4] == delay
  {
    events := [Call(0, key), Turn(0, 0), Ask(0), Serve(view), Foreign(key.scope, view),
               Resume(0, delay, delay + LIFETIME)];
    times := [0, 0, 0, 0, 0, delay];
    var s1 := Step(s, events[0]);
    var s2 := Step(s1, events[1]);
    assert s2.callers[0] == Fetching(key, Generation(0, 0), Asking);
    var s3 := Step(s2, events[2]);
    assert s3.log == [ListRequest(0, key)];
    var s4 := Step(s3, events[3]);
    assert s4.callers[0].progress == Told(PageOf(s.boxes(key.scope), key.query));
    var s5 := Step(s4, events[4]);
    states := [s, s1, s2, s3, s4, s5, Step(s5, events[5])];
  }

  // ---------------------------------------------------------------------------------------
  // When a reader fetches again
  // ---------------------------------------------------------------------------------------

  /** The event invalidates the mailbox. */
  ghost predicate Disturbs(s: System, e: Event, scope: Scope) {
    match e
    case Mutate(_, mine) => mine == scope
    case Settle(t) => t in s.tasks && s.tasks[t].scope == scope
    case Break(t) => t in s.tasks && s.tasks[t].scope == scope
    case InvalidateAccount(a) => a == scope.account
    case InvalidateScope(mine) => mine == scope
    case _ => false
  }

  /** Since event `j` nothing has invalidated the mailbox. */
  ghost predicate Undisturbed(states: seq<System>, events: seq<Event>, j: nat, i: nat, scope: Scope)
    requires i <= |events| <= |states|
  {
    forall m :: j <= m < i ==> !Disturbs(states[m], events[m], scope)
  }

  lemma {:induction false} SteadyStep(s: System, e: Event, scope: Scope)
    requires Enabled(s, e) && !Disturbs(s, e, scope)
    ensures Step(s, e).gate.GenerationOf(scope) == s.gate.GenerationOf(scope)
    ensures Step(s, e).gate.Inflight(scope) == s.gate.Inflight(scope)
  {
  }

  lemma {:induction false} SteadyAt(states: seq<System>, events: seq<Event>, k: nat, scope: Scope)
    requires Behaviour(states, events) && k < |events| && !Disturbs(states[k], events[k], scope)
    ensures states[k + 1].gate.GenerationOf(scope) == states[k].gate.GenerationOf(scope)
    ensures states[k + 1].gate.Inflight(scope) == states[k].gate.Inflight(scope)
  {
    SteadyStep(states[k], events[k], scope);
  }

  lemma {:induction false} Constant(values: seq<(Generation, int)>)
    requires values != [] && forall k :: 0 <= k < |values| - 1 ==> values[k + 1] == values[k]
    ensures values[|values| - 1] == values[0]
  {
    if |values| > 1 {
      Constant(values[..|values| - 1]);
    }
  }

  lemma {:induction false} SteadyRun(states: seq<System>, events: seq<Event>, j: nat, i: nat, scope: Scope)
    requires Behaviour(states, events) && j <= i <= |events| && Undisturbed(states, events, j, i, scope)
    ensures states[i].gate.GenerationOf(scope) == states[j].gate.GenerationOf(scope)
    ensures states[i].gate.Inflight(scope) == states[j].gate.Inflight(scope)
  {
    var values := seq(i - j + 1, k requires 0 <= k < i - j + 1 =>
      (states[j + k].gate.GenerationOf(scope), states[j + k].gate.Inflight(scope)));
    forall k | 0 <= k < i - j ensures values[k + 1] == values[k] {
      SteadyAt(states, events, j + k, scope);
    }
    Constant(values);
  }

  /** In every history a reader that began to fetch at event `j` and resumes at event `i` returns
      what it got, unless its mailbox was invalidated in between. */
  lemma {:induction false} AgainOnlyIfDisturbed(states: seq<System>, events: seq<Event>, j: nat, i: nat, c: CallerId)
    requires Behaviour(states, events) && j < i < |events| && events[j].Turn? && events[j].caller == c
    requires events[i].Resume? && events[i].caller == c && c in states[j + 1].callers && c in states[i].callers
    requires states[j + 1].callers[c].Fetching? && states[i].callers[c].key == states[j + 1].callers[c].key
    requires states[i].callers[c].generation == states[j + 1].callers[c].generation
    requires Undisturbed(states, events, j, i, states[i].callers[c].key.scope)
    ensures c in states[i + 1].callers
    ensures states[i + 1].callers[c] == Returned(states[i].callers[c].key, states[i].callers[c].progress.page)
  {
    SteadyRun(states, events, j, i, states[i].callers[c].key.scope);
  }

  // ---------------------------------------------------------------------------------------
  // What stays in the cache
  // ---------------------------------------------------------------------------------------

  /** The event may drop the entry: its mailbox is invalidated, or a page is stored when the
      entry has expired, when 128 entries are there, or in its place. */
  ghost predicate MayDrop(s: System, e: Event, it: Item) {
    || Disturbs(s, e, it.key.scope)
    || (e.Resume? && (it.expiresAt <= e.now || |s.gate.cache| >= 128 ||
          (e.caller in s.callers && s.callers[e.caller].key == it.key)))
  }

  /** Nothing else drops it, and a page that is returned by the reader who fetched it is stored. */
  lemma {:induction false} EntryStays(s: System, e: Event, it: Item)
    requires Enabled(s, e)
    ensures it in s.gate.cache && !MayDrop(s, e, it) ==> it in Step(s, e).gate.cache
    ensures e.Resume? && Step(s, e).callers[e.caller].Returned? ==>
      Item(s.callers[e.caller].key, e.expiresAt, s.callers[e.caller].progress.page) in Step(s, e).gate.cache
  {
    if e.Resume? {
      var cache, item := s.gate.cache, Item(s.callers[e.caller].key, e.expiresAt, s.callers[e.caller].progress.page);
      PutStays(Prune(cache, e.now), item, it);
    }
  }

  lemma {:induction false} PutStays(cache: seq<Item>, item: Item, it: Item)
    ensures item in Put(cache, item)
    ensures it in cache && it.key != item.key ==> it in Put(cache, item)
  {
    var k := Find(cache, item.key);
    assert Put(cache, item)[k] == item;
    if it in cache && it.key != item.key {
      var j :| 0 <= j < |cache| && cache[j] == it;
      assert Put(cache, item)[j] == it;
    }
  }
}
