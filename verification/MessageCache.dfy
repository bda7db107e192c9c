/** The message-list cache of the web gateway, kept per account and mailbox. */
module MessageCache {

  // It lives under tracked permanent deletes, untracked changes by others, cancelled readers and
  // ambiguous failures.  `Gate` holds the cache fields of `HelperGateway` for message lists;
  // class `MessageGateway` assigns the same fields in place.

  const CAPACITY := 128

  type TaskId = nat
  type CallerId = nat
  type Account = string

  datatype Scope = Scope(account: Account, mailbox: string)

  datatype Query = Query(authKey: string, limit: int, offset: int)

  datatype Key = Key(scope: Scope, query: Query)

  /** A page as the helper answers it, and how many untracked changes the mailbox had seen by
      then; the gateway never looks at the latter. */
  datatype Page = Page(items: seq<string>, seen: nat)

  datatype Item = Item(key: Key, expiresAt: int, page: Page)

  /** A reader's generation pair. */
  datatype Generation = Generation(account: nat, mailbox: nat)

  datatype Decision =
    | AwaitWriters(writers: set<TaskId>)
    | TrackingLost
    | Fetch(generation: Generation)
    | Return(page: Page)
    | Again

  function Get<K, V>(m: map<K, V>, k: K, default: V): V {
    if k in m then m[k] else default
  }

  // ---------------------------------------------------------------------------------------
  // The cache, in insertion order
  // ---------------------------------------------------------------------------------------

  function Keep(cache: seq<Item>, p: Item -> bool): (kept: seq<Item>)
    ensures |kept| <= |cache|
    ensures forall it :: it in kept <==> it in cache && p(it)
  {
    if cache == [] then []
    else
      var n := |cache| - 1;
      assert cache == cache[..n] + [cache[n]];
      Keep(cache[..n], p) + if p(cache[n]) then [cache[n]] else []
  }

  function Find(cache: seq<Item>, key: Key): (k: nat)
    ensures k <= |cache|
    ensures k < |cache| ==> cache[k].key == key
    ensures forall i :: 0 <= i < k ==> cache[i].key != key
  {
    if cache == [] || cache[0].key == key then 0
    else
      var k := Find(cache[1..], key);
      assert forall i :: 0 <= i < k ==> cache[1..][i] == cache[i + 1];
      k + 1
  }

  /** A key that is there keeps its place. */
  function Put(cache: seq<Item>, item: Item): seq<Item> {
    var k := Find(cache, item.key);
    if k < |cache| then cache[k := item] else cache + [item]
  }

  /** Drop what has expired, then the oldest entries until there is room for one more. */
  function Prune(cache: seq<Item>, now: int): seq<Item> {
    var live := Keep(cache, (it: Item) => it.expiresAt > now);
    if |live| < CAPACITY then live else live[|live| - CAPACITY + 1..]
  }

  lemma {:induction false} StoreBounded(cache: seq<Item>, item: Item, now: int)
    ensures |Put(Prune(cache, now), item)| <= CAPACITY
    ensures forall it :: it in Put(Prune(cache, now), item) ==> it == item || it in cache
  {
    var pruned := Prune(cache, now);
    forall it | it in Put(pruned, item) ensures it == item || it in cache {
      if it != item {
        assert it in pruned;
      }
    }
  }

  // ---------------------------------------------------------------------------------------
  // The gate
  // ---------------------------------------------------------------------------------------

  datatype Gate = Gate(accountGenerations: map<Account, nat>, mailboxGenerations: map<Scope, nat>,
                       inflight: map<Scope, int>, tracked: map<Scope, set<TaskId>>,
                       quarantined: set<Scope>, cache: seq<Item>)
  {
    function GenerationOf(scope: Scope): Generation {
      Generation(Get(accountGenerations, scope.account, 0), Get(mailboxGenerations, scope, 0))
    }

    function Inflight(scope: Scope): int {
      Get(inflight, scope, 0)
    }

    function Tracked(scope: Scope): set<TaskId> {
      Get(tracked, scope, {})
    }

    function Invalidate(scope: Scope): Gate {
      this.(mailboxGenerations := mailboxGenerations[scope := Get(mailboxGenerations, scope, 0) + 1],
            cache := Keep(cache, (it: Item) => it.key.scope != scope))
    }

    function InvalidateAccount(account: Account): Gate {
      this.(accountGenerations := accountGenerations[account := Get(accountGenerations, account, 0) + 1],
            cache := Keep(cache, (it: Item) => it.key.scope.account != account))
    }

    function BeginMutation(scope: Scope, task: TaskId): Gate {
      Invalidate(scope).(inflight := inflight[scope := Inflight(scope) + 1],
          tracked := tracked[scope := Tracked(scope) + {task}])
    }

    function SettleMutation(scope: Scope, ambiguous: bool): Gate {
      var remaining := Inflight(scope) - 1;
      this.(quarantined := if ambiguous then quarantined + {scope} else quarantined,
            inflight := if remaining > 0 then inflight[scope := remaining] else inflight - {scope}).Invalidate(scope)
    }

    function Release(scope: Scope, task: TaskId): Gate {
      var left := Tracked(scope) - {task};
      this.(tracked := if left == {} then tracked - {scope} else tracked[scope := left])
    }

    /** One pass over the top of the reader's loop; `done` are the finished tasks. */
    function Turn(key: Key, now: int, done: set<TaskId>): (Gate, Decision) {
      if Inflight(key.scope) != 0 then
        var left := Tracked(key.scope) - done;
        (if key.scope in tracked then this.(tracked := tracked[key.scope := left]) else this,
         if left == {} then TrackingLost else AwaitWriters(left))
      else
        var k := Find(cache, key);
        if key.scope !in quarantined && k < |cache| && cache[k].expiresAt > now then (this, Return(cache[k].page))
        else (this, Fetch(GenerationOf(key.scope)))
    }

    /** What a reader makes of the page it has fetched. */
    function Resume(key: Key, generation: Generation, page: Page, now: int, expiresAt: int): (Gate, Decision) {
      if generation != GenerationOf(key.scope) || Inflight(key.scope) != 0 then (this, Again)
      else
        (this.(quarantined := quarantined - {key.scope}, cache := Put(Prune(cache, now), Item(key, expiresAt, page))),
            Return(page))
    }
  }

  const EmptyGate := Gate(map[], map[], map[], map[], {}, [])

  /** The same gate with its fields updated in place. */
  class MessageGateway {
    var accountGenerations: map<Account, nat>
    var mailboxGenerations: map<Scope, nat>
    var inflight: map<Scope, int>
    var tracked: map<Scope, set<TaskId>>
    var quarantined: set<Scope>
    var cache: seq<Item>

    ghost function View(): Gate
      reads this
    {
      Gate(accountGenerations, mailboxGenerations, inflight, tracked, quarantined, cache)
    }

    constructor ()
      ensures View() == EmptyGate
    {
      accountGenerations, mailboxGenerations, inflight, tracked, quarantined, cache := map[], map[], map[], map[], {},
          [];
    }

    /** Go over a copy of the cache and delete what `keeps` does not keep. */
    method DeleteItems(keeps: Item -> bool)
      modifies `cache
      ensures cache == Keep(old(cache), keeps)
    {
      var copy := cache;
      cache := [];
      for i := 0 to |copy|
        invariant cache == Keep(copy[..i], keeps)
      {
        assert copy[..i + 1][..i] == copy[..i];
        if keeps(copy[i]) {
          cache := cache + [copy[i]];
        }
      }
      assert copy[..|copy|] == copy;
    }

    method InvalidateMessageLists(scope: Scope)
      modifies `mailboxGenerations, `cache
      ensures View() == old(View()).Invalidate(scope)
    {
      mailboxGenerations := mailboxGenerations[scope := Get(mailboxGenerations, scope, 0) + 1];
      DeleteItems((it: Item) => it.key.scope != scope);
    }

    method InvalidateAccountLists(account: Account)
      modifies `accountGenerations, `cache
      ensures View() == old(View()).InvalidateAccount(account)
    {
      accountGenerations := accountGenerations[account := Get(accountGenerations, account, 0) + 1];
      DeleteItems((it: Item) => it.key.scope.account != account);
    }

    method BeginMessageMutation(scope: Scope, task: TaskId)
      modifies this
      ensures View() == old(View()).BeginMutation(scope, task)
    {
      InvalidateMessageLists(scope);
      inflight := inflight[scope := Get(inflight, scope, 0) + 1];
      tracked := tracked[scope := Get(tracked, scope, {}) + {task}];
    }

    method SettleMessageMutation(scope: Scope, ambiguous: bool)
      modifies this
      ensures View() == old(View()).SettleMutation(scope, ambiguous)
    {
      if ambiguous {
        quarantined := quarantined + {scope};
      }
      var remaining := Get(inflight, scope, 0) - 1;
      if remaining > 0 {
        inflight := inflight[scope := remaining];
      } else {
        inflight := inflight - {scope};
      }
      InvalidateMessageLists(scope);
    }

    method PruneMessageListCache(now: int)
      modifies `cache
      ensures cache == Prune(old(cache), now)
    {
      DeleteItems((it: Item) => it.expiresAt > now);
      ghost var live := cache;
      while |cache| >= CAPACITY
        invariant |cache| <= |live| && cache == live[|live| - |cache|..]
        invariant |cache| < |live| ==> |cache| >= CAPACITY - 1
      {
        cache := cache[1..];
      }
    }

    method ListMessagesTurn(key: Key, now: int, done: set<TaskId>) returns (d: Decision)
      modifies `tracked
      ensures (View(), d) == old(View()).Turn(key, now, done)
    {
      if Get(inflight, key.scope, 0) != 0 {
        var left := Get(tracked, key.scope, {}) - done;
        if key.scope in tracked {
          tracked := tracked[key.scope := left];
        }
        return if left == {} then TrackingLost else AwaitWriters(left);
      }
      var k := Find(cache, key);
      if key.scope !in quarantined && k < |cache| && cache[k].expiresAt > now {
        return Return(cache[k].page);
      }
      d := Fetch(Generation(Get(accountGenerations, key.scope.account, 0), Get(mailboxGenerations, key.scope, 0)));
    }

    method ListMessagesResume(key: Key, generation: Generation, page: Page, now: int,
        expiresAt: int) returns (d: Decision)
      modifies `quarantined, `cache
      ensures (View(), d) == old(View()).Resume(key, generation, page, now, expiresAt)
    {
      var current := Generation(Get(accountGenerations, key.scope.account, 0), Get(mailboxGenerations, key.scope, 0));
      if generation != current || Get(inflight, key.scope, 0) != 0 {
        return Again;
      }
      quarantined := quarantined - {key.scope};
      PruneMessageListCache(now);
      cache := Put(cache, Item(key, expiresAt, page));
      d := Return(page);
    }
  }

  // ---------------------------------------------------------------------------------------
  // The system around the gate
  // ---------------------------------------------------------------------------------------

  datatype Phase = Started | Sent(ticket: nat) | Answered | Settled

  /** A tracked delete. */
  datatype Task = Task(scope: Scope, phase: Phase)

  datatype Progress = Asking | Asked(ticket: nat) | Told(page: Page)

  datatype Caller =
    | Ready(key: Key)
    | Waiting(key: Key, writers: set<TaskId>)
    | Fetching(key: Key, generation: Generation, progress: Progress)
    | Returned(key: Key, page: Page)
    | Raised(key: Key)
    | Lost(key: Key)

  datatype Request = ListRequest(caller: CallerId, key: Key) | DeleteRequest(task: TaskId, scope: Scope)

  /** A mailbox at the helper: its pages, and how often it was changed other than by a tracked
      delete. */
  datatype Box = Box(view: Query -> seq<string>, foreign: nat)

  /** `log` is every request that ever reached the helper; `served` of them are answered. */
  datatype System = System(gate: Gate, tasks: map<TaskId, Task>, callers: map<CallerId, Caller>,
                           log: seq<Request>, served: nat, boxes: Scope -> Box)

  datatype Event =
    | Call(caller: CallerId, key: Key)
    | Turn(caller: CallerId, now: int)
    | Wake(caller: CallerId)
    | Ask(caller: CallerId)
    | Resume(caller: CallerId, now: int, expiresAt: int)
    | Fail(caller: CallerId)
    | Cancel(caller: CallerId)
    | Mutate(task: TaskId, scope: Scope)
    | Send(task: TaskId)
    | Serve(view: Query -> seq<string>)
    | Settle(task: TaskId)
    | Break(task: TaskId)
    | Release(task: TaskId)
    | Foreign(scope: Scope, view: Query -> seq<string>)
    | InvalidateAccount(account: Account)
    | InvalidateScope(scope: Scope)

  ghost function Done(tasks: map<TaskId, Task>): set<TaskId> {
    set t | t in tasks && tasks[t].phase.Settled?
  }

  ghost function Writers(tasks: map<TaskId, Task>, scope: Scope): set<TaskId> {
    set t | t in tasks && tasks[t].scope == scope && !tasks[t].phase.Settled?
  }

  ghost predicate Init(s: System) {
    s.gate == EmptyGate && s.tasks == map[] && s.callers == map[] && s.log == [] && s.served == 0
  }

  ghost predicate Enabled(s: System, e: Event) {
    match e
    case Call(c, _) => c !in s.callers
    case Turn(c, _) => c in s.callers && s.callers[c].Ready?
    case Wake(c) => c in s.callers && s.callers[c].Waiting? && s.callers[c].writers <= Done(s.tasks)
    case Ask(c) => c in s.callers && s.callers[c].Fetching? && s.callers[c].progress.Asking?
    case Resume(c, _, _) => c in s.callers && s.callers[c].Fetching? && s.callers[c].progress.Told?
    case Fail(c) => c in s.callers && s.callers[c].Fetching?
    case Cancel(c) => c in s.callers
    case Mutate(t, _) => t !in s.tasks
    case Send(t) => t in s.tasks && s.tasks[t].phase.Started?
    case Serve(_) => s.served < |s.log|
    case Settle(t) => t in s.tasks && s.tasks[t].phase.Answered?
    case Break(t) => t in s.tasks && !s.tasks[t].phase.Settled?
    case Release(t) => t in Done(s.tasks)
    case Foreign(_, _) => true
    case InvalidateAccount(_) => true
    case InvalidateScope(_) => true
  }

  function Place(key: Key, d: Decision): Caller {
    match d
    case AwaitWriters(writers) => Waiting(key, writers)
    case TrackingLost => Lost(key)
    case Fetch(generation) => Fetching(key, generation, Asking)
    case Return(page) => Returned(key, page)
    case Again => Ready(key)
  }

  ghost function RunTurn(s: System, c: CallerId, now: int): System
    requires c in s.callers
  {
    var key := s.callers[c].key;
    var (gate, d) := s.gate.Turn(key, now, Done(s.tasks));
    s.(gate := gate, callers := s.callers[c := Place(key, d)])
  }

  function RunResume(s: System, c: CallerId, now: int, expiresAt: int): System
    requires c in s.callers && s.callers[c].Fetching? && s.callers[c].progress.Told?
  {
    var caller := s.callers[c];
    var (gate, d) := s.gate.Resume(caller.key, caller.generation, caller.progress.page, now, expiresAt);
    s.(gate := gate, callers := s.callers[c := Place(caller.key, d)])
  }

  function BeginWrite(s: System, t: TaskId, scope: Scope): System {
    s.(gate := s.gate.BeginMutation(scope, t), tasks := s.tasks[t := Task(scope, Started)])
  }

  function Finish(s: System, t: TaskId, ambiguous: bool): System
    requires t in s.tasks
  {
    s.(tasks := s.tasks[t := s.tasks[t].(phase := Settled)], gate := s.gate.SettleMutation(s.tasks[t].scope, ambiguous))
  }

  function AskHelper(s: System, c: CallerId): System
    requires c in s.callers && s.callers[c].Fetching?
  {
    s.(callers := s.callers[c := s.callers[c].(progress := Asked(|s.log|))],
        log := s.log + [ListRequest(c, s.callers[c].key)])
  }

  function SendDelete(s: System, t: TaskId): System
    requires t in s.tasks
  {
    s.(tasks := s.tasks[t := s.tasks[t].(phase := Sent(|s.log|))], log := s.log + [DeleteRequest(t, s.tasks[t].scope)])
  }

  function Change(boxes: Scope -> Box, scope: Scope, box: Box): Scope -> Box {
    (other: Scope) => if other == scope then box else boxes(other)
  }

  function PageOf(box: Box, query: Query): Page {
    Page(box.view(query), box.foreign)
  }

  /** The helper takes the next request; a delete leaves its mailbox showing `view`. */
  function ServeNext(s: System, view: Query -> seq<string>): System
    requires s.served < |s.log|
  {
    match s.log[s.served]
    case ListRequest(c, key) =>
      s.(served := s.served + 1,
         callers := if c in s.callers && s.callers[c].Fetching? && s.callers[c].progress == Asked(s.served)
                    then s.callers[c := s.callers[c].(progress := Told(PageOf(s.boxes(key.scope), key.query)))]
                        else s.callers)
    case DeleteRequest(t, scope) =>
      s.(served := s.served + 1,
         boxes := Change(s.boxes, scope, s.boxes(scope).(view := view)),
         tasks := if t in s.tasks && s.tasks[t].phase == Sent(s.served) then
             s.tasks[t := s.tasks[t].(phase := Answered)] else s.tasks)
  }

  ghost function Step(s: System, e: Event): System
    requires Enabled(s, e)
  {
    match e
    case Call(c, key) => s.(callers := s.callers[c := Ready(key)])
    case Turn(c, now) => RunTurn(s, c, now)
    case Wake(c) => s.(callers := s.callers[c := Ready(s.callers[c].key)])
    case Ask(c) => AskHelper(s, c)
    case Resume(c, now, expiresAt) => RunResume(s, c, now, expiresAt)
    case Fail(c) => s.(callers := s.callers[c := Raised(s.callers[c].key)])
    case Cancel(c) => s.(callers := s.callers - {c})
    case Mutate(t, scope) => BeginWrite(s, t, scope)
    case Send(t) => SendDelete(s, t)
    case Serve(view) => ServeNext(s, view)
    case Settle(t) => Finish(s, t, false)
    case Break(t) => Finish(s, t, true)
    case Release(t) => s.(gate := s.gate.Release(s.tasks[t].scope, t))
    case Foreign(scope, view) => s.(boxes := Change(s.boxes, scope, Box(view, s.boxes(scope).foreign + 1)))
    case InvalidateAccount(a) => s.(gate := s.gate.InvalidateAccount(a))
    case InvalidateScope(scope) => s.(gate := s.gate.Invalidate(scope))
  }

  // ---------------------------------------------------------------------------------------
  // Invariant
  // ---------------------------------------------------------------------------------------

  /** From position `from` on, no request is a delete in the mailbox. */
  ghost predicate NoDelete(log: seq<Request>, from: nat, scope: Scope) {
    forall j :: from <= j < |log| ==> !(log[j].DeleteRequest? && log[j].scope == scope)
  }

  lemma {:induction false} NoDeleteAppend(log: seq<Request>, r: Request, from: nat, scope: Scope)
    requires NoDelete(log, from, scope) && !(r.DeleteRequest? && r.scope == scope)
    ensures NoDelete(log + [r], from, scope)
  {
  }

  /** No tracked delete of the mailbox is running or waiting at the helper. */
  ghost predicate Quiet(s: System, scope: Scope) {
    Writers(s.tasks, scope) == {} && NoDelete(s.log, s.served, scope)
  }

  /** The page is what the mailbox shows now, unless others have changed it since. */
  ghost predicate Truthful(s: System, key: Key, page: Page) {
    && page.seen <= s.boxes(key.scope).foreign
    && (page.seen == s.boxes(key.scope).foreign ==> page.items == s.boxes(key.scope).view(key.query))
  }

  ghost predicate ItemOk(s: System, it: Item) {
    it.key.scope !in s.gate.quarantined && Quiet(s, it.key.scope) && Truthful(s, it.key, it.page)
  }

  ghost predicate TaskOk(s: System, t: TaskId) {
    t in s.tasks && s.tasks[t].phase.Sent? ==>
      s.served <= s.tasks[t].phase.ticket < |s.log| && s.log[s.tasks[t].phase.ticket] ==
          DeleteRequest(t, s.tasks[t].scope)
  }

  ghost predicate ScopeOk(s: System, scope: Scope) {
    && s.gate.Inflight(scope) == |Writers(s.tasks, scope)|
    && Writers(s.tasks, scope) <= s.gate.Tracked(scope) <= s.tasks.Keys
  }

  ghost predicate AtMost(a: Generation, b: Generation) {
    a.account <= b.account && a.mailbox <= b.mailbox
  }

  /** Where a fetch of the current generation stands. */
  ghost predicate FreshFetch(s: System, key: Key, progress: Progress) {
    match progress
    case Asking => Writers(s.tasks, key.scope) == {}
    case Asked(i) => Writers(s.tasks, key.scope) == {} && NoDelete(s.log, i + 1, key.scope)
    case Told(page) => Quiet(s, key.scope) && Truthful(s, key, page)
  }

  ghost predicate CallerOk(s: System, c: CallerId) {
    c in s.callers ==>
      var caller := s.callers[c];
      && !caller.Lost?
      && (caller.Waiting? ==> caller.writers <= s.tasks.Keys)
      && (caller.Fetching? ==>
            && (caller.progress.Asked? ==>
                  s.served <= caller.progress.ticket < |s.log|
                      && s.log[caller.progress.ticket] == ListRequest(c, caller.key))
            && AtMost(caller.generation, s.gate.GenerationOf(caller.key.scope))
            && (caller.generation == s.gate.GenerationOf(caller.key.scope) ==>
                FreshFetch(s, caller.key, caller.progress)))
  }

  ghost predicate Inv(s: System) {
    && s.served <= |s.log| && |s.gate.cache| <= CAPACITY
    && (forall it :: it in s.gate.cache ==> ItemOk(s, it))
    && (forall scope :: ScopeOk(s, scope))
    && (forall t :: TaskOk(s, t))
    && (forall c :: CallerOk(s, c))
  }

  lemma {:induction false} InitInv(s: System)
    requires Init(s)
    ensures Inv(s)
  {
    forall scope ensures ScopeOk(s, scope) {
      assert Writers(s.tasks, scope) == {};
    }
  }

  lemma {:induction false} WritersUpdated(tasks: map<TaskId, Task>, t: TaskId, task: Task, scope: Scope)
    ensures Writers(tasks[t := task], scope) ==
            if task.scope == scope && !task.phase.Settled? then Writers(tasks, scope) + {t}
                else Writers(tasks, scope) - {t}
  {
  }

  /** Moving an unfinished task on changes no set of writers. */
  lemma {:induction false} WritersKept(tasks: map<TaskId, Task>, t: TaskId, phase: Phase, scope: Scope)
    requires t in tasks && !tasks[t].phase.Settled? && !phase.Settled?
    ensures Writers(tasks[t := tasks[t].(phase := phase)], scope) == Writers(tasks, scope)
  {
    var tasks' := tasks[t := tasks[t].(phase := phase)];
    forall u ensures u in Writers(tasks', scope) <==> u in Writers(tasks, scope) {
    }
  }

  // Events that only move a caller

  /** A reader that must wait has a writer to wait for. */
  lemma {:induction false} TurnCaller(s: System, c: CallerId, now: int)
    requires c in s.callers && s.callers[c].Ready? && ScopeOk(s, s.callers[c].key.scope)
    requires forall it :: it in s.gate.cache ==> ItemOk(s, it)
    ensures CallerOk(RunTurn(s, c, now), c)
  {
    var scope := s.callers[c].key.scope;
    var left := s.gate.Tracked(scope) - Done(s.tasks);
    assert Writers(s.tasks, scope) <= left;
    assert s.gate.Inflight(scope) == 0 <==> Writers(s.tasks, scope) == {};
  }

  lemma {:induction false} TurnInv(s: System, c: CallerId, now: int)
    requires Inv(s) && c in s.callers && s.callers[c].Ready?
    ensures Inv(RunTurn(s, c, now))
  {
    var s' := RunTurn(s, c, now);
    assert ScopeOk(s, s.callers[c].key.scope);
    TurnCaller(s, c, now);
    forall scope ensures ScopeOk(s', scope) {
      assert ScopeOk(s, scope);
    }
    Unaffected(s, s', {c});
  }

  /** Callers, tasks and cached items that an event does not concern stay in order. */
  lemma {:induction false} Unaffected(s: System, s': System, moved: set<CallerId>)
    requires Inv(s) && s'.tasks == s.tasks && s'.log == s.log && s'.served == s.served && s'.boxes == s.boxes
    requires s'.gate.accountGenerations == s.gate.accountGenerations
        && s'.gate.mailboxGenerations == s.gate.mailboxGenerations
    requires s'.gate.quarantined <= s.gate.quarantined
    requires forall c :: c !in moved && c in s'.callers ==> c in s.callers && s'.callers[c] == s.callers[c]
    ensures forall c :: c !in moved ==> CallerOk(s', c)
    ensures forall t :: TaskOk(s', t)
    ensures forall it :: it in s.gate.cache ==> ItemOk(s', it)
  {
    forall c | c !in moved ensures CallerOk(s', c) {
      assert CallerOk(s, c);
    }
    forall t ensures TaskOk(s', t) {
      assert TaskOk(s, t);
    }
    forall it | it in s.gate.cache ensures ItemOk(s', it) {
      assert ItemOk(s, it);
    }
  }

  /** A page that is stored is current. */
  lemma {:induction false} ResumeInv(s: System, c: CallerId, now: int, expiresAt: int)
    requires Inv(s) && c in s.callers && s.callers[c].Fetching? && s.callers[c].progress.Told?
    ensures Inv(RunResume(s, c, now, expiresAt))
  {
    var s' := RunResume(s, c, now, expiresAt);
    var key, page := s.callers[c].key, s.callers[c].progress.page;
    assert CallerOk(s, c);
    StoreBounded(s.gate.cache, Item(key, expiresAt, page), now);
    Unaffected(s, s', {c});
    forall scope ensures ScopeOk(s', scope) {
      assert ScopeOk(s, scope);
    }
  }

  lemma {:induction false} CallerInv(s: System, e: Event)
    requires Inv(s) && Enabled(s, e) && (e.Call? || e.Wake? || e.Fail? || e.Cancel?)
    ensures Inv(Step(s, e))
  {
    var s' := Step(s, e);
    Unaffected(s, s', {e.caller});
    forall scope ensures ScopeOk(s', scope) {
      assert ScopeOk(s, scope);
    }
  }

  // Requests

  /** A request joins the log; if it is a delete, a writer of its mailbox is running. */
  lemma {:induction false} LoggedCaller(s: System, s': System, r: Request, c: CallerId)
    requires s.served <= |s.log| && CallerOk(s, c) && s'.log == s.log + [r] && s'.gate == s.gate
    requires s'.served == s.served && s'.boxes == s.boxes && s'.tasks.Keys == s.tasks.Keys
    requires c in s'.callers ==> c in s.callers && s'.callers[c] == s.callers[c]
    requires forall scope :: Writers(s'.tasks, scope) == Writers(s.tasks, scope)
    requires r.DeleteRequest? ==> Writers(s.tasks, r.scope) != {}
    ensures CallerOk(s', c)
  {
    if c in s.callers && s.callers[c].Fetching? {
      var scope := s.callers[c].key.scope;
      var progress := s.callers[c].progress;
      if Writers(s.tasks, scope) == {} {
        if progress.Asked? && NoDelete(s.log, progress.ticket + 1, scope) {
          NoDeleteAppend(s.log, r, progress.ticket + 1, scope);
        } else if progress.Told? && NoDelete(s.log, s.served, scope) {
          NoDeleteAppend(s.log, r, s.served, scope);
        }
      }
    }
  }

  lemma {:induction false} LoggedItem(s: System, s': System, r: Request, it: Item)
    requires ItemOk(s, it) && s'.log == s.log + [r] && s'.gate == s.gate && s'.served == s.served && s'.boxes == s.boxes
    requires Writers(s'.tasks, it.key.scope) == Writers(s.tasks, it.key.scope)
    requires r.DeleteRequest? ==> Writers(s.tasks, r.scope) != {}
    ensures ItemOk(s', it)
  {
    NoDeleteAppend(s.log, r, s.served, it.key.scope);
  }

  lemma {:induction false} AskInv(s: System, c: CallerId)
    requires Inv(s) && c in s.callers && s.callers[c].Fetching? && s.callers[c].progress.Asking?
    ensures Inv(AskHelper(s, c))
  {
    var s' := AskHelper(s, c);
    var r := ListRequest(c, s.callers[c].key);
    forall d ensures CallerOk(s', d) {
      assert CallerOk(s, d);
      if d != c {
        LoggedCaller(s, s', r, d);
      }
    }
    forall t ensures TaskOk(s', t) {
      assert TaskOk(s, t);
    }
    forall it | it in s'.gate.cache ensures ItemOk(s', it) {
      assert ItemOk(s, it);
      LoggedItem(s, s', r, it);
    }
    forall scope ensures ScopeOk(s', scope) {
      assert ScopeOk(s, scope);
    }
  }

  lemma {:induction false} SendInv(s: System, t: TaskId)
    requires Inv(s) && t in s.tasks && s.tasks[t].phase.Started?
    ensures Inv(SendDelete(s, t))
  {
    var s' := SendDelete(s, t);
    var r := DeleteRequest(t, s.tasks[t].scope);
    assert t in Writers(s.tasks, r.scope);
    forall scope ensures ScopeOk(s', scope) && Writers(s'.tasks, scope) == Writers(s.tasks, scope) {
      assert ScopeOk(s, scope);
      WritersKept(s.tasks, t, Sent(|s.log|), scope);
    }
    forall d ensures CallerOk(s', d) {
      assert CallerOk(s, d);
      LoggedCaller(s, s', r, d);
    }
    forall u ensures TaskOk(s', u) {
      assert TaskOk(s, u);
    }
    forall it | it in s'.gate.cache ensures ItemOk(s', it) {
      assert ItemOk(s, it);
      LoggedItem(s, s', r, it);
    }
  }

  // Deletes that begin and end

  lemma {:induction false} MutateScope(s: System, t: TaskId, mine: Scope, scope: Scope)
    requires ScopeOk(s, scope) && t !in s.tasks
    ensures ScopeOk(BeginWrite(s, t, mine), scope)
    ensures scope != mine ==> Writers(BeginWrite(s, t, mine).tasks, scope) == Writers(s.tasks, scope)
  {
    var writers := Writers(s.tasks, scope);
    WritersUpdated(s.tasks, t, Task(mine, Started), scope);
    assert t !in writers && writers - {t} == writers && |writers + {t}| == |writers| + 1;
  }

  lemma {:induction false} MutateInv(s: System, t: TaskId, mine: Scope)
    requires Inv(s) && t !in s.tasks
    ensures Inv(BeginWrite(s, t, mine))
  {
    var s' := BeginWrite(s, t, mine);
    forall scope ensures ScopeOk(s', scope) && (scope != mine ==> Writers(s'.tasks, scope) == Writers(s.tasks, scope)) {
      assert ScopeOk(s, scope);
      MutateScope(s, t, mine, scope);
    }
    Invalidated(s, s', iset{mine});
  }

  lemma {:induction false} FinishScope(s: System, t: TaskId, ambiguous: bool, scope: Scope)
    requires ScopeOk(s, scope) && t in s.tasks && !s.tasks[t].phase.Settled?
    ensures ScopeOk(Finish(s, t, ambiguous), scope)
    ensures scope != s.tasks[t].scope ==> Writers(Finish(s, t, ambiguous).tasks, scope) == Writers(s.tasks, scope)
  {
    WritersUpdated(s.tasks, t, s.tasks[t].(phase := Settled), scope);
  }

  lemma {:induction false} FinishInv(s: System, t: TaskId, ambiguous: bool)
    requires Inv(s) && t in s.tasks && !s.tasks[t].phase.Settled?
    ensures Inv(Finish(s, t, ambiguous))
  {
    var s' := Finish(s, t, ambiguous);
    var mine := s.tasks[t].scope;
    forall scope ensures ScopeOk(s', scope) && (scope != mine ==> Writers(s'.tasks, scope) == Writers(s.tasks, scope)) {
      assert ScopeOk(s, scope);
      FinishScope(s, t, ambiguous, scope);
    }
    Invalidated(s, s', iset{mine});
  }

  /** After invalidation of some mailboxes their fetches are stale and nothing of them is
      cached, and the others are as they were. */
  lemma {:induction false} Invalidated(s: System, s': System, gone: iset<Scope>)
    requires Inv(s) && s'.log == s.log && s'.served == s.served && s'.boxes == s.boxes && s'.callers == s.callers
    requires s.tasks.Keys <= s'.tasks.Keys && forall t :: t in s'.tasks && s'.tasks[t].phase.Sent? ==>
        t in s.tasks && s'.tasks[t] == s.tasks[t]
    requires forall scope :: scope !in gone ==>
      && Writers(s'.tasks, scope) == Writers(s.tasks, scope)
          && s'.gate.GenerationOf(scope) == s.gate.GenerationOf(scope)
      && (scope in s'.gate.quarantined ==> scope in s.gate.quarantined)
    requires forall scope :: scope in gone ==>
      AtMost(s.gate.GenerationOf(scope), s'.gate.GenerationOf(scope))
          && s'.gate.GenerationOf(scope) != s.gate.GenerationOf(scope)
    requires |s'.gate.cache| <= |s.gate.cache| && forall it :: it in s'.gate.cache ==>
        it in s.gate.cache && it.key.scope !in gone
    requires forall scope :: ScopeOk(s', scope)
    ensures Inv(s')
  {
    forall c ensures CallerOk(s', c) {
      assert CallerOk(s, c);
    }
    forall t ensures TaskOk(s', t) {
      assert TaskOk(s, t);
    }
    forall it | it in s'.gate.cache ensures ItemOk(s', it) {
      assert ItemOk(s, it);
    }
  }

  lemma {:induction false} AccountInv(s: System, a: Account)
    requires Inv(s)
    ensures Inv(s.(gate := s.gate.InvalidateAccount(a)))
  {
    var s' := s.(gate := s.gate.InvalidateAccount(a));
    forall scope ensures ScopeOk(s', scope) {
      assert ScopeOk(s, scope);
    }
    Invalidated(s, s', iset scope: Scope | scope.account == a);
  }

  lemma {:induction false} ScopeInv(s: System, mine: Scope)
    requires Inv(s)
    ensures Inv(s.(gate := s.gate.Invalidate(mine)))
  {
    var s' := s.(gate := s.gate.Invalidate(mine));
    forall scope ensures ScopeOk(s', scope) {
      assert ScopeOk(s, scope);
    }
    Invalidated(s, s', iset{mine});
  }

  lemma {:induction false} ReleaseInv(s: System, t: TaskId)
    requires Inv(s) && t in Done(s.tasks)
    ensures Inv(s.(gate := s.gate.Release(s.tasks[t].scope, t)))
  {
    var s' := s.(gate := s.gate.Release(s.tasks[t].scope, t));
    forall scope ensures ScopeOk(s', scope) {
      assert ScopeOk(s, scope);
    }
    Unaffected(s, s', {});
  }

  // The helper and others

  lemma {:induction false} ForeignInv(s: System, mine: Scope, view: Query -> seq<string>)
    requires Inv(s)
    ensures Inv(s.(boxes := Change(s.boxes, mine, Box(view, s.boxes(mine).foreign + 1))))
  {
    var s' := s.(boxes := Change(s.boxes, mine, Box(view, s.boxes(mine).foreign + 1)));
    forall c ensures CallerOk(s', c) {
      assert CallerOk(s, c);
    }
    forall t ensures TaskOk(s', t) {
      assert TaskOk(s, t);
    }
    forall it | it in s'.gate.cache ensures ItemOk(s', it) {
      assert ItemOk(s, it);
    }
    forall scope ensures ScopeOk(s', scope) {
      assert ScopeOk(s, scope);
    }
  }

  /** Serving a delete changes its mailbox only while nothing current is known of it. */
  lemma {:induction false} ServedCaller(s: System, view: Query -> seq<string>, c: CallerId)
    requires s.served < |s.log| && CallerOk(s, c)
    requires forall scope :: Writers(ServeNext(s, view).tasks, scope) == Writers(s.tasks, scope)
    ensures CallerOk(ServeNext(s, view), c)
  {
    var s' := ServeNext(s, view);
    var r := s.log[s.served];
    if c in s.callers && s.callers[c].Fetching? {
      var caller := s.callers[c];
      if caller.progress == Asked(s.served) {
        assert r == ListRequest(c, caller.key);
      }
    }
  }

  lemma {:induction false} ServeInv(s: System, view: Query -> seq<string>)
    requires Inv(s) && s.served < |s.log|
    ensures Inv(ServeNext(s, view))
  {
    var s' := ServeNext(s, view);
    var r := s.log[s.served];
    forall scope ensures ScopeOk(s', scope) && Writers(s'.tasks, scope) == Writers(s.tasks, scope) {
      assert ScopeOk(s, scope);
      if r.DeleteRequest? && r.task in s.tasks && s.tasks[r.task].phase == Sent(s.served) {
        WritersKept(s.tasks, r.task, Answered, scope);
      }
    }
    forall c ensures CallerOk(s', c) {
      assert CallerOk(s, c);
      ServedCaller(s, view, c);
    }
    forall t ensures TaskOk(s', t) {
      assert TaskOk(s, t);
    }
    forall it | it in s'.gate.cache ensures ItemOk(s', it) {
      assert ItemOk(s, it);
      ServedItem(s, view, it);
    }
  }

  lemma {:induction false} ServedItem(s: System, view: Query -> seq<string>, it: Item)
    requires s.served < |s.log| && ItemOk(s, it)
    requires Writers(ServeNext(s, view).tasks, it.key.scope) == Writers(s.tasks, it.key.scope)
    ensures ItemOk(ServeNext(s, view), it)
  {
  }

  lemma {:induction false} StepInv(s: System, e: Event)
    requires Inv(s) && Enabled(s, e)
    ensures Inv(Step(s, e))
  {
    match e
    case Turn(c, now) => TurnInv(s, c, now);
    case Ask(c) => AskInv(s, c);
    case Resume(c, now, expiresAt) => ResumeInv(s, c, now, expiresAt);
    case Mutate(t, scope) => MutateInv(s, t, scope);
    case Send(t) => SendInv(s, t);
    case Serve(view) => ServeInv(s, view);
    case Settle(t) => FinishInv(s, t, false);
    case Break(t) => FinishInv(s, t, true);
    case Release(t) => ReleaseInv(s, t);
    case Foreign(scope, view) => ForeignInv(s, scope, view);
    case InvalidateAccount(a) => AccountInv(s, a);
    case InvalidateScope(scope) => ScopeInv(s, scope);
    case _ => CallerInv(s, e);
  }

  // ---------------------------------------------------------------------------------------
  // Every run
  // ---------------------------------------------------------------------------------------

  ghost predicate Behaviour(states: seq<System>, events: seq<Event>) {
    && |states| == |events| + 1
    && Init(states[0])
    && forall i :: 0 <= i < |events| ==> Enabled(states[i], events[i]) && states[i + 1] == Step(states[i], events[i])
  }

  lemma {:induction false} BehaviourInv(states: seq<System>, events: seq<Event>, i: nat)
    requires Behaviour(states, events) && i < |states|
    ensures Inv(states[i])
  {
    if i == 0 {
      InitInv(states[0]);
    } else {
      BehaviourInv(states, events, i - 1);
      StepInv(states[i - 1], events[i - 1]);
    }
  }

  /** Coherence: whatever the interleaving, at the moment a reader returns, its page is what
      the mailbox shows for the reader's own query, unless somebody other than a tracked delete
      has changed the mailbox since the page was read. */
  lemma {:induction false} ReturnedPageIsCurrent(states: seq<System>, events: seq<Event>, i: nat, c: CallerId)
    requires Behaviour(states, events) && i < |events|
    requires c in states[i + 1].callers && states[i + 1].callers[c].Returned?
    requires c !in states[i].callers || !states[i].callers[c].Returned?
    ensures c in states[i].callers && states[i].callers[c].key == states[i + 1].callers[c].key
    ensures Truthful(states[i + 1], states[i + 1].callers[c].key, states[i + 1].callers[c].page)
  {
    var s, e := states[i], events[i];
    BehaviourInv(states, events, i);
    assert Enabled(s, e) && states[i + 1] == Step(s, e);
    assert e.Turn? || e.Resume?;
    assert CallerOk(s, c);
    if e.Turn? {
      var k := Find(s.gate.cache, s.callers[c].key);
      assert k < |s.gate.cache| ==> ItemOk(s, s.gate.cache[k]);
    }
  }

  /** A quarantined mailbox has no cached page, the cache never holds more than 128 pages, the
      writer counts are exact, and no reader ever loses track of the writers it waits for. */
  lemma {:induction false} AccountingIsExact(states: seq<System>, events: seq<Event>, i: nat)
    requires Behaviour(states, events) && i < |states|
    ensures forall it <- states[i].gate.cache :: it.key.scope !in states[i].gate.quarantined
    ensures |states[i].gate.cache| <= CAPACITY
    ensures forall scope :: states[i].gate.Inflight(scope) == |Writers(states[i].tasks, scope)|
    ensures forall c :: c in states[i].callers ==> !states[i].callers[c].Lost?
  {
    BehaviourInv(states, events, i);
    forall scope ensures states[i].gate.Inflight(scope) == |Writers(states[i].tasks, scope)| {
      assert ScopeOk(states[i], scope);
    }
    forall c | c in states[i].callers ensures !states[i].callers[c].Lost? {
      assert CallerOk(states[i], c);
    }
    forall it | it in states[i].gate.cache ensures it.key.scope !in states[i].gate.quarantined {
      assert ItemOk(states[i], it);
    }
  }

  /** Generations never decrease. */
  lemma {:induction false} GenerationsGrow(s: System, e: Event, scope: Scope)
    requires Enabled(s, e)
    ensures AtMost(s.gate.GenerationOf(scope), Step(s, e).gate.GenerationOf(scope))
  {
  }

  lemma {:induction false} GenerationStep(states: seq<System>, events: seq<Event>, k: nat, scope: Scope)
    requires Behaviour(states, events) && k < |events|
    ensures AtMost(states[k].gate.GenerationOf(scope), states[k + 1].gate.GenerationOf(scope))
  {
    GenerationsGrow(states[k], events[k], scope);
  }

  ghost predicate Next(generations: seq<Generation>, k: int) {
    0 <= k < |generations| - 1 ==> AtMost(generations[k], generations[k + 1])
  }

  lemma {:induction false} Rising(generations: seq<Generation>, i: nat, j: nat)
    requires i <= j < |generations| && forall k :: Next(generations, k)
    ensures AtMost(generations[i], generations[j])
    decreases j - i
  {
    if i < j {
      Rising(generations, i, j - 1);
      assert Next(generations, j - 1);
    }
  }

  /** Over every history no account's or mailbox's generation ever decreases. */
  lemma {:induction false} GenerationsNeverFall(states: seq<System>, events: seq<Event>, i: nat, j: nat, scope: Scope)
    requires Behaviour(states, events) && i <= j < |states|
    ensures AtMost(states[i].gate.GenerationOf(scope), states[j].gate.GenerationOf(scope))
  {
    var generations := seq(|states|, k requires 0 <= k < |states| => states[k].gate.GenerationOf(scope));
    forall k ensures Next(generations, k) {
      if 0 <= k < |events| {
        GenerationStep(states, events, k, scope);
      }
    }
    Rising(generations, i, j);
  }
}
