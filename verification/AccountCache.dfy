/** The account-list cache of the web gateway and the interleavings it lives in. */
module AccountCache {
  import opened Options

  // `Gate` holds the cache fields of `HelperGateway` and says what each stretch of code between
  // two suspension points does to them; class `HelperGateway` does the same by assigning its
  // fields.  `System` puts one gate beside the event loop's tasks and callers and beside the
  // helper, which serves requests strictly in the order they reached it.

  type TaskId = nat
  type CallerId = nat
  type AuthKey = string
  type Accounts = seq<string>

  /** The authoritative table: the list it shows under each authorization key. */
  type Table = AuthKey -> Accounts

  datatype CacheEntry = CacheEntry(expiresAt: int, accounts: Accounts, authKey: AuthKey)

  datatype Flight = Flight(generation: nat, authKey: AuthKey, task: TaskId)

  datatype Outcome = Value(accounts: Accounts) | Failed

  /** What the account reader does next when it is given control. */
  datatype Decision =
    | AwaitWriters(writers: set<TaskId>)
    | TrackingLost
    | Await(flight: Flight)
    | Return(accounts: Accounts)
    | Raise
    | Again

  datatype Gate = Gate(generation: nat, inflight: int, quarantined: bool,
                       cache: Option<CacheEntry>, flight: Option<Flight>, tracked: set<TaskId>)
  {
    function Invalidate(): Gate {
      this.(generation := generation + 1, cache := None, flight := None)
    }

    function BeginMutation(task: TaskId): Gate {
      var g := Invalidate();
      g.(inflight := inflight + 1, tracked := tracked + {task})
    }

    function SettleMutation(ambiguous: bool): Gate {
      this.(quarantined := quarantined || ambiguous, inflight := inflight - 1).Invalidate()
    }

    function SettleRead(task: TaskId, readGeneration: nat, authKey: AuthKey, outcome: Outcome, expiresAt: int): Gate {
      var stored :=
        if outcome.Value? && readGeneration == generation && inflight == 0 then
          this.(quarantined := false, cache := Some(CacheEntry(expiresAt, outcome.accounts, authKey)))
        else
          this;
      if flight.Some? && flight.value.task == task then stored.(flight := None) else stored
    }

    /** The cached list, when the reader may use it at time `now`. */
    function Hit(authKey: AuthKey, now: int): Option<Accounts> {
      if inflight == 0 && !quarantined && cache.Some?
         && cache.value.authKey == authKey && cache.value.expiresAt > now
      then Some(cache.value.accounts) else None
    }

    /** One pass over the top of the reader's loop; `done` are the finished tasks,
        `spare` names the task started if no flight can be joined. */
    function Turn(authKey: AuthKey, now: int, done: set<TaskId>, spare: TaskId): (Gate, Decision) {
      if inflight != 0 then
        var left := tracked - done;
        (this.(tracked := left), if left == {} then TrackingLost else AwaitWriters(left))
      else
        var hit := Hit(authKey, now);
        if hit.Some? then (this, Return(hit.value))
        else if flight.Some? && flight.value.generation == generation && flight.value.authKey == authKey then
          (this, Await(flight.value))
        else
          var f := Flight(generation, authKey, spare);
          (this.(flight := Some(f)), Await(f))
    }

    /** What a reader decides once the flight it awaited has settled. */
    function Resume(f: Flight, outcome: Outcome): Decision {
      if outcome.Failed? then Raise
      else if f.generation != generation || inflight != 0 then Again
      else Return(outcome.accounts)
    }
  }

  const EmptyGate := Gate(0, 0, false, None, None, {})

  /** The gate with fields updated in place, as the event loop runs it. */
  class HelperGateway {
    var generation: nat
    var inflight: int
    var quarantined: bool
    var cache: Option<CacheEntry>
    var flight: Option<Flight>
    var tracked: set<TaskId>

    function View(): Gate
      reads this
    {
      Gate(generation, inflight, quarantined, cache, flight, tracked)
    }

    constructor ()
      ensures View() == EmptyGate
    {
      generation, inflight, quarantined := 0, 0, false;
      cache, flight, tracked := None, None, {};
    }

    method InvalidateAccounts()
      modifies this
      ensures View() == old(View()).Invalidate()
    {
      generation := generation + 1;
      cache := None;
      flight := None;
    }

    method BeginMutation(task: TaskId)
      modifies this
      ensures View() == old(View()).BeginMutation(task)
    {
      InvalidateAccounts();
      inflight := inflight + 1;
      tracked := tracked + {task};
    }

    method SettleMutation(ambiguous: bool)
      modifies this
      ensures View() == old(View()).SettleMutation(ambiguous)
    {
      if ambiguous {
        quarantined := true;
      }
      inflight := inflight - 1;
      InvalidateAccounts();
    }

    method SettleRead(task: TaskId, readGeneration: nat, authKey: AuthKey, outcome: Outcome, expiresAt: int)
      modifies this
      ensures View() == old(View()).SettleRead(task, readGeneration, authKey, outcome, expiresAt)
    {
      if outcome.Value? {
        if readGeneration == generation && inflight == 0 {
          quarantined := false;
          cache := Some(CacheEntry(expiresAt, outcome.accounts, authKey));
        }
      }
      if flight.Some? && flight.value.task == task {
        flight := None;
      }
    }

    method ListAccountsTurn(authKey: AuthKey, now: int, done: set<TaskId>, spare: TaskId) returns (d: Decision)
      modifies this
      ensures (View(), d) == old(View()).Turn(authKey, now, done, spare)
    {
      if inflight != 0 {
        var unseen := tracked;
        while unseen != {}
          invariant unseen <= old(tracked)
          invariant tracked == old(tracked) - (done * (old(tracked) - unseen))
          invariant View() == old(View()).(tracked := tracked)
          decreases unseen
        {
          var task :| task in unseen;
          if task in done {
            tracked := tracked - {task};
          }
          unseen := unseen - {task};
        }
        assert tracked == old(tracked) - done;
        return if tracked == {} then TrackingLost else AwaitWriters(tracked);
      }
      if cache.Some? && !quarantined && cache.value.authKey == authKey && cache.value.expiresAt > now {
        return Return(cache.value.accounts);
      }
      var joined := flight;
      if joined.None? || joined.value.generation != generation || joined.value.authKey != authKey {
        joined := Some(Flight(generation, authKey, spare));
        flight := joined;
      }
      d := Await(joined.value);
    }

    method ListAccountsResume(f: Flight, outcome: Outcome) returns (d: Decision)
      ensures d == View().Resume(f, outcome)
    {
      if outcome.Failed? {
        return Raise;
      }
      if f.generation != generation || inflight != 0 {
        return Again;
      }
      d := Return(outcome.accounts);
    }
  }

  // ---------------------------------------------------------------------------------------
  // The system around the gate
  // ---------------------------------------------------------------------------------------

  /** A helper call: its task exists, its request has a place in the helper's order, the
      helper has answered, the task has finished. */
  datatype Phase = Started | Sent(ticket: nat) | Answered(answer: Outcome) | Settled(result: Outcome)

  datatype Task = ReadTask(generation: nat, authKey: AuthKey, phase: Phase) | WriteTask(phase: Phase)

  datatype Request = ListRequest(task: TaskId, authKey: AuthKey) | WriteRequest(task: TaskId)

  datatype Caller =
    | Ready(key: AuthKey)
    | Waiting(key: AuthKey, writers: set<TaskId>)
    | Reading(key: AuthKey, flight: Flight)
    | Returned(key: AuthKey, accounts: Accounts)
    | Raised(key: AuthKey)
    | Lost(key: AuthKey)

  /** `log` is every request that ever reached the helper; `served` of them are answered. */
  datatype System = System(gate: Gate, tasks: map<TaskId, Task>, callers: map<CallerId, Caller>,
                           log: seq<Request>, served: nat, table: Table)

  datatype Event =
    | Call(caller: CallerId, key: AuthKey)
    | Turn(caller: CallerId, now: int, spare: TaskId)
    | Wake(caller: CallerId)
    | Resume(caller: CallerId)
    | Cancel(caller: CallerId)
    | Mutate(task: TaskId)
    | Send(task: TaskId)
    | Serve(table: Table, refused: bool)
    | Settle(task: TaskId, expiresAt: int)
    | Break(task: TaskId)
    | Release(task: TaskId)

  function Done(tasks: map<TaskId, Task>): set<TaskId> {
    set t | t in tasks && tasks[t].phase.Settled?
  }

  /** The writer tasks that have not finished. */
  function Writers(tasks: map<TaskId, Task>): set<TaskId> {
    set t | t in tasks && tasks[t].WriteTask? && !tasks[t].phase.Settled?
  }

  ghost predicate Init(s: System) {
    s.gate == EmptyGate && s.tasks == map[] && s.callers == map[] && s.log == [] && s.served == 0
  }

  ghost predicate Enabled(s: System, e: Event) {
    match e
    case Call(c, _) => c !in s.callers
    case Turn(c, _, spare) => c in s.callers && s.callers[c].Ready? && spare !in s.tasks
    case Wake(c) => c in s.callers && s.callers[c].Waiting? && s.callers[c].writers <= Done(s.tasks)
    case Resume(c) => c in s.callers && s.callers[c].Reading? && s.callers[c].flight.task in Done(s.tasks)
    case Cancel(c) => c in s.callers
    case Mutate(t) => t !in s.tasks
    case Send(t) => t in s.tasks && s.tasks[t].phase.Started?
    case Serve(_, _) => s.served < |s.log|
    case Settle(t, _) => t in s.tasks && s.tasks[t].phase.Answered?
    case Break(t) => t in s.tasks && !s.tasks[t].phase.Settled?
    case Release(t) => t in Done(s.tasks)
  }

  /** The caller's place after the gate decided for it. */
  function Place(key: AuthKey, d: Decision): Caller {
    match d
    case AwaitWriters(writers) => Waiting(key, writers)
    case TrackingLost => Lost(key)
    case Await(flight) => Reading(key, flight)
    case Return(accounts) => Returned(key, accounts)
    case Raise => Raised(key)
    case Again => Ready(key)
  }

  function RequestOf(t: TaskId, task: Task): Request {
    if task.ReadTask? then ListRequest(t, task.authKey) else WriteRequest(t)
  }

  /** The helper's reply to a request, given the table it works on. */
  function Reply(r: Request, table: Table, refused: bool): Outcome {
    if refused then Failed else if r.ListRequest? then Value(table(r.authKey)) else Value([])
  }

  function Finish(s: System, t: TaskId, outcome: Outcome, ambiguous: bool, expiresAt: int): System
    requires t in s.tasks
  {
    var task := s.tasks[t];
    s.(tasks := s.tasks[t := task.(phase := Settled(outcome))],
       gate := if task.ReadTask? then s.gate.SettleRead(t, task.generation, task.authKey, outcome, expiresAt)
               else s.gate.SettleMutation(ambiguous))
  }

  function RunTurn(s: System, c: CallerId, now: int, spare: TaskId): System
    requires c in s.callers
  {
    var key := s.callers[c].key;
    var (gate, d) := s.gate.Turn(key, now, Done(s.tasks), spare);
    s.(gate := gate,
       callers := s.callers[c := Place(key, d)],
       tasks := if d.Await? && d.flight.task == spare then s.tasks[spare := ReadTask(s.gate.generation, key, Started)]
                else s.tasks)
  }

  function BeginWrite(s: System, t: TaskId): System {
    s.(gate := s.gate.BeginMutation(t), tasks := s.tasks[t := WriteTask(Started)])
  }

  function Transmit(s: System, t: TaskId): System
    requires t in s.tasks
  {
    s.(tasks := s.tasks[t := s.tasks[t].(phase := Sent(|s.log|))], log := s.log + [RequestOf(t, s.tasks[t])])
  }

  /** The helper takes the next request; a write leaves the table as `table`. */
  function ServeNext(s: System, table: Table, refused: bool): System
    requires s.served < |s.log|
  {
    var r := s.log[s.served];
    s.(served := s.served + 1,
       table := if r.WriteRequest? then table else s.table,
       tasks := if r.task in s.tasks && s.tasks[r.task].phase == Sent(s.served)
                then s.tasks[r.task := s.tasks[r.task].(phase := Answered(Reply(r, s.table, refused)))]
                else s.tasks)
  }

  ghost function Step(s: System, e: Event): System
    requires Enabled(s, e)
  {
    match e
    case Call(c, key) => s.(callers := s.callers[c := Ready(key)])
    case Turn(c, now, spare) => RunTurn(s, c, now, spare)
    case Wake(c) => s.(callers := s.callers[c := Ready(s.callers[c].key)])
    case Resume(c) =>
      var f := s.callers[c].flight;
      s.(callers := s.callers[c := Place(s.callers[c].key, s.gate.Resume(f, s.tasks[f.task].phase.result))])
    case Cancel(c) => s.(callers := s.callers - {c})
    case Mutate(t) => BeginWrite(s, t)
    case Send(t) => Transmit(s, t)
    case Serve(table, refused) => ServeNext(s, table, refused)
    case Settle(t, expiresAt) => Finish(s, t, s.tasks[t].phase.answer, false, expiresAt)
    case Break(t) => Finish(s, t, Failed, true, 0)
    case Release(t) => s.(gate := s.gate.(tracked := s.gate.tracked - {t}))
  }

  // ---------------------------------------------------------------------------------------
  // Invariant
  // ---------------------------------------------------------------------------------------

  /** Nothing that could still change the table is running or waiting at the helper. */
  ghost predicate Quiet(s: System) {
    Writers(s.tasks) == {} && forall j :: s.served <= j < |s.log| ==> !s.log[j].WriteRequest?
  }

  /** Where a read of the current generation stands with respect to writes. */
  ghost predicate Fresh(s: System, task: Task)
    requires task.ReadTask?
  {
    match task.phase
    case Started => Writers(s.tasks) == {}
    case Sent(i) => Writers(s.tasks) == {} && forall j :: i < j < |s.log| ==> !s.log[j].WriteRequest?
    case Answered(o) => Quiet(s) && (o.Value? ==> o.accounts == s.table(task.authKey))
    case Settled(o) => o.Value? ==> Quiet(s) && o.accounts == s.table(task.authKey)
  }

  ghost predicate TaskOk(s: System, t: TaskId)
    requires t in s.tasks
  {
    var task := s.tasks[t];
    && (task.phase.Sent? ==> s.served <= task.phase.ticket < |s.log| && s.log[task.phase.ticket] == RequestOf(t, task))
    && (task.ReadTask? ==> task.generation <= s.gate.generation)
    && (task.ReadTask? && task.generation == s.gate.generation ==> Fresh(s, task))
  }

  ghost predicate Joined(s: System, f: Flight) {
    f.task in s.tasks && s.tasks[f.task].ReadTask?
    && s.tasks[f.task].generation == f.generation && s.tasks[f.task].authKey == f.authKey
  }

  ghost predicate CallerOk(s: System, c: Caller) {
    && !c.Lost?
    && (c.Waiting? ==> c.writers <= s.tasks.Keys)
    && (c.Reading? ==> c.flight.authKey == c.key && Joined(s, c.flight))
  }

  ghost predicate GateOk(s: System) {
    && s.gate.inflight == |Writers(s.tasks)|
    && Writers(s.tasks) <= s.gate.tracked <= s.tasks.Keys
    && (s.gate.cache.Some? ==>
          !s.gate.quarantined && Quiet(s) && s.gate.cache.value.accounts == s.table(s.gate.cache.value.authKey))
    && (s.gate.flight.Some? ==>
          s.gate.flight.value.generation == s.gate.generation && Joined(s, s.gate.flight.value)
          && s.gate.flight.value.task !in Done(s.tasks))
  }

  ghost predicate Inv(s: System) {
    && s.served <= |s.log|
    && GateOk(s)
    && (forall t :: t in s.tasks ==> TaskOk(s, t))
    && (forall c :: c in s.callers ==> CallerOk(s, s.callers[c]))
  }

  lemma {:induction false} WritersUpdated(tasks: map<TaskId, Task>, t: TaskId, task: Task)
    ensures Writers(tasks[t := task]) ==
            if task.WriteTask? && !task.phase.Settled? then Writers(tasks) + {t} else Writers(tasks) - {t}
  {
  }

  lemma {:induction false} InitInv(s: System)
    requires Init(s)
    ensures Inv(s)
  {
  }

  /** Tasks keep their kind, generation and key for as long as they exist. */
  ghost predicate Extends(tasks: map<TaskId, Task>, tasks': map<TaskId, Task>) {
    forall t :: t in tasks ==> t in tasks' && tasks'[t] == tasks[t].(phase := tasks'[t].phase)
  }

  lemma {:induction false} CallersKept(s: System, s': System)
    requires Extends(s.tasks, s'.tasks) && s'.callers == s.callers
    requires forall c :: c in s.callers ==> CallerOk(s, s.callers[c])
    ensures forall c :: c in s'.callers ==> CallerOk(s', s'.callers[c])
  {
    forall c | c in s'.callers ensures CallerOk(s', s'.callers[c]) {
      assert CallerOk(s, s.callers[c]);
    }
  }

  lemma {:induction false} TurnInv(s: System, c: CallerId, now: int, spare: TaskId)
    requires Inv(s) && c in s.callers && s.callers[c].Ready? && spare !in s.tasks
    ensures Inv(RunTurn(s, c, now, spare))
  {
    var s' := RunTurn(s, c, now, spare);
    WritersUpdated(s.tasks, spare, ReadTask(s.gate.generation, s.callers[c].key, Started));
    assert Writers(s'.tasks) == Writers(s.tasks);
    assert s.gate.inflight == 0 ==> Writers(s.tasks) == {};
    assert GateOk(s');
    forall t | t in s'.tasks ensures TaskOk(s', t) {
      if t in s.tasks {
        assert TaskOk(s, t);
      }
    }
    forall d | d in s'.callers ensures CallerOk(s', s'.callers[d]) {
      if d != c {
        assert CallerOk(s, s.callers[d]);
      }
    }
  }

  lemma {:induction false} CallerInv(s: System, e: Event)
    requires Inv(s) && Enabled(s, e)
    requires e.Call? || e.Wake? || e.Resume? || e.Cancel? || e.Release?
    ensures Inv(Step(s, e))
  {
    var s' := Step(s, e);
    assert s'.tasks == s.tasks && s'.log == s.log && s'.served == s.served && s'.table == s.table;
  }

  lemma {:induction false} MutateInv(s: System, t: TaskId)
    requires Inv(s) && t !in s.tasks
    ensures Inv(BeginWrite(s, t))
  {
    var s' := BeginWrite(s, t);
    WritersUpdated(s.tasks, t, WriteTask(Started));
    forall u | u in s'.tasks ensures TaskOk(s', u) {
      if u in s.tasks {
        assert TaskOk(s, u);
      }
    }
    CallersKept(s, s');
  }

  lemma {:induction false} SentTask(s: System, t: TaskId, u: TaskId)
    requires s.served <= |s.log| && t in s.tasks && s.tasks[t].phase.Started? && u in s.tasks
    requires TaskOk(s, t) && TaskOk(s, u)
    requires Writers(Transmit(s, t).tasks) == Writers(s.tasks)
    ensures TaskOk(Transmit(s, t), u)
  {
    if s.tasks[t].WriteTask? {
      assert t in Writers(s.tasks);
    }
  }

  lemma {:induction false} SendInv(s: System, t: TaskId)
    requires Inv(s) && t in s.tasks && s.tasks[t].phase.Started?
    ensures Inv(Transmit(s, t))
  {
    var s' := Transmit(s, t);
    WritersUpdated(s.tasks, t, s.tasks[t].(phase := Sent(|s.log|)));
    assert Writers(s'.tasks) == Writers(s.tasks);
    forall u | u in s'.tasks ensures TaskOk(s', u) {
      SentTask(s, t, u);
    }
    CallersKept(s, s');
  }

  /** Serving a request keeps every task in order: a write can only be served while no
      read of the current generation has been answered. */
  lemma {:induction false} ServedTask(s: System, table: Table, refused: bool, u: TaskId)
    requires Inv(s) && s.served < |s.log| && u in s.tasks
    requires Writers(ServeNext(s, table, refused).tasks) == Writers(s.tasks)
    ensures TaskOk(ServeNext(s, table, refused), u)
  {
    var s' := ServeNext(s, table, refused);
    var r := s.log[s.served];
    var task := s.tasks[u];
    assert TaskOk(s, u);
    if task.ReadTask? && task.generation == s.gate.generation {
      if task.phase.Sent? && task.phase.ticket == s.served {
        assert r == RequestOf(u, task);
        assert Quiet(s');
      } else {
        assert s'.tasks[u] == task;
        assert Fresh(s', task);
      }
    }
  }

  lemma {:induction false} ServedGate(s: System, table: Table, refused: bool)
    requires s.served < |s.log| && GateOk(s)
    ensures Writers(ServeNext(s, table, refused).tasks) == Writers(s.tasks)
    ensures GateOk(ServeNext(s, table, refused))
  {
    var r := s.log[s.served];
    if r.task in s.tasks {
      WritersUpdated(s.tasks, r.task, s.tasks[r.task].(phase := Answered(Reply(r, s.table, refused))));
    }
    assert Writers(ServeNext(s, table, refused).tasks) == Writers(s.tasks);
  }

  lemma {:induction false} ServeInv(s: System, table: Table, refused: bool)
    requires Inv(s) && s.served < |s.log|
    ensures Inv(ServeNext(s, table, refused))
  {
    var s' := ServeNext(s, table, refused);
    ServedGate(s, table, refused);
    forall u | u in s'.tasks ensures TaskOk(s', u) {
      ServedTask(s, table, refused, u);
    }
    CallersKept(s, s');
  }

  lemma {:induction false} FinishedTask(s: System, t: TaskId, outcome: Outcome, ambiguous: bool, expiresAt: int,
      u: TaskId)
    requires t in s.tasks && !s.tasks[t].phase.Settled? && u in s.tasks
    requires TaskOk(s, t) && TaskOk(s, u)
    requires outcome == Failed || s.tasks[t].phase == Answered(outcome)
    ensures TaskOk(Finish(s, t, outcome, ambiguous, expiresAt), u)
  {
    WritersUpdated(s.tasks, t, s.tasks[t].(phase := Settled(outcome)));
  }

  lemma {:induction false} FinishedGate(s: System, t: TaskId, outcome: Outcome, ambiguous: bool, expiresAt: int)
    requires t in s.tasks && !s.tasks[t].phase.Settled?
    requires TaskOk(s, t) && GateOk(s)
    requires outcome == Failed || s.tasks[t].phase == Answered(outcome)
    ensures GateOk(Finish(s, t, outcome, ambiguous, expiresAt))
  {
    WritersUpdated(s.tasks, t, s.tasks[t].(phase := Settled(outcome)));
  }

  lemma {:induction false} FinishInv(s: System, t: TaskId, outcome: Outcome, ambiguous: bool, expiresAt: int)
    requires Inv(s) && t in s.tasks && !s.tasks[t].phase.Settled?
    requires outcome == Failed || s.tasks[t].phase == Answered(outcome)
    ensures Inv(Finish(s, t, outcome, ambiguous, expiresAt))
  {
    var s' := Finish(s, t, outcome, ambiguous, expiresAt);
    FinishedGate(s, t, outcome, ambiguous, expiresAt);
    forall u | u in s'.tasks ensures TaskOk(s', u) {
      FinishedTask(s, t, outcome, ambiguous, expiresAt, u);
    }
    CallersKept(s, s');
  }

  lemma {:induction false} StepInv(s: System, e: Event)
    requires Inv(s) && Enabled(s, e)
    ensures Inv(Step(s, e))
  {
    match e
    case Turn(c, now, spare) => TurnInv(s, c, now, spare);
    case Mutate(t) => MutateInv(s, t);
    case Send(t) => SendInv(s, t);
    case Serve(table, refused) => ServeInv(s, table, refused);
    case Settle(t, expiresAt) => FinishInv(s, t, s.tasks[t].phase.answer, false, expiresAt);
    case Break(t) => FinishInv(s, t, Failed, true, 0);
    case _ => CallerInv(s, e);
  }

  // ---------------------------------------------------------------------------------------
  // Every run
  // ---------------------------------------------------------------------------------------

  ghost predicate Behaviour(states: seq<System>, events: seq<Event>) {
    && |states| == |events| + 1
    && Init(states[0])
    && forall i :: 0 <= i < |events| ==> Enabled(states[i], events[i]) && states[i + 1] == Step(states[i], events[i])
  }

  lemma {:induction false} BehaviourInv(states: seq<System>, events: seq<Event>, i: nat)
    requires Behaviour(states, events) && i < |states|
    ensures Inv(states[i])
  {
    if i == 0 {
      InitInv(states[0]);
    } else {
      BehaviourInv(states, events, i - 1);
      StepInv(states[i - 1], events[i - 1]);
    }
  }

  /** Coherence: whatever the interleaving, at the moment a reader returns, its list is the
      list the helper's table shows under the key the reader came with. */
  lemma {:induction false} ReturnedListIsCurrent(states: seq<System>, events: seq<Event>, i: nat, c: CallerId)
    requires Behaviour(states, events) && i < |events|
    requires c in states[i + 1].callers && states[i + 1].callers[c].Returned?
    requires c !in states[i].callers || !states[i].callers[c].Returned?
    ensures c in states[i].callers && states[i].callers[c].key == states[i + 1].callers[c].key
    ensures states[i + 1].callers[c].accounts == states[i + 1].table(states[i + 1].callers[c].key)
  {
    var s, e := states[i], events[i];
    BehaviourInv(states, events, i);
    assert Enabled(s, e) && states[i + 1] == Step(s, e);
    assert e.Turn? || e.Resume?;
    assert CallerOk(s, s.callers[c]);
    if e.Resume? {
      var f := s.callers[c].flight;
      assert TaskOk(s, f.task);
    }
  }

  /** A quarantined cache is empty, the writer count is exact, a reader that waits always has
      a writer to wait for, and generations only grow. */
  lemma {:induction false} AccountingIsExact(states: seq<System>, events: seq<Event>, i: nat)
    requires Behaviour(states, events) && i < |states|
    ensures states[i].gate.quarantined ==> states[i].gate.cache == None
    ensures states[i].gate.inflight == |Writers(states[i].tasks)|
    ensures forall c :: c in states[i].callers ==> !states[i].callers[c].Lost?
    ensures i < |events| ==> states[i].gate.generation <= states[i + 1].gate.generation
  {
    BehaviourInv(states, events, i);
    forall c | c in states[i].callers ensures !states[i].callers[c].Lost? {
      assert CallerOk(states[i], states[i].callers[c]);
    }
    if i < |events| {
      assert Enabled(states[i], events[i]) && states[i + 1] == Step(states[i], events[i]);
    }
  }
}
