/**
 What a reader of the account list may count on besides the truth of what it gets: it waits,
 returns, shares a read or starts one exactly when it should, raises only if a read has failed,
 and reads again only if somebody has written.
 */
module AccountReader {
  import opened Options
  import opened AccountCache

  const LIFETIME := 2

  /** The cache holds this list under the key, and it has not expired. */
  ghost predicate Cached(s: System, key: AuthKey, now: int, accounts: Accounts) {
    && s.gate.cache.Some? && !s.gate.quarantined
    && s.gate.cache.value.authKey == key && s.gate.cache.value.accounts == accounts
    && s.gate.cache.value.expiresAt > now
  }

  /** In every history a turn waits for all writers exactly while there are any, otherwise
      returns exactly what is cached, and otherwise joins the read that is under way for its key,
      or starts one if there is none. */
  lemma {:induction false} TurnExactly(states: seq<System>, events: seq<Event>, i: nat)
    requires Behaviour(states, events) && i < |events| && events[i].Turn?
    ensures var (s, e, s') := (states[i], events[i], states[i + 1]);
      var (key, after, writers) := (s.callers[e.caller].key, s'.callers[e.caller], Writers(s.tasks));
      && (after.Waiting? <==> writers != {}) && (after.Waiting? ==> writers <= after.writers)
      && (forall l :: after == Returned(key, l) <==> writers == {} && Cached(s, key, e.now, l))
      && (writers == {} && !after.Returned? ==> after.Reading?)
      && (after.Reading? ==>
            if s.gate.flight.Some? && s.gate.flight.value.authKey == key then
              after.flight == s.gate.flight.value && s'.tasks == s.tasks
            else
              after.flight.task == e.spare && s'.tasks == s.tasks[e.spare := ReadTask(s.gate.generation, key, Started)])
  {
    var s := states[i];
    BehaviourInv(states, events, i);
    assert Writers(s.tasks) <= s.gate.tracked - Done(s.tasks);
    assert s.gate.inflight == 0 <==> Writers(s.tasks) == {};
  }

  /** And a reader that resumes raises exactly if its read has failed, returns what was read
      exactly if nobody has written since the read was started, and else starts anew. */
  lemma {:induction false} ResumeExactly(states: seq<System>, events: seq<Event>, i: nat)
    requires Behaviour(states, events) && i < |events| && events[i].Resume?
    ensures var (s, c) := (states[i], events[i].caller);
      var (key, f, after) := (s.callers[c].key, s.callers[c].flight, states[i + 1].callers[c]);
      var result := s.tasks[f.task].phase.result;
      && (after == Raised(key) <==> result == Failed)
      && (forall l :: after == Returned(key, l) <==>
            result == Value(l) && f.generation == s.gate.generation && Writers(s.tasks) == {})
      && (after == Raised(key) || after.Returned? || after == Ready(key))
  {
    var s := states[i];
    BehaviourInv(states, events, i);
    assert s.gate.inflight == 0 <==> Writers(s.tasks) == {};
  }

  // ---------------------------------------------------------------------------------------
  // Failures
  // ---------------------------------------------------------------------------------------

  /** At this event the call of the task fails: its connection breaks, or the helper refuses it. */
  ghost predicate FailsAt(states: seq<System>, events: seq<Event>, m: nat, t: TaskId) {
    && m < |events| && m < |states|
    && (events[m] == Break(t)
        || (events[m].Serve? && events[m].refused && states[m].served < |states[m].log|
            && states[m].log[states[m].served].task == t))
  }

  ghost predicate HasFailed(s: System, t: TaskId) {
    t in s.tasks && (s.tasks[t].phase == Answered(Failed) || s.tasks[t].phase == Settled(Failed))
  }

  lemma {:induction false} FailStep(s: System, e: Event, t: TaskId)
    requires Enabled(s, e) && HasFailed(Step(s, e), t) && !HasFailed(s, t)
    ensures e == Break(t) || (e.Serve? && e.refused && s.log[s.served].task == t)
  {
  }

  /** A call that has failed did so at some event. */
  lemma {:induction false} FailedSomewhere(states: seq<System>, events: seq<Event>, i: nat, t: TaskId)
    requires Behaviour(states, events) && i < |states| && HasFailed(states[i], t)
    ensures exists m: nat :: m < i && FailsAt(states, events, m, t)
  {
    if HasFailed(states[i - 1], t) {
      FailedSomewhere(states, events, i - 1, t);
    } else {
      FailStep(states[i - 1], events[i - 1], t);
      assert FailsAt(states, events, i - 1, t);
    }
  }

  /** So a reader raises only if the read it has joined was refused or its connection broke. */
  lemma {:induction false} RaisedOnlyIfFailed(states: seq<System>, events: seq<Event>, i: nat, c: CallerId, t: TaskId)
    requires Behaviour(states, events) && i < |events| && c in states[i].callers && states[i].callers[c].Reading?
    requires c in states[i + 1].callers && states[i + 1].callers[c].Raised? && t == states[i].callers[c].flight.task
    ensures exists m: nat :: m < i && FailsAt(states, events, m, t)
  {
    assert events[i].Resume? && events[i].caller == c;
    ResumeExactly(states, events, i);
    FailedSomewhere(states, events, i, t);
  }

  // ---------------------------------------------------------------------------------------
  // Reading again
  // ---------------------------------------------------------------------------------------

  /** The event begins or ends a write. */
  ghost predicate Writes(s: System, e: Event) {
    || e.Mutate?
    || ((e.Settle? || e.Break?) && e.task in s.tasks && s.tasks[e.task].WriteTask?)
  }

  /** Since event `j` no write has begun or ended. */
  ghost predicate Unwritten(states: seq<System>, events: seq<Event>, j: nat, i: nat)
    requires i <= |events| <= |states|
  {
    forall m :: j <= m < i ==> !Writes(states[m], events[m])
  }

  lemma {:induction false} SteadyStep(s: System, e: Event)
    requires Enabled(s, e) && !Writes(s, e)
    ensures Step(s, e).gate.generation == s.gate.generation && Step(s, e).gate.inflight == s.gate.inflight
  {
  }

  lemma {:induction false} SteadyAt(states: seq<System>, events: seq<Event>, k: nat)
    requires Behaviour(states, events) && k < |events| && !Writes(states[k], events[k])
    ensures states[k + 1].gate.generation == states[k].gate.generation
    ensures states[k + 1].gate.inflight == states[k].gate.inflight
  {
    SteadyStep(states[k], events[k]);
  }

  lemma {:induction false} Constant(values: seq<(nat, int)>)
    requires values != [] && forall k :: 0 <= k < |values| - 1 ==> values[k + 1] == values[k]
    ensures values[|values| - 1] == values[0]
  {
    if |values| > 1 {
      Constant(values[..|values| - 1]);
    }
  }

  lemma {:induction false} SteadyRun(states: seq<System>, events: seq<Event>, j: nat, i: nat)
    requires Behaviour(states, events) && j <= i <= |events|
    requires Unwritten(states, events, j, i)
    ensures states[i].gate.generation == states[j].gate.generation
    ensures states[i].gate.inflight == states[j].gate.inflight
  {
    var values := seq(i - j + 1, k requires 0 <= k < i - j + 1 =>
      (states[j + k].gate.generation, states[j + k].gate.inflight));
    forall k | 0 <= k < i - j ensures values[k + 1] == values[k] {
      SteadyAt(states, events, j + k);
    }
    Constant(values);
  }

  /** A reader that joined or started a read at event `j` and resumes at event `i` does not read
      again, unless a write began or ended in between. */
  lemma {:induction false} AgainOnlyIfWritten(states: seq<System>, events: seq<Event>, j: nat, i: nat, c: CallerId)
    requires Behaviour(states, events) && j < i < |events| && events[j].Turn? && events[j].caller == c
    requires events[i].Resume? && events[i].caller == c
    requires c in states[j + 1].callers && c in states[i].callers && states[i].callers[c] == states[j + 1].callers[c]
    requires Unwritten(states, events, j, i)
    ensures c in states[i + 1].callers && (states[i + 1].callers[c].Raised? || states[i + 1].callers[c].Returned?)
  {
    SteadyRun(states, events, j, i);
    BehaviourInv(states, events, j);
  }

  // ---------------------------------------------------------------------------------------
  // The age of what is cached
  // ---------------------------------------------------------------------------------------

  /** The time of every event, which never runs backwards. */
  ghost predicate Timed(events: seq<Event>, times: seq<int>) {
    && |times| == |events|
    && (forall i, j :: 0 <= i < j < |times| ==> times[i] <= times[j])
    && (forall i :: 0 <= i < |events| && events[i].Turn? ==> events[i].now == times[i])
    && (forall i :: 0 <= i < |events| && events[i].Settle? ==> events[i].expiresAt == times[i] + LIFETIME)
  }

  /** A read of this list settles at event `k`. */
  ghost predicate ReadAt(states: seq<System>, events: seq<Event>, k: nat, entry: CacheEntry) {
    && k < |events| && k < |states| && events[k].Settle? && events[k].task in states[k].tasks
    && var task := states[k].tasks[events[k].task];
    && task.ReadTask? && task.authKey == entry.authKey && task.phase == Answered(Value(entry.accounts))
  }

  lemma {:induction false} CachedNow(s: System, e: Event, entry: CacheEntry)
    requires Enabled(s, e) && Step(s, e).gate.cache == Some(entry) && s.gate.cache != Some(entry)
    ensures e.Settle? && entry.expiresAt == e.expiresAt
    ensures s.tasks[e.task].ReadTask? && s.tasks[e.task].authKey == entry.authKey
    ensures s.tasks[e.task].phase == Answered(Value(entry.accounts))
  {
  }

  lemma {:induction false} CachedWasRead(states: seq<System>, events: seq<Event>, times: seq<int>, i: nat,
      entry: CacheEntry)
    requires Behaviour(states, events) && Timed(events, times) && i < |states| && states[i].gate.cache == Some(entry)
    ensures exists k: nat :: k < i && ReadAt(states, events, k, entry) && entry.expiresAt == times[k] + LIFETIME
  {
    if states[i - 1].gate.cache == Some(entry) {
      CachedWasRead(states, events, times, i - 1, entry);
    } else {
      CachedNow(states[i - 1], events[i - 1], entry);
      assert ReadAt(states, events, i - 1, entry);
    }
  }

  /** A list that a turn returns was read less than two seconds before. */
  lemma {:induction false} CachedListIsRecent(states: seq<System>, events: seq<Event>, times: seq<int>, i: nat)
    requires Behaviour(states, events) && Timed(events, times) && i < |events| && events[i].Turn?
    requires states[i + 1].callers[events[i].caller].Returned?
    ensures exists k: nat, entry ::
      && k < i && ReadAt(states, events, k, entry) && times[i] < times[k] + LIFETIME
      && states[i + 1].callers[events[i].caller] == Returned(entry.authKey, entry.accounts)
  {
    TurnExactly(states, events, i);
    var entry := states[i].gate.cache.value;
    CachedWasRead(states, events, times, i, entry);
  }
}
