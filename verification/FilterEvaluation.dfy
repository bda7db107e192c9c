/**
 The delivery filter: it checks a published list of rules, sorts the enabled ones by position
 and takes the target of the first matching rule that stops processing, else that of the last
 match.  Whether a condition matches the message is a given predicate.
 */
module FilterEvaluation {
  import opened Options
  import opened MailRules

  datatype Outcome = Malformed | Filed(target: Option<string>)

  // ---------------------------------------------------------------------------------------
  // What delivery means
  // ---------------------------------------------------------------------------------------

  ghost predicate Hit(rules: seq<Rule>, matches: string -> bool, i: int) {
    0 <= i < |rules| && rules[i].enabled && matches(rules[i].condition)
  }

  ghost predicate Stop(rules: seq<Rule>, matches: string -> bool, i: int) {
    Hit(rules, matches, i) && rules[i].stop
  }

  /** `i` decides: the stopping match with the least position, or without one the match with
      the greatest. */
  ghost predicate Decides(rules: seq<Rule>, matches: string -> bool, i: int) {
    && Hit(rules, matches, i)
    && (forall j :: Stop(rules, matches, j) ==> rules[i].stop && rules[i].position <= rules[j].position)
    && (!rules[i].stop ==> forall j :: Hit(rules, matches, j) ==> rules[j].position <= rules[i].position)
  }

  /** The simple meaning of a set of rules, whatever order they are listed in. */
  ghost predicate Delivers(rules: seq<Rule>, matches: string -> bool, target: Option<string>) {
    || (target.None? && forall i :: !Hit(rules, matches, i))
    || (target.Some? && exists i :: Decides(rules, matches, i) && rules[i].target == target.value)
  }

  ghost predicate SamePlace(rules: seq<Rule>, i: int, j: int) {
    0 <= i < |rules| && 0 <= j < |rules| && rules[i].enabled && rules[j].enabled ==>
      (rules[i].position == rules[j].position ==> i == j)
  }

  /** Enabled rules have different positions. */
  ghost predicate OwnPlaces(rules: seq<Rule>) {
    forall i, j :: SamePlace(rules, i, j)
  }

  /** The meaning is unique. */
  lemma {:induction false} DeliversOne(rules: seq<Rule>, matches: string -> bool, a: Option<string>, b: Option<string>)
    requires OwnPlaces(rules) && Delivers(rules, matches, a) && Delivers(rules, matches, b)
    ensures a == b
  {
    if a.Some? && b.Some? {
      var i :| Decides(rules, matches, i) && rules[i].target == a.value;
      var j :| Decides(rules, matches, j) && rules[j].target == b.value;
      assert Stop(rules, matches, i) <==> rules[i].stop;
      assert Stop(rules, matches, j) <==> rules[j].stop;
      assert SamePlace(rules, i, j);
    }
  }

  /** And it does not depend on the order of the list, nor on disabled rules. */
  lemma {:induction false} DeliversAnyOrder(rules: seq<Rule>, listed: seq<Rule>, matches: string -> bool,
      target: Option<string>)
    requires (forall r: Rule :: r.enabled ==> (r in rules <==> r in listed)) && Delivers(rules, matches, target)
    ensures Delivers(listed, matches, target)
  {
    forall j | Hit(listed, matches, j) ensures exists i :: Hit(rules, matches, i) && rules[i] == listed[j] {
      assert listed[j] in rules;
      var i :| 0 <= i < |rules| && rules[i] == listed[j];
      assert Hit(rules, matches, i);
    }
    if target.Some? {
      var i :| Decides(rules, matches, i) && rules[i].target == target.value;
      assert rules[i] in listed;
      var k :| 0 <= k < |listed| && listed[k] == rules[i];
      assert Hit(listed, matches, k);
      forall j | Stop(listed, matches, j) ensures listed[k].stop && listed[k].position <= listed[j].position {
        var m :| Hit(rules, matches, m) && rules[m] == listed[j];
        assert Stop(rules, matches, m);
      }
      assert Decides(listed, matches, k);
    }
  }

  // ---------------------------------------------------------------------------------------
  // Reading the published list
  // ---------------------------------------------------------------------------------------

  predicate WellFormed(r: Rule, goodId: RuleId -> bool) {
    goodId(r.id) && 0 <= r.position < MAX_RULES && r.revision >= 1
  }

  /** The list is one that the filter accepts. */
  ghost predicate Acceptable(rules: seq<Rule>, goodId: RuleId -> bool) {
    && |rules| <= MAX_RULES
    && (forall i :: 0 <= i < |rules| ==> WellFormed(rules[i], goodId))
    && (forall i, j :: OwnIds(rules, i, j))
    && OwnPlaces(rules)
  }

  /** A stored list of rules is always one that the filter accepts. */
  lemma {:induction false} StoredIsAcceptable(rules: seq<Rule>, goodId: RuleId -> bool)
    requires Valid(rules) && forall i :: 0 <= i < |rules| ==> goodId(rules[i].id)
    ensures Acceptable(rules, goodId)
  {
    forall i, j ensures SamePlace(rules, i, j) {
    }
  }

  method Check(rules: seq<Rule>, goodId: RuleId -> bool) returns (ok: bool, prepared: seq<Rule>)
    ensures ok <==> |rules| <= MAX_RULES && (forall i :: 0 <= i < |rules| ==>
        WellFormed(rules[i], goodId)) && (forall i, j :: OwnIds(rules, i, j))
    ensures ok ==> prepared == Enabled(rules)
  {
    prepared := [];
    if |rules| > MAX_RULES {
      return false, prepared;
    }
    var seen: set<RuleId> := {};
    var n := 0;
    while n < |rules|
      invariant 0 <= n <= |rules|
      invariant forall i :: 0 <= i < n ==> WellFormed(rules[i], goodId) && rules[i].id in seen
      invariant forall id <- seen :: exists i :: 0 <= i < n && rules[i].id == id
      invariant forall i, j :: j < n ==> OwnIds(rules, i, j)
      invariant prepared == Enabled(rules[..n])
    {
      var r := rules[n];
      assert rules[..n + 1][..n] == rules[..n];
      if !WellFormed(r, goodId) {
        return false, prepared;
      }
      if r.id in seen {
        ghost var i :| 0 <= i < n && rules[i].id == r.id;
        assert !OwnIds(rules, i, n);
        return false, prepared;
      }
      seen := seen + {r.id};
      if r.enabled {
        prepared := prepared + [r];
      }
      n := n + 1;
    }
    assert rules[..n] == rules;
    ok := true;
  }

  function Enabled(rules: seq<Rule>): seq<Rule> {
    if rules == [] then []
    else
      var n := |rules| - 1;
      Enabled(rules[..n]) + if rules[n].enabled then [rules[n]] else []
  }

  lemma {:induction false} EnabledMembers(rules: seq<Rule>, r: Rule)
    ensures r in Enabled(rules) <==> r in rules && r.enabled
  {
    if rules != [] {
      var n := |rules| - 1;
      EnabledMembers(rules[..n], r);
      assert rules == rules[..n] + [rules[n]];
    }
  }

  ghost predicate Apart(rules: seq<Rule>, i: int, j: int) {
    0 <= i < j < |rules| ==> rules[i].position != rules[j].position
  }

  ghost predicate AllApart(rules: seq<Rule>) {
    forall i, j :: Apart(rules, i, j)
  }

  lemma {:induction false} ApartAppend(rules: seq<Rule>, r: Rule)
    ensures AllApart(rules + [r]) <==> AllApart(rules) && forall x <- rules :: x.position != r.position
  {
    var more := rules + [r];
    if AllApart(more) {
      forall i, j ensures Apart(rules, i, j) {
        assert Apart(more, i, j);
      }
      forall i | 0 <= i < |rules| ensures rules[i].position != r.position {
        assert Apart(more, i, |rules|);
      }
    }
    if AllApart(rules) && forall x <- rules :: x.position != r.position {
      forall i, j ensures Apart(more, i, j) {
        assert Apart(rules, i, j);
      }
    }
  }

  lemma {:induction false} OwnPlacesAppend(rules: seq<Rule>, r: Rule)
    ensures OwnPlaces(rules + [r]) <==> OwnPlaces(rules) && (r.enabled ==> forall x <- rules :: x.enabled ==>
        x.position != r.position)
  {
    var more := rules + [r];
    if OwnPlaces(more) {
      forall i, j ensures SamePlace(rules, i, j) {
        assert SamePlace(more, i, j);
      }
      forall i | 0 <= i < |rules| && r.enabled && rules[i].enabled ensures rules[i].position != r.position {
        assert SamePlace(more, i, |rules|);
      }
    }
    if OwnPlaces(rules) && (r.enabled ==> forall x <- rules :: x.enabled ==> x.position != r.position) {
      forall i, j ensures SamePlace(more, i, j) {
        assert SamePlace(rules, i, j);
      }
    }
  }

  lemma {:induction false} EnabledPlaces(rules: seq<Rule>)
    ensures OwnPlaces(rules) <==> AllApart(Enabled(rules))
  {
    if rules != [] {
      var n := |rules| - 1;
      var front, r := rules[..n], rules[n];
      EnabledPlaces(front);
      assert rules == front + [r];
      OwnPlacesAppend(front, r);
      ApartAppend(Enabled(front), r);
      forall x ensures x in Enabled(front) <==> x in front && x.enabled {
        EnabledMembers(front, x);
      }
      if !r.enabled {
        assert Enabled(rules) == Enabled(front);
      }
    }
  }

  // ---------------------------------------------------------------------------------------
  // Evaluation
  // ---------------------------------------------------------------------------------------

  method PlacesApart(rules: seq<Rule>) returns (ok: bool)
    ensures ok <==> AllApart(rules)
  {
    var positions: set<int> := {};
    var n := 0;
    while n < |rules|
      invariant 0 <= n <= |rules| && AllApart(rules[..n])
      invariant positions == set r | r in rules[..n] :: r.position
    {
      assert rules[..n + 1] == rules[..n] + [rules[n]];
      ApartAppend(rules[..n], rules[n]);
      if rules[n].position in positions {
        ghost var i :| 0 <= i < n && rules[..n][i].position == rules[n].position;
        assert !Apart(rules, i, n);
        return false;
      }
      positions := positions + {rules[n].position};
      n := n + 1;
    }
    assert rules[..n] == rules;
    ok := true;
  }

  ghost predicate Ascends(rules: seq<Rule>, i: int, j: int) {
    0 <= i < j < |rules| ==> rules[i].position < rules[j].position
  }

  ghost predicate Ascending(rules: seq<Rule>) {
    forall i, j :: Ascends(rules, i, j)
  }

  /** Put one rule where it belongs. */
  method Insert(sorted: seq<Rule>, r: Rule) returns (more: seq<Rule>)
    requires Ascending(sorted) && forall x <- sorted :: x.position != r.position
    ensures Ascending(more) && forall x :: x in more <==> x in sorted || x == r
  {
    var k := 0;
    while k < |sorted| && sorted[k].position < r.position
      invariant 0 <= k <= |sorted| && forall i :: 0 <= i < k ==> sorted[i].position < r.position
    {
      k := k + 1;
    }
    more := sorted[..k] + [r] + sorted[k..];
    assert k < |sorted| ==> sorted[k] in sorted;
    InsertedAscends(sorted, k, r);
    InsertedMembers(sorted, k, r);
  }

  lemma {:induction false} InsertedAscends(sorted: seq<Rule>, k: nat, r: Rule)
    requires Ascending(sorted) && k <= |sorted| && (forall i :: 0 <= i < k ==> sorted[i].position < r.position)
    requires k < |sorted| ==> r.position < sorted[k].position
    ensures Ascending(sorted[..k] + [r] + sorted[k..])
  {
    var more := sorted[..k] + [r] + sorted[k..];
    forall i, j ensures Ascends(more, i, j) {
      if 0 <= i < j < |more| {
        InsertedPair(sorted, k, r, i, j);
      }
    }
  }

  lemma {:induction false} InsertedPair(sorted: seq<Rule>, k: nat, r: Rule, i: nat, j: nat)
    requires Ascending(sorted) && k <= |sorted| && (forall i :: 0 <= i < k ==> sorted[i].position < r.position)
    requires k < |sorted| ==> r.position < sorted[k].position
    requires i < j <= |sorted|
    ensures Ascends(sorted[..k] + [r] + sorted[k..], i, j)
  {
    assert Ascends(sorted, if i <= k then i else i - 1, if j <= k then j else j - 1);
    assert Ascends(sorted, k, j - 1);
  }

  lemma {:induction false} InsertedMembers(sorted: seq<Rule>, k: nat, r: Rule)
    requires k <= |sorted|
    ensures forall x :: x in sorted[..k] + [r] + sorted[k..] <==> x in sorted || x == r
  {
    assert sorted == sorted[..k] + sorted[k..];
  }

  method SortByPosition(rules: seq<Rule>) returns (sorted: seq<Rule>)
    requires AllApart(rules)
    ensures Ascending(sorted) && forall r :: r in sorted <==> r in rules
  {
    sorted := [];
    for n := 0 to |rules|
      invariant Ascending(sorted) && forall r :: r in sorted <==> r in rules[..n]
    {
      assert rules[..n + 1] == rules[..n] + [rules[n]];
      forall i | 0 <= i < n ensures rules[..n][i].position != rules[n].position {
        assert Apart(rules, i, n);
      }
      sorted := Insert(sorted, rules[n]);
    }
    assert rules[..|rules|] == rules;
  }

  /** Go through the sorted rules until a match stops processing. */
  method Scan(sorted: seq<Rule>, matches: string -> bool) returns (target: Option<string>)
    requires Ascending(sorted) && forall r <- sorted :: r.enabled
    ensures Delivers(sorted, matches, target)
  {
    target := None;
    var n := 0;
    ghost var last := -1;
    while n < |sorted|
      invariant 0 <= n <= |sorted| && forall i :: 0 <= i < n ==> !Stop(sorted, matches, i)
      invariant target.None? ==> forall i :: 0 <= i < n ==> !Hit(sorted, matches, i)
      invariant target.Some? ==>
        0 <= last < n && Hit(sorted, matches, last) && target == Some(sorted[last].target)
            && forall i :: last < i < n ==> !Hit(sorted, matches, i)
    {
      if matches(sorted[n].condition) {
        target, last := Some(sorted[n].target), n;
        assert sorted[n] in sorted && Hit(sorted, matches, n);
        if sorted[n].stop {
          StopDecides(sorted, matches, n);
          return;
        }
      }
      n := n + 1;
    }
    if target.Some? {
      LastDecides(sorted, matches, last);
    }
  }

  lemma {:induction false} StopDecides(sorted: seq<Rule>, matches: string -> bool, n: nat)
    requires Ascending(sorted) && Stop(sorted, matches, n) && forall i :: 0 <= i < n ==> !Stop(sorted, matches, i)
    ensures Decides(sorted, matches, n)
  {
    forall j | Stop(sorted, matches, j) ensures sorted[n].position <= sorted[j].position {
      assert Ascends(sorted, n, j);
    }
  }

  lemma {:induction false} LastDecides(sorted: seq<Rule>, matches: string -> bool, last: nat)
    requires Ascending(sorted) && Hit(sorted, matches, last)
        && (forall i :: 0 <= i < |sorted| ==> !Stop(sorted, matches, i))
    requires forall i :: last < i < |sorted| ==> !Hit(sorted, matches, i)
    ensures Decides(sorted, matches, last)
  {
    assert !Stop(sorted, matches, last);
    forall j | Hit(sorted, matches, j) ensures sorted[j].position <= sorted[last].position {
      assert Ascends(sorted, j, last);
    }
  }

  const MAX_FILTER_MESSAGE_BYTES := 25 * 1024 * 1024

  /** The filter's answer for a message of `size` bytes: out of range, without a snapshot, or for
      a message that cannot be read, no target; otherwise the simple meaning of the published
      rules, in whatever order they are listed; and an error exactly if the message is in range
      and the list is not acceptable. */
  method EvaluateFilterMessage(size: nat, snapshot: Option<seq<Rule>>, readable: bool, goodId: RuleId -> bool,
      matches: string -> bool)
    returns (r: Outcome)
    ensures r == Malformed <==> InRange(size) && snapshot.Some? && !Acceptable(snapshot.value, goodId)
    ensures !InRange(size) || snapshot.None? || (r != Malformed && !readable) ==> r == Filed(None)
    ensures InRange(size) && snapshot.Some? && readable && r != Malformed ==>
        Delivers(snapshot.value, matches, r.target)
  {
    if !InRange(size) || snapshot.None? {
      return Filed(None);
    }
    var rules := snapshot.value;
    var ok, prepared := Check(rules, goodId);
    if !ok {
      return Malformed;
    }
    ok := PlacesApart(prepared);
    EnabledPlaces(rules);
    if !ok {
      return Malformed;
    }
    if !readable {
      return Filed(None);
    }
    var sorted := SortByPosition(prepared);
    forall r ensures r in sorted <==> r in rules && r.enabled {
      EnabledMembers(rules, r);
    }
    var target := Scan(sorted, matches);
    DeliversAnyOrder(sorted, rules, matches, target);
    r := Filed(target);
  }

  predicate InRange(size: nat) {
    1 <= size <= MAX_FILTER_MESSAGE_BYTES
  }
}
