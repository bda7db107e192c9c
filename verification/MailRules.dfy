/**
 An account's mail-filing rules in their order, and what creating, changing, deleting and
 reordering them means: always numbered 0, 1, 2 and so on, never more than 100.
 */
module MailRules {
  import opened Options

  const MAX_RULES := 100

  type RuleId = string

  datatype Rule = Rule(id: RuleId, enabled: bool, position: int, condition: string, target: string, stop: bool,
      revision: int)

  /** The rule at index i has position i. */
  ghost predicate Numbered(rules: seq<Rule>) {
    forall i :: 0 <= i < |rules| ==> rules[i].position == i
  }

  ghost predicate OwnIds(rules: seq<Rule>, i: int, j: int) {
    0 <= i < j < |rules| ==> rules[i].id != rules[j].id
  }

  ghost predicate Valid(rules: seq<Rule>) {
    && |rules| <= MAX_RULES && Numbered(rules)
    && (forall i, j :: OwnIds(rules, i, j))
    && (forall i :: 0 <= i < |rules| ==> rules[i].revision >= 1)
  }

  function Renumber(rules: seq<Rule>): seq<Rule> {
    seq(|rules|, i requires 0 <= i < |rules| => rules[i].(position := i))
  }

  /** The index of a rule, |rules| if there is none. */
  function Find(rules: seq<Rule>, id: RuleId): (k: nat)
    ensures k <= |rules|
    ensures k < |rules| ==> rules[k].id == id
    ensures forall i :: 0 <= i < k ==> rules[i].id != id
  {
    if rules == [] || rules[0].id == id then 0
    else
      var k := Find(rules[1..], id);
      assert forall i :: 0 <= i < k ==> rules[1..][i] == rules[i + 1];
      k + 1
  }

  function Create(rules: seq<Rule>, rule: Rule): Option<seq<Rule>> {
    if |rules| >= MAX_RULES || Find(rules, rule.id) < |rules| then None
    else Some(rules + [rule.(position := |rules|, revision := 1)])
  }

  /** Only the revision the caller has seen may be changed. */
  function Update(rules: seq<Rule>, rule: Rule): Option<seq<Rule>> {
    var k := Find(rules, rule.id);
    if k == |rules| || rules[k].revision != rule.revision then None
    else Some(rules[k := rule.(position := rules[k].position, revision := rules[k].revision + 1)])
  }

  function Delete(rules: seq<Rule>, id: RuleId): Option<seq<Rule>> {
    var k := Find(rules, id);
    if k == |rules| then None else Some(Renumber(rules[..k] + rules[k + 1..]))
  }

  /** The new order must name every rule exactly once. */
  predicate Names(rules: seq<Rule>, ids: seq<RuleId>) {
    && |ids| == |rules|
    && (forall i, j :: 0 <= i < j < |ids| ==> ids[i] != ids[j])
    && (forall i :: 0 <= i < |ids| ==> Find(rules, ids[i]) < |rules|)
  }

  function Reorder(rules: seq<Rule>, ids: seq<RuleId>): Option<seq<Rule>> {
    if !Names(rules, ids) then None
    else Some(seq(|ids|, i requires 0 <= i < |ids| => rules[Find(rules, ids[i])].(position := i)))
  }

  lemma {:induction false} CreateValid(rules: seq<Rule>, rule: Rule)
    requires Valid(rules)
    ensures Create(rules, rule).Some? ==> Valid(Create(rules, rule).value)
  {
    if Create(rules, rule).Some? {
      var rules' := Create(rules, rule).value;
      forall i, j ensures OwnIds(rules', i, j) {
        assert OwnIds(rules, i, j);
      }
    }
  }

  lemma {:induction false} UpdateValid(rules: seq<Rule>, rule: Rule)
    requires Valid(rules)
    ensures Update(rules, rule).Some? ==> Valid(Update(rules, rule).value)
  {
    if Update(rules, rule).Some? {
      forall i, j ensures OwnIds(Update(rules, rule).value, i, j) {
        assert OwnIds(rules, i, j);
      }
    }
  }

  lemma {:induction false} DeleteValid(rules: seq<Rule>, id: RuleId)
    requires Valid(rules)
    ensures Delete(rules, id).Some? ==> Valid(Delete(rules, id).value)
  {
    if Delete(rules, id).Some? {
      var k := Find(rules, id);
      forall i, j ensures OwnIds(Delete(rules, id).value, i, j) {
        assert OwnIds(rules, if i < k then i else i + 1, if j < k then j else j + 1);
      }
    }
  }

  lemma {:induction false} ReorderValid(rules: seq<Rule>, ids: seq<RuleId>)
    requires Valid(rules)
    ensures Reorder(rules, ids).Some? ==> Valid(Reorder(rules, ids).value)
  {
    if Reorder(rules, ids).Some? {
      forall i, j ensures OwnIds(Reorder(rules, ids).value, i, j) {
      }
    }
  }

  // ---------------------------------------------------------------------------------------
  // What the operations are for, rule by rule
  // ---------------------------------------------------------------------------------------

  datatype Operation =
    | CreateRule(rule: Rule)
    | UpdateRule(rule: Rule)
    | DeleteRule(id: RuleId)
    | ReorderRules(ids: seq<RuleId>)

  /** The rules that an operation leaves, if it is possible. */
  function Result(rules: seq<Rule>, op: Operation): Option<seq<Rule>> {
    match op
    case CreateRule(rule) => Create(rules, rule)
    case UpdateRule(rule) => Update(rules, rule)
    case DeleteRule(id) => Delete(rules, id)
    case ReorderRules(ids) => Reorder(rules, ids)
  }

  function Ids(rules: seq<Rule>): seq<RuleId> {
    seq(|rules|, i requires 0 <= i < |rules| => rules[i].id)
  }

  /** When an operation can be carried out. */
  ghost predicate Possible(rules: seq<Rule>, op: Operation) {
    match op
    case CreateRule(rule) => |rules| < 100 && forall r <- rules :: r.id != rule.id
    case UpdateRule(rule) => exists r <- rules :: r.id == rule.id && r.revision == rule.revision
    case DeleteRule(id) => exists r <- rules :: r.id == id
    case ReorderRules(ids) => multiset(ids) == multiset(Ids(rules))
  }

  /** What it changes: a new rule comes last with revision 1; a changed one keeps its place and
      takes the given values and the next revision; those behind a deleted one move up; and a
      reordered one only takes the place of its id. */
  ghost predicate Effect(before: seq<Rule>, op: Operation, after: seq<Rule>) {
    match op
    case CreateRule(rule) =>
      after == before + [Rule(rule.id, rule.enabled, |before|, rule.condition, rule.target, rule.stop, 1)]
    case UpdateRule(rule) =>
      && |after| == |before|
      && (forall i :: 0 <= i < |before| && before[i].id != rule.id ==> after[i] == before[i])
      && (forall i :: 0 <= i < |before| && before[i].id == rule.id ==>
            after[i] == Rule(rule.id, rule.enabled, i, rule.condition, rule.target, rule.stop, rule.revision + 1))
    case DeleteRule(id) =>
      exists k :: 0 <= k < |before| && before[k].id == id && WithoutAt(before, k, after)
    case ReorderRules(ids) =>
      && |after| == |ids|
      && forall i :: 0 <= i < |ids| ==> after[i].id == ids[i] && after[i].position == i && Kept(before, after[i])
  }

  ghost predicate WithoutAt(before: seq<Rule>, k: nat, after: seq<Rule>) {
    && k < |before| && |after| == |before| - 1
    && (forall i :: 0 <= i < k ==> after[i] == before[i])
    && (forall i :: k <= i < |after| ==> after[i] == before[i + 1].(position := i))
  }

  /** The rule is one of those before, up to its place. */
  ghost predicate Kept(before: seq<Rule>, rule: Rule) {
    exists j :: 0 <= j < |before| && rule == before[j].(position := rule.position)
  }

  /** An operation is carried out exactly if it is possible, and then has its effect. */
  lemma {:induction false} ResultMeaning(rules: seq<Rule>, op: Operation)
    requires Valid(rules)
    ensures Result(rules, op).Some? <==> Possible(rules, op)
    ensures Result(rules, op).Some? ==> Effect(rules, op, Result(rules, op).value)
  {
    match op
    case CreateRule(rule) => CreateMeaning(rules, rule);
    case UpdateRule(rule) => UpdateMeaning(rules, rule);
    case DeleteRule(id) => DeleteMeaning(rules, id);
    case ReorderRules(ids) => ReorderMeaning(rules, ids);
  }

  lemma {:induction false} CreateMeaning(rules: seq<Rule>, rule: Rule)
    ensures Create(rules, rule).Some? <==> Possible(rules, CreateRule(rule))
    ensures Create(rules, rule).Some? ==> Effect(rules, CreateRule(rule), Create(rules, rule).value)
  {
    if Find(rules, rule.id) < |rules| {
      assert rules[Find(rules, rule.id)] in rules;
    }
  }

  lemma {:induction false} FoundAt(rules: seq<Rule>, i: nat)
    requires Valid(rules) && i < |rules|
    ensures Find(rules, rules[i].id) == i
  {
    assert OwnIds(rules, Find(rules, rules[i].id), i);
  }

  lemma {:induction false} UpdateMeaning(rules: seq<Rule>, rule: Rule)
    requires Valid(rules)
    ensures Update(rules, rule).Some? <==> Possible(rules, UpdateRule(rule))
    ensures Update(rules, rule).Some? ==> Effect(rules, UpdateRule(rule), Update(rules, rule).value)
  {
    var k := Find(rules, rule.id);
    forall i | 0 <= i < |rules| && rules[i].id == rule.id ensures i == k {
      FoundAt(rules, i);
    }
    if Update(rules, rule).Some? {
      assert rules[k] in rules;
    }
  }

  lemma {:induction false} DeleteMeaning(rules: seq<Rule>, id: RuleId)
    requires Valid(rules)
    ensures Delete(rules, id).Some? <==> Possible(rules, DeleteRule(id))
    ensures Delete(rules, id).Some? ==> Effect(rules, DeleteRule(id), Delete(rules, id).value)
  {
    var k := Find(rules, id);
    if Delete(rules, id).Some? {
      assert rules[k] in rules;
      assert WithoutAt(rules, k, Delete(rules, id).value);
    }
  }

  lemma {:induction false} ReorderMeaning(rules: seq<Rule>, ids: seq<RuleId>)
    requires Valid(rules)
    ensures Reorder(rules, ids).Some? <==> Possible(rules, ReorderRules(ids))
    ensures Reorder(rules, ids).Some? ==> Effect(rules, ReorderRules(ids), Reorder(rules, ids).value)
  {
    forall i, j | 0 <= i < j < |rules| ensures Ids(rules)[i] != Ids(rules)[j] {
      assert OwnIds(rules, i, j);
    }
    if Names(rules, ids) {
      forall i | 0 <= i < |ids| ensures ids[i] in Ids(rules) {
        assert ids[i] == Ids(rules)[Find(rules, ids[i])];
      }
      SameMembers(ids, Ids(rules));
      forall i | 0 <= i < |ids| ensures Kept(rules, Reorder(rules, ids).value[i]) {
        assert Reorder(rules, ids).value[i] == rules[Find(rules, ids[i])].(position := i);
      }
    }
    if multiset(ids) == multiset(Ids(rules)) {
      PermutationNames(rules, ids);
    }
  }

  lemma {:induction false} PermutationNames(rules: seq<Rule>, ids: seq<RuleId>)
    requires Valid(rules) && multiset(ids) == multiset(Ids(rules))
    ensures Names(rules, ids)
  {
    assert |ids| == |multiset(ids)| == |multiset(Ids(rules))| == |rules|;
    forall i, j | 0 <= i < j < |rules| ensures Ids(rules)[i] != Ids(rules)[j] {
      assert OwnIds(rules, i, j);
    }
    forall i, j | 0 <= i < j < |ids| ensures ids[i] != ids[j] {
      if ids[i] == ids[j] {
        Twice(ids, i, j);
        Once(Ids(rules), ids[i]);
      }
    }
    forall i | 0 <= i < |ids| ensures Find(rules, ids[i]) < |rules| {
      assert ids[i] in multiset(ids);
      assert ids[i] in Ids(rules);
      var j :| 0 <= j < |rules| && rules[j].id == ids[i];
      FoundAt(rules, j);
    }
  }

  lemma {:induction false} Twice(ids: seq<RuleId>, i: nat, j: nat)
    requires i < j < |ids| && ids[i] == ids[j]
    ensures multiset(ids)[ids[i]] >= 2
  {
    assert ids == ids[..j] + [ids[j]] + ids[j + 1..];
    assert ids[i] in ids[..j];
  }

  lemma {:induction false} Once(ids: seq<RuleId>, id: RuleId)
    requires forall i, j :: 0 <= i < j < |ids| ==> ids[i] != ids[j]
    ensures multiset(ids)[id] <= 1
  {
    if ids != [] {
      Once(ids[1..], id);
      assert ids == [ids[0]] + ids[1..];
      if ids[0] == id {
        assert id !in ids[1..];
      }
    }
  }

  /** As many different members of a list of as many are all of its members. */
  lemma {:induction false} SameMembers(ids: seq<RuleId>, all: seq<RuleId>)
    requires |ids| == |all| && (forall i, j :: 0 <= i < j < |ids| ==> ids[i] != ids[j])
    requires forall i :: 0 <= i < |ids| ==> ids[i] in all
    ensures multiset(ids) == multiset(all)
  {
    forall id ensures multiset(ids)[id] <= multiset(all)[id] {
      Once(ids, id);
      assert multiset(ids)[id] > 0 ==> id in ids;
    }
    assert multiset(ids) <= multiset(all);
    assert |multiset(all) - multiset(ids)| == 0;
  }

  /** No other list satisfies the description. */
  lemma {:induction false} EffectOne(rules: seq<Rule>, op: Operation, a: seq<Rule>, b: seq<Rule>)
    requires Valid(rules) && Effect(rules, op, a) && Effect(rules, op, b)
    ensures a == b
  {
    match op
    case DeleteRule(id) =>
      var k :| 0 <= k < |rules| && rules[k].id == id && WithoutAt(rules, k, a);
      var l :| 0 <= l < |rules| && rules[l].id == id && WithoutAt(rules, l, b);
      FoundAt(rules, k);
      FoundAt(rules, l);
    case ReorderRules(ids) =>
      forall i | 0 <= i < |ids| ensures a[i] == b[i] {
        assert Kept(rules, a[i]) && Kept(rules, b[i]);
        var j :| 0 <= j < |rules| && a[i] == rules[j].(position := a[i].position);
        var k :| 0 <= k < |rules| && b[i] == rules[k].(position := b[i].position);
        FoundAt(rules, j);
        FoundAt(rules, k);
      }
    case CreateRule(_) =>
    case UpdateRule(_) =>
  }
}
