/**
 The rule table of one account and its renumbering.  `UNIQUE(account, position)` is checked
 at every single row update: `SetPosition` may only be called where it holds.

 The statement that shifts all rows visits them in an order of the database's choosing, so
 `ShiftAll` takes any.  Positions are below 1000 before it, hence a shifted row never meets
 one that is not yet shifted; and while the new positions are assigned, all rows that still
 wait are at 1000 or above.  The ghost field `order` lists the ids by position, and the table
 is compared with the lists of MailRules through it.
 */
module RuleOrder {
  import opened Options
  import opened MailRules

  const SHIFT := 1000

  type Rows = map<RuleId, Rule>

  // ---------------------------------------------------------------------------------------
  // Rows and their order
  // ---------------------------------------------------------------------------------------

  ghost predicate Placed(rows: Rows, order: seq<RuleId>, i: int) {
    0 <= i < |order| ==> order[i] in rows && rows[order[i]].position == i
  }

  ghost predicate Listed(rows: Rows, order: seq<RuleId>, id: RuleId) {
    id in rows ==> 0 <= rows[id].position < |order| && order[rows[id].position] == id && rows[id].id == id
  }

  /** The rows have exactly the positions 0 to n - 1, in the given order. */
  ghost predicate Consistent(rows: Rows, order: seq<RuleId>) {
    && (forall i :: Placed(rows, order, i))
    && (forall id :: Listed(rows, order, id))
  }

  ghost function InOrder(rows: Rows, order: seq<RuleId>): seq<Rule>
    requires Consistent(rows, order)
  {
    seq(|order|, i requires 0 <= i < |order| => assert Placed(rows, order, i); rows[order[i]])
  }

  ghost predicate Unequal(rows: Rows, i: RuleId, j: RuleId) {
    i in rows && j in rows && i != j ==> rows[i].position != rows[j].position
  }

  lemma {:induction false} PositionsDiffer(rows: Rows, order: seq<RuleId>)
    requires Consistent(rows, order)
    ensures forall i, j :: Unequal(rows, i, j)
  {
    forall i, j ensures Unequal(rows, i, j) {
      assert Listed(rows, order, i) && Listed(rows, order, j);
    }
  }

  lemma {:induction false} AsMany(rows: Rows, order: seq<RuleId>)
    requires Consistent(rows, order)
    ensures |rows| == |order|
    decreases |order|
  {
    if order == [] {
      forall id ensures id !in rows {
        assert Listed(rows, order, id);
      }
      assert rows == map[];
    } else {
      var n := |order| - 1;
      var last := order[n];
      var rows' := rows - {last};
      assert Placed(rows, order, n);
      forall i ensures Placed(rows', order[..n], i) {
        assert Placed(rows, order, i);
      }
      forall id ensures Listed(rows', order[..n], id) {
        assert Listed(rows, order, id);
      }
      AsMany(rows', order[..n]);
      assert rows'.Keys == rows.Keys - {last};
    }
  }

  /** Identifiers sorted by the positions of their rows. */
  ghost predicate Sorted(rows: Rows, ids: seq<RuleId>) {
    && (forall i :: 0 <= i < |ids| ==> ids[i] in rows)
    && (forall i, j :: 0 <= i < j < |ids| ==> Earlier(rows, ids, i, j))
  }

  ghost predicate Earlier(rows: Rows, ids: seq<RuleId>, i: int, j: int)
    requires 0 <= i < |ids| && 0 <= j < |ids| && ids[i] in rows && ids[j] in rows
  {
    rows[ids[i]].position < rows[ids[j]].position
  }

  /** There is only one sorted list of the same identifiers. */
  lemma {:induction false} SortedIsUnique(rows: Rows, a: seq<RuleId>, b: seq<RuleId>)
    requires Sorted(rows, a) && Sorted(rows, b) && forall id :: id in a <==> id in b
    ensures a == b
  {
    if a == [] {
      if b != [] {
        HasMember(b);
        assert false;
      }
    } else {
      assert a[0] in b && b != [] && b[0] in a;
      FirstIsLeast(rows, a, b[0]);
      FirstIsLeast(rows, b, a[0]);
      SortedTail(rows, a);
      SortedTail(rows, b);
      forall id ensures id in a[1..] <==> id in b[1..] {
        assert id in a <==> id == a[0] || id in a[1..];
        assert id in b <==> id == b[0] || id in b[1..];
      }
      SortedIsUnique(rows, a[1..], b[1..]);
    }
  }

  lemma {:induction false} FirstIsLeast(rows: Rows, a: seq<RuleId>, id: RuleId)
    requires Sorted(rows, a) && id in a
    ensures rows[a[0]].position <= rows[id].position && (rows[a[0]].position == rows[id].position ==> a[0] == id)
  {
    var i :| 0 <= i < |a| && a[i] == id;
    assert i > 0 ==> Earlier(rows, a, 0, i);
  }

  lemma {:induction false} HasMember(b: seq<RuleId>)
    requires b != []
    ensures exists id :: id in b
  {
    assert b[0] in b;
  }

  lemma {:induction false} SortedAppend(rows: Rows, ids: seq<RuleId>, id: RuleId)
    requires Sorted(rows, ids) && id in rows && forall i :: 0 <= i < |ids| ==> rows[ids[i]].position < rows[id].position
    ensures Sorted(rows, ids + [id])
  {
    forall i, j | 0 <= i < j < |ids + [id]| ensures Earlier(rows, ids + [id], i, j) {
      if j < |ids| {
        assert Earlier(rows, ids, i, j);
      }
    }
  }

  lemma {:induction false} SortedTail(rows: Rows, a: seq<RuleId>)
    requires Sorted(rows, a) && a != []
    ensures Sorted(rows, a[1..]) && a[0] !in a[1..]
  {
    forall i, j | 0 <= i < j < |a[1..]| ensures Earlier(rows, a[1..], i, j) {
      assert Earlier(rows, a, i + 1, j + 1);
    }
    forall i | 0 <= i < |a[1..]| ensures a[1..][i] != a[0] {
      assert Earlier(rows, a, 0, i + 1);
    }
  }

  /** After one row is deleted, the others are sorted as before. */
  lemma {:induction false} OrderWithout(rows: Rows, order: seq<RuleId>, k: nat)
    requires Consistent(rows, order) && k < |order|
    ensures Sorted(rows - {order[k]}, order[..k] + order[k + 1..])
    ensures forall id :: id in order[..k] + order[k + 1..] <==> id in rows - {order[k]}
  {
    var rest := order[..k] + order[k + 1..];
    var rows' := rows - {order[k]};
    forall i | 0 <= i < |order| ensures order[i] in rows && rows[order[i]].position == i {
      assert Placed(rows, order, i);
    }
    assert forall i :: 0 <= i < |rest| ==> rest[i] == order[if i < k then i else i + 1];
    forall id | id in rows' ensures id in rest {
      assert Listed(rows, order, id);
      var p := rows[id].position;
      assert rest[if p < k then p else p - 1] == id;
    }
  }

  /** Rows that were assigned the positions of a list of all identifiers are consistent. */
  lemma {:induction false} AssignedIsConsistent(rows: Rows, ids: seq<RuleId>)
    requires forall id :: id in ids <==> id in rows
    requires forall i :: 0 <= i < |ids| ==> ids[i] in rows && rows[ids[i]].position == i && rows[ids[i]].id == ids[i]
    ensures Consistent(rows, ids)
  {
    forall i ensures Placed(rows, ids, i) {
    }
    forall id ensures Listed(rows, ids, id) {
      if id in rows {
        var i :| 0 <= i < |ids| && ids[i] == id;
      }
    }
  }

  lemma {:induction false} FindInOrder(rows: Rows, order: seq<RuleId>, id: RuleId)
    requires Consistent(rows, order)
    ensures Find(InOrder(rows, order), id) == if id in rows then rows[id].position else |order|
  {
    var rules := InOrder(rows, order);
    var k := Find(rules, id);
    assert Listed(rows, order, id);
    forall i | 0 <= i < |order| ensures rules[i].id == order[i] {
      assert Placed(rows, order, i) && Listed(rows, order, order[i]);
    }
    if id in rows {
      assert rules[rows[id].position].id == id;
    }
    assert Placed(rows, order, k);
  }

  // ---------------------------------------------------------------------------------------
  // The table
  // ---------------------------------------------------------------------------------------

  class RuleTable {
    var rows: Rows
    /** The rules in the order of their positions. */
    ghost var order: seq<RuleId>

    ghost predicate Ok()
      reads this
    {
      |order| <= MAX_RULES && Consistent(rows, order)
    }

    ghost function View(): seq<Rule>
      reads this
      requires Ok()
    {
      InOrder(rows, order)
    }

    constructor ()
      ensures Ok() && View() == []
    {
      rows, order := map[], [];
    }

    /** One row update, which the table's constraint must allow. */
    method SetPosition(id: RuleId, position: nat)
      requires id in rows && forall other :: other in rows && other != id ==> rows[other].position != position
      modifies `rows
      ensures rows == old(rows)[id := old(rows)[id].(position := position)]
    {
      rows := rows[id := rows[id].(position := position)];
    }

    /** Move every row out of the way, in whatever order the rows are visited. */
    method ShiftAll()
      requires forall id :: id in rows ==> 0 <= rows[id].position < SHIFT
      requires forall i, j :: Unequal(rows, i, j)
      modifies `rows
      ensures rows.Keys == old(rows).Keys
      ensures forall id :: id in rows ==> rows[id] == old(rows)[id].(position := old(rows)[id].position + SHIFT)
    {
      ghost var before := rows;
      var rest := rows.Keys;
      while rest != {}
        invariant rest <= rows.Keys == before.Keys
        invariant forall id :: id in before ==>
          rows[id] == if id in rest then before[id] else before[id].(position := before[id].position + SHIFT)
        decreases |rest|
      {
        var id :| id in rest;
        forall other | other in rows && other != id ensures rows[other].position != rows[id].position + SHIFT {
          assert Unequal(before, id, other);
        }
        SetPosition(id, rows[id].position + SHIFT);
        rest := rest - {id};
      }
    }

    /** Give the rules the positions 0, 1, 2 and so on in the given order. */
    method Assign(ids: seq<RuleId>)
      requires |ids| <= SHIFT && (forall i, j :: 0 <= i < j < |ids| ==> ids[i] != ids[j])
      requires forall i :: 0 <= i < |ids| ==> ids[i] in rows
      requires forall id :: id in rows ==> rows[id].position >= SHIFT
      modifies `rows
      ensures rows.Keys == old(rows).Keys
      ensures forall i :: 0 <= i < |ids| ==> rows[ids[i]] == old(rows)[ids[i]].(position := i)
    {
      for i := 0 to |ids|
        invariant rows.Keys == old(rows).Keys
        invariant forall j :: 0 <= j < i ==> rows[ids[j]] == old(rows)[ids[j]].(position := j)
        invariant forall id :: id in rows && id !in ids[..i] ==> rows[id] == old(rows)[id]
      {
        forall other | other in rows && other != ids[i] ensures rows[other].position != i {
          if other in ids[..i] {
            var j :| 0 <= j < i && ids[j] == other;
            assert rows[ids[j]].position == j;
          }
        }
        SetPosition(ids[i], i);
        assert ids[..i + 1] == ids[..i] + [ids[i]];
      }
    }

    /** Shift all rows and number them anew; no update on the way breaks uniqueness. */
    method Renumbering(ids: seq<RuleId>)
      requires |ids| <= MAX_RULES && (forall i, j :: 0 <= i < j < |ids| ==> ids[i] != ids[j])
      requires forall id :: id in ids <==> id in rows
      requires forall id :: id in rows ==> 0 <= rows[id].position < SHIFT && rows[id].id == id
      requires forall i, j :: Unequal(rows, i, j)
      modifies this
      ensures Ok() && order == ids && rows.Keys == old(rows).Keys
      ensures forall i :: 0 <= i < |ids| ==> rows[ids[i]] == old(rows)[ids[i]].(position := i)
    {
      ShiftAll();
      Assign(ids);
      order := ids;
      AssignedIsConsistent(rows, ids);
    }

    /** The identifiers in the order of the positions. */
    method SelectIds() returns (ids: seq<RuleId>)
      requires forall i, j :: Unequal(rows, i, j)
      ensures Sorted(rows, ids) && forall id :: id in ids <==> id in rows
    {
      ids := [];
      var rest := rows.Keys;
      while rest != {}
        invariant rest <= rows.Keys && Sorted(rows, ids)
        invariant forall id :: id in ids <==> id in rows && id !in rest
        invariant forall i, id :: 0 <= i < |ids| && id in rest ==> rows[ids[i]].position < rows[id].position
        decreases |rest|
      {
        var first := FirstOf(rest);
        forall id | id in rest && id != first ensures rows[first].position < rows[id].position {
          assert Unequal(rows, first, id);
        }
        SortedAppend(rows, ids, first);
        ids := ids + [first];
        rest := rest - {first};
      }
    }

    method FirstOf(rest: set<RuleId>) returns (first: RuleId)
      requires rest != {} && rest <= rows.Keys
      ensures first in rest && forall id :: id in rest ==> rows[first].position <= rows[id].position
    {
      first :| first in rest;
      var others := rest - {first};
      while others != {}
        invariant first in rest && others <= rest
        invariant forall id :: id in rest && id !in others ==> rows[first].position <= rows[id].position
        decreases |others|
      {
        var id :| id in others;
        if rows[id].position < rows[first].position {
          first := id;
        }
        others := others - {id};
      }
    }

    method NextPosition() returns (position: nat)
      requires Ok()
      ensures position == |order|
    {
      position := 0;
      var rest := rows.Keys;
      while rest != {}
        invariant rest <= rows.Keys && position <= |order|
        invariant forall id :: id in rows && id !in rest ==> rows[id].position < position
        decreases |rest|
      {
        var id :| id in rest;
        assert Listed(rows, order, id);
        if rows[id].position >= position {
          position := rows[id].position + 1;
        }
        rest := rest - {id};
      }
      assert Placed(rows, order, |order| - 1);
    }

    /** A new rule comes last. */
    method CreateRule(rule: Rule) returns (ok: bool)
      requires Ok()
      modifies this
      ensures Ok()
      ensures var created := Create(old(View()), rule);
        if created.Some? then ok && View() == created.value else !ok && View() == old(View())
    {
      AsMany(rows, order);
      FindInOrder(rows, order, rule.id);
      ok := |rows| < MAX_RULES && rule.id !in rows;
      assert rule.id in rows ==> Listed(rows, order, rule.id);
      if ok {
        var position := NextPosition();
        ghost var rows0, order0 := rows, order;
        rows := rows[rule.id := rule.(position := position, revision := 1)];
        order := order + [rule.id];
        AppendedIsConsistent(rows0, order0, rule.(position := position, revision := 1));
      }
    }

    /** A rule takes new values, if nobody has changed it since. */
    method UpdateRule(rule: Rule) returns (ok: bool)
      requires Ok()
      modifies this
      ensures Ok()
      ensures var updated := Update(old(View()), rule);
        if updated.Some? then ok && View() == updated.value else !ok && View() == old(View())
    {
      FindInOrder(rows, order, rule.id);
      ok := rule.id in rows && rows[rule.id].revision == rule.revision;
      assert Listed(rows, order, rule.id);
      if ok {
        var row := rows[rule.id];
        ghost var rows0 := rows;
        rows := rows[rule.id := rule.(position := row.position, revision := row.revision + 1)];
        UpdatedIsConsistent(rows0, order, rows[rule.id]);
      }
    }

    /** The rules behind a deleted one move up. */
    method DeleteRule(id: RuleId) returns (ok: bool)
      requires Ok()
      modifies this
      ensures Ok()
      ensures var rest := Delete(old(View()), id);
        if rest.Some? then ok && View() == rest.value else !ok && View() == old(View())
    {
      FindInOrder(rows, order, id);
      ok := id in rows;
      assert Listed(rows, order, id);
      if ok {
        ghost var rows0, order0, k := rows, order, rows[id].position;
        rows := rows - {id};
        DeletedRows(rows0, order0, k, rows);
        var ids := SelectIds();
        SortedIsUnique(rows, ids, order0[..k] + order0[k + 1..]);
        Renumbering(ids);
        DeletedView(rows0, order0, k, rows, ids);
      }
    }

    /** The rules in the order given, if that names each exactly once. */
    method ReorderRules(ids: seq<RuleId>) returns (ok: bool)
      requires Ok()
      modifies this
      ensures Ok()
      ensures var reordered := Reorder(old(View()), ids);
        if reordered.Some? then ok && View() == reordered.value else !ok && View() == old(View())
    {
      AsMany(rows, order);
      ok := |ids| == |rows| && (forall i, j :: 0 <= i < j < |ids| ==> ids[i] != ids[j])
          && (forall id <- ids :: id in rows);
      forall i | 0 <= i < |ids| ensures ids[i] in rows <==> Find(View(), ids[i]) < |order| {
        FindInOrder(rows, order, ids[i]);
        assert Listed(rows, order, ids[i]);
      }
      if ok {
        ghost var rows0, order0 := rows, order;
        NamesAll(rows, ids);
        PositionsDiffer(rows, order);
        forall id | id in rows ensures 0 <= rows[id].position < SHIFT && rows[id].id == id {
          assert Listed(rows, order, id);
        }
        Renumbering(ids);
        ReorderedView(rows0, order0, rows, ids);
      }
    }
  }

  lemma {:induction false} AppendedIsConsistent(rows: Rows, order: seq<RuleId>, rule: Rule)
    requires Consistent(rows, order) && rule.id !in rows && rule.position == |order|
    ensures Consistent(rows[rule.id := rule], order + [rule.id])
    ensures InOrder(rows[rule.id := rule], order + [rule.id]) == InOrder(rows, order) + [rule]
  {
    var rows', order' := rows[rule.id := rule], order + [rule.id];
    forall i ensures Placed(rows', order', i) {
      assert Placed(rows, order, i);
    }
    forall id ensures Listed(rows', order', id) {
      assert Listed(rows, order, id);
    }
    forall i | 0 <= i < |order| ensures InOrder(rows', order')[i] == InOrder(rows, order)[i] {
      assert Placed(rows, order, i) && order'[i] == order[i];
    }
  }

  lemma {:induction false} UpdatedIsConsistent(rows: Rows, order: seq<RuleId>, rule: Rule)
    requires Consistent(rows, order) && rule.id in rows && rule.position == rows[rule.id].position
    ensures Consistent(rows[rule.id := rule], order) && 0 <= rule.position < |order|
    ensures InOrder(rows[rule.id := rule], order) == InOrder(rows, order)[rule.position := rule]
  {
    var rows' := rows[rule.id := rule];
    assert Listed(rows, order, rule.id);
    forall i ensures Placed(rows', order, i) {
      assert Placed(rows, order, i);
    }
    forall id ensures Listed(rows', order, id) {
      assert Listed(rows, order, id);
    }
    forall i | 0 <= i < |order| && i != rule.position ensures InOrder(rows', order)[i] == InOrder(rows, order)[i] {
      assert Placed(rows, order, i);
    }
  }

  lemma {:induction false} DeletedRows(rows: Rows, order: seq<RuleId>, k: nat, rows': Rows)
    requires Consistent(rows, order) && k < |order| && |order| <= MAX_RULES && rows' == rows - {order[k]}
    ensures var rest := order[..k] + order[k + 1..];
      Sorted(rows', rest) && (forall id :: id in rest <==> id in rows')
          && forall i, j :: 0 <= i < j < |rest| ==> rest[i] != rest[j]
    ensures forall i, j :: Unequal(rows', i, j)
    ensures forall id :: id in rows' ==> 0 <= rows'[id].position < SHIFT && rows'[id].id == id
  {
    var rest := order[..k] + order[k + 1..];
    OrderWithout(rows, order, k);
    forall i, j | 0 <= i < j < |rest| ensures rest[i] != rest[j] {
      assert Earlier(rows', rest, i, j);
    }
    forall i, j ensures Unequal(rows', i, j) {
      assert Listed(rows, order, i) && Listed(rows, order, j);
    }
    forall id | id in rows' ensures 0 <= rows'[id].position < SHIFT && rows'[id].id == id {
      assert Listed(rows, order, id);
    }
  }

  lemma {:induction false} DeletedView(rows: Rows, order: seq<RuleId>, k: nat, rows': Rows, ids: seq<RuleId>)
    requires Consistent(rows, order) && k < |order| && ids == order[..k] + order[k + 1..] && Consistent(rows', ids)
    requires forall i :: 0 <= i < |ids| ==>
        ids[i] in rows && ids[i] in rows' && rows'[ids[i]] == rows[ids[i]].(position := i)
    ensures InOrder(rows', ids) == Renumber(InOrder(rows, order)[..k] + InOrder(rows, order)[k + 1..])
  {
    var rules := InOrder(rows, order);
    var rest := rules[..k] + rules[k + 1..];
    assert forall i :: 0 <= i < |ids| ==> rest[i] == rows[ids[i]];
  }

  lemma {:induction false} NamesAll(rows: Rows, ids: seq<RuleId>)
    requires |ids| == |rows| && (forall i, j :: 0 <= i < j < |ids| ==> ids[i] != ids[j])
        && (forall id <- ids :: id in rows)
    ensures forall id :: id in ids <==> id in rows
    decreases |ids|
  {
    if ids == [] {
      assert rows == map[];
    } else {
      var n := |ids| - 1;
      var rows' := rows - {ids[n]};
      assert rows'.Keys == rows.Keys - {ids[n]};
      NamesAll(rows', ids[..n]);
      assert ids == ids[..n] + [ids[n]];
    }
  }

  lemma {:induction false} ReorderedView(rows: Rows, order: seq<RuleId>, rows': Rows, ids: seq<RuleId>)
    requires Consistent(rows, order) && Consistent(rows', ids) && Names(InOrder(rows, order), ids)
    requires forall i :: 0 <= i < |ids| ==>
        ids[i] in rows && ids[i] in rows' && rows'[ids[i]] == rows[ids[i]].(position := i)
    ensures Reorder(InOrder(rows, order), ids) == Some(InOrder(rows', ids))
  {
    forall i | 0 <= i < |ids| ensures InOrder(rows, order)[Find(InOrder(rows, order), ids[i])] == rows[ids[i]] {
      FindInOrder(rows, order, ids[i]);
      assert Listed(rows, order, ids[i]);
    }
    assert Reorder(InOrder(rows, order), ids).value == InOrder(rows', ids);
  }
}
