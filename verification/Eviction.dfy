/**
 Choosing the first rows in an order by two columns and then by key, as the statements do
 that make room for a new row.
 */
module Eviction {

  /** A row's sort columns and its key. */
  datatype Rank = Rank(first: int, second: int, key: nat)

  predicate Leq(a: Rank, b: Rank) {
    a.first < b.first || (a.first == b.first && (a.second < b.second || (a.second == b.second && a.key <= b.key)))
  }

  ghost predicate Least(s: set<Rank>, a: Rank) {
    a in s && forall b :: b in s ==> Leq(a, b)
  }

  lemma {:induction false} LeastExists(s: set<Rank>)
    requires s != {}
    ensures exists a :: Least(s, a)
    decreases |s|
  {
    var x :| x in s;
    var rest := s - {x};
    assert forall b :: b in s && b != x ==> b in rest;
    if rest == {} {
      assert Least(s, x);
    } else {
      LeastExists(rest);
      var a :| Least(rest, a);
      if Leq(a, x) {
        assert Least(s, a);
      } else {
        assert Least(s, x);
      }
    }
  }

  ghost function LeastOf(s: set<Rank>): (a: Rank)
    requires s != {}
    ensures Least(s, a)
  {
    LeastExists(s);
    var a :| Least(s, a);
    a
  }

  /** The first `n` rows, or all of them if there are fewer. */
  ghost function Oldest(s: set<Rank>, n: nat): set<Rank>
    decreases n
  {
    if n == 0 || s == {} then {} else {LeastOf(s)} + Oldest(s - {LeastOf(s)}, n - 1)
  }

  lemma {:induction false} OldestSize(s: set<Rank>, n: nat)
    ensures Oldest(s, n) <= s && |Oldest(s, n)| == if n <= |s| then n else |s|
    decreases n
  {
    if n > 0 && s != {} {
      OldestSize(s - {LeastOf(s)}, n - 1);
    }
  }

  lemma {:induction false} OldestFirst(s: set<Rank>, n: nat, a: Rank, b: Rank)
    requires a in Oldest(s, n) && b in s && b !in Oldest(s, n)
    ensures Leq(a, b)
    decreases n
  {
    var x := LeastOf(s);
    OldestSize(s - {x}, n - 1);
    if a != x {
      OldestFirst(s - {x}, n - 1, a, b);
    }
  }

  method FindLeast(s: set<Rank>) returns (a: Rank)
    requires s != {}
    ensures Least(s, a)
  {
    a :| a in s;
    var rest := s - {a};
    while rest != {}
      invariant a in s && rest <= s && forall b :: b in s && b !in rest ==> Leq(a, b)
      decreases |rest|
    {
      var b :| b in rest;
      if !Leq(a, b) {
        a := b;
      }
      rest := rest - {b};
    }
  }

  /** Take the least row again and again. */
  method FindOldest(s: set<Rank>, n: nat) returns (found: set<Rank>)
    ensures found == Oldest(s, n)
  {
    found := {};
    var rest := s;
    var i := 0;
    while i < n && rest != {}
      invariant 0 <= i <= n && Oldest(s, n) == found + Oldest(rest, n - i)
    {
      var a := FindLeast(rest);
      assert a == LeastOf(rest);
      found, rest, i := found + {a}, rest - {a}, i + 1;
    }
  }
}
