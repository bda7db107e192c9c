/**
 Selecting messages of a mailbox and appending copies of messages to one.
 */
module MailboxContents {
  import opened MessageWindow

  function Keep(mb: Mailbox, p: Message -> bool): Mailbox {
    if mb == [] then []
    else if p(mb[0]) then [mb[0]] + Keep(mb[1..], p)
    else Keep(mb[1..], p)
  }

  function Contents(mb: Mailbox): seq<string> {
    seq(|mb|, i requires 0 <= i < |mb| => mb[i].content)
  }

  /** The mailbox after messages were appended with the next UIDs. */
  function Append(mb: Mailbox, contents: seq<string>): Mailbox {
    var last := if mb == [] then 0 else mb[|mb| - 1].uid;
    mb + seq(|contents|, i requires 0 <= i < |contents| => Message(last + 1 + i, contents[i]))
  }

  lemma {:induction false} KeepAll(mb: Mailbox, p: Message -> bool)
    ensures (forall i :: 0 <= i < |mb| ==> p(mb[i])) ==> Keep(mb, p) == mb
    ensures (forall i :: 0 <= i < |mb| ==> !p(mb[i])) ==> Keep(mb, p) == []
    ensures forall m :: m in Keep(mb, p) ==> m in mb && p(m)
    ensures forall m :: m in mb && p(m) ==> m in Keep(mb, p)
  {
    if mb != [] {
      KeepAll(mb[1..], p);
      assert [mb[0]] + mb[1..] == mb;
    }
  }

  lemma {:induction false} KeepConcat(a: Mailbox, b: Mailbox, p: Message -> bool)
    ensures Keep(a + b, p) == Keep(a, p) + Keep(b, p)
  {
    if a == [] {
      assert a + b == b;
    } else {
      KeepConcat(a[1..], b, p);
      var rest := Keep(a[1..], p);
      assert (a + b)[1..] == a[1..] + b && (a + b)[0] == a[0];
      assert [a[0]] + (rest + Keep(b, p)) == ([a[0]] + rest) + Keep(b, p);
    }
  }

  lemma {:induction false} KeepSame(mb: Mailbox, p: Message -> bool, q: Message -> bool)
    requires forall m :: m in mb ==> p(m) == q(m)
    ensures Keep(mb, p) == Keep(mb, q)
  {
    if mb != [] {
      KeepSame(mb[1..], p, q);
    }
  }

  lemma {:induction false} ContentsConcat(a: Mailbox, b: Mailbox)
    ensures multiset(Contents(a + b)) == multiset(Contents(a)) + multiset(Contents(b))
  {
    assert Contents(a + b) == Contents(a) + Contents(b);
  }

  lemma {:induction false} AppendContents(mb: Mailbox, contents: seq<string>)
    ensures multiset(Contents(Append(mb, contents))) == multiset(Contents(mb)) + multiset(contents)
  {
    assert Contents(Append(mb, contents)) == Contents(mb) + contents;
  }
}
