/**
 The DATA phase of SMTP submission: the streaming newline normaliser and dot-stuffer, and
 the receiver of section 4.5.2 of RFC 5321 that undoes it.
 */
module SmtpData {
  import opened Options

  type Byte = b: int | 0 <= b < 256

  const CR: Byte := 13
  const LF: Byte := 10
  const DOT: Byte := 46
  const CRLF: seq<Byte> := [CR, LF]
  const TERMINATOR: seq<Byte> := [DOT, CR, LF]
  const BLOCK := 65536

  // ---------------------------------------------------------------------------------------
  // What the output means
  // ---------------------------------------------------------------------------------------

  /** The message with CR LF, CR and LF each written as CR LF, and its last line ended.
      `open` says that the current line already holds bytes. */
  function Normalize(m: seq<Byte>, open: bool := false): seq<Byte> {
    if m == [] then (if open then CRLF else [])
    else if m[0] == CR && |m| > 1 && m[1] == LF then CRLF + Normalize(m[2..])
    else if m[0] == CR || m[0] == LF then CRLF + Normalize(m[1..])
    else [m[0]] + Normalize(m[1..], true)
  }

  predicate EndsLine(s: seq<Byte>) {
    |s| >= 2 && s[0] == CR && s[1] == LF
  }

  predicate EndsMessage(s: seq<Byte>) {
    |s| >= 3 && s[0] == DOT && s[1] == CR && s[2] == LF
  }

  /** One dot before every line of canonical text that begins with a dot. */
  function Stuff(s: seq<Byte>, open: bool := false): seq<Byte> {
    if s == [] then []
    else if EndsLine(s) then CRLF + Stuff(s[2..])
    else (if !open && s[0] == DOT then [DOT, DOT] else [s[0]]) + Stuff(s[1..], true)
  }

  /** Text whose every line ends in CR LF and that holds no other CR or LF. */
  predicate Canonical(s: seq<Byte>, open: bool := false) {
    if s == [] then !open
    else if EndsLine(s) then Canonical(s[2..])
    else s[0] != CR && s[0] != LF && Canonical(s[1..], true)
  }

  /** A receiver: the message up to the terminating line and what follows that line, if the
      line has arrived.  A leading dot of any other line is dropped. */
  function Receive(s: seq<Byte>, open: bool := false): Option<(seq<Byte>, seq<Byte>)> {
    if s == [] then None
    else if !open && EndsMessage(s) then Some(([], s[3..]))
    else if EndsLine(s) then Prepend(CRLF, Receive(s[2..]))
    else if !open && s[0] == DOT then Receive(s[1..], true)
    else Prepend([s[0]], Receive(s[1..], true))
  }

  function Prepend(head: seq<Byte>, tail: Option<(seq<Byte>, seq<Byte>)>): Option<(seq<Byte>, seq<Byte>)> {
    if tail.None? then None else Some((head + tail.value.0, tail.value.1))
  }

  lemma {:induction false} NormalizeIsCanonical(m: seq<Byte>, open: bool)
    ensures Canonical(Normalize(m, open), open)
  {
    if m == [] {
      assert CRLF[2..] == [];
    } else if m[0] == CR && |m| > 1 && m[1] == LF {
      NormalizeIsCanonical(m[2..], false);
      assert (CRLF + Normalize(m[2..]))[2..] == Normalize(m[2..]);
    } else if m[0] == CR || m[0] == LF {
      NormalizeIsCanonical(m[1..], false);
      assert (CRLF + Normalize(m[1..]))[2..] == Normalize(m[1..]);
    } else {
      NormalizeIsCanonical(m[1..], true);
      assert ([m[0]] + Normalize(m[1..], true))[1..] == Normalize(m[1..], true);
    }
  }

  lemma {:induction false} StuffedIsCanonical(s: seq<Byte>, open: bool)
    requires Canonical(s, open)
    ensures Canonical(Stuff(s, open), open)
  {
    if s == [] {
    } else if EndsLine(s) {
      StuffedIsCanonical(s[2..], false);
      assert Stuff(s, open)[2..] == Stuff(s[2..]);
    } else {
      StuffedIsCanonical(s[1..], true);
      var t := Stuff(s, open);
      if !open && s[0] == DOT {
        assert t[1..][1..] == Stuff(s[1..], true);
      } else {
        assert t[1..] == Stuff(s[1..], true);
      }
    }
  }

  /** The receiver gets back exactly the text that was stuffed, and stops exactly at the
      terminator, whatever follows it. */
  lemma {:induction false} ReceiveStuffed(s: seq<Byte>, open: bool, tail: seq<Byte>)
    requires Canonical(s, open) && EndsMessage(tail)
    ensures Receive(Stuff(s, open) + tail, open) == Some((s, tail[3..]))
    decreases |s|
  {
    if s == [] {
      assert Stuff(s, open) + tail == tail;
    } else if EndsLine(s) {
      ReceiveStuffed(s[2..], false, tail);
      ReceiveLine(Stuff(s[2..]) + tail, open);
      Joined(CRLF, Stuff(s[2..]), tail);
      assert CRLF + s[2..] == s;
    } else {
      ReceiveStuffed(s[1..], true, tail);
      ReceiveByte(s[0], Stuff(s[1..], true) + tail, open);
      Joined(if !open && s[0] == DOT then [DOT, DOT] else [s[0]], Stuff(s[1..], true), tail);
      assert [s[0]] + s[1..] == s;
    }
  }

  lemma {:induction false} Joined(a: seq<Byte>, b: seq<Byte>, c: seq<Byte>)
    ensures (a + b) + c == a + (b + c)
  {
  }

  lemma {:induction false} ReceiveLine(t: seq<Byte>, open: bool)
    ensures Receive(CRLF + t, open) == Prepend(CRLF, Receive(t))
  {
    assert (CRLF + t)[2..] == t;
  }

  lemma {:induction false} ReceiveByte(b: Byte, t: seq<Byte>, open: bool)
    requires b != CR && b != LF
    ensures Receive((if !open && b == DOT then [DOT, DOT] else [b]) + t, open) == Prepend([b], Receive(t, true))
  {
    if !open && b == DOT {
      assert ([DOT, DOT] + t)[1..] == [DOT] + t;
      assert ([DOT] + t)[1..] == t;
    } else {
      assert ([b] + t)[1..] == t;
    }
  }

  /** No part of the stuffed text, even with an incomplete terminator, ends the message. */
  lemma {:induction false} UnterminatedPrefix(s: seq<Byte>, open: bool, p: seq<Byte>)
    requires Canonical(s, open)
    requires p <= Stuff(s, open) + TERMINATOR[..2]
    ensures Receive(p, open) == None
    decreases |s|, |p|
  {
    var t := Stuff(s, open) + TERMINATOR[..2];
    if p == [] {
    } else if s == [] {
      assert t == [DOT, CR];
      assert p[0] == DOT;
      assert |p[1..]| <= 1 && Receive(p[1..], true) == None by {
        if |p| == 2 {
          assert p[1..] == [CR];
        }
      }
    } else if EndsLine(s) {
      assert t[2..] == Stuff(s[2..]) + TERMINATOR[..2];
      if |p| > 1 {
        assert p[0] == CR && p[1] == LF;
        assert p[2..] <= t[2..];
        UnterminatedPrefix(s[2..], false, p[2..]);
      }
    } else {
      var tail := Stuff(s[1..], true) + TERMINATOR[..2];
      if !open && s[0] == DOT {
        assert t[1..] == [DOT] + tail;
        assert p[1..] <= t[1..];
        if |p| > 1 {
          assert p[1] == DOT;
          assert p[1..][1..] <= tail;
          UnterminatedPrefix(s[1..], true, p[1..][1..]);
        }
      } else {
        assert t[1..] == tail;
        assert p[1..] <= tail;
        UnterminatedPrefix(s[1..], true, p[1..]);
      }
    }
  }

  // ---------------------------------------------------------------------------------------
  // The streaming encoder
  // ---------------------------------------------------------------------------------------

  datatype Encoder = Encoder(atLineStart: bool, pendingCr: bool)

  const FRESH := Encoder(true, false)

  /** What one input byte adds to the output, and the flags after it. */
  function Feed(e: Encoder, b: Byte): (seq<Byte>, Encoder) {
    var ended := if e.pendingCr then CRLF else [];
    var start := e.pendingCr || e.atLineStart;
    if b == CR then (ended, Encoder(start, true))
    else if b == LF then (CRLF, FRESH)
    else (ended + (if start && b == DOT then [DOT, b] else [b]), Encoder(false, false))
  }

  function Flush(e: Encoder): seq<Byte> {
    if e.pendingCr || !e.atLineStart then CRLF else []
  }

  /** The output for all of `m` so far, and the flags after it. */
  function Stream(m: seq<Byte>): (seq<Byte>, Encoder) {
    if m == [] then ([], FRESH)
    else
      var (out, e) := Stream(m[..|m| - 1]);
      var (more, e') := Feed(e, m[|m| - 1]);
      (out + more, e')
  }

  function Encode(m: seq<Byte>): seq<Byte> {
    var (out, e) := Stream(m);
    out + Flush(e)
  }

  /** The rest of the output when `m` is still to come. */
  function Drain(e: Encoder, m: seq<Byte>): seq<Byte>
    decreases |m|
  {
    if m == [] then Flush(e) else Feed(e, m[0]).0 + Drain(Feed(e, m[0]).1, m[1..])
  }

  lemma {:induction false} StreamThenDrain(m: seq<Byte>, rest: seq<Byte>)
    ensures Stream(m).0 + Drain(Stream(m).1, rest) == Drain(FRESH, m + rest)
    decreases |m|
  {
    if m == [] {
      assert m + rest == rest;
    } else {
      var k := |m| - 1;
      StreamThenDrain(m[..k], [m[k]] + rest);
      assert m[..k] + ([m[k]] + rest) == m + rest;
      assert ([m[k]] + rest)[1..] == rest;
    }
  }

  /** The bytes the encoder still owes, when a CR is pending before `m`. */
  function Owed(e: Encoder, m: seq<Byte>): seq<Byte> {
    Stuff(Normalize(if e.pendingCr then [CR] + m else m, !e.atLineStart), !e.atLineStart)
  }

  lemma {:induction false} DrainIsStuffed(e: Encoder, m: seq<Byte>)
    ensures Drain(e, m) == Owed(e, m)
    decreases |m|, e.pendingCr
  {
    if m == [] {
      OwedAtEnd(e);
    } else {
      DrainIsStuffed(Feed(e, m[0]).1, m[1..]);
      OwedStep(e, m);
    }
  }

  lemma {:induction false} OwedAtEnd(e: Encoder)
    ensures Owed(e, []) == Flush(e)
  {
    StuffCr([], !e.atLineStart);
    assert CRLF[2..] == [] && Stuff(CRLF, true) == CRLF && CRLF + [] == CRLF;
  }

  /** Feeding one byte pays what the encoder owes for it. */
  lemma {:induction false} OwedStep(e: Encoder, m: seq<Byte>)
    requires m != []
    ensures Owed(e, m) == Feed(e, m[0]).0 + Owed(Feed(e, m[0]).1, m[1..])
  {
    assert [m[0]] + m[1..] == m;
    if e.pendingCr {
      StuffCr(m, !e.atLineStart);
      if m[0] != LF {
        OwedPlain(Encoder(true, false), m[0], m[1..]);
        assert CRLF + (Feed(Encoder(true, false), m[0]).0 + Owed(Feed(e, m[0]).1, m[1..])) ==
               Feed(e, m[0]).0 + Owed(Feed(e, m[0]).1, m[1..]);
      }
    } else {
      OwedPlain(e, m[0], m[1..]);
    }
  }

  lemma {:induction false} OwedPlain(e: Encoder, b: Byte, rest: seq<Byte>)
    requires !e.pendingCr
    ensures Owed(e, [b] + rest) == Feed(e, b).0 + Owed(Feed(e, b).1, rest)
  {
    if b == CR {
      var owed := Owed(Encoder(e.atLineStart, true), rest);
      assert [] + owed == owed;
    } else {
      StuffHead(b, rest, e.atLineStart);
      var head := if e.atLineStart && b == DOT then [DOT, b] else [b];
      assert [] + head == head;
    }
  }

  lemma {:induction false} StuffCr(m: seq<Byte>, open: bool)
    ensures Stuff(Normalize([CR] + m, open), open) ==
            CRLF + Stuff(Normalize(if m != [] && m[0] == LF then m[1..] else m))
  {
    var inner := Normalize(if m != [] && m[0] == LF then m[1..] else m);
    assert ([CR] + m)[1..] == m;
    if m != [] {
      assert ([CR] + m)[2..] == m[1..];
    }
    assert Normalize([CR] + m, open) == CRLF + inner;
    assert (CRLF + inner)[2..] == inner;
  }

  /** How the simple meaning of a message unfolds over its first byte. */
  lemma {:induction false} StuffHead(b: Byte, rest: seq<Byte>, atLineStart: bool)
    ensures b == LF ==> Stuff(Normalize([b] + rest, !atLineStart), !atLineStart) == CRLF + Stuff(Normalize(rest))
    ensures b != LF && b != CR ==>
      Stuff(Normalize([b] + rest, !atLineStart), !atLineStart) ==
      (if atLineStart && b == DOT then [DOT, b] else [b]) + Stuff(Normalize(rest, true), true)
  {
    assert ([b] + rest)[1..] == rest;
    if b == LF {
      assert (CRLF + Normalize(rest))[2..] == Normalize(rest);
    } else if b != CR {
      assert ([b] + Normalize(rest, true))[1..] == Normalize(rest, true);
    }
  }

  /** The streaming encoder computes the dot-stuffed normal form of the whole message. */
  lemma {:induction false} EncodeMeaning(m: seq<Byte>)
    ensures Encode(m) == Stuff(Normalize(m))
    ensures Canonical(Encode(m))
  {
    StreamThenDrain(m, []);
    assert m + [] == m;
    DrainIsStuffed(FRESH, m);
    NormalizeIsCanonical(m, false);
    StuffedIsCanonical(Normalize(m), false);
  }

  /** A CR that no LF follows, or an LF that no CR precedes. */
  predicate BareAt(s: seq<Byte>, i: nat)
    requires i < |s|
  {
    (s[i] == CR && !(i + 1 < |s| && s[i + 1] == LF)) || (s[i] == LF && !(i > 0 && s[i - 1] == CR))
  }

  /** Byte `i` begins a line that is a single dot; `open` says that byte 0 begins no line. */
  predicate DotLineAt(s: seq<Byte>, i: nat, open: bool)
    requires i < |s|
  {
    (if i == 0 then !open else s[i - 1] == LF) && EndsMessage(s[i..])
  }

  lemma {:induction false} NoBareByte(s: seq<Byte>, open: bool, i: nat)
    requires Canonical(s, open) && i < |s|
    ensures !BareAt(s, i) && |s| >= 2 && s[|s| - 2] == CR && s[|s| - 1] == LF
    decreases |s|
  {
    if EndsLine(s) {
      if |s| > 2 {
        NoBareByte(s[2..], false, if i >= 2 then i - 2 else 0);
      }
    } else {
      assert |s| > 1;
      NoBareByte(s[1..], true, if i >= 1 then i - 1 else 0);
    }
  }

  lemma {:induction false} NoDotLine(s: seq<Byte>, open: bool, i: nat)
    requires Canonical(s, open) && i < |Stuff(s, open)|
    ensures !DotLineAt(Stuff(s, open), i, open)
    decreases |s|
  {
    var t := Stuff(s, open);
    if EndsLine(s) {
      if i >= 2 {
        assert t == CRLF + Stuff(s[2..]) && t[i..] == Stuff(s[2..])[i - 2..];
        NoDotLine(s[2..], false, i - 2);
      }
    } else {
      var rest := Stuff(s[1..], true);
      var n := |t| - |rest|;
      if i >= n {
        assert t[i..] == rest[i - n..];
        NoDotLine(s[1..], true, i - n);
      }
    }
  }

  /** What is written has no bare CR or LF, ends in CR LF unless the message is empty, and has no
      line that is a single dot. */
  lemma {:induction false} EncodedLines(m: seq<Byte>)
    ensures forall i: nat | i < |Encode(m)| :: !BareAt(Encode(m), i) && !DotLineAt(Encode(m), i, false)
    ensures m != [] ==> |Encode(m)| >= 2 && Encode(m)[|Encode(m)| - 2..] == CRLF
  {
    var s := Encode(m);
    EncodeMeaning(m);
    NormalizeIsCanonical(m, false);
    forall i: nat | i < |s| ensures !BareAt(s, i) && !DotLineAt(s, i, false) {
      NoBareByte(s, false, i);
      NoDotLine(Normalize(m), false, i);
    }
    if m != [] {
      assert Normalize(m) != [];
      assert s != [];
      NoBareByte(s, false, 0);
    }
  }

  /** Transparency: a receiver recovers the normalised message from the encoded one. */
  lemma {:induction false} Transparency(m: seq<Byte>, rest: seq<Byte>)
    ensures Receive(Encode(m) + TERMINATOR + rest) == Some((Normalize(m), rest))
  {
    EncodeMeaning(m);
    NormalizeIsCanonical(m, false);
    ReceiveStuffed(Normalize(m), false, TERMINATOR + rest);
    assert Encode(m) + TERMINATOR + rest == Encode(m) + (TERMINATOR + rest);
    assert (TERMINATOR + rest)[3..] == rest;
  }

  /** Until the whole terminator is out, nothing written ends the message. */
  lemma {:induction false} NoEarlyEnd(m: seq<Byte>, sent: seq<Byte>)
    requires sent <= Encode(m) + TERMINATOR[..2]
    ensures Receive(sent) == None
  {
    EncodeMeaning(m);
    NormalizeIsCanonical(m, false);
    UnterminatedPrefix(Normalize(m), false, sent);
  }

  // ---------------------------------------------------------------------------------------
  // Writing the spooled message to the channel
  // ---------------------------------------------------------------------------------------

  /** The message file.  A read returns any non-empty part of what was asked for. */
  class Spool {
    const data: seq<Byte>
    var pos: nat

    constructor (data: seq<Byte>)
      ensures this.data == data && pos == 0
    {
      this.data := data;
      pos := 0;
    }

    method Read(n: nat) returns (chunk: seq<Byte>)
      requires pos <= |data|
      modifies this
      ensures old(pos) <= pos <= |data| && chunk == data[old(pos)..pos] && |chunk| <= n
      ensures chunk == [] <==> n == 0 || old(pos) == |data|
    {
      var k: int := *;
      if k <= 0 || k > n || k > |data| - pos {
        k := if n <= |data| - pos then n else |data| - pos;
      }
      chunk := data[pos..pos + k];
      pos := pos + k;
    }
  }

  /** The outgoing half of the connection.  A failed write may have sent any part. */
  class Outlet {
    var written: seq<Byte>
    var broken: bool

    constructor ()
      ensures written == [] && !broken
    {
      written, broken := [], false;
    }

    method Write(bytes: seq<Byte>) returns (ok: bool)
      modifies this
      ensures old(written) <= written <= old(written) + bytes
      ensures ok ==> written == old(written) + bytes
      ensures broken == (old(broken) || !ok)
    {
      ok := *;
      if ok {
        written := written + bytes;
      } else {
        broken := true;
        var k: int := *;
        if 0 <= k <= |bytes| {
          written := written + bytes[..k];
        }
      }
    }
  }

  datatype WriteResult = Written | SpoolEnded | SpoolTooLong | ChannelFailed

  /** Buffer `value`; a full block goes out at once. */
  method Emit(outlet: Outlet, output: seq<Byte>, value: seq<Byte>) returns (output': seq<Byte>, ok: bool)
    modifies outlet
    ensures old(outlet.written) <= outlet.written <= old(outlet.written) + output + value
    ensures ok ==> outlet.written + output' == old(outlet.written) + output + value
    ensures outlet.broken == (old(outlet.broken) || !ok)
  {
    output', ok := output + value, true;
    assert old(outlet.written) + output + value == old(outlet.written) + output';
    if |output'| >= BLOCK {
      ok := outlet.Write(output');
      output' := [];
    }
  }

  /** A byte that ends no pending CR. */
  method PushPlain(outlet: Outlet, output: seq<Byte>, atLineStart: bool, value: Byte)
    returns (output': seq<Byte>, e': Encoder, ok: bool)
    modifies outlet
    ensures old(outlet.written) <= outlet.written <= old(outlet.written) + output
        + Feed(Encoder(atLineStart, false), value).0
    ensures ok ==> outlet.written + output' == old(outlet.written) + output + Feed(Encoder(atLineStart, false), value).0
    ensures ok ==> e' == Feed(Encoder(atLineStart, false), value).1
    ensures outlet.broken == (old(outlet.broken) || !ok)
  {
    output', e', ok := output, Encoder(atLineStart, false), true;
    if value == CR {
      e' := Encoder(atLineStart, true);
    } else if value == LF {
      output', ok := Emit(outlet, output', CRLF);
      e' := Encoder(true, false);
    } else {
      if atLineStart && value == DOT {
        output', ok := Emit(outlet, output', [DOT]);
        if !ok { return; }
        assert old(outlet.written) + output + [DOT, value] == old(outlet.written) + output + [DOT] + [value];
      }
      output', ok := Emit(outlet, output', [value]);
      e' := Encoder(false, false);
    }
  }

  /** One byte of the message through the encoder. */
  method Push(outlet: Outlet, output: seq<Byte>, e: Encoder, value: Byte)
    returns (output': seq<Byte>, e': Encoder, ok: bool)
    modifies outlet
    ensures old(outlet.written) <= outlet.written <= old(outlet.written) + output + Feed(e, value).0
    ensures ok ==> outlet.written + output' == old(outlet.written) + output + Feed(e, value).0 && e' == Feed(e, value).1
    ensures outlet.broken == (old(outlet.broken) || !ok)
  {
    output', e', ok := output, e, true;
    var atLineStart := e.atLineStart;
    if e.pendingCr {
      output', ok := Emit(outlet, output', CRLF);
      if !ok { return; }
      atLineStart := true;
      if value == LF {
        return output', Encoder(true, false), ok;
      }
      assert old(outlet.written) + output + CRLF + Feed(Encoder(true, false), value).0 ==
             old(outlet.written) + output + Feed(e, value).0;
    }
    output', e', ok := PushPlain(outlet, output', atLineStart, value);
  }

  /** A chunk of the message through the encoder; `read` came before it. */
  method PushAll(outlet: Outlet, output: seq<Byte>, e: Encoder, chunk: seq<Byte>, ghost before: seq<Byte>,
      ghost read: seq<Byte>)
    returns (output': seq<Byte>, e': Encoder, ok: bool)
    requires Buffered(before, outlet.written, output, e, read)
    modifies outlet
    ensures before <= outlet.written
    ensures ok ==> Buffered(before, outlet.written, output', e', read + chunk)
    ensures !ok ==> exists i | 0 <= i <= |chunk| :: outlet.written <= before + Stream(read + chunk[..i]).0
    ensures outlet.broken == (old(outlet.broken) || !ok)
  {
    output', e', ok := output, e, true;
    var i := 0;
    assert read + chunk[..0] == read;
    while i < |chunk|
      invariant 0 <= i <= |chunk| && ok && outlet.broken == old(outlet.broken)
      invariant before <= outlet.written
      invariant outlet.written + output' == before + Stream(read + chunk[..i]).0
      invariant e' == Stream(read + chunk[..i]).1
    {
      ghost var next := before + Stream(read + chunk[..i + 1]).0;
      StreamGrows(before, read + chunk[..i], chunk[i]);
      assert read + chunk[..i] + [chunk[i]] == read + chunk[..i + 1];
      assert outlet.written + output' + Feed(e', chunk[i]).0 == next;
      output', e', ok := Push(outlet, output', e', chunk[i]);
      i := i + 1;
      if !ok {
        assert outlet.written <= next;
        return;
      }
    }
    assert chunk[..i] == chunk;
  }

  /** The declared number of bytes through the encoder, in chunks of any size. */
  method CopyData(outlet: Outlet, spool: Spool, declared: nat) returns (output: seq<Byte>, e: Encoder, r: WriteResult)
    requires spool.pos == 0 && !outlet.broken
    modifies outlet, spool
    ensures r == Written || r == SpoolEnded || r == ChannelFailed
    ensures r == ChannelFailed <==> outlet.broken
    ensures r == Written ==> spool.pos == declared <= |spool.data|
    ensures r == Written ==> Buffered(old(outlet.written), outlet.written, output, e, spool.data[..declared])
    ensures r == SpoolEnded ==> |spool.data| < declared
    ensures r != Written ==> PartSent(old(outlet.written), outlet.written, spool.data)
    ensures old(outlet.written) <= outlet.written
  {
    ghost var before := outlet.written;
    var remaining := declared;
    output, e, r := [], FRESH, Written;
    while remaining > 0
      invariant 0 <= remaining && spool.pos + remaining == declared && spool.pos <= |spool.data|
      invariant !outlet.broken
      invariant Buffered(before, outlet.written, output, e, spool.data[..spool.pos])
    {
      ghost var start := spool.pos;
      var chunk := spool.Read(if remaining < BLOCK then remaining else BLOCK);
      if chunk == [] {
        PartOfEncoding(before, outlet.written, output, spool.data, start);
        return output, e, SpoolEnded;
      }
      remaining := remaining - |chunk|;
      ghost var read := spool.data[..start];
      var ok;
      output, e, ok := PushAll(outlet, output, e, chunk, before, read);
      assert read + chunk == spool.data[..spool.pos];
      if !ok {
        ghost var i :| 0 <= i <= |chunk| && outlet.written <= before + Stream(read + chunk[..i]).0;
        assert read + chunk[..i] == spool.data[..start + i];
        PartOfEncoding(before, outlet.written, [], spool.data, start + i);
        return output, e, ChannelFailed;
      }
    }
  }

  /** Send the whole message: on success exactly its encoding has been written, and at no
      moment anything but a prefix of the encoding of what has been read. */
  method WriteData(outlet: Outlet, spool: Spool, declared: nat) returns (r: WriteResult)
    requires spool.pos == 0 && !outlet.broken
    modifies outlet, spool
    ensures r == ChannelFailed <==> outlet.broken
    ensures r == Written ==> |spool.data| == declared && outlet.written == old(outlet.written) + Encode(spool.data)
    ensures r == SpoolEnded ==> |spool.data| < declared
    ensures r == SpoolTooLong ==> |spool.data| > declared
    ensures old(outlet.written) <= outlet.written
    ensures PartSent(old(outlet.written), outlet.written, spool.data)
  {
    ghost var before := outlet.written;
    var output, e;
    output, e, r := CopyData(outlet, spool, declared);
    if r != Written {
      return;
    }
    var extra := spool.Read(1);
    if extra != [] {
      PartOfEncoding(before, outlet.written, output, spool.data, declared);
      return SpoolTooLong;
    }
    assert spool.data[..declared] == spool.data;
    var ok := EndData(outlet, output, e, before, spool.data);
    assert outlet.written <= before + Encode(spool.data[..declared]);
    r := if ok then Written else ChannelFailed;
  }

  /** End the last line if it is open and send what is still buffered. */
  method EndData(outlet: Outlet, output: seq<Byte>, e: Encoder, ghost before: seq<Byte>,
      ghost m: seq<Byte>) returns (ok: bool)
    requires Buffered(before, outlet.written, output, e, m)
    modifies outlet
    ensures before <= outlet.written <= before + Encode(m)
    ensures ok ==> outlet.written == before + Encode(m)
    ensures outlet.broken == (old(outlet.broken) || !ok)
  {
    var rest := output;
    ok := true;
    assert outlet.written + output + Flush(e) == before + Encode(m);
    if e.pendingCr || !e.atLineStart {
      rest, ok := Emit(outlet, rest, CRLF);
    }
    if ok && rest != [] {
      ok := outlet.Write(rest);
    }
  }

  /** What has been written and what is still buffered are together the encoding of `m`. */
  ghost predicate Buffered(before: seq<Byte>, written: seq<Byte>, output: seq<Byte>, e: Encoder, m: seq<Byte>) {
    before <= written && written + output == before + Stream(m).0 && e == Stream(m).1
  }

  /** Behind `before`, `written` holds part of the encoding of some beginning of `data`. */
  ghost predicate PartSent(before: seq<Byte>, written: seq<Byte>, data: seq<Byte>) {
    exists k :: 0 <= k <= |data| && written <= before + Encode(data[..k])
  }

  lemma {:induction false} PartOfEncoding(before: seq<Byte>, written: seq<Byte>, output: seq<Byte>, data: seq<Byte>,
      k: nat)
    requires k <= |data| && written + output <= before + Stream(data[..k]).0
    ensures PartSent(before, written, data)
  {
    var m := data[..k];
    assert before + Encode(m) == before + Stream(m).0 + Flush(Stream(m).1);
    assert written <= written + output;
    assert written <= before + Encode(data[..k]);
  }

  lemma {:induction false} StreamGrows(before: seq<Byte>, m: seq<Byte>, b: Byte)
    ensures before + Stream(m + [b]).0 == before + Stream(m).0 + Feed(Stream(m).1, b).0
    ensures Stream(m + [b]).1 == Feed(Stream(m).1, b).1
  {
    assert (m + [b])[..|m|] == m;
  }
}
