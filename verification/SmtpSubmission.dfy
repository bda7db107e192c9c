/**
 One submission over SMTP: replies read line by line (section 4.2.1 of RFC 5321), the
 conversation of `SMTPSubmissionClient.send`, and what each of its outcomes proves about
 the bytes the server has seen.
 */
module SmtpSubmission {
  import opened Options
  import opened SmtpData

  /** What the next read of a line yields: a line, or a transport failure or timeout. */
  datatype Incoming = Line(bytes: seq<Byte>) | Broken

  const REPLY_LIMIT := 65536

  predicate Digit(b: Byte) { 48 <= b <= 57 }

  predicate WellFormed(line: seq<Byte>) {
    |line| >= 4 && Digit(line[0]) && Digit(line[1]) && Digit(line[2])
  }

  function Code(line: seq<Byte>): int
    requires WellFormed(line)
  {
    Digits(line[0], line[1], line[2])
  }

  function Digits(a: int, b: int, c: int): int {
    (a - 48) * 100 + (b - 48) * 10 + (c - 48)
  }

  const DASH: Byte := 45
  const SPACE: Byte := 32

  /** The code of the reply at the head of `incoming` and the number of lines it took, or
      None if the reply is malformed or broken off.  `code` is what earlier lines of the
      reply said and `total` their length. */
  function Reply(incoming: seq<Incoming>, code: Option<int> := None, total: nat := 0): Option<(int, nat)> {
    if incoming == [] || incoming[0].Broken? then None
    else
      var line := incoming[0].bytes;
      if total + |line| > REPLY_LIMIT || !WellFormed(line) then None
      else if code.Some? && code.value != Code(line) then None
      else if line[3] == SPACE then Some((Code(line), 1))
      else if line[3] != DASH then None
      else
        var rest := Reply(incoming[1..], Some(Code(line)), total + |line|);
        if rest.None? then None else Some((rest.value.0, rest.value.1 + 1))
  }

  /** The lines of a reply as a conforming server sends them. */
  function Render(code: nat, texts: seq<seq<Byte>>): seq<Incoming>
    requires code <= 999
  {
    seq(|texts|, i requires 0 <= i < |texts| =>
      Line(Head(code, if i == |texts| - 1 then SPACE else DASH) + texts[i]))
  }

  function Head(code: nat, separator: Byte): seq<Byte>
    requires code <= 999
  {
    [48 + code / 100, 48 + code / 10 % 10, 48 + code % 10, separator]
  }

  function Size(lines: seq<Incoming>): nat {
    if lines == [] then 0
    else (if lines[0].Line? then |lines[0].bytes| else 0) + Size(lines[1..])
  }

  /** A well-formed multiline reply within the limit is read as its code, and the reading
      stops right behind it. */
  lemma {:induction false} ReplyReadsRendered(code: nat, texts: seq<seq<Byte>>, rest: seq<Incoming>,
      prior: Option<int>, total: nat)
    requires code <= 999 && texts != []
    requires prior == None || prior == Some(code)
    requires total + Size(Render(code, texts)) <= REPLY_LIMIT
    ensures Reply(Render(code, texts) + rest, prior, total) == Some((code, |texts|))
  {
    var lines := Render(code, texts);
    forall i | 0 <= i < |lines| ensures Says(lines[i], code, i == |lines| - 1) {
      RenderedHead(code, if i == |texts| - 1 then SPACE else DASH, texts[i]);
    }
    ReplyReads(lines, code, rest, prior, total);
  }

  /** A line of a reply with this code; only the last one has a space behind it. */
  ghost predicate Says(incoming: Incoming, code: int, last: bool) {
    && incoming.Line? && WellFormed(incoming.bytes) && Code(incoming.bytes) == code
    && incoming.bytes[3] == if last then SPACE else DASH
  }

  lemma {:induction false} ReplyReads(lines: seq<Incoming>, code: int, rest: seq<Incoming>, prior: Option<int>,
      total: nat)
    requires lines != [] && forall i :: 0 <= i < |lines| ==> Says(lines[i], code, i == |lines| - 1)
    requires (prior == None || prior == Some(code)) && total + Size(lines) <= REPLY_LIMIT
    ensures Reply(lines + rest, prior, total) == Some((code, |lines|))
    decreases |lines|
  {
    assert Says(lines[0], code, |lines| == 1) && (lines + rest)[0] == lines[0];
    if |lines| > 1 {
      assert (lines + rest)[1..] == lines[1..] + rest;
      ReplyReads(lines[1..], code, rest, Some(code), total + |lines[0].bytes|);
    }
  }

  /** And nothing else is read as a reply: only lines that all bear the code, the last one with a
      space behind it, and that keep within the limit. */
  lemma {:induction false} ReplyExactly(incoming: seq<Incoming>, code: int, n: nat)
    ensures Reply(incoming) == Some((code, n)) <==>
      && 1 <= n <= |incoming| && Size(incoming[..n]) <= REPLY_LIMIT
      && forall i :: 0 <= i < n ==> Says(incoming[i], code, i == n - 1)
  {
    if Reply(incoming) == Some((code, n)) {
      ReplyTakes(incoming, None, 0);
      ReplySays(incoming, None, 0);
    }
    if 1 <= n <= |incoming| && Size(incoming[..n]) <= REPLY_LIMIT
        && (forall i :: 0 <= i < n ==> Says(incoming[i], code, i == n - 1)) {
      assert incoming == incoming[..n] + incoming[n..];
      ReplyReads(incoming[..n], code, incoming[n..], None, 0);
    }
  }

  lemma {:induction false} ReplySays(incoming: seq<Incoming>, prior: Option<int>, total: nat)
    requires Reply(incoming, prior, total).Some? && 1 <= Reply(incoming, prior, total).value.1 <= |incoming|
    ensures var (code, n) := Reply(incoming, prior, total).value;
      && (prior.Some? ==> prior.value == code) && total + Size(incoming[..n]) <= REPLY_LIMIT
      && forall i :: 0 <= i < n ==> Says(incoming[i], code, i == n - 1)
    decreases |incoming|
  {
    var (code, n) := Reply(incoming, prior, total).value;
    var line := incoming[0].bytes;
    assert incoming[..n][1..] == incoming[1..][..n - 1];
    if line[3] == DASH {
      ReplyTakes(incoming[1..], Some(Code(line)), total + |line|);
      ReplySays(incoming[1..], Some(Code(line)), total + |line|);
      assert forall i :: 1 <= i < n ==> incoming[i] == incoming[1..][i - 1];
    }
  }

  lemma {:induction false} RenderedHead(code: nat, separator: Byte, text: seq<Byte>)
    requires code <= 999 && (separator == SPACE || separator == DASH)
    ensures var line := Head(code, separator) + text; WellFormed(line) && Code(line) == code && line[3] == separator
  {
    assert code == code / 100 * 100 + code / 10 % 10 * 10 + code % 10;
  }

  /** The codes of all complete replies, up to where one is broken off or malformed. */
  function Heard(incoming: seq<Incoming>): seq<int>
    decreases |incoming|
  {
    var reply := Reply(incoming);
    if reply.None? then []
    else
      ReplyTakes(incoming, None, 0);
      [reply.value.0] + Heard(incoming[reply.value.1..])
  }

  lemma {:induction false} ReplyTakes(incoming: seq<Incoming>, code: Option<int>, total: nat)
    ensures Reply(incoming, code, total).Some? ==> 1 <= Reply(incoming, code, total).value.1 <= |incoming|
    decreases |incoming|
  {
    if incoming != [] && incoming[0].Line? && WellFormed(incoming[0].bytes) {
      ReplyTakes(incoming[1..], Some(Code(incoming[0].bytes)), total + |incoming[0].bytes|);
    }
  }

  /** The replies of a conforming server, one after the other. */
  function RenderAll(replies: seq<(nat, seq<seq<Byte>>)>): seq<Incoming>
    requires forall r <- replies :: r.0 <= 999
  {
    if replies == [] then [] else Render(replies[0].0, replies[0].1) + RenderAll(replies[1..])
  }

  /** All of them are heard. */
  lemma {:induction false} HeardRendered(replies: seq<(nat, seq<seq<Byte>>)>)
    requires forall r <- replies :: r.0 <= 999 && r.1 != [] && Size(Render(r.0, r.1)) <= REPLY_LIMIT
    ensures Heard(RenderAll(replies)) == seq(|replies|, i requires 0 <= i < |replies| => replies[i].0)
  {
    if replies != [] {
      var r, rest := replies[0], RenderAll(replies[1..]);
      ReplyReadsRendered(r.0, r.1, rest, None, 0);
      HeardRendered(replies[1..]);
      assert (Render(r.0, r.1) + rest)[|r.1|..] == rest;
    }
  }

  // ---------------------------------------------------------------------------------------
  // The conversation
  // ---------------------------------------------------------------------------------------

  /** A connection.  `replies` records each complete reply with the number of bytes that had
      been written when it was read. */
  class Channel {
    const out: Outlet
    var incoming: seq<Incoming>
    ghost var replies: seq<(nat, int)>

    constructor (out: Outlet, incoming: seq<Incoming>)
      ensures this.out == out && this.incoming == incoming && replies == []
    {
      this.out := out;
      this.incoming := incoming;
      replies := [];
    }

    /** Read one complete reply. */
    method Response() returns (code: Option<int>)
      modifies this`incoming, this`replies
      ensures code.Some? <==> Reply(old(incoming)).Some?
      ensures code.Some? ==> Reply(old(incoming)).value.0 == code.value
      ensures code.Some? ==> incoming == old(incoming)[Consumed(Reply(old(incoming)), |old(incoming)|)..]
      ensures Heard(old(incoming)) == if code.Some? then [code.value] + Heard(incoming) else []
      ensures replies == old(replies) + (if code.Some? then [(|out.written|, code.value)] else [])
    {
      ReplyTakes(incoming, None, 0);
      var expected: Option<int> := None;
      var total, taken := 0, 0;
      while true
        invariant 0 <= taken <= |old(incoming)| && incoming == old(incoming)[taken..]
        invariant total >= 0 && replies == old(replies)
        invariant Reply(old(incoming)) == Later(Reply(incoming, expected, total), taken)
        decreases |incoming|
      {
        if incoming == [] || incoming[0].Broken? {
          return None;
        }
        var line := incoming[0].bytes;
        total := total + |line|;
        if total > REPLY_LIMIT || !WellFormed(line) {
          return None;
        }
        if expected.Some? && expected.value != Code(line) {
          return None;
        }
        expected := Some(Code(line));
        incoming, taken := incoming[1..], taken + 1;
        if line[3] == SPACE {
          replies := replies + [(|out.written|, Code(line))];
          return Some(Code(line));
        }
        if line[3] != DASH {
          return None;
        }
      }
    }

    /** Send one command line and read its reply; `refusal` is the code of an unexpected one. */
    method Command(command: seq<Byte>, expected: set<int>) returns (code: int, refusal: Option<int>, ok: bool)
      requires !out.broken
      modifies this, out
      ensures old(out.written) <= out.written && old(replies) <= replies
      ensures ok ==> !out.broken && code in expected && refusal == None
      ensures out.written <= old(out.written) + command + CRLF
      ensures ok || refusal.Some? ==> !out.broken && out.written == old(out.written) + command + CRLF
      ensures ok ==> Heard(old(incoming)) == [code] + Heard(incoming)
      ensures ok ==> replies == old(replies) + [(|out.written|, code)]
      ensures refusal.Some? ==> !ok && refusal.value !in expected
      ensures refusal.Some? ==> Heard(old(incoming)) == [refusal.value] + Heard(incoming)
      ensures refusal.Some? ==> replies == old(replies) + [(|out.written|, refusal.value)]
      ensures !ok && refusal.None? ==> replies == old(replies) && (out.broken || Heard(old(incoming)) == [])
    {
      code, refusal := 0, None;
      ok := out.Write(command + CRLF);
      if !ok {
        return;
      }
      var reply := Response();
      if reply.None? {
        ok := false;
      } else {
        code := reply.value;
        if code !in expected {
          refusal, ok := Some(code), false;
        }
      }
    }
  }

  function Consumed(reply: Option<(int, nat)>, limit: nat): (n: nat)
    ensures n <= limit
  {
    if reply.Some? && reply.value.1 <= limit then reply.value.1 else limit
  }

  function Later(reply: Option<(int, nat)>, taken: nat): Option<(int, nat)> {
    if reply.None? then None else Some((reply.value.0, reply.value.1 + taken))
  }

  datatype Stage = Greeting | Ehlo | Auth | MailFrom | RcptTo | Data | Body

  datatype Outcome =
    | Accepted(recipients: nat)
    | Rejected(code: int, stage: Stage)
    | TransportFailed
    | OutcomeUnknown
    | InvalidArgument

  /** The address and credential lines of one submission, already checked and encoded. */
  datatype Envelope = Envelope(ehlo: seq<Byte>, auth: seq<Byte>, credentials: seq<Byte>,
                               mailFrom: seq<Byte>, rcptTo: seq<seq<Byte>>, data: seq<Byte>, quit: seq<Byte>)

  /** The command lines in order; a server may ask for the credentials in a second line. */
  function Lines(env: Envelope, challenged: bool): seq<seq<Byte>> {
    [env.ehlo, env.auth] + (if challenged then [env.credentials] else []) + [env.mailFrom] + env.rcptTo + [env.data]
  }

  /** The bytes of command lines. */
  function Transcript(lines: seq<seq<Byte>>): seq<Byte> {
    if lines == [] then [] else Transcript(lines[..|lines| - 1]) + lines[|lines| - 1] + CRLF
  }

  /** Whether the server asks for the credentials: the third reply is then 334. */
  predicate Challenged(heard: seq<int>) {
    |heard| > 2 && heard[2] == 334
  }

  /** The reply to the `j`-th line of the envelope behind authentication. */
  function AfterLogin(heard: seq<int>, i: nat): int {
    i - 3 - (if Challenged(heard) then 1 else 0)
  }

  /** The `i`-th reply is one that lets the submission of `n` recipients go on. */
  predicate Fits(heard: seq<int>, n: nat, i: nat)
    requires i < |heard|
  {
    var j := AfterLogin(heard, i);
    if i == 0 then heard[i] == 220
    else if i == 1 then heard[i] == 250
    else if i == 2 then heard[i] == 235 || heard[i] == 334
    else if j < 0 then heard[i] == 235
    else if j == 0 then heard[i] == 250
    else if j <= n then heard[i] == 250 || heard[i] == 251
    else j == n + 1 && heard[i] == 354
  }

  /** What the `i`-th reply answers. */
  function StageOf(heard: seq<int>, n: nat, i: nat): Stage {
    var j := AfterLogin(heard, i);
    if i == 0 then Greeting else if i == 1 then Ehlo else if i == 2 || j < 0 then Auth
    else if j == 0 then MailFrom else if j <= n then RcptTo else Data
  }

  /** The number of replies up to the go-ahead. */
  function Total(heard: seq<int>, n: nat): nat {
    if Challenged(heard) then n + 6 else n + 5
  }

  /** The replies up to the go-ahead, all as they should be. */
  ghost predicate Granted(heard: seq<int>, n: nat) {
    |heard| >= Total(heard, n) && forall i :: 0 <= i < Total(heard, n) ==> Fits(heard, n, i)
  }

  /** The `m` replies read since `from` are the first ones of `heard`. */
  ghost predicate Read(replies: seq<(nat, int)>, from: nat, heard: seq<int>, m: nat) {
    |replies| == from + m && m <= |heard| && forall i :: 0 <= i < m ==> replies[from + i].1 == heard[i]
  }

  ghost predicate AllFit(heard: seq<int>, n: nat, m: nat)
    requires m <= |heard|
  {
    forall i :: 0 <= i < m ==> Fits(heard, n, i)
  }

  /** How far a submission has come: `m` replies are read and fit, and exactly the lines they
      answer were written behind `base`. */
  ghost predicate On(ch: Channel, lines: seq<seq<Byte>>, n: nat, heard: seq<int>, m: nat, from: nat, base: seq<Byte>)
    reads ch, ch.out
  {
    && Read(ch.replies, from, heard, m) && AllFit(heard, n, m) && Heard(ch.incoming) == heard[m..]
    && !ch.out.broken && 1 <= m <= |lines| + 1 && ch.out.written == base + Transcript(lines[..m - 1])
  }

  /** Why a submission stopped before the go-ahead: the last reply read, and no earlier one,
      does not fit; or all fit, but the channel broke or there was no further reply. */
  ghost predicate StoppedBy(replies: seq<(nat, int)>, from: nat, heard: seq<int>, n: nat, broken: bool, o: Outcome) {
    exists m :: 0 <= m < Total(heard, n) && StoppedAt(replies, from, heard, n, broken, o, m)
  }

  ghost predicate StoppedAt(replies: seq<(nat, int)>, from: nat, heard: seq<int>, n: nat, broken: bool, o: Outcome,
      m: nat)
  {
    match o
    case TransportFailed => Read(replies, from, heard, m) && AllFit(heard, n, m) && (broken || m == |heard|)
    case Rejected(code, stage) =>
      && Read(replies, from, heard, m + 1) && AllFit(heard, n, m) && !Fits(heard, n, m)
      && code == heard[m] && stage == StageOf(heard, n, m)
    case _ => false
  }

  /** Nothing but command lines was written. */
  ghost predicate Within(written: seq<Byte>, base: seq<Byte>, lines: seq<seq<Byte>>) {
    base <= written <= base + Transcript(lines)
  }

  lemma {:induction false} TranscriptGrows(lines: seq<seq<Byte>>, k: nat)
    requires k < |lines|
    ensures Transcript(lines[..k + 1]) == Transcript(lines[..k]) + lines[k] + CRLF
    ensures Transcript(lines[..k + 1]) <= Transcript(lines)
    decreases |lines| - k
  {
    assert lines[..k + 1][..k] == lines[..k];
    if k + 1 < |lines| {
      TranscriptGrows(lines, k + 1);
    } else {
      assert lines[..k + 1] == lines;
    }
  }

  lemma {:induction false} NextWithin(written: seq<Byte>, written': seq<Byte>, base: seq<Byte>, lines: seq<seq<Byte>>,
      k: nat)
    requires k < |lines| && written == base + Transcript(lines[..k]) <= written' <= written + lines[k] + CRLF
    ensures Within(written', base, lines)
    ensures written' == written + lines[k] + CRLF ==> written' == base + Transcript(lines[..k + 1])
  {
    TranscriptGrows(lines, k);
    assert written + lines[k] + CRLF == base + (Transcript(lines[..k]) + lines[k] + CRLF);
  }

  /** The lines one by one, and how many replies they need. */
  ghost predicate Scripted(lines: seq<seq<Byte>>, env: Envelope, heard: seq<int>) {
    var k := if Challenged(heard) then 3 else 2;
    && |lines| == Total(heard, |env.rcptTo|) - 1 == k + 2 + |env.rcptTo|
    && lines[0] == env.ehlo && lines[1] == env.auth && (Challenged(heard) ==> lines[2] == env.credentials)
    && lines[k] == env.mailFrom && lines[k + 1 + |env.rcptTo|] == env.data
    && forall i :: 0 <= i < |env.rcptTo| ==> lines[k + 1 + i] == env.rcptTo[i]
  }

  lemma {:induction false} LinesAre(env: Envelope, heard: seq<int>)
    ensures Scripted(Lines(env, Challenged(heard)), env, heard)
  {
  }

  /** The next reply belongs to this stage, and these codes let it go on. */
  ghost predicate Awaits(heard: seq<int>, n: nat, m: nat, stage: Stage, expected: set<int>) {
    stage == StageOf(heard, n, m) && (m < |heard| ==> (heard[m] in expected <==> Fits(heard, n, m)))
  }

  lemma {:induction false} AwaitsEnvelope(heard: seq<int>, n: nat, m: nat)
    requires m >= 3 && AfterLogin(heard, m) == 0
    ensures Awaits(heard, n, m, MailFrom, {250}) && Awaits(heard, n, m + 1 + n, Data, {354})
    ensures forall k :: m + 1 <= k < m + 1 + n ==> Awaits(heard, n, k, RcptTo, {250, 251})
  {
  }

  /** Send the line that comes next and judge the reply. */
  method Ask(ch: Channel, line: seq<Byte>, expected: set<int>, stage: Stage, ghost lines: seq<seq<Byte>>, ghost n: nat,
             ghost heard: seq<int>, ghost m: nat, ghost from: nat, ghost base: seq<Byte>)
    returns (code: int, stop: Option<Outcome>)
    requires On(ch, lines, n, heard, m, from, base) && m <= |lines| == Total(heard, n) - 1 && line == lines[m - 1]
    requires Awaits(heard, n, m, stage, expected)
    modifies ch, ch.out
    ensures stop.None? ==> On(ch, lines, n, heard, m + 1, from, base) && code == heard[m] && code in expected
    ensures stop.None? ==> ch.replies[|ch.replies| - 1] == (|ch.out.written|, code)
    ensures stop.Some? ==> Within(ch.out.written, base, lines)
    ensures stop.Some? ==> StoppedBy(ch.replies, from, heard, n, ch.out.broken, stop.value)
    ensures old(ch.replies) <= ch.replies
  {
    var refusal, ok;
    code, refusal, ok := ch.Command(line, expected);
    NextWithin(old(ch.out.written), ch.out.written, base, lines, m - 1);
    stop := if ok then None else Some(if refusal.Some? then Rejected(refusal.value, stage) else TransportFailed);
    assert ok || refusal.Some? ==> m < |heard| && heard[m..][0] == heard[m] && heard[m..][1..] == heard[m + 1..];
    assert !ok ==> StoppedAt(ch.replies, from, heard, n, ch.out.broken, stop.value, m);
  }

  /** Everything up to the go-ahead for the message body; None is the go-ahead. */
  method Open(ch: Channel, env: Envelope, ghost lines: seq<seq<Byte>>, ghost heard: seq<int>)
    returns (stop: Option<Outcome>)
    requires !ch.out.broken && heard == Heard(ch.incoming) && Scripted(lines, env, heard)
    modifies ch, ch.out
    ensures old(ch.replies) <= ch.replies
    ensures stop.None? ==>
      && On(ch, lines, |env.rcptTo|, heard, |lines| + 1, |old(ch.replies)|, old(ch.out.written))
      && ch.replies[|ch.replies| - 1] == (|ch.out.written|, 354)
    ensures stop.Some? ==>
      && StoppedBy(ch.replies, |old(ch.replies)|, heard, |env.rcptTo|, ch.out.broken, stop.value)
      && Within(ch.out.written, old(ch.out.written), lines)
  {
    ghost var from, base := |ch.replies|, ch.out.written;
    stop := Authenticate(ch, env, lines, heard);
    if stop.None? {
      stop := SendEnvelope(ch, env, lines, heard, from, base);
    }
  }

  /** Greeting, EHLO and authentication. */
  method Authenticate(ch: Channel, env: Envelope, ghost lines: seq<seq<Byte>>, ghost heard: seq<int>)
    returns (stop: Option<Outcome>)
    requires !ch.out.broken && heard == Heard(ch.incoming) && Scripted(lines, env, heard)
    modifies ch, ch.out
    ensures old(ch.replies) <= ch.replies
    ensures stop.None? ==> On(ch, lines, |env.rcptTo|, heard, if Challenged(heard) then 4 else 3, |old(ch.replies)|,
                              old(ch.out.written))
    ensures stop.Some? ==>
      && StoppedBy(ch.replies, |old(ch.replies)|, heard, |env.rcptTo|, ch.out.broken, stop.value)
      && Within(ch.out.written, old(ch.out.written), lines)
  {
    ghost var from, base, n := |ch.replies|, ch.out.written, |env.rcptTo|;
    stop := Greeted(ch, lines, n, heard);
    if stop.Some? { return; }
    var code;
    code, stop := Ask(ch, env.ehlo, {250}, Ehlo, lines, n, heard, 1, from, base);
    if stop.Some? { return; }
    code, stop := Ask(ch, env.auth, {235, 334}, Auth, lines, n, heard, 2, from, base);
    if stop.Some? { return; }
    if code == 334 {
      code, stop := Ask(ch, env.credentials, {235}, Auth, lines, n, heard, 3, from, base);
    }
  }

  method Greeted(ch: Channel, ghost lines: seq<seq<Byte>>, ghost n: nat, ghost heard: seq<int>)
    returns (stop: Option<Outcome>)
    requires !ch.out.broken && heard == Heard(ch.incoming)
    modifies ch
    ensures old(ch.replies) <= ch.replies
    ensures stop.None? ==> On(ch, lines, n, heard, 1, |old(ch.replies)|, ch.out.written)
    ensures stop.Some? ==> Within(ch.out.written, ch.out.written, lines)
    ensures stop.Some? ==> StoppedBy(ch.replies, |old(ch.replies)|, heard, n, ch.out.broken, stop.value)
  {
    var greeting := ch.Response();
    if greeting.None? {
      stop := Some(TransportFailed);
    } else {
      assert heard[1..] == Heard(ch.incoming);
      stop := if greeting.value != 220 then Some(Rejected(greeting.value, Greeting)) else None;
    }
    assert stop.Some? ==> StoppedAt(ch.replies, |old(ch.replies)|, heard, n, ch.out.broken, stop.value, 0);
  }

  /** Sender, recipients and the request to send the message. */
  method SendEnvelope(ch: Channel, env: Envelope, ghost lines: seq<seq<Byte>>, ghost heard: seq<int>, ghost from: nat,
                      ghost base: seq<Byte>)
    returns (stop: Option<Outcome>)
    requires Scripted(lines, env, heard)
    requires On(ch, lines, |env.rcptTo|, heard, if Challenged(heard) then 4 else 3, from, base)
    modifies ch, ch.out
    ensures old(ch.replies) <= ch.replies
    ensures stop.None? ==> On(ch, lines, |env.rcptTo|, heard, |lines| + 1, from, base)
    ensures stop.None? ==> ch.replies[|ch.replies| - 1] == (|ch.out.written|, 354)
    ensures stop.Some? ==> StoppedBy(ch.replies, from, heard, |env.rcptTo|, ch.out.broken, stop.value)
    ensures stop.Some? ==> Within(ch.out.written, base, lines)
  {
    ghost var n, m := |env.rcptTo|, if Challenged(heard) then 4 else 3;
    AwaitsEnvelope(heard, n, m);
    stop := SendAddresses(ch, env, lines, heard, m, from, base);
    if stop.Some? { return; }
    var code;
    code, stop := Ask(ch, env.data, {354}, Data, lines, n, heard, m + 1 + n, from, base);
  }

  method SendAddresses(ch: Channel, env: Envelope, ghost lines: seq<seq<Byte>>, ghost heard: seq<int>, ghost m: nat,
                       ghost from: nat, ghost base: seq<Byte>)
    returns (stop: Option<Outcome>)
    requires Scripted(lines, env, heard) && m == (if Challenged(heard) then 4 else 3)
    requires On(ch, lines, |env.rcptTo|, heard, m, from, base)
    modifies ch, ch.out
    ensures old(ch.replies) <= ch.replies
    ensures stop.None? ==> On(ch, lines, |env.rcptTo|, heard, m + 1 + |env.rcptTo|, from, base)
    ensures stop.Some? ==> StoppedBy(ch.replies, from, heard, |env.rcptTo|, ch.out.broken, stop.value)
    ensures stop.Some? ==> Within(ch.out.written, base, lines)
  {
    AwaitsEnvelope(heard, |env.rcptTo|, m);
    var code;
    code, stop := Ask(ch, env.mailFrom, {250}, MailFrom, lines, |env.rcptTo|, heard, m, from, base);
    if stop.Some? { return; }
    stop := SendRecipients(ch, env.rcptTo, lines, heard, m + 1, from, base);
  }

  method SendRecipients(ch: Channel, rcptTo: seq<seq<Byte>>, ghost lines: seq<seq<Byte>>, ghost heard: seq<int>,
                        ghost m: nat, ghost from: nat, ghost base: seq<Byte>)
    returns (stop: Option<Outcome>)
    requires On(ch, lines, |rcptTo|, heard, m, from, base) && m + |rcptTo| <= |lines|
    requires forall k :: m <= k < m + |rcptTo| ==> Awaits(heard, |rcptTo|, k, RcptTo, {250, 251})
    requires |lines| == Total(heard, |rcptTo|) - 1 && forall i :: 0 <= i < |rcptTo| ==> lines[m - 1 + i] == rcptTo[i]
    modifies ch, ch.out
    ensures old(ch.replies) <= ch.replies
    ensures stop.None? ==> On(ch, lines, |rcptTo|, heard, m + |rcptTo|, from, base)
    ensures stop.Some? ==> Within(ch.out.written, base, lines)
    ensures stop.Some? ==> StoppedBy(ch.replies, from, heard, |rcptTo|, ch.out.broken, stop.value)
  {
    stop := None;
    for i := 0 to |rcptTo|
      invariant old(ch.replies) <= ch.replies && On(ch, lines, |rcptTo|, heard, m + i, from, base) && stop.None?
    {
      var code;
      code, stop := Ask(ch, rcptTo[i], {250, 251}, RcptTo, lines, |rcptTo|, heard, m + i, from, base);
      if stop.Some? { return; }
    }
  }

  /** What an outcome says about `body`, the bytes written since the go-ahead, and about
      `replies`, those read since then with the length of `body` at that time:
      - an accepted message was received whole and exactly, and the 250 came after that;
      - a body rejection came after the whole terminator;
      - a transport failure means that no terminator was ever completed;
      - only in between is the outcome unknown. */
  ghost predicate Explains(r: Outcome, body: seq<Byte>, replies: seq<(int, int)>, data: seq<Byte>) {
    match r
    case Accepted(_) =>
      && (exists rest :: Receive(body) == Some((Normalize(data), rest)))
      && (|Encode(data) + TERMINATOR|, 250) in replies
    case Rejected(code, stage) =>
      if stage == Body then
        && code != 250
        && Receive(body) == Some((Normalize(data), []))
        && (|body|, code) in replies
      else body == []
    case TransportFailed => Receive(body) == None
    case OutcomeUnknown => Encode(data) <= body <= Encode(data) + TERMINATOR && replies == []
    case InvalidArgument => body == []
  }

  /** The replies read after the first `skip`, with positions counted from `mark`. */
  ghost function Since(replies: seq<(nat, int)>, skip: nat, mark: nat): seq<(int, int)>
    requires skip <= |replies|
  {
    seq(|replies| - skip, i requires 0 <= i < |replies| - skip => (replies[skip + i].0 - mark, replies[skip + i].1))
  }

  lemma {:induction false} Received(before: seq<Byte>, data: seq<Byte>, written: seq<Byte>, rest: seq<Byte>)
    requires written == before + Encode(data) + TERMINATOR + rest
    ensures Receive(written[|before|..]) == Some((Normalize(data), rest))
  {
    assert written[|before|..] == Encode(data) + TERMINATOR + rest;
    Transparency(data, rest);
  }

  /** What a rejection of the body proves. */
  lemma {:induction false} RejectedExplained(before: seq<Byte>, data: seq<Byte>, sent: seq<Byte>, replies: seq<(nat,
      int)>, skip: nat, code: int)
    requires sent == before + Encode(data) + TERMINATOR && skip < |replies| && replies[skip] == (|sent|, code)
        && code != 250
    ensures Explains(Rejected(code, Body), sent[|before|..], Since(replies, skip, |before|), data)
  {
    assert sent == sent + [];
    Received(before, data, sent, []);
    assert Since(replies, skip, |before|)[0] == (|sent[|before|..]|, code);
  }

  /** What an accepted message proves, whatever came after its 250. */
  lemma {:induction false} AcceptedExplained(before: seq<Byte>, data: seq<Byte>, sent: seq<Byte>, written: seq<Byte>,
                                             read: seq<(nat, int)>, replies: seq<(nat, int)>, skip: nat,
                                                 recipients: nat)
    requires sent == before + Encode(data) + TERMINATOR && sent <= written
    requires skip < |read| && read <= replies && read[skip] == (|sent|, 250)
    ensures Explains(Accepted(recipients), written[|before|..], Since(replies, skip, |before|), data)
  {
    assert written == sent + written[|sent|..];
    Received(before, data, written, written[|sent|..]);
    assert Since(replies, skip, |before|)[0] == (|Encode(data) + TERMINATOR|, 250);
  }

  lemma {:induction false} PartReceived(before: seq<Byte>, data: seq<Byte>, written: seq<Byte>)
    requires before <= written && PartSent(before, written, data)
    ensures Receive(written[|before|..]) == None
  {
    var k :| 0 <= k <= |data| && written <= before + Encode(data[..k]);
    assert written[|before|..] <= Encode(data[..k]);
    NoEarlyEnd(data[..k], written[|before|..]);
  }

  /** How the body ends, by the reply to its terminator, if there is one. */
  ghost predicate Ended(ch: Channel, env: Envelope, heard: seq<int>, r: Outcome)
    reads ch, ch.out
  {
    match r
    case Accepted(recipients) => |heard| > 0 && heard[0] == 250 && recipients == |env.rcptTo|
    case Rejected(code, stage) => |heard| > 0 && heard[0] == code != 250 && stage == Body
    case OutcomeUnknown => ch.out.broken || heard == []
    case _ => false
  }

  /** Say goodbye; whatever comes of it is ignored. */
  method Leave(ch: Channel, env: Envelope)
    requires !ch.out.broken
    modifies ch, ch.out
    ensures old(ch.out.written) <= ch.out.written && old(ch.replies) <= ch.replies
  {
    var _, _, _ := ch.Command(env.quit, {221});
  }

  /** The terminator and the reply to it; `before` was written before the message body. */
  method EndBody(ch: Channel, env: Envelope, ghost before: seq<Byte>, ghost data: seq<Byte>) returns (r: Outcome)
    requires !ch.out.broken && ch.out.written == before + Encode(data)
    modifies ch, ch.out
    ensures before <= ch.out.written && old(ch.replies) <= ch.replies
    ensures Explains(r, ch.out.written[|before|..], Since(ch.replies, |old(ch.replies)|, |before|), data)
    ensures Ended(ch, env, Heard(old(ch.incoming)), r)
  {
    ghost var mark, skip := |before|, |ch.replies|;
    var ok := ch.out.Write(TERMINATOR);
    ghost var sent := ch.out.written;
    assert Encode(data) <= sent[mark..] <= Encode(data) + TERMINATOR;
    if !ok {
      return OutcomeUnknown;
    }
    var reply := ch.Response();
    if reply.None? {
      return OutcomeUnknown;
    }
    if reply.value != 250 {
      RejectedExplained(before, data, sent, ch.replies, skip, reply.value);
      return Rejected(reply.value, Body);
    }
    ghost var read := ch.replies;
    Leave(ch, env);
    AcceptedExplained(before, data, sent, ch.out.written, read, ch.replies, skip, |env.rcptTo|);
    r := Accepted(|env.rcptTo|);
  }

  method SendBody(ch: Channel, env: Envelope, spool: Spool, length: nat) returns (r: Outcome)
    requires !ch.out.broken && spool.pos == 0
    modifies ch, ch.out, spool
    ensures old(ch.out.written) <= ch.out.written && old(ch.replies) <= ch.replies
    ensures Explains(r, ch.out.written[|old(ch.out.written)|..],
                     Since(ch.replies, |old(ch.replies)|, |old(ch.out.written)|), spool.data)
    ensures r.TransportFailed? ==> ch.out.broken || length != |spool.data|
    ensures !r.TransportFailed? ==> length == |spool.data| && Ended(ch, env, Heard(old(ch.incoming)), r)
  {
    ghost var before := ch.out.written;
    var written := WriteData(ch.out, spool, length);
    if written != Written {
      PartReceived(before, spool.data, ch.out.written);
      return TransportFailed;
    }
    r := EndBody(ch, env, before, spool.data);
  }

  /** The outcome as the server's replies decide it: one that does not fit rejects at its stage;
      if all fit and the spool has its length, the reply to the body decides. */
  ghost predicate Decided(r: Outcome, heard: seq<int>, n: nat, whole: bool) {
    if Granted(heard, n) then
      if !whole then r == TransportFailed
      else if |heard| == Total(heard, n) then r == OutcomeUnknown
      else if heard[Total(heard, n)] == 250 then r == Accepted(n)
      else r == Rejected(heard[Total(heard, n)], Body)
    else if r.Rejected? then
      exists i :: 0 <= i < |heard| && i < Total(heard, n) && (forall j :: 0 <= j < i ==> Fits(heard, n, j))
        && !Fits(heard, n, i) && r == Rejected(heard[i], StageOf(heard, n, i))
    else
      r == TransportFailed && |heard| < Total(heard, n) && forall i :: 0 <= i < |heard| ==> Fits(heard, n, i)
  }

  /** The body and what it means, after the go-ahead. */
  method DecideBody(ch: Channel, env: Envelope, spool: Spool, length: nat, ghost heard: seq<int>)
    returns (r: Outcome)
    requires !ch.out.broken && spool.pos == 0
    requires Granted(heard, |env.rcptTo|) && Heard(ch.incoming) == heard[Total(heard, |env.rcptTo|)..]
    modifies ch, ch.out, spool
    ensures old(ch.out.written) <= ch.out.written && old(ch.replies) <= ch.replies
    ensures Explains(r, ch.out.written[|old(ch.out.written)|..],
                     Since(ch.replies, |old(ch.replies)|, |old(ch.out.written)|), spool.data)
    ensures r.Accepted? || r.OutcomeUnknown? ==> length == |spool.data|
    ensures !r.InvalidArgument?
    ensures r.Accepted? || r.Rejected? || !ch.out.broken ==>
      Decided(r, heard, |env.rcptTo|, length == |spool.data|)
  {
    r := SendBody(ch, env, spool, length);
    if !r.TransportFailed? {
      EndedDecided(heard, |env.rcptTo|, r);
    }
  }

  /** What is known of the bytes before the body: they are lines of the envelope, and all of
      them, each answered as it should be, if the body was begun. */
  ghost predicate Introduced(written: seq<Byte>, mark: nat, base: seq<Byte>, lines: seq<seq<Byte>>, heard: seq<int>,
      n: nat)
  {
    && |base| <= mark <= |written| && Within(written[..mark], base, lines)
    && (mark < |written| ==> Granted(heard, n) && written[..mark] == base + Transcript(lines))
  }

  /** Submit one message; `mark` and `skip` say where the message body began.  The outcome is
      explained by the bytes of the body and the replies to it.  While the channel does not
      break, the replies of the server decide. */
  method Submit(ch: Channel, env: Envelope, spool: Spool, length: int, maximum: nat)
    returns (r: Outcome, ghost mark: nat, ghost skip: nat)
    requires !ch.out.broken && spool.pos == 0
    modifies ch, ch.out, spool
    ensures r.InvalidArgument? <==> !(1 <= |env.rcptTo| <= 100 && 1 <= length <= maximum)
    ensures Introduced(ch.out.written, mark, old(ch.out.written), Lines(env, Challenged(Heard(old(ch.incoming)))),
                       Heard(old(ch.incoming)), |env.rcptTo|)
    ensures skip <= |ch.replies| && Explains(r, ch.out.written[mark..], Since(ch.replies, skip, mark), spool.data)
    ensures r.Accepted? || r.OutcomeUnknown? ==> length == |spool.data|
    ensures mark < |ch.out.written| ==> skip > 0 && ch.replies[skip - 1] == (mark, 354)
    ensures r.Accepted? || r.Rejected? || (!ch.out.broken && !r.InvalidArgument?) ==>
      Decided(r, Heard(old(ch.incoming)), |env.rcptTo|, length == |spool.data|)
  {
    ghost var heard := Heard(ch.incoming);
    if !(1 <= |env.rcptTo| <= 100 && 1 <= length <= maximum) {
      assert ch.out.written[..|ch.out.written|] == ch.out.written;
      return InvalidArgument, |ch.out.written|, |ch.replies|;
    }
    LinesAre(env, heard);
    r, mark, skip := Converse(ch, env, spool, length, Lines(env, Challenged(heard)), heard);
  }

  /** The conversation, once the arguments are checked. */
  method Converse(ch: Channel, env: Envelope, spool: Spool, length: nat, ghost lines: seq<seq<Byte>>,
                  ghost heard: seq<int>)
    returns (r: Outcome, ghost mark: nat, ghost skip: nat)
    requires !ch.out.broken && spool.pos == 0 && heard == Heard(ch.incoming) && Scripted(lines, env, heard)
    modifies ch, ch.out, spool
    ensures !r.InvalidArgument?
    ensures Introduced(ch.out.written, mark, old(ch.out.written), lines, heard, |env.rcptTo|)
    ensures skip <= |ch.replies| && Explains(r, ch.out.written[mark..], Since(ch.replies, skip, mark), spool.data)
    ensures r.Accepted? || r.OutcomeUnknown? ==> length == |spool.data|
    ensures mark < |ch.out.written| ==> skip > 0 && ch.replies[skip - 1] == (mark, 354)
    ensures r.Accepted? || r.Rejected? || !ch.out.broken ==>
      Decided(r, heard, |env.rcptTo|, length == |spool.data|)
  {
    ghost var from, base := |ch.replies|, ch.out.written;
    var stop := Open(ch, env, lines, heard);
    ghost var sent := ch.out.written;
    mark, skip := |sent|, |ch.replies|;
    assert sent[..mark] == sent && sent[mark..] == [];
    if stop.Some? {
      StoppedDecided(ch.replies, from, heard, |env.rcptTo|, ch.out.broken, stop.value, length == |spool.data|);
      StoppedExplained(stop.value, Since(ch.replies, skip, mark), spool.data);
      return stop.value, mark, skip;
    }
    assert lines[..|lines|] == lines;
    r := DecideBody(ch, env, spool, length, heard);
    assert ch.out.written[..mark] == sent;
  }

  lemma {:induction false} StoppedExplained(o: Outcome, replies: seq<(int, int)>, data: seq<Byte>)
    requires o.TransportFailed? || (o.Rejected? && o.stage != Body)
    ensures Explains(o, [], replies, data)
  {
  }

  lemma {:induction false} EndedDecided(heard: seq<int>, n: nat, r: Outcome)
    requires Granted(heard, n)
    requires var rest := heard[Total(heard, n)..];
      match r
      case Accepted(recipients) => rest != [] && rest[0] == 250 && recipients == n
      case Rejected(code, stage) => rest != [] && rest[0] == code != 250 && stage == Body
      case OutcomeUnknown => true
      case _ => false
    ensures !r.OutcomeUnknown? || heard[Total(heard, n)..] == [] ==> Decided(r, heard, n, true)
  {
  }

  lemma {:induction false} StoppedDecided(replies: seq<(nat, int)>, from: nat, heard: seq<int>, n: nat, broken: bool,
      o: Outcome, whole: bool)
    requires StoppedBy(replies, from, heard, n, broken, o)
    ensures (o.TransportFailed? || (o.Rejected? && o.stage != Body))
    ensures o.Rejected? || !broken ==> Decided(o, heard, n, whole)
  {
    var m :| 0 <= m < Total(heard, n) && StoppedAt(replies, from, heard, n, broken, o, m);
  }

  /** A server that answers every line as it should, in replies of any number of lines, has the
      message accepted over a channel that does not break. */
  lemma {:induction false} ServerAccepts(replies: seq<(nat, seq<seq<Byte>>)>, n: nat, r: Outcome)
    requires forall reply <- replies :: reply.0 <= 999 && reply.1 != [] && Size(Render(reply.0, reply.1)) <= REPLY_LIMIT
    requires |replies| == n + 6 && replies[0].0 == 220 && replies[1].0 == 250 && replies[2].0 == 235
    requires replies[3].0 == 250 && (forall i :: 4 <= i < n + 4 ==> replies[i].0 == 250 || replies[i].0 == 251)
    requires replies[n + 4].0 == 354 && replies[n + 5].0 == 250
    ensures Granted(Heard(RenderAll(replies)), n)
    ensures Decided(r, Heard(RenderAll(replies)), n, true) <==> r == Accepted(n)
  {
    HeardRendered(replies);
    CodesAccept(Heard(RenderAll(replies)), n, r);
  }

  lemma {:induction false} CodesAccept(heard: seq<int>, n: nat, r: Outcome)
    requires |heard| == n + 6 && heard[0] == 220 && heard[1] == 250 && heard[2] == 235 && heard[3] == 250
    requires (forall i :: 4 <= i < n + 4 ==> heard[i] == 250 || heard[i] == 251)
    requires heard[n + 4] == 354 && heard[n + 5] == 250
    ensures Granted(heard, n) && (Decided(r, heard, n, true) <==> r == Accepted(n))
  {
  }
}
