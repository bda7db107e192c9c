/**
 The rules by which the editor of SubmissionConfig chooses what to copy, as the script has
 them: the header it looks for, the one default block with its required words and patterns,
 the one `auth` line, and the `limits` block found by depth.  `SCRIPT` is their value, and
 every text that the script edits satisfies what the proofs of SubmissionConfig assume of
 rules (`ScriptIsProper`, `ChoiceIsProper`), so that they hold of the script without any
 condition on the text (`ScriptRoundTrip`).

 A header is matched as the script's regular expression does, which also accepts a line that
 closes as many braces as it opens; such a line is a block of its own and never the default
 one, because the default block's header must be one of two fixed lines.

 Two further facts are about where the editor's additions end up.  The edited text is balanced
 exactly if the copy is (`EditedIsBalanced`), and the added limit stands inside the copied
 `limits` block exactly if that block ends with a lone brace (`LimitIsInside`).
 */
module SubmissionRules {
  import opened Options
  import opened ConfigScan
  import opened TextSearch
  import opened SubmissionConfig

  // ---------------------------------------------------------------------------------------
  // The rules of the script
  // ---------------------------------------------------------------------------------------

  predicate IsSubmission(code: string) {
    |code| >= 13 && code[..10] == "submission" && IsSpace(code[10]) && code[|code| - 1] == '{'
  }

  const PLAIN_HEADER := "submission " + "tls://0.0.0.0:465 " + "tcp://0.0.0.0:587" + " {"
  const DUAL_HEADER := "submission " + "tls://[::]:465 " + "tcp://[::]:587" + " {"

  predicate Supported(code: string) {
    code == PLAIN_HEADER || code == DUAL_HEADER
  }

  const TOKENS := ["authorize_sender", "local_routing", "dkim", "remote_queue"]

  const DOMAINS := Lit("$(local_domains)")
  const OPEN := Lit("{")

  const SOURCE := [Lit("source"), Spaces, DOMAINS, MaybeSpaces, OPEN]
  const AUTHORIZE := [Lit("authorize_sender"), MaybeSpaces, OPEN]
  const PREPARE := [Lit("prepare_email"), Spaces, Lit("&local_rewrites")]
  const IDENTITY := [Lit("user_to_email"), Spaces, Lit("identity")]
  const POSTMASTER := [Lit("destination"), Spaces, Lit("postmaster"), Spaces, DOMAINS, MaybeSpaces, OPEN]
  const ROUTING := [Lit("deliver_to"), Spaces, Lit("&local_routing")]
  const DESTINATION := [Lit("default_destination"), MaybeSpaces, OPEN]
  const DKIM := [Lit("dkim"), Spaces, Lit("$(primary_domain)"), Spaces, DOMAINS, Spaces, Lit("default")]
  const QUEUE := [Lit("deliver_to"), Spaces, Lit("&remote_queue")]
  const DEFAULT_SOURCE := [Lit("default_source"), MaybeSpaces, OPEN]

  const PATTERNS := [
    Bounded(SOURCE, false), Bounded(AUTHORIZE, false), Bounded(PREPARE, true), Bounded(IDENTITY, true),
        Bounded(POSTMASTER, false),
    Bounded(ROUTING, true), Bounded(DESTINATION, false), Bounded(DKIM, true), Bounded(QUEUE, true),
        Bounded(DEFAULT_SOURCE, false)]

  const CONCURRENCY := [LineStart, MaybeSpaces, Lit("all"), Spaces, Lit("concurrency"), Edge]

  const AUTH := "auth " + "&local_authdb"
  const LIMITS := "limits" + " {"
  const BRACE := "}"

  function BareText(line: string): string {
    var bare := Bare(line, None, false);
    if bare.None? then "" else bare.value
  }

  function BareLines(lines: seq<string>): seq<string> {
    seq(|lines|, i requires 0 <= i < |lines| => BareText(lines[i]))
  }

  function CodeFor(lines: seq<string>, block: Block): string
    requires block.start <= block.end < |lines|
  {
    Lined(BareLines(lines[block.start..block.end + 1]))
  }

  predicate HasToken(s: string, token: string) {
    Search(Bounded([Lit(token)], true), s)
  }

  predicate HasEach(s: string, tokens: seq<string>) {
    forall k | 0 <= k < |tokens| :: HasToken(s, tokens[k])
  }

  predicate HasTokens(s: string) {
    HasEach(s, TOKENS)
  }

  predicate HasPatterns(s: string) {
    forall k | 0 <= k < |PATTERNS| :: Search(PATTERNS[k], s)
  }

  predicate Digit(c: char) {
    '0' <= c <= '9'
  }

  /** The managed port, not as a part of a longer number. */
  predicate NamesPort(s: string) {
    exists i | 0 <= i <= |s| :: FoundAt(s, "1587", i) && (i == 0 || !Digit(s[i - 1]))
        && (i + 4 == |s| || !Digit(s[i + 4]))
  }

  predicate PortTaken(lines: seq<string>, blocks: seq<Block>) {
    exists k | 0 <= k < |blocks| :: blocks[k].start < |lines| && NamesPort(BareText(lines[blocks[k].start]))
  }

  predicate IsCandidate(lines: seq<string>, block: Block) {
    block.start <= block.end < |lines| && HasTokens(Lower(CodeFor(lines, block)))
  }

  function Candidates(lines: seq<string>, blocks: seq<Block>): seq<Block> {
    if blocks == [] then []
    else (if IsCandidate(lines, blocks[0]) then [blocks[0]] else []) + Candidates(lines, blocks[1..])
  }

  /** The default block: the only candidate, with a supported header and all patterns. */
  function DefaultBlock(lines: seq<string>, blocks: seq<Block>): Option<Block> {
    var candidates := Candidates(lines, blocks);
    if |candidates| != 1 then None
    else
      var block := candidates[0];
      if !(block.start <= block.end < |lines|) then None
      else
        var code := Code(lines[block.start]);
        if code.None? || !Supported(code.value) || !HasPatterns(Lower(CodeFor(lines, block))) then None else Some(block)
  }

  /** The numbers below `n` for which `p` holds. */
  function Where(n: nat, p: nat -> bool): seq<nat> {
    if n == 0 then [] else Where(n - 1, p) + if p(n - 1) then [n - 1] else []
  }

  function BeforeComment(s: string): string {
    if s == "" || s[0] == '#' then "" else [s[0]] + BeforeComment(s[1..])
  }

  /** A line that is a directive with this name and an argument without braces. */
  predicate Directive(line: string, name: string) {
    var s := TrimLeft(Chomp(line));
    && name <= s
    && var rest := BeforeComment(s[|name|..]);
    && |rest| >= 2 && IsSpace(rest[0]) && '{' !in rest && '}' !in rest
  }

  /** What the rules look at in a line: the depth before it, how far it moves the depth, its
      code, whether it is one of the two directives, and its indentation. */
  datatype Row = Row(depth: int, delta: int, code: Option<string>, isTls: bool, isAuth: bool, indent: string)

  function RowOf(lines: seq<string>, k: nat): Row
    requires k < |lines|
  {
    Row(DepthAt(lines, k), Delta(lines[k]), Code(lines[k]), Directive(lines[k], "tls"), Directive(lines[k], "auth"),
        Leading(lines[k]))
  }

  /** The rows of the lines inside a block. */
  function InnerRows(lines: seq<string>, block: Block): seq<Row>
    requires block.start < block.end < |lines|
  {
    seq(block.end - block.start - 1, i requires 0 <= i < block.end - block.start - 1 => RowOf(lines,
        block.start + 1 + i))
  }

  function IsTls(rows: seq<Row>): nat -> bool {
    (i: nat) => i < |rows| && rows[i].depth == 1 && rows[i].isTls
  }

  function IsAuth(rows: seq<Row>): nat -> bool {
    (i: nat) => i < |rows| && rows[i].depth == 1 && rows[i].isAuth
  }

  predicate CodeAt(rows: seq<Row>, i: nat, depth: int, code: string) {
    i < |rows| && rows[i].depth == depth && rows[i].code == Some(code)
  }

  function OpensLimits(rows: seq<Row>): nat -> bool {
    (i: nat) => CodeAt(rows, i, 1, LIMITS)
  }

  function LoneBrace(rows: seq<Row>, start: nat): nat -> bool {
    (i: nat) => i > start && CodeAt(rows, i, 2, BRACE)
  }

  /** The positions of the two kinds of directives, as the loop over the inner lines collects
      them. */
  method CollectDirectives(lines: seq<string>, block: Block) returns (tls: seq<nat>, auth: seq<nat>)
    requires block.start < block.end < |lines|
    ensures var rows := InnerRows(lines, block);
        tls == Where(|rows|, IsTls(rows)) && auth == Where(|rows|, IsAuth(rows))
  {
    ghost var rows := InnerRows(lines, block);
    var depth := DepthAt(lines, block.start + 1);
    tls, auth := [], [];
    for i := 0 to block.end - block.start - 1
      invariant depth == DepthAt(lines, block.start + 1 + i)
      invariant tls == Where(i, IsTls(rows)) && auth == Where(i, IsAuth(rows))
    {
      var line := lines[block.start + 1 + i];
      ghost var row := RowOf(lines, block.start + 1 + i);
      assert rows[i] == row;
      var isTls, isAuth := depth == 1 && Directive(line, "tls"), depth == 1 && Directive(line, "auth");
      Judged(rows, i, row, isTls, isAuth);
      tls := if isTls then tls + [i] else tls;
      auth := if isAuth then auth + [i] else auth;
      depth := depth + Delta(line);
    }
  }

  lemma {:induction false} Judged(rows: seq<Row>, i: nat, row: Row, isTls: bool, isAuth: bool)
    requires i < |rows| && rows[i] == row && isTls == (row.depth == 1 && row.isTls)
        && isAuth == (row.depth == 1 && row.isAuth)
    ensures Where(i + 1, IsTls(rows)) == Where(i, IsTls(rows)) + if isTls then [i] else []
    ensures Where(i + 1, IsAuth(rows)) == Where(i, IsAuth(rows)) + if isAuth then [i] else []
  {
  }

  /** The position of the one `auth` line, which must name the local database. */
  function AuthLine(rows: seq<Row>): Option<nat> {
    var auth := Where(|rows|, IsAuth(rows));
    if Where(|rows|, IsTls(rows)) != [] || |auth| != 1 then None
    else if !CodeAt(rows, auth[0], 1, AUTH) then None
    else Some(auth[0])
  }

  function LimitsStart(rows: seq<Row>): Option<nat> {
    var starts := Where(|rows|, OpensLimits(rows));
    if |starts| != 1 then None else Some(starts[0])
  }

  /** The first lone closing brace at depth 2 behind it. */
  function LimitsEnd(rows: seq<Row>, start: nat): Option<nat> {
    var ends := Where(|rows|, LoneBrace(rows, start));
    if ends == [] then None else Some(ends[0])
  }

  /** The white space a line begins with. */
  function Leading(line: string): string {
    if line != "" && IsSpace(line[0]) then [line[0]] + Leading(line[1..]) else ""
  }

  function ChooseIn(rows: seq<Row>, block: Block): Option<Choice> {
    var auth, start := AuthLine(rows), LimitsStart(rows);
    if auth.None? || start.None? || auth.value >= |rows| || start.value >= |rows| then None
    else
      var end := LimitsEnd(rows, start.value);
      if end.None? then None
      else Some(Choice(block, rows[auth.value].indent, rows[start.value].indent, end.value))
  }

  /** The script's choice; that the default block has inner lines is always so (`DefaultIsFound`). */
  function Choose(lines: seq<string>, blocks: seq<Block>): Option<Choice> {
    var block := DefaultBlock(lines, blocks);
    if PortTaken(lines, blocks) || block.None? || !(block.value.start < block.value.end < |lines|) then None
    else if Search(CONCURRENCY, CodeFor(lines, block.value)) then None
    else ChooseIn(InnerRows(lines, block.value), block.value)
  }

  function Chomped(lines: seq<string>): seq<string> {
    seq(|lines|, i requires 0 <= i < |lines| => Chomp(lines[i]))
  }

  /** The code of the copied lines in lower case. */
  function Managed(between: seq<string>): string {
    Lower(Lined(BareLines(Chomped(between))))
  }

  const DUMMY := "auth " + "dummy"

  /** What the script checks of the copy when it has written it, and before it removes it. */
  predicate Sound(between: seq<string>) {
    HasTokens(Managed(between)) && !Contains(Managed(between), DUMMY) && Occurrences(Managed(between), AUTH) == 1
  }

  predicate Intact(between: seq<string>) {
    var s := Managed(between);
    && !Contains(s, DUMMY) && (forall k | 0 <= k < |TOKENS| :: Contains(s, TOKENS[k]))
    && Contains(s, TEXTS.tls) && Contains(s, AUTH) && Contains(s, TEXTS.limit)
  }

  const SCRIPT: Rules := Rules(IsSubmission, Choose, Sound, Intact)

  function NewlineOf(text: string): string {
    if Contains(text, "\r\n") then "\r\n" else "\n"
  }

  function Add(text: string): Option<string> {
    BuildManaged(TEXTS, SCRIPT, text, NewlineOf(text))
  }

  function Remove(text: string): Option<string> {
    RemoveManaged(TEXTS, SCRIPT, text)
  }

  // ---------------------------------------------------------------------------------------
  // What the rules find
  // ---------------------------------------------------------------------------------------

  lemma {:induction false} WhereMember(n: nat, p: nat -> bool, k: nat)
    ensures k in Where(n, p) <==> k < n && p(k)
  {
    if n > 0 {
      WhereMember(n - 1, p, k);
    }
  }

  /** The first one is the least. */
  lemma {:induction false} WhereLeast(n: nat, p: nat -> bool)
    requires Where(n, p) != []
    ensures var k := Where(n, p)[0]; k < n && p(k) && forall i: nat :: i < k ==> !p(i)
  {
    if Where(n - 1, p) != [] {
      WhereLeast(n - 1, p);
    } else {
      forall i: nat | i < n - 1 ensures !p(i) {
        WhereMember(n - 1, p, i);
      }
    }
  }

  lemma {:induction false} CandidatesAmong(lines: seq<string>, blocks: seq<Block>, block: Block)
    requires block in Candidates(lines, blocks)
    ensures block in blocks && IsCandidate(lines, block)
  {
    if block !in (if IsCandidate(lines, blocks[0]) then [blocks[0]] else []) {
      CandidatesAmong(lines, blocks[1..], block);
    }
  }

  lemma {:induction false} OpeningBraces(words: string)
    requires Letters(words)
    ensures Count(words + " {", '{') == 1 && Count(words + " {", '}') == 0
  {
    CountNone(words, '{');
    CountNone(words, '}');
    CountConcat(words, " {", '{');
    CountConcat(words, " {", '}');
    assert " {"[1..] == "{" && "{"[1..] == "";
  }

  lemma {:induction false} HeaderLetters()
    ensures Letters("submission " + "tls://0.0.0.0:465 " + "tcp://0.0.0.0:587")
        && Letters("submission " + "tls://[::]:465 " + "tcp://[::]:587")
  {
    assert Letters("submission ") && Letters("tls://0.0.0.0:465 ") && Letters("tcp://0.0.0.0:587");
    assert Letters("tls://[::]:465 ") && Letters("tcp://[::]:587");
  }

  lemma {:induction false} HeaderBraces(code: string)
    requires Supported(code)
    ensures Count(code, '{') == 1 && Count(code, '}') == 0
  {
    HeaderLetters();
    if code == PLAIN_HEADER {
      OpeningBraces("submission " + "tls://0.0.0.0:465 " + "tcp://0.0.0.0:587");
    } else {
      OpeningBraces("submission " + "tls://[::]:465 " + "tcp://[::]:587");
    }
  }

  /** A block whose header opens one brace has more than one line. */
  lemma {:induction false} OpenedBlock(lines: seq<string>, header: string -> bool, blocks: seq<Block>, block: Block)
    requires FindBlocks(lines, header) == Some(blocks) && block in blocks && block.start < |lines|
        && HeaderDepth(lines, block) == 1
    ensures block.start < block.end < |lines|
  {
    var start := Cursor(0, None, []);
    var m :| 0 <= m < |blocks| && blocks[m] == block;
    RecordedAt(start, lines, 0, header, m);
    var e := block.end;
    var c := ScanFrom(start, lines[..e], 0, header).value;
    ScanInside(start, lines[..e], 0, header);
    var next := ScanLine(c, lines[e], e, header).value;
    assert next.blocks[|c.blocks|] == block;
  }

  /** The default block is one that was found, and it has more than one line. */
  lemma {:induction false} DefaultIsFound(lines: seq<string>, blocks: seq<Block>, block: Block)
    requires FindBlocks(lines, IsSubmission) == Some(blocks) && DefaultBlock(lines, blocks) == Some(block)
    ensures block in blocks && block.start < block.end < |lines| && HeaderDepth(lines, block) == 1
  {
    CandidatesAmong(lines, blocks, block);
    HeaderBraces(Code(lines[block.start]).value);
    OpenedBlock(lines, IsSubmission, blocks, block);
  }

  lemma {:induction false} LeadingIs(line: string)
    ensures Leading(line) <= line && AllSpace(Leading(line))
    ensures Leading(line) == line ==> AllSpace(line)
  {
    if line != "" && IsSpace(line[0]) {
      LeadingIs(line[1..]);
    }
  }

  /** The indentation of a line with code has no line end. */
  lemma {:induction false} LeadingIsIndent(line: string, code: string)
    requires IsLine(line) && Code(line) == Some(code) && code != ""
    ensures ProperIndent(Leading(line))
  {
    var lead := Leading(line);
    LeadingIs(line);
    if lead == line {
      BlankCode(line);
      assert false;
    }
    forall i | 0 <= i < |lead| ensures lead[i] != '\n' {
      assert lead[i] == line[i] && |lead| < |line|;
    }
  }

  lemma {:induction false} ChoiceBlock(lines: seq<string>, blocks: seq<Block>, choice: Choice)
    requires Choose(lines, blocks) == Some(choice)
    ensures DefaultBlock(lines, blocks) == Some(choice.block) && choice.block.start < choice.block.end < |lines|
    ensures ChooseIn(InnerRows(lines, choice.block), choice.block) == Some(choice)
  {
  }

  /** What the choice among the inner rows has found. */
  ghost predicate Chosen(rows: seq<Row>, choice: Choice, a: nat, s: nat) {
    && CodeAt(rows, a, 1, AUTH) && choice.authIndent == rows[a].indent
    && LimitsStart(rows) == Some(s) && CodeAt(rows, s, 1, LIMITS) && choice.limitsIndent == rows[s].indent
    && s < choice.at && CodeAt(rows, choice.at, 2, BRACE)
    && forall i: nat :: s < i < choice.at ==> !CodeAt(rows, i, 2, BRACE)
  }

  lemma {:induction false} ChoiceIs(rows: seq<Row>, block: Block, choice: Choice) returns (a: nat, s: nat)
    requires ChooseIn(rows, block) == Some(choice)
    ensures choice.block == block && Chosen(rows, choice, a, s)
  {
    a, s := AuthLine(rows).value, LimitsStart(rows).value;
    WhereLeast(|rows|, OpensLimits(rows));
    WhereLeast(|rows|, LoneBrace(rows, s));
    forall i: nat | s < i < choice.at ensures !CodeAt(rows, i, 2, BRACE) {
      assert !LoneBrace(rows, s)(i);
    }
  }

  lemma {:induction false} RowIndent(lines: seq<string>, block: Block, i: nat, depth: int, code: string)
    requires Lines(lines) && block.start < block.end < |lines| && CodeAt(InnerRows(lines, block), i, depth, code)
        && code != ""
    ensures ProperIndent(InnerRows(lines, block)[i].indent)
  {
    var k := block.start + 1 + i;
    assert InnerRows(lines, block)[i] == RowOf(lines, k);
    assert LineAt(lines, k);
    LeadingIsIndent(lines[k], code);
  }

  /** What the script chooses is what the proofs about the editor assume of a choice. */
  lemma {:induction false} ChoiceIsProper(lines: seq<string>, blocks: seq<Block>, choice: Choice)
    requires Lines(lines) && FindBlocks(lines, IsSubmission) == Some(blocks) && Choose(lines, blocks) == Some(choice)
    ensures ProperChoice(lines, blocks, choice)
  {
    ChoiceBlock(lines, blocks, choice);
    DefaultIsFound(lines, blocks, choice.block);
    ChosenIsProper(lines, choice.block, choice);
  }

  lemma {:induction false} ChosenIsProper(lines: seq<string>, block: Block, choice: Choice)
    requires Lines(lines) && block.start < block.end < |lines|
        && ChooseIn(InnerRows(lines, block), block) == Some(choice)
    ensures ProperIndent(choice.authIndent) && ProperIndent(choice.limitsIndent) && choice.at <= |Inner(lines, block)|
  {
    var a, s := ChoiceIs(InnerRows(lines, block), block, choice);
    RowIndent(lines, block, a, 1, AUTH);
    RowIndent(lines, block, s, 1, LIMITS);
  }

  // ---------------------------------------------------------------------------------------
  // The checks of the copy
  // ---------------------------------------------------------------------------------------

  lemma {:induction false} QuotedSpace(pad: string, quote: char, escaped: bool)
    requires AllSpace(pad) && !IsSpace(quote)
    ensures Bare(pad, Some(quote), escaped) == None
  {
    if pad != "" {
      assert IsSpace(pad[0]);
      QuotedSpace(pad[1..], quote, false);
    }
  }

  /** White space behind a line shows at most as white space behind its code. */
  ghost predicate Padded(s: string, pad: string, quote: Option<char>, escaped: bool) {
    var short, long := Bare(s, quote, escaped), Bare(s + pad, quote, escaped);
    && (short.Some? <==> long.Some?)
    && (short.Some? ==> long.value == short.value || long.value == short.value + pad)
  }

  lemma {:induction false} BarePadded(s: string, pad: string, quote: Option<char>, escaped: bool)
    requires AllSpace(pad) && (quote.Some? ==> !IsSpace(quote.value))
    ensures Padded(s, pad, quote, escaped)
    decreases |s|
  {
    assert s == "" ==> s + pad == pad;
    if s != "" {
      var q, e := quote, false;
      if quote.Some? {
        if !escaped {
          if s[0] == '\\' { e := true; } else if s[0] == quote.value { q := None; }
        }
      } else if s[0] == '"' || s[0] == '\'' {
        q := Some(s[0]);
      }
      BarePadded(s[1..], pad, q, e);
      BareStep(s, pad, quote, escaped, q, e);
    } else if quote.Some? {
      QuotedSpace(pad, quote.value, escaped);
    } else {
      SpaceIsPlain(pad);
      BarePlain(pad);
      assert "" + pad == pad;
    }
  }

  lemma {:induction false} BareStep(s: string, pad: string, quote: Option<char>, escaped: bool, q: Option<char>,
      e: bool)
    requires s != "" && Padded(s[1..], pad, q, e)
    requires quote.Some? ==> (e <==> !escaped && s[0] == '\\') && q == if !escaped && !e
        && s[0] == quote.value then None else quote
    requires quote.None? ==> !e && q == if s[0] == '"' || s[0] == '\'' then Some(s[0]) else None
    ensures Padded(s, pad, quote, escaped)
  {
    assert (s + pad)[1..] == s[1..] + pad && (s + pad)[0] == s[0];
    if !(quote.None? && s[0] == '#') {
      var c := if quote.Some? || s[0] == '"' || s[0] == '\'' then ' ' else s[0];
      BareFirst(s, quote, escaped, q, e, c);
      BareFirst(s + pad, quote, escaped, q, e, c);
      BlankPadded(Bare(s[1..], q, e), Bare(s[1..] + pad, q, e), c, pad);
    }
  }

  /** One character of the text. */
  lemma {:induction false} BareFirst(s: string, quote: Option<char>, escaped: bool, q: Option<char>, e: bool, c: char)
    requires s != "" && !(quote.None? && s[0] == '#')
    requires quote.Some? ==> (e <==> !escaped && s[0] == '\\') && q == if !escaped && !e
        && s[0] == quote.value then None else quote
    requires quote.None? ==> !e && q == if s[0] == '"' || s[0] == '\'' then Some(s[0]) else None
    requires c == if quote.Some? || s[0] == '"' || s[0] == '\'' then ' ' else s[0]
    ensures Bare(s, quote, escaped) == Blank(Bare(s[1..], q, e), c)
  {
  }

  lemma {:induction false} BlankPadded(short: Option<string>, long: Option<string>, c: char, pad: string)
    requires (short.Some? <==> long.Some?) && (short.Some? ==>
        long.value == short.value || long.value == short.value + pad)
    ensures var a, b := Blank(short, c), Blank(long, c);
      (a.Some? <==> b.Some?) && (a.Some? ==> b.value == a.value || b.value == a.value + pad)
  {
    if short.Some? {
      assert [c] + (short.value + pad) == ([c] + short.value) + pad;
    }
  }

  lemma {:induction false} TrimLeftBefore(s: string, pad: string)
    requires TrimLeft(s) != ""
    ensures TrimLeft(s + pad) == TrimLeft(s) + pad
  {
    if IsSpace(s[0]) {
      TrimLeftBefore(s[1..], pad);
      assert (s + pad)[1..] == s[1..] + pad;
    }
  }

  lemma {:induction false} StripBefore(s: string, pad: string)
    requires AllSpace(pad)
    ensures Strip(s + pad) == Strip(s)
  {
    if TrimLeft(s) == "" {
      TrimLeftSpace(s);
      BlankIsSpace(s);
      BlankIsSpace(s + pad);
    } else {
      TrimLeftBefore(s, pad);
      TrimRightPadding(TrimLeft(s), pad);
    }
  }

  /** White space behind a line does not change its code. */
  lemma {:induction false} CodePadded(s: string, pad: string)
    requires AllSpace(pad)
    ensures Code(s + pad) == Code(s)
  {
    BarePadded(s, pad, None, false);
    if Code(s).Some? {
      StripBefore(Bare(s, None, false).value, pad);
    }
  }

  lemma {:induction false} ChompIs(s: string) returns (pad: string)
    ensures s == Chomp(s) + pad && AllSpace(pad)
  {
    if s != "" && (s[|s| - 1] == '\n' || s[|s| - 1] == '\r') {
      var n := |s| - 1;
      var rest := ChompIs(s[..n]);
      pad := rest + [s[n]];
      assert s == s[..n] + [s[n]];
    } else {
      pad := "";
    }
  }

  lemma {:induction false} TrimLeftInside(s: string) returns (a: string)
    ensures s == a + TrimLeft(s)
  {
    if s != "" && IsSpace(s[0]) {
      a := TrimLeftInside(s[1..]);
      a := [s[0]] + a;
    } else {
      a := "";
    }
  }

  lemma {:induction false} TrimRightInside(s: string) returns (b: string)
    ensures s == TrimRight(s) + b
  {
    if s != "" && IsSpace(s[|s| - 1]) {
      b := TrimRightInside(s[..|s| - 1]);
      b := b + [s[|s| - 1]];
    } else {
      b := "";
    }
  }

  lemma {:induction false} StripInside(s: string)
    ensures Contains(s, Strip(s))
  {
    var a := TrimLeftInside(s);
    var b := TrimRightInside(TrimLeft(s));
    assert s == a + Strip(s) + b;
    ContainsMiddle(a, Strip(s), b);
  }

  /** The code of a copied line is in the text that is checked. */
  lemma {:induction false} ManagedHas(between: seq<string>, code: string)
    requires HasCode(between, code) && Lower(code) == code
    ensures Contains(Managed(between), code)
  {
    var texts := BareLines(Chomped(between));
    var k :| 0 <= k < |between| && Code(between[k]) == Some(code);
    var pad := ChompIs(between[k]);
    CodePadded(Chomp(between[k]), pad);
    StripInside(texts[k]);
    ContainsLine(texts, k, code);
    LowerContains(Lined(texts), code);
  }

  lemma {:induction false} LowerWords()
    ensures Lower(TEXTS.tls) == TEXTS.tls && Lower(TEXTS.limit) == TEXTS.limit
  {
  }

  lemma {:induction false} TokenIn(token: string, s: string)
    requires HasToken(s, token)
    ensures Contains(s, token)
  {
    assert Bounded([Lit(token)], true)[1] == Lit(token);
    SearchHasWord(Bounded([Lit(token)], true), s, token);
  }

  lemma {:induction false} SoundIsIntact(between: seq<string>)
    requires Sound(between) && HasCode(between, TEXTS.tls) && HasCode(between, TEXTS.limit)
    ensures Intact(between)
  {
    var s := Managed(between);
    LowerWords();
    ManagedHas(between, TEXTS.tls);
    ManagedHas(between, TEXTS.limit);
    OccursIff(s, AUTH);
    forall k | 0 <= k < |TOKENS| ensures Contains(s, TOKENS[k]) {
      TokenIn(TOKENS[k], s);
    }
  }

  lemma {:induction false} ManagedHeader()
    ensures IsSubmission(TEXTS.Header())
  {
    var code := TEXTS.Header();
    assert "submission " == "submission" + " ";
    assert code == "submission" + (" " + "tcp://127.0.0.1:1587" + " {");
    assert code[..10] == "submission" && code[10] == ' ';
  }

  /** The script's rules satisfy what the proofs about the editor assume of rules. */
  lemma {:induction false} ScriptIsProper()
    ensures Proper(TEXTS) && ProperRules(TEXTS, SCRIPT)
  {
    TextsAreProper();
    ManagedHeader();
    forall between | SCRIPT.sound(between) && HasCode(between, TEXTS.tls) && HasCode(between, TEXTS.limit)
      ensures SCRIPT.intact(between)
    {
      SoundIsIntact(between);
    }
  }
}
