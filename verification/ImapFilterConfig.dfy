/**
 The editor of Maddy's delivery filter: it inserts a marked `imap_filter` block before the
 closing line of the storage block, checks its own result, and later removes the block again.

 The proof has three parts.  The inserted lines leave the scan's depth as they find it, so the
 storage block is found again and the result passes the editor's own check.  Removal cuts the
 same lines out again, and with them a blank line in front of them, whoever wrote it
 (`BuildThenRemove`).  So the text comes back unchanged exactly if there was no blank line in
 that place before (`RoundTripExact`), and `BlankLineIsLost` shows one that does not.
 */
module ImapFilterConfig {
  import opened Options
  import opened ConfigScan

  /** The words the editor looks for and writes. */
  datatype Texts = Texts(begin: string, end: string, storage: string, mailboxes: string, filter: string)

  const TEXTS := Texts("# BEGIN MADDYWEB MANAGED IMAP FILTER v1", "# END MADDYWEB MANAGED IMAP FILTER v1",
                       "storage.imapsql", "local_mailboxes", "imap_filter")

  /** All that matters about them. */
  ghost predicate ProperWords(t: Texts) {
    && CommentLine(t.begin) && CommentLine(t.end) && t.begin != t.end
    && PlainText(t.storage) && NoBraces(t.storage) && PlainText(t.mailboxes) && NoBraces(t.mailboxes)
    && PlainText(t.filter) && NoBraces(t.filter)
  }

  /** A comment on one line. */
  ghost predicate CommentLine(s: string) {
    s != "" && s[0] == '#' && !IsSpace(s[|s| - 1]) && '\n' !in s
  }

  ghost predicate NoBraces(s: string) {
    '{' !in s && '}' !in s
  }

  /** Plain text on one line. */
  ghost predicate PlainText(s: string) {
    s != "" && !IsSpace(s[0]) && s[0] != '}' && '"' !in s && '\'' !in s && '#' !in s && '\n' !in s
  }

  lemma {:induction false} TextsAreProper()
    ensures ProperWords(TEXTS)
  {
    BeginIsMarker();
    EndIsMarker();
    StorageIsWord();
    MailboxesIsWord();
    FilterIsWord();
    TogetherProper(TEXTS);
  }

  lemma {:induction false} TogetherProper(t: Texts)
    requires CommentLine(t.begin) && CommentLine(t.end) && |t.begin| != |t.end|
    requires PlainText(t.storage) && NoBraces(t.storage) && PlainText(t.mailboxes) && NoBraces(t.mailboxes)
        && PlainText(t.filter) && NoBraces(t.filter)
    ensures ProperWords(t)
  {
  }

  lemma {:induction false} StorageIsWord()
    ensures PlainText("storage.imapsql") && NoBraces("storage.imapsql")
  {
  }

  lemma {:induction false} MailboxesIsWord()
    ensures PlainText("local_mailboxes") && NoBraces("local_mailboxes")
  {
  }

  lemma {:induction false} FilterIsWord()
    ensures PlainText("imap_filter") && NoBraces("imap_filter")
  {
  }

  lemma {:induction false} BeginIsMarker()
    ensures CommentLine("# BEGIN MADDYWEB MANAGED IMAP FILTER v1")
  {
  }

  lemma {:induction false} EndIsMarker()
    ensures CommentLine("# END MADDYWEB MANAGED IMAP FILTER v1")
  {
  }

  /** White space and then an opening brace, to the end. */
  predicate OpensBrace(s: string) {
    s != "" && (s == "{" || (IsSpace(s[0]) && OpensBrace(s[1..])))
  }

  function SkipSpace(s: string): string {
    TrimLeft(s)
  }

  predicate IsStorage(t: Texts, code: string) {
    && t.storage <= code && |code| > |t.storage| && IsSpace(code[|t.storage|])
    && var rest := SkipSpace(code[|t.storage|..]);
    && t.mailboxes <= rest && OpensBrace(rest[|t.mailboxes|..])
  }

  function Header(t: Texts): string -> bool {
    (code: string) => IsStorage(t, code)
  }

  predicate IsFilter(t: Texts, code: string) {
    t.filter <= code && OpensBrace(code[|t.filter|..])
  }

  predicate FilterLine(t: Texts, line: string) {
    Code(line).Some? && IsFilter(t, Code(line).value)
  }

  predicate FilterAt(t: Texts, lines: seq<string>, i: int) {
    0 <= i < |lines| && FilterLine(t, lines[i])
  }

  // ---------------------------------------------------------------------------------------
  // Markers
  // ---------------------------------------------------------------------------------------

  /** A line that is nothing but the text. */
  function Shows(text: string): string -> bool {
    (line: string) => Strip(line) == text
  }

  function MarkerRange(t: Texts, lines: seq<string>): Markers {
    RangeOf(Positions(lines, Shows(t.begin), |lines|), Positions(lines, Shows(t.end), |lines|))
  }

  // ---------------------------------------------------------------------------------------
  // The editor
  // ---------------------------------------------------------------------------------------

  function Leading(s: string): string {
    if s != "" && IsSpace(s[0]) then [s[0]] + Leading(s[1..]) else ""
  }

  function Expected(t: Texts, indent: string, newline: string, command: string): seq<string> {
    [indent + t.begin + newline,
     indent + (t.filter + " {") + newline,
     indent + ("    " + command) + newline,
     indent + "}" + newline,
     indent + t.end + newline]
  }

  predicate UsesCrLf(text: string) {
    exists i :: 0 <= i < |text| - 1 && text[i] == '\r' && text[i + 1] == '\n'
  }

  predicate EndsCrLf(line: string) {
    |line| >= 2 && line[|line| - 2] == '\r' && line[|line| - 1] == '\n'
  }

  /** The only storage block, if there is exactly one. */
  function StorageBlock(t: Texts, lines: seq<string>): Option<Block> {
    var blocks := FindBlocks(lines, Header(t));
    if blocks.None? || |blocks.value| != 1 then None else Some(blocks.value[0])
  }

  predicate Verify(t: Texts, lines: seq<string>, command: string) {
    var block := StorageBlock(t, lines);
    var marker := MarkerRange(t, lines);
    && block.Some? && marker.At?
    && block.value.start < marker.begin < marker.end < block.value.end < |lines|
    && lines[marker.begin..marker.end + 1] ==
       Expected(t, Leading(lines[marker.begin]), if EndsCrLf(lines[marker.begin]) then "\r\n" else "\n", command)
    && (forall i :: block.value.start < i < block.value.end ==> (FilterAt(t, lines, i) <==> i == marker.begin + 1))
  }

  /** What must hold of a configuration for the block to be added. */
  predicate Editable(t: Texts, lines: seq<string>) {
    var block := StorageBlock(t, lines);
    && MarkerRange(t, lines) == Absent && block.Some? && block.value.start < block.value.end < |lines|
    && forall i :: block.value.start < i < block.value.end ==> !FilterAt(t, lines, i)
  }

  /** A blank line goes first, unless there is one already or nothing else in the block. */
  predicate NeedsGap(lines: seq<string>, block: Block)
    requires block.start < block.end <= |lines|
  {
    block.end > block.start + 1 && Strip(lines[block.end - 1]) != ""
  }

  function GapFor(lines: seq<string>, block: Block, newline: string): seq<string>
    requires block.start < block.end <= |lines|
  {
    if NeedsGap(lines, block) then [newline] else []
  }

  function Insertion(t: Texts, lines: seq<string>, block: Block, newline: string, command: string): seq<string>
    requires block.start < block.end <= |lines|
  {
    GapFor(lines, block, newline) + Expected(t, Leading(lines[block.start]) + "    ", newline, command)
  }

  function Newline(text: string): (newline: string)
    ensures newline == "\n" || newline == "\r\n"
  {
    if UsesCrLf(text) then "\r\n" else "\n"
  }

  function BuildManaged(t: Texts, text: string, command: string): Option<string> {
    var lines := Split(text);
    if !Editable(t, lines) then None
    else
      var block := StorageBlock(t, lines).value;
      var result := Join(lines[..block.end] + Insertion(t, lines, block, Newline(text), command) + lines[block.end..]);
      if Verify(t, Split(result), command) then Some(result) else None
  }

  function RemovedLines(lines: seq<string>, begin: nat, end: nat): seq<string>
    requires begin <= end < |lines|
  {
    if begin > 0 && Strip(lines[begin - 1]) == "" && end + 1 < |lines| then lines[..begin - 1] + lines[end + 1..]
    else lines[..begin] + lines[end + 1..]
  }

  /** What must hold of the configuration that removal leaves. */
  function Clean(t: Texts): seq<string> -> bool {
    (lines: seq<string>) => MarkerRange(t, lines) == Absent && StorageBlock(t, lines).Some?
  }

  function CutOut(lines: seq<string>, marker: Markers, clean: seq<string> -> bool): Option<string> {
    if !marker.At? || !(marker.begin <= marker.end < |lines|) then None
    else
      var result := Join(RemovedLines(lines, marker.begin, marker.end));
      if clean(Split(result)) then Some(result) else None
  }

  function RemoveManaged(t: Texts, text: string, command: string): Option<string> {
    var lines := Split(text);
    if !Verify(t, lines, command) then None else CutOut(lines, MarkerRange(t, lines), Clean(t))
  }

  // ---------------------------------------------------------------------------------------
  // The storage header
  // ---------------------------------------------------------------------------------------

  lemma {:induction false} BraceCounts(s: string)
    requires OpensBrace(s)
    ensures Count(s, '{') == 1 && Count(s, '}') == 0
  {
    if s == "{" {
      assert s[1..] == "";
    } else {
      BraceCounts(s[1..]);
    }
  }

  lemma {:induction false} StorageCounts(t: Texts, code: string, c: char)
    requires ProperWords(t) && IsStorage(t, code) && (c == '{' || c == '}')
    ensures Count(code, c) == if c == '{' then 1 else 0
  {
    var rest := SkipSpace(code[|t.storage|..]);
    var tail := rest[|t.mailboxes|..];
    assert code == t.storage + code[|t.storage|..] && rest == t.mailboxes + tail;
    CountConcat(t.storage, code[|t.storage|..], c);
    CountNone(t.storage, c);
    CountTrimLeft(code[|t.storage|..], c);
    CountConcat(t.mailboxes, tail, c);
    CountNone(t.mailboxes, c);
    BraceCounts(tail);
  }

  lemma {:induction false} StorageOpens(t: Texts)
    requires ProperWords(t)
    ensures Opens(Header(t)) && !Header(t)("")
  {
    forall code | Header(t)(code) ensures Count(code, '{') > Count(code, '}') {
      StorageCounts(t, code, '{');
      StorageCounts(t, code, '}');
    }
  }

  // ---------------------------------------------------------------------------------------
  // The inserted lines
  // ---------------------------------------------------------------------------------------

  /** A command line: one line of plain text that opens as many braces as it closes. */
  ghost predicate ProperCommand(t: Texts, command: string) {
    && command != "" && !IsSpace(command[0]) && !IsSpace(command[|command| - 1])
    && Plain(command) && '\n' !in command && '#' !in command
    && Count(command, '{') == Count(command, '}') && !IsFilter(t, command)
  }

  lemma {:induction false} ExpectedEnded(t: Texts, indent: string, newline: string, command: string, i: nat)
    requires ProperWords(t) && ProperIndent(indent) && ProperNewline(newline) && ProperCommand(t, command) && i < 5
    ensures Ended(Expected(t, indent, newline, command)[i])
  {
    EndedLine(indent + t.begin, newline);
    EndedLine(indent + (t.filter + " {"), newline);
    EndedLine(indent + ("    " + command), newline);
    EndedLine(indent + "}", newline);
    EndedLine(indent + t.end, newline);
  }

  lemma {:induction false} FilterCode(t: Texts, open: string)
    requires ProperWords(t) && open == t.filter + " {"
    ensures Plain(open) && Count(open, '{') == 1 && Count(open, '}') == 0 && IsFilter(t, open) && !IsFilter(t, "}")
        && !IsFilter(t, "")
  {
    PlainWord(open);
    CountConcat(t.filter, " {", '{');
    CountConcat(t.filter, " {", '}');
    CountNone(t.filter, '{');
    CountNone(t.filter, '}');
    assert " {"[1..] == "{" && "{"[1..] == "";
    assert open[|t.filter|..] == " {";
  }

  /** The code of the inserted lines. */
  lemma {:induction false} ExpectedCodes(t: Texts, indent: string, newline: string, command: string)
    requires ProperWords(t) && ProperIndent(indent) && ProperNewline(newline) && ProperCommand(t, command)
    ensures var e := Expected(t, indent, newline, command);
      && Code(e[0]) == Some("") && Code(e[1]) == Some(t.filter + " {") && Code(e[2]) == Some(command)
      && Code(e[3]) == Some("}") && Code(e[4]) == Some("")
  {
    assert AllSpace(newline);
    FilterCode(t, t.filter + " {");
    Joined(indent, t.begin, newline);
    Joined(indent, t.end, newline);
    CommentCode(indent, t.begin + newline);
    CommentCode(indent, t.end + newline);
    CodeLine(indent, t.filter + " {", newline);
    PlainWord("}");
    CodeLine(indent, "}", newline);
    assert indent + ("    " + command) + newline == (indent + "    ") + command + newline;
    CodeLine(indent + "    ", command, newline);
  }

  /** The five lines leave the scan as it is. */
  lemma {:induction false} ExpectedInert(t: Texts, c: Cursor, e: seq<string>, index: nat, command: string)
    requires ProperWords(t) && ProperCommand(t, command) && c.depth >= 1 && |e| == 5
    requires Code(e[0]) == Some("") && Code(e[1]) == Some(t.filter + " {") && Code(e[2]) == Some(command)
    requires Code(e[3]) == Some("}") && Code(e[4]) == Some("")
    ensures Inert(c, e, index, Header(t))
  {
    var inner := c.(depth := c.depth + 1);
    FilterCode(t, t.filter + " {");
    assert Count("}", '}') == 1 && Count("}", '{') == 0;
    InnerLine(c, e[0], index, Header(t), "");
    InnerLine(c, e[1], index + 1, Header(t), t.filter + " {");
    InnerLine(inner, e[2], index + 2, Header(t), command);
    InnerLine(inner, e[3], index + 3, Header(t), "}");
    InnerLine(c, e[4], index + 4, Header(t), "");
    assert e == [e[0]] + ([e[1]] + ([e[2]] + ([e[3]] + ([e[4]] + []))));
    ScanCons(c, c, e[0], [e[1]] + ([e[2]] + ([e[3]] + ([e[4]] + []))), index, Header(t));
    ScanCons(c, inner, e[1], [e[2]] + ([e[3]] + ([e[4]] + [])), index + 1, Header(t));
    ScanCons(inner, inner, e[2], [e[3]] + ([e[4]] + []), index + 2, Header(t));
    ScanCons(inner, c, e[3], [e[4]] + [], index + 3, Header(t));
    ScanCons(c, c, e[4], [], index + 4, Header(t));
  }

  lemma {:induction false} GapInert(c: Cursor, newline: string, e: seq<string>, index: nat, header: string -> bool)
    requires c.depth >= 1 && ProperNewline(newline) && Inert(c, e, index + 1, header)
    ensures Inert(c, [newline] + e, index, header)
  {
    assert AllSpace(newline);
    BlankCode(newline);
    InnerLine(c, newline, index, header, "");
    ScanCons(c, c, newline, e, index, header);
  }

  lemma {:induction false} CommandStripped(indent: string, newline: string, command: string)
    requires AllSpace(indent) && AllSpace(newline) && command != "" && !IsSpace(command[0])
        && !IsSpace(command[|command| - 1])
    ensures Strip(indent + ("    " + command) + newline) == command
  {
    StripPadded(indent + "    ", command, newline);
    assert indent + ("    " + command) + newline == (indent + "    ") + command + newline;
  }

  lemma {:induction false} FilterStripped(t: Texts, indent: string, newline: string)
    requires ProperWords(t) && AllSpace(indent) && AllSpace(newline)
    ensures Strip(indent + (t.filter + " {") + newline) == t.filter + " {" && Strip(indent + "}" + newline) == "}"
  {
    StripPadded(indent, t.filter + " {", newline);
    StripPadded(indent, "}", newline);
  }

  /** What stripping leaves of the inserted lines. */
  lemma {:induction false} ExpectedStripped(t: Texts, indent: string, newline: string, command: string)
    requires ProperWords(t) && ProperIndent(indent) && ProperNewline(newline) && ProperCommand(t, command)
    ensures var e := Expected(t, indent, newline, command);
      && Strip(e[0]) == t.begin && Strip(e[1]) == t.filter + " {" && Strip(e[2]) == command
      && Strip(e[3]) == "}" && Strip(e[4]) == t.end
  {
    assert AllSpace(newline);
    StripPadded(indent, t.begin, newline);
    StripPadded(indent, t.end, newline);
    FilterStripped(t, indent, newline);
    CommandStripped(indent, newline, command);
  }

  /** Only the first of them is the begin marker, and only the last the end marker. */
  lemma {:induction false} ExpectedMarkers(t: Texts, e: seq<string>, command: string, i: nat)
    requires ProperWords(t) && ProperCommand(t, command) && |e| == 5 && i < 5
    requires Strip(e[0]) == t.begin && Strip(e[1]) == t.filter + " {" && Strip(e[2]) == command && Strip(e[3]) == "}"
        && Strip(e[4]) == t.end
    ensures (Strip(e[i]) == t.begin <==> i == 0) && (Strip(e[i]) == t.end <==> i == 4)
  {
    assert (t.filter + " {")[0] == t.filter[0] && t.filter[0] in t.filter && command[0] in command;
    assert "}"[0] != '#';
  }

  lemma {:induction false} LeadingOf(indent: string, rest: string)
    requires AllSpace(indent) && rest != "" && !IsSpace(rest[0])
    ensures Leading(indent + rest) == indent
  {
    if indent == "" {
      assert indent + rest == rest;
    } else {
      LeadingOf(indent[1..], rest);
      assert (indent + rest)[1..] == indent[1..] + rest;
    }
  }

  lemma {:induction false} LeadingIsSpace(s: string)
    ensures AllSpace(Leading(s)) && Leading(s) <= s && (Leading(s) == s <==> AllSpace(s))
  {
    if s != "" && IsSpace(s[0]) {
      LeadingIsSpace(s[1..]);
      assert AllSpace(s) <==> AllSpace(s[1..]) by {
        assert forall i :: 0 < i < |s| ==> s[i] == s[1..][i - 1];
      }
      assert [s[0]] + s[1..] == s;
    }
  }

  /** The indentation of a line of code is white space without a line end. */
  lemma {:induction false} ProperLeading(line: string)
    requires IsLine(line) && !AllSpace(line)
    ensures ProperIndent(Leading(line)) && ProperIndent(Leading(line) + "    ")
  {
    LeadingIsSpace(line);
    var indent := Leading(line);
    assert |indent| < |line|;
    forall i | 0 <= i < |indent| ensures indent[i] != '\n' {
      assert indent[i] == line[i];
    }
  }

  // ---------------------------------------------------------------------------------------
  // The edited configuration
  // ---------------------------------------------------------------------------------------

  /** What the insertion is made of: perhaps a blank line, and the five lines. */
  ghost predicate Made(t: Texts, gap: seq<string>, e: seq<string>, indent: string, newline: string, command: string) {
    && ProperWords(t) && ProperIndent(indent) && ProperNewline(newline) && ProperCommand(t, command)
    && (gap == [] || gap == [newline]) && e == Expected(t, indent, newline, command)
  }

  lemma {:induction false} MarkerAt(t: Texts, gap: seq<string>, e: seq<string>, indent: string, newline: string,
      command: string, i: nat)
    requires Made(t, gap, e, indent, newline, command) && i < |gap| + 5
    ensures MarkAt(gap + e, Shows(t.begin), i) <==> i == |gap|
    ensures MarkAt(gap + e, Shows(t.end), i) <==> i == |gap| + 4
  {
    if i < |gap| {
      GapIsBlank(newline);
    } else {
      ExpectedStripped(t, indent, newline, command);
      ExpectedMarkers(t, e, command, i - |gap|);
      assert (gap + e)[i] == e[i - |gap|];
    }
  }

  lemma {:induction false} MarkersInserted(t: Texts, lines: seq<string>, k: nat, more: seq<string>,
      result: seq<string>, g: nat)
    requires MarkerRange(t, lines) == Absent && k <= |lines| && result == lines[..k] + more + lines[k..]
        && g + 4 < |more|
    requires forall i :: 0 <= i < |more| ==> (MarkAt(more, Shows(t.begin), i) <==> i == g)
    requires forall i :: 0 <= i < |more| ==> (MarkAt(more, Shows(t.end), i) <==> i == g + 4)
    ensures MarkerRange(t, result) == At(k + g, k + g + 4)
  {
    assert Positions(result, Shows(t.begin), |result|) == [k + g] by {
      OneMarker(lines, k, more, result, Shows(t.begin), g);
    }
    assert Positions(result, Shows(t.end), |result|) == [k + g + 4] by {
      OneMarker(lines, k, more, result, Shows(t.end), g + 4);
    }
  }

  lemma {:induction false} ResultMarkers(t: Texts, lines: seq<string>, k: nat, gap: seq<string>, e: seq<string>,
      result: seq<string>,
                                         indent: string, newline: string, command: string)
    requires Made(t, gap, e, indent, newline, command) && MarkerRange(t, lines) == Absent && k <= |lines|
    requires result == lines[..k] + (gap + e) + lines[k..]
    ensures MarkerRange(t, result) == At(k + |gap|, k + |gap| + 4)
  {
    forall i | 0 <= i < |gap + e|
      ensures (MarkAt(gap + e, Shows(t.begin), i) <==> i == |gap|)
          && (MarkAt(gap + e, Shows(t.end), i) <==> i == |gap| + 4)
    {
      MarkerAt(t, gap, e, indent, newline, command, i);
    }
    MarkersInserted(t, lines, k, gap + e, result, |gap|);
  }

  lemma {:induction false} ResultFilter(t: Texts, lines: seq<string>, block: Block, gap: seq<string>, e: seq<string>,
      result: seq<string>,
                                        indent: string, newline: string, command: string, i: nat)
    requires Made(t, gap, e, indent, newline, command) && block.start < block.end <= |lines|
    requires forall j :: block.start < j < block.end ==> !FilterAt(t, lines, j)
    requires result == lines[..block.end] + (gap + e) + lines[block.end..]
    requires block.start < i < block.end + |gap| + 5
    ensures FilterAt(t, result, i) <==> i == block.end + |gap| + 1
  {
    var b := block.end + |gap|;
    if i < block.end {
      assert result[i] == lines[i];
      assert FilterAt(t, result, i) == FilterAt(t, lines, i);
    } else if i < b {
      assert result[i] == gap[i - block.end];
      GapIsBlank(newline);
      FilterCode(t, t.filter + " {");
    } else {
      assert result[i] == e[i - b];
      ExpectedCodes(t, indent, newline, command);
      FilterCode(t, t.filter + " {");
    }
  }

  /** The begin marker line shows the indentation and the line end it was written with. */
  lemma {:induction false} MarkerLine(t: Texts, indent: string, newline: string)
    requires ProperWords(t) && ProperIndent(indent) && ProperNewline(newline)
    ensures var line := indent + t.begin + newline;
      Leading(line) == indent && newline == if EndsCrLf(line) then "\r\n" else "\n"
  {
    var line := indent + t.begin + newline;
    Joined(indent, t.begin, newline);
    LeadingOf(indent, t.begin + newline);
    if newline == "\n" {
      assert line[|line| - 2] == t.begin[|t.begin| - 1];
    }
  }

  lemma {:induction false} MadeInert(t: Texts, c: Cursor, gap: seq<string>, e: seq<string>, index: nat,
                                     indent: string, newline: string, command: string)
    requires Made(t, gap, e, indent, newline, command) && c.depth >= 1
    ensures Inert(c, gap + e, index, Header(t))
  {
    ExpectedCodes(t, indent, newline, command);
    ExpectedInert(t, c, e, index + |gap|, command);
    if gap == [] {
      assert gap + e == e;
    } else {
      GapInert(c, newline, e, index, Header(t));
    }
  }

  lemma {:induction false} ResultBlock(t: Texts, lines: seq<string>, block: Block, c: Cursor, gap: seq<string>,
      e: seq<string>, result: seq<string>,
                                       indent: string, newline: string, command: string)
    requires Made(t, gap, e, indent, newline, command) && OneBlock(lines, block, Header(t), c)
    requires result == lines[..block.end] + (gap + e) + lines[block.end..]
    ensures StorageBlock(t, result) == Some(Block(block.start, block.end + |gap| + 5))
  {
    var a, k := lines[..block.end], block.end;
    var k' := k + |gap + e|;
    MadeInert(t, c, gap, e, k, indent, newline, command);
    InsertInert(a, lines[k], lines[k + 1..], block, Header(t), c, gap + e);
    assert result[..k'] == a + (gap + e) && result[k'] == lines[k] && result[k' + 1..] == lines[k + 1..];
    BlockFound(result, Block(block.start, k'), Header(t), c);
  }

  lemma {:induction false} ResultVerified(t: Texts, lines: seq<string>, block: Block, c: Cursor, gap: seq<string>,
      e: seq<string>, result: seq<string>,
                                          indent: string, newline: string, command: string)
    requires Made(t, gap, e, indent, newline, command) && OneBlock(lines, block, Header(t), c)
    requires MarkerRange(t, lines) == Absent && forall j :: block.start < j < block.end ==> !FilterAt(t, lines, j)
    requires result == lines[..block.end] + (gap + e) + lines[block.end..]
    ensures Verify(t, result, command)
    ensures MarkerRange(t, result) == At(block.end + |gap|, block.end + |gap| + 4)
  {
    var b := block.end + |gap|;
    ResultMarkers(t, lines, block.end, gap, e, result, indent, newline, command);
    ResultBlock(t, lines, block, c, gap, e, result, indent, newline, command);
    assert result[b..b + 5] == e;
    forall i | block.start < i < b + 5 ensures FilterAt(t, result, i) <==> i == b + 1 {
      ResultFilter(t, lines, block, gap, e, result, indent, newline, command, i);
    }
    Verified(t, result, block.start, b, indent, newline, command);
  }

  lemma {:induction false} Verified(t: Texts, result: seq<string>, start: nat, b: nat, indent: string,
      newline: string, command: string)
    requires ProperWords(t) && ProperIndent(indent) && ProperNewline(newline) && start < b && b + 5 < |result|
    requires StorageBlock(t, result) == Some(Block(start, b + 5)) && MarkerRange(t, result) == At(b, b + 4)
    requires result[b..b + 5] == Expected(t, indent, newline, command)
    requires forall i :: start < i < b + 5 ==> (FilterAt(t, result, i) <==> i == b + 1)
    ensures Verify(t, result, command)
  {
    assert result[b] == result[b..b + 5][0];
    MarkerLine(t, indent, newline);
  }

  lemma {:induction false} ResultIsLines(t: Texts, lines: seq<string>, k: nat, gap: seq<string>, e: seq<string>,
      result: seq<string>,
                                         indent: string, newline: string, command: string)
    requires Made(t, gap, e, indent, newline, command) && Lines(lines) && k < |lines|
    requires result == lines[..k] + (gap + e) + lines[k..]
    ensures Lines(result)
  {
    GapIsBlank(newline);
    forall i ensures LineAt(result, i) {
      if i < k {
        assert LineAt(lines, i);
        assert 0 <= i ==> result[i] == lines[i];
      } else if i < k + |gap| {
        assert result[i] == gap[i - k];
      } else if i < k + |gap| + 5 {
        assert result[i] == e[i - k - |gap|];
        ExpectedEnded(t, indent, newline, command, i - k - |gap|);
      } else {
        assert LineAt(lines, i - |gap| - 5);
        assert i < |result| ==> result[i] == lines[i - |gap| - 5];
      }
    }
  }

  // ---------------------------------------------------------------------------------------
  // Round trip
  // ---------------------------------------------------------------------------------------

  /** The header line of the only block is not blank. */
  lemma {:induction false} HeaderIsCode(t: Texts, lines: seq<string>, block: Block, c: Cursor)
    requires ProperWords(t) && OneBlock(lines, block, Header(t), c)
    ensures !AllSpace(lines[block.start])
  {
    StorageOpens(t);
    ActiveHeader(Cursor(0, None, []), lines[..block.end], 0, Header(t), block.start);
    if AllSpace(lines[block.start]) {
      BlankCode(lines[block.start]);
    }
  }

  /** What removal makes of the edited lines. */
  lemma {:induction false} Removed(lines: seq<string>, block: Block, gap: seq<string>, e: seq<string>,
      result: seq<string>)
    requires block.start < block.end < |lines| && |e| == 5
        && result == lines[..block.end] + (gap + e) + lines[block.end..]
    requires if NeedsGap(lines, block) then |gap| == 1 && Strip(gap[0]) == "" else gap == []
    requires Strip(lines[block.start]) != ""
    ensures RemovedLines(result, block.end + |gap|, block.end + |gap| + 4) ==
            if Strip(lines[block.end - 1]) != "" then lines else lines[..block.end - 1] + lines[block.end..]
  {
    var k, b := block.end, block.end + |gap|;
    assert result[b + 5..] == lines[k..];
    if NeedsGap(lines, block) {
      assert result[b - 1] == gap[0] && result[..b - 1] == lines[..k];
      assert lines[..k] + lines[k..] == lines;
    } else {
      assert result[b - 1] == lines[k - 1] && result[..b] == lines[..k] && result[..b - 1] == lines[..k - 1];
      assert lines[..k] + lines[k..] == lines;
    }
  }

  /** Without the blank line the configuration still has its block. */
  lemma {:induction false} BlockWithoutBlank(t: Texts, lines: seq<string>, block: Block, c: Cursor, less: seq<string>)
    requires ProperWords(t) && OneBlock(lines, block, Header(t), c)
    requires Strip(lines[block.end - 1]) == "" && less == lines[..block.end - 1] + lines[block.end..]
    ensures StorageBlock(t, less).Some?
  {
    var k := block.end;
    var a, blank := lines[..k - 1], lines[k - 1];
    StorageOpens(t);
    HeaderIsCode(t, lines, block, c);
    BlankIsSpace(blank);
    BlankCode(blank);
    assert lines[..k] == a + [blank];
    RemoveBlank(a, blank, lines[k], lines[k + 1..], block, Header(t), c);
    assert less[..k - 1] == a && less[k - 1] == lines[k] && less[k..] == lines[k + 1..];
    BlockFound(less, Block(block.start, k - 1), Header(t), c);
  }

  /** And no markers. */
  lemma {:induction false} MarkersWithoutBlank(t: Texts, lines: seq<string>, k: nat, less: seq<string>)
    requires MarkerRange(t, lines) == Absent && k < |lines| && less == lines[..k] + lines[k + 1..]
    ensures MarkerRange(t, less) == Absent
  {
    NoMarkersLeft(lines, k, less, Shows(t.begin));
    NoMarkersLeft(lines, k, less, Shows(t.end));
  }

  lemma {:induction false} LinesWithout(lines: seq<string>, k: nat, less: seq<string>)
    requires Lines(lines) && k < |lines| && less == lines[..k] + lines[k + 1..]
    ensures Lines(less)
  {
    forall i ensures LineAt(less, i) {
      assert LineAt(lines, if i < k then i else i + 1);
      assert 0 <= i < |less| ==> less[i] == lines[if i < k then i else i + 1];
    }
  }

  lemma {:induction false} NoMarkersLeft(lines: seq<string>, k: nat, less: seq<string>, mark: string -> bool)
    requires k < |lines| && less == lines[..k] + lines[k + 1..] && Positions(lines, mark, |lines|) == []
    ensures Positions(less, mark, |less|) == []
  {
    PositionsNone(lines, mark, |lines|);
    forall i | 0 <= i < |less| ensures !MarkAt(less, mark, i) {
      assert MarkAt(less, mark, i) == MarkAt(lines, mark, if i < k then i else i + 1);
    }
    PositionsNone(less, mark, |less|);
  }

  /** What is left after building and removing: the text, or the text without the blank line
      that stood before the closing line. */
  function RoundTripText(t: Texts, text: string): string
    requires Editable(t, Split(text))
  {
    var lines, k := Split(text), StorageBlock(t, Split(text)).value.end;
    if Strip(lines[k - 1]) != "" then text else Join(lines[..k - 1] + lines[k..])
  }

  lemma {:induction false} RemovalStarts(t: Texts, result: seq<string>, command: string, b: nat)
    requires Verify(t, result, command) && MarkerRange(t, result) == At(b, b + 4) && Split(Join(result)) == result
    ensures RemoveManaged(t, Join(result), command) == CutOut(result, At(b, b + 4), Clean(t))
  {
  }

  lemma {:induction false} RemovalEnds(result: seq<string>, b: nat, kept: seq<string>, clean: seq<string> -> bool)
    requires b + 4 < |result| && RemovedLines(result, b, b + 4) == kept && Split(Join(kept)) == kept && clean(kept)
    ensures CutOut(result, At(b, b + 4), clean) == Some(Join(kept))
  {
  }

  function KeptLines(lines: seq<string>, block: Block): seq<string>
    requires 0 < block.end < |lines|
  {
    if Strip(lines[block.end - 1]) != "" then lines else lines[..block.end - 1] + lines[block.end..]
  }

  lemma {:induction false} KeptIsClean(t: Texts, lines: seq<string>, block: Block, c: Cursor)
    requires ProperWords(t) && Lines(lines) && OneBlock(lines, block, Header(t), c)
    requires MarkerRange(t, lines) == Absent && StorageBlock(t, lines).Some?
    ensures var kept := KeptLines(lines, block);
      MarkerRange(t, kept) == Absent && StorageBlock(t, kept).Some? && Split(Join(kept)) == kept
  {
    var kept := KeptLines(lines, block);
    if Strip(lines[block.end - 1]) == "" {
      BlockWithoutBlank(t, lines, block, c, kept);
      MarkersWithoutBlank(t, lines, block.end - 1, kept);
      LinesWithout(lines, block.end - 1, kept);
    }
    JoinLines(kept);
  }

  /** The whole of an edited configuration. */
  function EditedLines(t: Texts, lines: seq<string>, block: Block, newline: string, command: string): seq<string>
    requires block.start < block.end <= |lines|
  {
    lines[..block.end] + Insertion(t, lines, block, newline, command) + lines[block.end..]
  }

  lemma {:induction false} EditedIndent(t: Texts, lines: seq<string>, block: Block, c: Cursor)
    requires ProperWords(t) && Lines(lines) && OneBlock(lines, block, Header(t), c)
    ensures ProperIndent(Leading(lines[block.start]) + "    ")
  {
    HeaderIsCode(t, lines, block, c);
    assert LineAt(lines, block.start);
    ProperLeading(lines[block.start]);
  }

  /** An edited configuration passes the check. */
  lemma {:induction false} EditedVerified(t: Texts, lines: seq<string>, block: Block, c: Cursor, newline: string,
      command: string, indent: string, result: seq<string>)
    requires ProperWords(t) && ProperCommand(t, command) && ProperNewline(newline) && ProperIndent(indent)
    requires OneBlock(lines, block, Header(t), c) && MarkerRange(t, lines) == Absent
    requires forall j :: block.start < j < block.end ==> !FilterAt(t, lines, j)
    requires result == lines[..block.end] + (GapFor(lines, block, newline) + Expected(t, indent, newline, command))
        + lines[block.end..]
    ensures var b := block.end + |GapFor(lines, block, newline)|;
      Verify(t, result, command) && MarkerRange(t, result) == At(b, b + 4)
  {
    var gap, e := GapFor(lines, block, newline), Expected(t, indent, newline, command);
    assert Made(t, gap, e, indent, newline, command);
    ResultVerified(t, lines, block, c, gap, e, result, indent, newline, command);
  }

  /** And it splits into the lines it was made of. */
  lemma {:induction false} EditedSplits(t: Texts, lines: seq<string>, block: Block, newline: string, command: string,
      indent: string, result: seq<string>)
    requires ProperWords(t) && ProperCommand(t, command) && ProperNewline(newline) && ProperIndent(indent)
        && Lines(lines)
    requires block.start < block.end < |lines|
    requires result == lines[..block.end] + (GapFor(lines, block, newline) + Expected(t, indent, newline, command))
        + lines[block.end..]
    ensures Split(Join(result)) == result
  {
    ResultIsLines(t, lines, block.end, GapFor(lines, block, newline), Expected(t, indent, newline, command), result,
        indent, newline, command);
    JoinLines(result);
  }

  lemma {:induction false} EditedIsGood(t: Texts, lines: seq<string>, block: Block, c: Cursor, newline: string,
      command: string, result: seq<string>)
    requires ProperWords(t) && ProperCommand(t, command) && ProperNewline(newline) && Lines(lines)
    requires OneBlock(lines, block, Header(t), c) && MarkerRange(t, lines) == Absent
    requires forall j :: block.start < j < block.end ==> !FilterAt(t, lines, j)
    requires result == EditedLines(t, lines, block, newline, command)
    ensures var b := block.end + |GapFor(lines, block, newline)|;
      Verify(t, result, command) && MarkerRange(t, result) == At(b, b + 4)
    ensures Split(Join(result)) == result
  {
    var indent := Leading(lines[block.start]) + "    ";
    EditedIndent(t, lines, block, c);
    EditedSplits(t, lines, block, newline, command, indent, result);
    EditedVerified(t, lines, block, c, newline, command, indent, result);
  }

  lemma {:induction false} EditedRemoved(t: Texts, lines: seq<string>, block: Block, newline: string,
      command: string)
    requires block.start < block.end < |lines| && ProperNewline(newline) && !AllSpace(lines[block.start])
    ensures var b := block.end + |GapFor(lines, block, newline)|;
      var result := EditedLines(t, lines, block, newline, command);
      b + 4 < |result| && RemovedLines(result, b, b + 4) == KeptLines(lines, block)
  {
    BlankIsSpace(lines[block.start]);
    GapIsBlank(newline);
    var gap := GapFor(lines, block, newline);
    var e := Expected(t, Leading(lines[block.start]) + "    ", newline, command);
    assert Insertion(t, lines, block, newline, command) == gap + e;
    Removed(lines, block, gap, e, EditedLines(t, lines, block, newline, command));
  }

  lemma {:induction false} RemoveEdited(t: Texts, lines: seq<string>, block: Block, c: Cursor, newline: string,
      command: string)
    requires ProperWords(t) && ProperCommand(t, command) && ProperNewline(newline) && Lines(lines)
        && StorageBlock(t, lines).Some?
    requires OneBlock(lines, block, Header(t), c) && MarkerRange(t, lines) == Absent
    requires forall j :: block.start < j < block.end ==> !FilterAt(t, lines, j)
    ensures RemoveManaged(t, Join(EditedLines(t, lines, block, newline, command)), command) ==
        Some(Join(KeptLines(lines, block)))
  {
    var result, kept := EditedLines(t, lines, block, newline, command), KeptLines(lines, block);
    var b := block.end + |GapFor(lines, block, newline)|;
    assert RemoveManaged(t, Join(result), command) == CutOut(result, At(b, b + 4), Clean(t)) by {
      EditedIsGood(t, lines, block, c, newline, command, result);
      RemovalStarts(t, result, command, b);
    }
    assert b + 4 < |result| && RemovedLines(result, b, b + 4) == kept by {
      HeaderIsCode(t, lines, block, c);
      EditedRemoved(t, lines, block, newline, command);
    }
    assert Clean(t)(kept) && Split(Join(kept)) == kept by {
      KeptIsClean(t, lines, block, c);
    }
    RemovalEnds(result, b, kept, Clean(t));
  }

  lemma {:induction false} TheBlock(t: Texts, lines: seq<string>, block: Block) returns (c: Cursor)
    requires ProperWords(t) && StorageBlock(t, lines) == Some(block)
    ensures OneBlock(lines, block, Header(t), c)
  {
    StorageOpens(t);
    assert FindBlocks(lines, Header(t)).value == [block];
    c := OnlyBlock(lines, block, Header(t));
  }

  lemma {:induction false} RoundTripIs(t: Texts, text: string, lines: seq<string>, block: Block)
    requires lines == Split(text) && Editable(t, lines) && StorageBlock(t, lines) == Some(block) && Join(lines) == text
    ensures RoundTripText(t, text) == Join(KeptLines(lines, block))
  {
  }

  lemma {:induction false} BuildEdited(t: Texts, text: string, lines: seq<string>, block: Block, c: Cursor,
      command: string)
    requires ProperWords(t) && ProperCommand(t, command) && lines == Split(text) && Lines(lines)
    requires Editable(t, lines) && StorageBlock(t, lines) == Some(block) && OneBlock(lines, block, Header(t), c)
    ensures BuildManaged(t, text, command) == Some(Join(EditedLines(t, lines, block, Newline(text), command)))
  {
    EditedIsGood(t, lines, block, c, Newline(text), command, EditedLines(t, lines, block, Newline(text), command));
  }

  /** Every editable configuration is edited, the result passes the editor's own check, and
      removing the block again gives the text back, except that a blank line before the closing
      line of the storage block is lost. */
  lemma {:induction false} BuildThenRemove(t: Texts, text: string, command: string)
    requires ProperWords(t) && ProperCommand(t, command) && Editable(t, Split(text))
    ensures BuildManaged(t, text, command).Some?
    ensures RemoveManaged(t, BuildManaged(t, text, command).value, command) == Some(RoundTripText(t, text))
  {
    var lines, newline := Split(text), Newline(text);
    var block := StorageBlock(t, lines).value;
    SplitLines(text);
    JoinSplit(text);
    var c := TheBlock(t, lines, block);
    BuildEdited(t, text, lines, block, c, command);
    assert RemoveManaged(t, Join(EditedLines(t, lines, block, newline, command)), command) ==
        Some(RoundTripText(t, text)) by {
      RemoveEdited(t, lines, block, c, newline, command);
      RoundTripIs(t, text, lines, block);
    }
  }

  lemma {:induction false} JoinSize(lines: seq<string>, k: nat)
    requires k < |lines| && lines[k] != ""
    ensures |Join(lines[..k] + lines[k + 1..])| < |Join(lines)|
  {
    JoinConcat(lines[..k], lines[k + 1..]);
    assert lines == lines[..k] + ([lines[k]] + lines[k + 1..]);
    JoinConcat(lines[..k], [lines[k]] + lines[k + 1..]);
    assert ([lines[k]] + lines[k + 1..])[1..] == lines[k + 1..];
  }

  lemma {:induction false} LosesBlank(t: Texts, text: string)
    requires Editable(t, Split(text))
    ensures RoundTripText(t, text) == text <==> Strip(Split(text)[StorageBlock(t, Split(text)).value.end - 1]) != ""
  {
    var lines, k := Split(text), StorageBlock(t, Split(text)).value.end;
    SplitLines(text);
    JoinSplit(text);
    assert LineAt(lines, k - 1);
    JoinSize(lines, k - 1);
  }

  /** So the round trip is exact if and only if the line before the closing line of the storage
      block is not blank. */
  lemma {:induction false} RoundTripExact(t: Texts, text: string, command: string, built: string)
    requires ProperWords(t) && ProperCommand(t, command) && Editable(t, Split(text))
        && BuildManaged(t, text, command) == Some(built)
    ensures RemoveManaged(t, built, command) == Some(text) <==>
        Strip(Split(text)[StorageBlock(t, Split(text)).value.end - 1]) != ""
  {
    BuildThenRemove(t, text, command);
    LosesBlank(t, text);
  }

  // ---------------------------------------------------------------------------------------
  // A configuration that does not come back
  // ---------------------------------------------------------------------------------------

  function HeaderLine(t: Texts): string {
    t.storage + " " + (t.mailboxes + " {")
  }

  lemma {:induction false} HeaderLineIs(t: Texts, h: string)
    requires ProperWords(t) && h == HeaderLine(t)
    ensures IsStorage(t, h) && Plain(h) && '\n' !in h && !IsSpace(h[0]) && !IsSpace(h[|h| - 1]) && h[0] != '#'
  {
    var rest := t.mailboxes + " {";
    PlainWord(h);
    assert h[|t.storage|..] == " " + rest;
    TrimLeftPadding(" ", rest);
    assert TrimLeft(rest) == rest;
    assert rest[|t.mailboxes|..] == " {" && " {"[1..] == "{";
    assert t.storage[0] in t.storage;
  }

  lemma {:induction false} SmallCodes(t: Texts, h: string)
    requires ProperWords(t) && h == HeaderLine(t)
    ensures Code(h + "\n") == Some(h) && Code("\n") == Some("") && Code("}\n") == Some("}")
  {
    HeaderLineIs(t, h);
    CodeLine("", h, "\n");
    assert "" + h + "\n" == h + "\n";
    BlankCode("\n");
    PlainWord("}");
    CodeLine("", "}", "\n");
    assert "" + "}" + "\n" == "}\n";
  }

  lemma {:induction false} SmallBlock(t: Texts, h: string, lines: seq<string>)
    requires ProperWords(t) && h == HeaderLine(t) && lines == [h + "\n", "\n", "}\n"]
    ensures StorageBlock(t, lines) == Some(Block(0, 2))
  {
    HeaderLineIs(t, h);
    StorageCounts(t, h, '{');
    StorageCounts(t, h, '}');
    SmallCodes(t, h);
    SmallScan(lines, h, Header(t));
  }

  lemma {:induction false} SmallScan(lines: seq<string>, h: string, header: string -> bool)
    requires |lines| == 3 && Code(lines[0]) == Some(h) && Code(lines[1]) == Some("") && Code(lines[2]) == Some("}")
    requires header(h) && Count(h, '{') == 1 && Count(h, '}') == 0
    ensures FindBlocks(lines, header) == Some([Block(0, 2)])
  {
    var start, inner, end := Cursor(0, None, []), Cursor(1, Some(0), []), Cursor(0, None, [Block(0, 2)]);
    assert ScanLine(start, lines[0], 0, header) == Some(inner);
    InnerLine(inner, lines[1], 1, header, "");
    assert "}"[1..] == "" && Count("}", '}') == 1 && Count("}", '{') == 0;
    assert [] + [Block(0, 2)] == [Block(0, 2)];
    assert ScanLine(inner, lines[2], 2, header) == Some(end);
    assert lines == [lines[0]] + ([lines[1]] + ([lines[2]] + []));
    ScanCons(start, inner, lines[0], [lines[1]] + ([lines[2]] + []), 0, header);
    ScanCons(inner, inner, lines[1], [lines[2]] + [], 1, header);
    ScanCons(inner, end, lines[2], [], 2, header);
  }

  lemma {:induction false} SmallMarkers(t: Texts, h: string, lines: seq<string>, text: string)
    requires ProperWords(t) && h == HeaderLine(t) && lines == [h + "\n", "\n", "}\n"] && CommentLine(text)
    ensures Positions(lines, Shows(text), 3) == []
  {
    HeaderLineIs(t, h);
    StripPadded("", h, "\n");
    assert "" + h + "\n" == h + "\n";
    GapIsBlank("\n");
    StripPadded("", "}", "\n");
    assert "" + "}" + "\n" == "}\n";
    PositionsNone(lines, Shows(text), 3);
  }

  /** A storage block whose only inner line is blank is editable. */
  lemma {:induction false} SmallIsEditable(t: Texts, lines: seq<string>)
    requires ProperWords(t) && lines == [HeaderLine(t) + "\n", "\n", "}\n"]
    ensures Split(Join(lines)) == lines && Editable(t, lines) && StorageBlock(t, lines) == Some(Block(0, 2))
        && Strip(lines[1]) == ""
  {
    var h := HeaderLine(t);
    HeaderLineIs(t, h);
    EndedLine(h, "\n");
    GapIsBlank("\n");
    EndedLine("}", "\n");
    forall i ensures LineAt(lines, i) {
      assert 0 <= i < 3 ==> Ended(lines[i]);
    }
    JoinLines(lines);
    SmallBlock(t, h, lines);
    SmallMarkers(t, h, lines, t.begin);
    SmallMarkers(t, h, lines, t.end);
    FilterCode(t, t.filter + " {");
    forall i | 0 < i < 2 ensures !FilterAt(t, lines, i) {
      assert lines[i] == "\n";
    }
  }

  /** What the round trip leaves of it. */
  lemma {:induction false} SmallRoundTrip(t: Texts, lines: seq<string>, text: string)
    requires lines == Split(text) && |lines| == 3 && Editable(t, lines) && StorageBlock(t, lines) == Some(Block(0, 2))
        && Strip(lines[1]) == ""
    ensures RoundTripText(t, text) == Join([lines[0], lines[2]]) != text
  {
    assert lines[..1] + lines[2..] == [lines[0], lines[2]];
    LosesBlank(t, text);
  }

  /** The filter can be added to it, and removing the filter loses the blank line. */
  lemma {:induction false} BlankLineIsLost(t: Texts, lines: seq<string>, text: string, command: string)
    requires ProperWords(t) && ProperCommand(t, command) && lines == [HeaderLine(t) + "\n", "\n", "}\n"]
        && text == Join(lines)
    ensures BuildManaged(t, text, command).Some?
    ensures RemoveManaged(t, BuildManaged(t, text, command).value, command) == Some(Join([lines[0], lines[2]]))
    ensures Join([lines[0], lines[2]]) != text
  {
    SmallIsEditable(t, lines);
    SmallRoundTrip(t, lines, text);
    BuildThenRemove(t, text, command);
  }
}
