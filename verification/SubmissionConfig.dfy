/**
 The editor of Maddy's local Submission listener: it appends a marked copy of the default
 `submission` block with two lines added, and later removes it again.  Which block is the
 default one, where its `limits` end and which words must survive are given rules here; those
 of the script are in SubmissionRules.

 The proof follows the brace-depth scan through the default block and then through its copy.
 The copy is closed by one brace of its own, so it is a complete block exactly if the scan was
 one brace deep at the last line of the default block (`CopyOfBlock`); that decides whether
 the removal gives the text back or refuses (`RoundTrip`).
 */
module SubmissionConfig {
  import opened Options
  import opened ConfigScan

  /** The words the editor writes: its markers, its listener, and the two added lines. */
  datatype Texts = Texts(begin: string, end: string, listener: string, tls: string, limit: string) {
    function Header(): string {
      listener + " {"
    }
  }

  const TEXTS := Texts("# BEGIN MADDYWEB " + "MANAGED SUBMISSION v1", "# END MADDYWEB " + "MANAGED SUBMISSION v1",
                       "submission " + "tcp://127.0.0.1:1587", "tls off", "all concurrency 2")

  /** The chosen block, the indentation of its `auth` and `limits` lines, and the position in
      its inner lines at which the `limits` block ends. */
  datatype Choice = Choice(block: Block, authIndent: string, limitsIndent: string, at: nat)

  /** `header` recognises a submission block, `choose` picks the default one, `sound` and
      `intact` are the checks of the copied lines when they are written and removed. */
  datatype Rules = Rules(header: string -> bool, choose: (seq<string>, seq<Block>) -> Option<Choice>,
                         sound: seq<string> -> bool, intact: seq<string> -> bool)

  /** A line without its line end. */
  function Chomp(s: string): string {
    if s != "" && (s[|s| - 1] == '\n' || s[|s| - 1] == '\r') then Chomp(s[..|s| - 1]) else s
  }

  function Reads(text: string): string -> bool {
    (line: string) => Chomp(line) == text
  }

  function MarkerRange(t: Texts, lines: seq<string>): Markers {
    RangeOf(Positions(lines, Reads(t.begin), |lines|), Positions(lines, Reads(t.end), |lines|))
  }

  function Inner(lines: seq<string>, block: Block): seq<string>
    requires block.start < block.end <= |lines|
  {
    lines[block.start + 1..block.end]
  }

  /** The inner lines with the two added ones. */
  function Copied(t: Texts, inner: seq<string>, choice: Choice, newline: string): seq<string>
    requires choice.at <= |inner|
  {
    [choice.authIndent + t.tls + newline]
    + (inner[..choice.at] + ([choice.limitsIndent + "    " + t.limit + newline] + inner[choice.at..]))
  }

  function Between(t: Texts, inner: seq<string>, choice: Choice, newline: string): seq<string>
    requires choice.at <= |inner|
  {
    [t.Header() + newline] + (Copied(t, inner, choice, newline) + ["}" + newline])
  }

  predicate EndsLine(text: string) {
    text != "" && text[|text| - 1] == '\n'
  }

  /** The text with its last line ended. */
  function Whole(text: string, newline: string): string {
    if EndsLine(text) then text else text + newline
  }

  function Added(t: Texts, inner: seq<string>, choice: Choice, newline: string): seq<string>
    requires choice.at <= |inner|
  {
    [newline, t.begin + newline] + Between(t, inner, choice, newline) + [t.end + newline]
  }

  function BuildManaged(t: Texts, rules: Rules, text: string, newline: string): Option<string> {
    var lines := Split(text);
    var blocks := FindBlocks(lines, rules.header);
    if MarkerRange(t, lines) != Absent || blocks.None? then None
    else
      var choice := rules.choose(lines, blocks.value);
      if choice.None? then None
      else
        var block := choice.value.block;
        if !(block in blocks.value && block.start < block.end <= |lines|)
            || choice.value.at > |Inner(lines, block)| then None
        else
          var between := Between(t, Inner(lines, block), choice.value, newline);
          if !rules.sound(between) then None
          else Some(Whole(text, newline) + Join(Added(t, Inner(lines, block), choice.value, newline)))
  }

  function RemoveManaged(t: Texts, rules: Rules, text: string): Option<string> {
    var lines := Split(text);
    var marker := MarkerRange(t, lines);
    if !marker.At? || !(marker.begin < marker.end < |lines|) then None
    else
      var between := lines[marker.begin + 1..marker.end];
      if between == [] || Chomp(between[0]) != t.Header() || !rules.intact(between) then None
      else if FindBlocks(between, rules.header) != Some([Block(0, |between| - 1)]) then None
      else
        Some(Join((if marker.begin >= 1 && Strip(lines[marker.begin - 1]) == "" then lines[..marker.begin - 1]
            else lines[..marker.begin])
                  + lines[marker.end + 1..]))
  }

  // ---------------------------------------------------------------------------------------
  // The scan of a copied block
  // ---------------------------------------------------------------------------------------

  /** As long as no block ends, the scan stays in the block it is in. */
  lemma {:induction false} StaysActive(c: Cursor, lines: seq<string>, index: nat, header: string -> bool)
    requires c.active.Some? && c.depth >= 1 && ScanFrom(c, lines, index, header).Some?
    requires |ScanFrom(c, lines, index, header).value.blocks| == |c.blocks|
    ensures var r := ScanFrom(c, lines, index, header).value;
        r.active == c.active && r.depth >= 1 && r.blocks == c.blocks
    decreases |lines|
  {
    if lines != [] {
      var next := ScanLine(c, lines[0], index, header).value;
      ScanAdds(next, lines[1..], index + 1, header);
      StaysActive(next, lines[1..], index + 1, header);
    }
  }

  /** And it would go the same way at any other place. */
  lemma {:induction false} Transplant(c: Cursor, c': Cursor, lines: seq<string>, index: nat, index': nat,
      header: string -> bool)
    requires c.active.Some? && c.depth >= 1 && ScanFrom(c, lines, index, header).Some?
    requires |ScanFrom(c, lines, index, header).value.blocks| == |c.blocks|
    requires c'.active.Some? && c'.depth == c.depth
    ensures ScanFrom(c', lines, index', header) == Some(c'.(depth := ScanFrom(c, lines, index, header).value.depth))
    decreases |lines|
  {
    if lines != [] {
      var next := ScanLine(c, lines[0], index, header).value;
      ScanAdds(next, lines[1..], index + 1, header);
      var next' := c'.(depth := next.depth);
      assert ScanLine(c', lines[0], index', header) == Some(next');
      Transplant(next, next', lines[1..], index + 1, index' + 1, header);
    }
  }

  /** Where the block that the scan is in began. */
  lemma {:induction false} ActiveSince(c: Cursor, lines: seq<string>, index: nat, header: string -> bool, k: nat)
    requires ScanFrom(c, lines, index, header).Some? && ScanFrom(c, lines, index, header).value.active ==
        Some(index + k)
    requires c.active.Some? ==> c.active.value < index
    ensures k < |lines| && ScanFrom(c, lines[..k], index, header).Some?
    ensures var c0 := ScanFrom(c, lines[..k], index, header).value;
      && c0.depth == 0 && Code(lines[k]).Some? && header(Code(lines[k]).value)
          && ScanLine(c0, lines[k], index + k, header).Some?
      && ScanFrom(ScanLine(c0, lines[k], index + k, header).value, lines[k + 1..], index + k + 1, header) ==
          ScanFrom(c, lines, index, header)
    decreases |lines|
  {
    if lines != [] {
      var next := ScanLine(c, lines[0], index, header).value;
      if k > 0 {
        ActiveSince(next, lines[1..], index + 1, header, k - 1);
        assert lines[..k][1..] == lines[1..][..k - 1] && lines[1..][k..] == lines[k + 1..];
      } else {
        ActiveKept(next, lines[1..], index + 1, header, index);
      }
    }
  }

  /** Nothing ended while the scan stayed in its block. */
  lemma {:induction false} KeptBlocks(c: Cursor, lines: seq<string>, index: nat, header: string -> bool, k: nat)
    requires ScanFrom(c, lines, index, header).Some? && ScanFrom(c, lines, index, header).value.active == Some(k)
        && k < index
    ensures ScanFrom(c, lines, index, header).value.blocks == c.blocks
    decreases |lines|
  {
    if lines != [] {
      var next := ScanLine(c, lines[0], index, header).value;
      ActiveKept(next, lines[1..], index + 1, header, k);
      KeptBlocks(next, lines[1..], index + 1, header, k);
    }
  }

  /** Every block is found at its last line, where the depth becomes 0. */
  lemma {:induction false} RecordedAt(c: Cursor, lines: seq<string>, index: nat, header: string -> bool, m: nat)
    requires ScanFrom(c, lines, index, header).Some? && |c.blocks| <= m < |ScanFrom(c, lines, index,
        header).value.blocks|
    ensures var block := ScanFrom(c, lines, index, header).value.blocks[m];
      && index <= block.end < index + |lines|
      && var e := block.end - index;
      && ScanFrom(c, lines[..e], index, header).Some?
      && var mid := ScanFrom(c, lines[..e], index, header).value;
      && var next := ScanLine(mid, lines[e], block.end, header);
      && next.Some? && next.value.depth == 0 && next.value.blocks == mid.blocks + [block]
    decreases |lines|
  {
    var r := ScanFrom(c, lines, index, header).value;
    if lines != [] {
      var next := ScanLine(c, lines[0], index, header).value;
      ScanAdds(next, lines[1..], index + 1, header);
      if m < |next.blocks| {
        assert r.blocks[m] == r.blocks[..|next.blocks|][m];
        assert lines[..0] == [];
      } else {
        RecordedAt(next, lines[1..], index + 1, header, m);
        var e := r.blocks[m].end - index;
        assert lines[..e][1..] == lines[1..][..e - 1];
      }
    }
  }

  /** The depth at which a block's last line finds the scan. */
  function ClosingDepth(lines: seq<string>, header: string -> bool, block: Block): nat
    requires block.end <= |lines|
  {
    var c := ScanFrom(Cursor(0, None, []), lines[..block.end], 0, header);
    if c.None? then 0 else c.value.depth
  }

  /** The header line of a block raises the depth by this much. */
  function HeaderDepth(lines: seq<string>, block: Block): int
    requires block.start < |lines|
  {
    var code := Code(lines[block.start]);
    if code.None? then 0 else Count(code.value, '{') - Count(code.value, '}')
  }

  lemma {:induction false} Recording(c: Cursor, line: string, index: nat, header: string -> bool, block: Block)
    requires block.start < index && ScanLine(c, line, index, header).Some?
    requires ScanLine(c, line, index, header).value.depth == 0
        && ScanLine(c, line, index, header).value.blocks == c.blocks + [block]
    ensures c.active == Some(block.start)
  {
    var blocks := ScanLine(c, line, index, header).value.blocks;
    assert |blocks| == |c.blocks| + 1 && blocks[|c.blocks|] == block;
  }

  lemma {:induction false} OpenedBy(c: Cursor, lines: seq<string>, block: Block, header: string -> bool)
    requires c.depth == 0 && block.start < |lines| && HeaderDepth(lines, block) == 1
    requires Code(lines[block.start]).Some? && header(Code(lines[block.start]).value)
    ensures ScanLine(c, lines[block.start], block.start, header) == Some(Cursor(1, Some(block.start), c.blocks))
  {
  }

  /** The last line of a block that was found finds the scan inside that block. */
  lemma {:induction false} ClosingCursor(lines: seq<string>, header: string -> bool, blocks: seq<Block>, block: Block)
    requires FindBlocks(lines, header) == Some(blocks) && block in blocks && block.start < block.end
    ensures block.end < |lines| && ScanFrom(Cursor(0, None, []), lines[..block.end], 0, header).Some?
    ensures var c := ScanFrom(Cursor(0, None, []), lines[..block.end], 0, header).value;
        c.active == Some(block.start) && c.depth >= 1
  {
    var start := Cursor(0, None, []);
    var m :| 0 <= m < |blocks| && blocks[m] == block;
    RecordedAt(start, lines, 0, header, m);
    var c := ScanFrom(start, lines[..block.end], 0, header).value;
    Recording(c, lines[block.end], block.end, header, block);
    ScanInside(start, lines[..block.end], 0, header);
  }

  /** The way of the scan through a block that was found and whose header opens one brace. */
  lemma {:induction false} FoundBlock(lines: seq<string>, header: string -> bool, blocks: seq<Block>, block: Block)
    returns (before: seq<Block>)
    requires FindBlocks(lines, header) == Some(blocks) && block in blocks
    requires block.start < block.end && block.start < |lines| && HeaderDepth(lines, block) == 1
    ensures block.end < |lines| && ClosingDepth(lines, header, block) >= 1
    ensures ScanFrom(Cursor(1, Some(block.start), before), Inner(lines, block), block.start + 1, header)
            == Some(Cursor(ClosingDepth(lines, header, block), Some(block.start), before))
  {
    ClosingCursor(lines, header, blocks, block);
    before := EnteredAt(lines[..block.end], header, block);
    assert lines[..block.end][block.start + 1..] == Inner(lines, block);
  }

  lemma {:induction false} EnteredAt(a: seq<string>, header: string -> bool, block: Block) returns (before: seq<Block>)
    requires ScanFrom(Cursor(0, None, []), a, 0, header).Some?
    requires ScanFrom(Cursor(0, None, []), a, 0, header).value.active == Some(block.start)
    requires block.start < |a| && HeaderDepth(a, block) == 1
    ensures ScanFrom(Cursor(1, Some(block.start), before), a[block.start + 1..], block.start + 1, header)
            == ScanFrom(Cursor(0, None, []), a, 0, header)
    ensures ScanFrom(Cursor(0, None, []), a, 0, header).value.blocks == before
  {
    var start := Cursor(0, None, []);
    ActiveSince(start, a, 0, header, block.start);
    var c0 := ScanFrom(start, a[..block.start], 0, header).value;
    before := c0.blocks;
    OpenedBy(c0, a, block, header);
    KeptBlocks(Cursor(1, Some(block.start), before), a[block.start + 1..], block.start + 1, header, block.start);
  }

  // ---------------------------------------------------------------------------------------
  // The scan of the copy
  // ---------------------------------------------------------------------------------------

  /** A line whose code has no braces. */
  ghost predicate Braceless(line: string) {
    Code(line).Some? && Count(Code(line).value, '{') == 0 && Count(Code(line).value, '}') == 0
  }

  lemma {:induction false} BracelessInert(c: Cursor, line: string, rest: seq<string>, index: nat,
      header: string -> bool)
    requires c.depth >= 1 && Braceless(line)
    ensures ScanFrom(c, [line] + rest, index, header) == ScanFrom(c, rest, index + 1, header)
  {
    InnerLine(c, line, index, header, Code(line).value);
    ScanCons(c, c, line, rest, index, header);
  }

  /** Two lines without braces, one in front and one somewhere, do not change where the scan of
      the inner lines ends. */
  lemma {:induction false} CopyScan(c: Cursor, c': Cursor, inner: seq<string>, index: nat, at: nat, first: string,
      second: string, header: string -> bool)
    requires c.active.Some? && c.depth == 1 && ScanFrom(c, inner, index, header).Some? && at <= |inner|
    requires |ScanFrom(c, inner, index, header).value.blocks| == |c.blocks|
    requires c'.active.Some? && c'.depth == 1 && Braceless(first) && Braceless(second)
    ensures ScanFrom(c', [first] + (inner[..at] + ([second] + inner[at..])), 1, header) ==
            Some(c'.(depth := ScanFrom(c, inner, index, header).value.depth))
  {
    var a, b := inner[..at], inner[at..];
    assert inner == a + b;
    ScanConcat(c, a, b, index, header);
    var mid := ScanFrom(c, a, index, header).value;
    ScanAdds(c, a, index, header);
    ScanAdds(mid, b, index + at, header);
    StaysActive(c, a, index, header);
    BracelessInert(c', first, a + ([second] + b), 1, header);
    Transplant(c, c', a, index, 2, header);
    ScanConcat(c', a, [second] + b, 2, header);
    var mid' := c'.(depth := mid.depth);
    BracelessInert(mid', second, b, 2 + at, header);
    Transplant(mid, mid', b, index + at, 3 + at, header);
  }

  // ---------------------------------------------------------------------------------------
  // What the words and the rules are like
  // ---------------------------------------------------------------------------------------

  ghost predicate Marker(s: string) {
    s != "" && s[0] == '#' && '\n' !in s && '\r' !in s
  }

  /** Plain text on one line that begins and ends with code and has no braces. */
  ghost predicate Word(s: string) {
    && s != "" && !IsSpace(s[0]) && !IsSpace(s[|s| - 1])
    && '\n' !in s && '\r' !in s && '"' !in s && '\'' !in s && '#' !in s && '{' !in s && '}' !in s
  }

  ghost predicate Proper(t: Texts) {
    Marker(t.begin) && Marker(t.end) && t.begin != t.end && Word(t.listener) && Word(t.tls) && Word(t.limit)
  }

  ghost predicate HasCode(lines: seq<string>, code: string) {
    exists i :: 0 <= i < |lines| && Code(lines[i]) == Some(code)
  }

  /** The managed header is one; and lines that passed the check when written, the two added
      ones among them, pass it when removed. */
  ghost predicate ProperRules(t: Texts, rules: Rules) {
    && rules.header(t.Header())
    && forall m :: rules.sound(m) && HasCode(m, t.tls) && HasCode(m, t.limit) ==> rules.intact(m)
  }

  /** The chosen block is one of those found, and its header opens one brace. */
  ghost predicate ProperChoice(lines: seq<string>, blocks: seq<Block>, choice: Choice) {
    && choice.block in blocks && choice.block.start < choice.block.end <= |lines|
    && HeaderDepth(lines, choice.block) == 1 && choice.at <= |Inner(lines, choice.block)|
    && ProperIndent(choice.authIndent) && ProperIndent(choice.limitsIndent)
  }

  lemma {:induction false} WordLine(indent: string, word: string, newline: string)
    requires ProperIndent(indent) && Word(word) && ProperNewline(newline)
    ensures Code(indent + word + newline) == Some(word) && Braceless(indent + word + newline)
        && Ended(indent + word + newline)
  {
    assert AllSpace(newline);
    PlainWord(word);
    CodeLine(indent, word, newline);
    CountNone(word, '{');
    CountNone(word, '}');
    EndedLine(indent + word, newline);
  }

  lemma {:induction false} HeaderCode(t: Texts, newline: string, line: string)
    requires Proper(t) && ProperNewline(newline) && line == t.Header() + newline
    ensures Code(line) == Some(t.Header()) && Count(t.Header(), '{') == 1 && Count(t.Header(), '}') == 0 && Ended(line)
  {
    var h := t.Header();
    assert AllSpace(newline) && AllSpace("");
    PlainWord(h);
    CodeLine("", h, newline);
    assert "" + h + newline == line;
    CountConcat(t.listener, " {", '{');
    CountConcat(t.listener, " {", '}');
    CountNone(t.listener, '{');
    CountNone(t.listener, '}');
    assert " {"[1..] == "{" && "{"[1..] == "";
    EndedLine(h, newline);
  }

  lemma {:induction false} ClosingCode(newline: string, line: string)
    requires ProperNewline(newline) && line == "}" + newline
    ensures Code(line) == Some("}") && Ended(line) && Count("}", '{') == 0 && Count("}", '}') == 1
  {
    assert AllSpace(newline) && AllSpace("");
    PlainWord("}");
    CodeLine("", "}", newline);
    assert "" + "}" + newline == line;
    EndedLine("}", newline);
    assert "}"[1..] == "";
  }

  // ---------------------------------------------------------------------------------------
  // When the copy is one complete block
  // ---------------------------------------------------------------------------------------

  /** The copied lines are one block exactly if the default block's last line found the scan
      one brace deep; deeper, the copy is left open. */
  lemma {:induction false} CopyIsBlock(t: Texts, header: string -> bool, copied: seq<string>, newline: string, d: nat)
    requires Proper(t) && ProperNewline(newline) && header(t.Header()) && d >= 1
    requires ScanFrom(Cursor(1, Some(0), []), copied, 1, header) == Some(Cursor(d, Some(0), []))
    ensures var between := [t.Header() + newline] + (copied + ["}" + newline]);
      FindBlocks(between, header) == if d == 1 then Some([Block(0, |between| - 1)]) else None
  {
    var start, within := Cursor(0, None, []), Cursor(1, Some(0), []);
    var first, last := t.Header() + newline, "}" + newline;
    HeaderCode(t, newline, first);
    ClosingCode(newline, last);
    assert ScanLine(start, first, 0, header) == Some(within);
    ScanCons(start, within, first, copied + [last], 0, header);
    ScanConcat(within, copied, [last], 1, header);
    CloseCopy(Cursor(d, Some(0), []), last, 1 + |copied|, header);
  }

  lemma {:induction false} CloseCopy(c: Cursor, last: string, index: nat, header: string -> bool)
    requires c.depth >= 1 && c.active == Some(0) && c.blocks == [] && Code(last) == Some("}") && Count("}", '{') == 0
        && Count("}", '}') == 1
    ensures ScanFrom(c, [last], index, header) ==
            Some(if c.depth == 1 then Cursor(0, None, [Block(0, index)]) else Cursor(c.depth - 1, Some(0), []))
  {
    assert [last][1..] == [];
    assert [] + [Block(0, index)] == [Block(0, index)];
  }

  lemma {:induction false} CopyOfBlock(t: Texts, rules: Rules, lines: seq<string>, blocks: seq<Block>, choice: Choice,
      newline: string)
    requires Proper(t) && ProperRules(t, rules) && ProperNewline(newline)
    requires FindBlocks(lines, rules.header) == Some(blocks) && ProperChoice(lines, blocks, choice)
    ensures choice.block.end < |lines|
    ensures var between := Between(t, Inner(lines, choice.block), choice, newline);
      FindBlocks(between, rules.header) ==
      if ClosingDepth(lines, rules.header, choice.block) == 1 then Some([Block(0, |between| - 1)]) else None
  {
    var block := choice.block;
    var before := FoundBlock(lines, rules.header, blocks, block);
    WordLine(choice.authIndent, t.tls, newline);
    WordLine(choice.limitsIndent + "    ", t.limit, newline);
    CopyScan(Cursor(1, Some(block.start), before), Cursor(1, Some(0), []), Inner(lines, block), block.start + 1,
        choice.at,
             choice.authIndent + t.tls + newline, choice.limitsIndent + "    " + t.limit + newline, rules.header);
    CopyIsBlock(t, rules.header, Copied(t, Inner(lines, block), choice, newline), newline,
        ClosingDepth(lines, rules.header, block));
  }

  // ---------------------------------------------------------------------------------------
  // Markers of the edited text
  // ---------------------------------------------------------------------------------------

  lemma {:induction false} ChompNewline(s: string, newline: string)
    requires ProperNewline(newline)
    ensures Chomp(s + newline) == Chomp(s)
  {
    var line := s + newline;
    var n := |line| - 1;
    if newline == "\n" {
      assert line[..n] == s;
    } else {
      assert line[..n] == s + "\r";
      assert (s + "\r")[..|s|] == s;
    }
  }

  /** A line that does not begin like a comment is no marker. */
  lemma {:induction false} NotMarker(s: string, newline: string, marker: string)
    requires ProperNewline(newline) && Marker(marker) && s != "" && s[0] != '#' && !IsSpace(s[|s| - 1])
    ensures Chomp(s + newline) != marker
  {
    ChompNewline(s, newline);
  }

  lemma {:induction false} IsMarker(marker: string, newline: string)
    requires ProperNewline(newline) && Marker(marker)
    ensures Chomp(marker + newline) == marker
  {
    ChompNewline(marker, newline);
    assert marker[|marker| - 1] in marker;
  }

  lemma {:induction false} WordNotMarker(indent: string, word: string, newline: string, marker: string)
    requires ProperIndent(indent) && Word(word) && ProperNewline(newline) && Marker(marker)
    ensures Chomp(indent + word + newline) != marker
  {
    assert word[0] in word;
    NotMarker(indent + word, newline, marker);
  }

  /** In the added lines, the inner ones being none, only one line is the begin marker and only
      the last one the end marker. */
  lemma {:induction false} AddedMark(t: Texts, inner: seq<string>, choice: Choice, newline: string, i: nat)
    requires Proper(t) && ProperNewline(newline) && choice.at <= |inner| && i < |Added(t, inner, choice, newline)|
    requires ProperIndent(choice.authIndent) && ProperIndent(choice.limitsIndent)
    requires forall j :: 0 <= j < |inner| ==> Chomp(inner[j]) != t.begin && Chomp(inner[j]) != t.end
    ensures var more := Added(t, inner, choice, newline);
      (Chomp(more[i]) == t.begin <==> i == 1) && (Chomp(more[i]) == t.end <==> i == |more| - 1)
  {
    var more, a := Added(t, inner, choice, newline), choice.at;
    IsMarker(t.begin, newline);
    IsMarker(t.end, newline);
    if i == 0 {
      ChompNewline("", newline);
      assert "" + newline == newline;
    } else if i == 2 {
      assert more[i] == t.Header() + newline && t.listener[0] in t.listener;
      NotMarker(t.Header(), newline, t.begin);
      NotMarker(t.Header(), newline, t.end);
    } else if i == 3 {
      assert more[i] == choice.authIndent + t.tls + newline;
      WordNotMarker(choice.authIndent, t.tls, newline, t.begin);
      WordNotMarker(choice.authIndent, t.tls, newline, t.end);
    } else if i == 4 + a {
      assert more[i] == choice.limitsIndent + "    " + t.limit + newline;
      WordNotMarker(choice.limitsIndent + "    ", t.limit, newline, t.begin);
      WordNotMarker(choice.limitsIndent + "    ", t.limit, newline, t.end);
    } else if i == 5 + |inner| {
      assert more[i] == "}" + newline;
      NotMarker("}", newline, t.begin);
      NotMarker("}", newline, t.end);
    } else if 4 <= i < 4 + a {
      assert more[i] == inner[i - 4];
    } else if 4 + a < i < 5 + |inner| {
      assert more[i] == inner[i - 5];
    }
  }

  lemma {:induction false} EditedMarkers(t: Texts, whole: seq<string>, inner: seq<string>, choice: Choice,
      newline: string, result: seq<string>)
    requires Proper(t) && ProperNewline(newline) && choice.at <= |inner|
    requires ProperIndent(choice.authIndent) && ProperIndent(choice.limitsIndent)
    requires forall j :: 0 <= j < |inner| ==> Chomp(inner[j]) != t.begin && Chomp(inner[j]) != t.end
    requires MarkerRange(t, whole) == Absent && result == whole + Added(t, inner, choice, newline)
    ensures MarkerRange(t, result) == At(|whole| + 1, |result| - 1)
  {
    var more, k := Added(t, inner, choice, newline), |whole|;
    assert result == whole[..k] + more + whole[k..];
    forall i | 0 <= i < |more|
      ensures (MarkAt(more, Reads(t.begin), i) <==> i == 1) && (MarkAt(more, Reads(t.end), i) <==> i == |more| - 1)
    {
      AddedMark(t, inner, choice, newline, i);
    }
    assert Positions(result, Reads(t.begin), |result|) == [k + 1] by {
      OneMarker(whole, k, more, result, Reads(t.begin), 1);
    }
    assert Positions(result, Reads(t.end), |result|) == [k + |more| - 1] by {
      OneMarker(whole, k, more, result, Reads(t.end), |more| - 1);
    }
  }

  // ---------------------------------------------------------------------------------------
  // Lines of the edited text
  // ---------------------------------------------------------------------------------------

  ghost predicate EndedAt(lines: seq<string>, i: int) {
    0 <= i < |lines| ==> Ended(lines[i])
  }

  ghost predicate AllEnded(lines: seq<string>) {
    forall i :: EndedAt(lines, i)
  }

  lemma {:induction false} EndedLines(lines: seq<string>)
    requires AllEnded(lines)
    ensures Lines(lines)
  {
    forall i ensures LineAt(lines, i) {
      assert EndedAt(lines, i);
    }
  }

  lemma {:induction false} EndedConcat(a: seq<string>, b: seq<string>)
    requires AllEnded(a) && AllEnded(b)
    ensures AllEnded(a + b)
  {
    forall i ensures EndedAt(a + b, i) {
      assert EndedAt(a, i) && EndedAt(b, i - |a|);
    }
  }

  /** The lines of the text with its last line ended. */
  function WholeLines(lines: seq<string>, newline: string, ends: bool): seq<string>
    requires lines != []
  {
    if ends then lines else lines[..|lines| - 1] + [lines[|lines| - 1] + newline]
  }

  lemma {:induction false} LastCharacter(lines: seq<string>)
    requires Lines(lines) && lines != []
    ensures EndsLine(Join(lines)) <==> Ended(lines[|lines| - 1])
  {
    var n := |lines| - 1;
    var last := lines[n];
    assert LineAt(lines, n);
    assert lines == lines[..n] + [last];
    JoinConcat(lines[..n], [last]);
    assert [last][1..] == [] && Join([last]) == last + "";
    assert Join(lines)[|Join(lines)| - 1] == last[|last| - 1];
  }

  lemma {:induction false} JoinLast(front: seq<string>, last: string)
    ensures Join(front + [last]) == Join(front) + last
  {
    JoinConcat(front, [last]);
    assert [last][1..] == [] && last + "" == last;
  }

  lemma {:induction false} WholeText(lines: seq<string>, newline: string, ends: bool)
    requires lines != []
    ensures Join(WholeLines(lines, newline, ends)) == if ends then Join(lines) else Join(lines) + newline
  {
    var n := |lines| - 1;
    assert lines == lines[..n] + [lines[n]];
    JoinLast(lines[..n], lines[n]);
    JoinLast(lines[..n], lines[n] + newline);
  }

  lemma {:induction false} WholeEnded(lines: seq<string>, newline: string, ends: bool)
    requires ProperNewline(newline) && lines != [] && Lines(lines) && (ends <==> Ended(lines[|lines| - 1]))
    ensures AllEnded(WholeLines(lines, newline, ends))
  {
    var n := |lines| - 1;
    assert LineAt(lines, n);
    if !ends {
      LastEnded(lines[n], newline);
    }
    forall i ensures EndedAt(WholeLines(lines, newline, ends), i) {
      assert LineAt(lines, i);
    }
  }

  lemma {:induction false} WholeIs(text: string, newline: string, lines: seq<string>)
    requires ProperNewline(newline) && lines == Split(text) && lines != []
    ensures var whole := WholeLines(lines, newline, EndsLine(text));
      AllEnded(whole) && Join(whole) == Whole(text, newline)
  {
    SplitLines(text);
    JoinSplit(text);
    LastCharacter(lines);
    WholeEnded(lines, newline, EndsLine(text));
    WholeText(lines, newline, EndsLine(text));
  }

  lemma {:induction false} LastEnded(last: string, newline: string)
    requires IsLine(last) && !Ended(last) && ProperNewline(newline)
    ensures Ended(last + newline)
  {
    forall i | 0 <= i < |last| ensures last[i] != '\n' {
    }
    EndedLine(last, newline);
  }

  lemma {:induction false} WholeMark(lines: seq<string>, newline: string, ends: bool, text: string)
    requires ProperNewline(newline) && lines != [] && Positions(lines, Reads(text), |lines|) == []
    ensures var whole := WholeLines(lines, newline, ends); Positions(whole, Reads(text), |whole|) == []
    ensures forall i :: 0 <= i < |lines| ==> Chomp(lines[i]) != text
  {
    var whole, n := WholeLines(lines, newline, ends), |lines| - 1;
    PositionsNone(lines, Reads(text), |lines|);
    forall i | 0 <= i < |lines| ensures Chomp(lines[i]) != text && !MarkAt(whole, Reads(text), i) {
      assert !MarkAt(lines, Reads(text), i);
      if i == n {
        ChompNewline(lines[n], newline);
      }
    }
    PositionsNone(whole, Reads(text), |whole|);
  }

  lemma {:induction false} NoMarkers(t: Texts, lines: seq<string>)
    requires MarkerRange(t, lines) == Absent
    ensures Positions(lines, Reads(t.begin), |lines|) == [] && Positions(lines, Reads(t.end), |lines|) == []
  {
  }

  lemma {:induction false} WholeMarkers(t: Texts, lines: seq<string>, newline: string, ends: bool)
    requires ProperNewline(newline) && lines != [] && MarkerRange(t, lines) == Absent
    ensures MarkerRange(t, WholeLines(lines, newline, ends)) == Absent
    ensures forall i :: 0 <= i < |lines| ==> Chomp(lines[i]) != t.begin && Chomp(lines[i]) != t.end
  {
    NoMarkers(t, lines);
    WholeMark(lines, newline, ends, t.begin);
    WholeMark(lines, newline, ends, t.end);
  }

  /** The added lines that are not inner ones. */
  lemma {:induction false} AddedFrame(t: Texts, choice: Choice, newline: string)
    requires Proper(t) && ProperNewline(newline) && ProperIndent(choice.authIndent) && ProperIndent(choice.limitsIndent)
    ensures Ended(newline) && Ended(t.begin + newline) && Ended(t.end + newline) && Ended(t.Header() + newline)
        && Ended("}" + newline)
    ensures Ended(choice.authIndent + t.tls + newline) && Ended(choice.limitsIndent + "    " + t.limit + newline)
  {
    GapIsBlank(newline);
    EndedLine(t.begin, newline);
    EndedLine(t.end, newline);
    HeaderCode(t, newline, t.Header() + newline);
    ClosingCode(newline, "}" + newline);
    WordLine(choice.authIndent, t.tls, newline);
    WordLine(choice.limitsIndent + "    ", t.limit, newline);
  }

  lemma {:induction false} InnerEnded(lines: seq<string>, block: Block)
    requires Lines(lines) && block.start < block.end < |lines|
    ensures AllEnded(Inner(lines, block))
  {
    forall i ensures EndedAt(Inner(lines, block), i) {
      assert LineAt(lines, block.start + 1 + i);
    }
  }

  lemma {:induction false} AddedEnded(t: Texts, lines: seq<string>, block: Block, choice: Choice, newline: string)
    requires Proper(t) && ProperNewline(newline) && Lines(lines) && block.start < block.end < |lines|
    requires choice.at <= |Inner(lines, block)| && ProperIndent(choice.authIndent) && ProperIndent(choice.limitsIndent)
    ensures AllEnded(Added(t, Inner(lines, block), choice, newline))
  {
    AddedFrame(t, choice, newline);
    InnerEnded(lines, block);
    AddedAllEnded(t, Inner(lines, block), choice, newline);
  }

  lemma {:induction false} AddedAllEnded(t: Texts, inner: seq<string>, choice: Choice, newline: string)
    requires choice.at <= |inner| && AllEnded(inner)
    requires Ended(newline) && Ended(t.begin + newline) && Ended(t.end + newline) && Ended(t.Header() + newline)
        && Ended("}" + newline)
    requires Ended(choice.authIndent + t.tls + newline) && Ended(choice.limitsIndent + "    " + t.limit + newline)
    ensures AllEnded(Added(t, inner, choice, newline))
  {
    var more, a := Added(t, inner, choice, newline), choice.at;
    forall i ensures EndedAt(more, i) {
      if 4 <= i < 4 + a {
        assert more[i] == inner[i - 4] && EndedAt(inner, i - 4);
      } else if 4 + a < i < 5 + |inner| {
        assert more[i] == inner[i - 5] && EndedAt(inner, i - 5);
      }
    }
  }

  // ---------------------------------------------------------------------------------------
  // Round trip
  // ---------------------------------------------------------------------------------------

  lemma {:induction false} AddedCodes(t: Texts, inner: seq<string>, choice: Choice, newline: string)
    requires Proper(t) && ProperNewline(newline) && choice.at <= |inner| && ProperIndent(choice.authIndent)
        && ProperIndent(choice.limitsIndent)
    ensures HasCode(Between(t, inner, choice, newline), t.tls) && HasCode(Between(t, inner, choice, newline), t.limit)
    ensures Chomp(Between(t, inner, choice, newline)[0]) == t.Header()
  {
    var between := Between(t, inner, choice, newline);
    WordLine(choice.authIndent, t.tls, newline);
    WordLine(choice.limitsIndent + "    ", t.limit, newline);
    assert between[1] == choice.authIndent + t.tls + newline;
    assert between[2 + choice.at] == choice.limitsIndent + "    " + t.limit + newline;
    ChompNewline(t.Header(), newline);
    assert Chomp(t.Header()) == t.Header();
  }

  /** An edited text by its lines: the old ones, a blank line and the marked copy. */
  ghost predicate EditedAs(t: Texts, rules: Rules, whole: seq<string>, between: seq<string>, newline: string,
      result: seq<string>)
  {
    && ProperNewline(newline) && Split(Join(result)) == result
    && result == whole + ([newline, t.begin + newline] + between + [t.end + newline])
    && MarkerRange(t, result) == At(|whole| + 1, |result| - 1)
    && between != [] && Chomp(between[0]) == t.Header() && rules.intact(between)
  }

  /** What removal makes of an edited text, from its lines. */
  lemma {:induction false} RemovalOf(t: Texts, rules: Rules, whole: seq<string>, between: seq<string>, newline: string,
      result: seq<string>)
    requires EditedAs(t, rules, whole, between, newline, result)
    ensures RemoveManaged(t, rules, Join(result)) ==
            if FindBlocks(between, rules.header) == Some([Block(0, |between| - 1)]) then Some(Join(whole)) else None
  {
    var b, e := |whole| + 1, |result| - 1;
    GapIsBlank(newline);
    assert result[b + 1..e] == between;
    assert result[b - 1] == newline && result[..b - 1] == whole && result[e + 1..] == [];
    assert whole + [] == whole;
  }

  /** What a successful build has found and written. */
  lemma {:induction false} BuildFacts(t: Texts, rules: Rules, text: string, newline: string, lines: seq<string>,
      blocks: seq<Block>, choice: Choice, built: string)
    requires lines == Split(text) && FindBlocks(lines, rules.header) == Some(blocks)
        && rules.choose(lines, blocks) == Some(choice)
    requires choice.block.start < choice.block.end <= |lines| && choice.at <= |Inner(lines, choice.block)|
    requires BuildManaged(t, rules, text, newline) == Some(built)
    ensures MarkerRange(t, lines) == Absent && rules.sound(Between(t, Inner(lines, choice.block), choice, newline))
    ensures built == Whole(text, newline) + Join(Added(t, Inner(lines, choice.block), choice, newline))
  {
  }

  /** After building, removal gives the text back with its last line ended, if and only if the
      last line of the default submission block finds the scan one brace deep; otherwise the
      copy is not a complete block and removal refuses it. */
  lemma {:induction false} RoundTrip(t: Texts, rules: Rules, text: string, newline: string, blocks: seq<Block>,
      choice: Choice, built: string)
    requires Proper(t) && ProperRules(t, rules) && ProperNewline(newline)
    requires FindBlocks(Split(text), rules.header) == Some(blocks) && rules.choose(Split(text), blocks) == Some(choice)
    requires ProperChoice(Split(text), blocks, choice) && BuildManaged(t, rules, text, newline) == Some(built)
    ensures RemoveManaged(t, rules, built) ==
            if ClosingDepth(Split(text), rules.header, choice.block) == 1 then Some(Whole(text, newline)) else None
  {
    BuildFacts(t, rules, text, newline, Split(text), blocks, choice, built);
    RoundTripOf(t, rules, text, newline, Split(text), blocks, choice, built);
  }

  lemma {:induction false} RoundTripOf(t: Texts, rules: Rules, text: string, newline: string, lines: seq<string>,
      blocks: seq<Block>, choice: Choice, built: string)
    requires Proper(t) && ProperRules(t, rules) && ProperNewline(newline) && lines == Split(text)
    requires FindBlocks(lines, rules.header) == Some(blocks) && ProperChoice(lines, blocks, choice)
    requires MarkerRange(t, lines) == Absent && rules.sound(Between(t, Inner(lines, choice.block), choice, newline))
    requires built == Whole(text, newline) + Join(Added(t, Inner(lines, choice.block), choice, newline))
    ensures RemoveManaged(t, rules, built) ==
            if ClosingDepth(lines, rules.header, choice.block) == 1 then Some(Whole(text, newline)) else None
  {
    CopyOfBlock(t, rules, lines, blocks, choice, newline);
    RemoveBuilt(t, rules, text, lines, choice, newline, built);
  }

  lemma {:induction false} RemoveBuilt(t: Texts, rules: Rules, text: string, lines: seq<string>, choice: Choice,
      newline: string, built: string)
    requires Proper(t) && ProperNewline(newline) && lines == Split(text) && MarkerRange(t, lines) == Absent
    requires ProperRules(t, rules)
    requires choice.block.start < choice.block.end < |lines| && choice.at <= |Inner(lines, choice.block)|
    requires ProperIndent(choice.authIndent) && ProperIndent(choice.limitsIndent)
    requires rules.sound(Between(t, Inner(lines, choice.block), choice, newline))
    requires built == Whole(text, newline) + Join(Added(t, Inner(lines, choice.block), choice, newline))
    ensures var between := Between(t, Inner(lines, choice.block), choice, newline);
      RemoveManaged(t, rules, built) ==
      if FindBlocks(between, rules.header) == Some([Block(0, |between| - 1)]) then Some(Whole(text, newline)) else None
  {
    var inner := Inner(lines, choice.block);
    var between, whole := Between(t, inner, choice, newline), WholeLines(lines, newline, EndsLine(text));
    var result := whole + Added(t, inner, choice, newline);
    EditedText(t, text, lines, choice, newline, whole, result);
    BuiltIsEdited(t, rules, text, lines, choice, newline, between, whole, result);
    RemovedIs(t, rules, whole, between, newline, result, built, Whole(text, newline));
  }

  lemma {:induction false} RemovedIs(t: Texts, rules: Rules, whole: seq<string>, between: seq<string>, newline: string,
      result: seq<string>, built: string, text: string)
    requires EditedAs(t, rules, whole, between, newline, result) && built == Join(result) && text == Join(whole)
    ensures RemoveManaged(t, rules, built) ==
            if FindBlocks(between, rules.header) == Some([Block(0, |between| - 1)]) then Some(text) else None
  {
    RemovalOf(t, rules, whole, between, newline, result);
  }

  lemma {:induction false} BuiltIsEdited(t: Texts, rules: Rules, text: string, lines: seq<string>, choice: Choice,
      newline: string, between: seq<string>, whole: seq<string>, result: seq<string>)
    requires Proper(t) && ProperRules(t, rules) && ProperNewline(newline) && MarkerRange(t, lines) == Absent
    requires choice.block.start < choice.block.end < |lines| && choice.at <= |Inner(lines, choice.block)|
    requires ProperIndent(choice.authIndent) && ProperIndent(choice.limitsIndent)
    requires between == Between(t, Inner(lines, choice.block), choice, newline) && rules.sound(between)
    requires whole == WholeLines(lines, newline, EndsLine(text))
    requires result == whole + Added(t, Inner(lines, choice.block), choice, newline) && Split(Join(result)) == result
    ensures EditedAs(t, rules, whole, between, newline, result)
  {
    BetweenIntact(t, rules, Inner(lines, choice.block), choice, newline);
    ResultMarkers(t, lines, choice, newline, EndsLine(text), whole, result);
  }

  lemma {:induction false} BetweenIntact(t: Texts, rules: Rules, inner: seq<string>, choice: Choice, newline: string)
    requires Proper(t) && ProperRules(t, rules) && ProperNewline(newline) && choice.at <= |inner|
    requires ProperIndent(choice.authIndent) && ProperIndent(choice.limitsIndent)
        && rules.sound(Between(t, inner, choice, newline))
    ensures rules.intact(Between(t, inner, choice, newline))
        && Chomp(Between(t, inner, choice, newline)[0]) == t.Header()
  {
    AddedCodes(t, inner, choice, newline);
  }

  lemma {:induction false} ResultMarkers(t: Texts, lines: seq<string>, choice: Choice, newline: string, ends: bool,
      whole: seq<string>, result: seq<string>)
    requires Proper(t) && ProperNewline(newline) && MarkerRange(t, lines) == Absent
    requires choice.block.start < choice.block.end < |lines| && choice.at <= |Inner(lines, choice.block)|
    requires ProperIndent(choice.authIndent) && ProperIndent(choice.limitsIndent)
    requires whole == WholeLines(lines, newline, ends)
        && result == whole + Added(t, Inner(lines, choice.block), choice, newline)
    ensures MarkerRange(t, result) == At(|whole| + 1, |result| - 1)
  {
    WholeMarkers(t, lines, newline, ends);
    EditedMarkers(t, whole, Inner(lines, choice.block), choice, newline, result);
  }

  /** The edited text and its lines. */
  lemma {:induction false} EditedText(t: Texts, text: string, lines: seq<string>, choice: Choice, newline: string,
      whole: seq<string>, result: seq<string>)
    requires Proper(t) && ProperNewline(newline) && lines == Split(text)
    requires choice.block.start < choice.block.end < |lines| && choice.at <= |Inner(lines, choice.block)|
    requires ProperIndent(choice.authIndent) && ProperIndent(choice.limitsIndent)
    requires whole == WholeLines(lines, newline, EndsLine(text))
        && result == whole + Added(t, Inner(lines, choice.block), choice, newline)
    ensures Join(whole) == Whole(text, newline) && Split(Join(result)) == result
    ensures Join(result) == Whole(text, newline) + Join(Added(t, Inner(lines, choice.block), choice, newline))
  {
    var more := Added(t, Inner(lines, choice.block), choice, newline);
    WholeIs(text, newline, lines);
    JoinConcat(whole, more);
    EditedSplits(t, text, lines, choice, newline, whole, more);
  }

  lemma {:induction false} EditedSplits(t: Texts, text: string, lines: seq<string>, choice: Choice, newline: string,
      whole: seq<string>, more: seq<string>)
    requires Proper(t) && ProperNewline(newline) && lines == Split(text) && AllEnded(whole)
    requires choice.block.start < choice.block.end < |lines| && choice.at <= |Inner(lines, choice.block)|
    requires ProperIndent(choice.authIndent) && ProperIndent(choice.limitsIndent)
    requires more == Added(t, Inner(lines, choice.block), choice, newline)
    ensures Split(Join(whole + more)) == whole + more
  {
    SplitLines(text);
    AddedEnded(t, lines, choice.block, choice, newline);
    EndedConcat(whole, more);
    EndedLines(whole + more);
    JoinLines(whole + more);
  }

  // ---------------------------------------------------------------------------------------
  // The words of the editor
  // ---------------------------------------------------------------------------------------

  lemma {:induction false} TextsAreProper()
    ensures Proper(TEXTS)
  {
    MarkersAreMarkers();
    ListenerIsWord();
    TlsIsWord();
    LimitIsWord();
    TogetherProper(TEXTS);
  }

  lemma {:induction false} TogetherProper(t: Texts)
    requires Marker(t.begin) && Marker(t.end) && |t.begin| != |t.end| && Word(t.listener) && Word(t.tls)
        && Word(t.limit)
    ensures Proper(t)
  {
  }

  predicate OneLine(s: string) {
    forall i :: 0 <= i < |s| ==> s[i] != '\n' && s[i] != '\r'
  }

  lemma {:induction false} CommentIsMarker(a: string, b: string)
    requires a != "" && a[0] == '#' && OneLine(a) && OneLine(b)
    ensures Marker(a + b)
  {
  }

  lemma {:induction false} MarkersAreMarkers()
    ensures Marker("# BEGIN MADDYWEB " + "MANAGED SUBMISSION v1") && Marker("# END MADDYWEB " + "MANAGED SUBMISSION v1")
  {
    CommentIsMarker("# BEGIN MADDYWEB ", "MANAGED SUBMISSION v1");
    CommentIsMarker("# END MADDYWEB ", "MANAGED SUBMISSION v1");
  }

  predicate Letter(c: char) {
    !(c == '\n' || c == '\r' || c == '"' || c == '\'' || c == '#' || c == '{' || c == '}')
  }

  predicate Letters(s: string) {
    forall i :: 0 <= i < |s| ==> Letter(s[i])
  }

  lemma {:induction false} IsWord(s: string)
    requires s != "" && !IsSpace(s[0]) && !IsSpace(s[|s| - 1]) && Letters(s)
    ensures Word(s)
  {
  }

  lemma {:induction false} ListenerIsWord()
    ensures Word("submission " + "tcp://127.0.0.1:1587")
  {
    assert Letters("submission ") && Letters("tcp://127.0.0.1:1587");
    IsWord("submission " + "tcp://127.0.0.1:1587");
  }

  lemma {:induction false} TlsIsWord()
    ensures Word("tls off")
  {
    IsWord("tls off");
  }

  lemma {:induction false} LimitIsWord()
    ensures Word("all concurrency 2")
  {
    IsWord("all concurrency 2");
  }
}
