/**
 Reading a Maddy configuration: lines, comments and quoted strings, and the brace-depth scan
 that finds top-level blocks.  Lines end in LF or CR LF, so cutting after every LF finds them;
 white space is space, tab, CR and LF.

 Both editors use the same scanner, so what they need to know about it is proved here once:
 splitting and joining lines are inverse to each other, the code of a line survives added
 white space, a scan of two pieces of a text is a scan of the first and then of the second,
 lines that open and close nothing do not change what is found, and inserting such lines before
 a block's closing line only moves that line.  The two loops of the scanner are methods that
 are proved to compute the recursive functions of these lemmas.
 */
module ConfigScan {
  import opened Options

  // ---------------------------------------------------------------------------------------
  // Lines
  // ---------------------------------------------------------------------------------------

  /** The length of the first line with its line end. */
  function LineLength(text: string): (n: nat)
    ensures n <= |text| && (text != "" ==> n > 0)
    ensures forall i :: 0 <= i < n - 1 ==> text[i] != '\n'
    ensures n < |text| ==> n > 0 && text[n - 1] == '\n'
  {
    if text == "" then 0
    else if text[0] == '\n' then 1
    else
      var n := LineLength(text[1..]);
      assert forall i :: 0 <= i < n - 1 ==> text[1..][i] == text[i + 1];
      n + 1
  }

  function Split(text: string): seq<string> {
    if text == "" then [] else [text[..LineLength(text)]] + Split(text[LineLength(text)..])
  }

  function Join(lines: seq<string>): string {
    if lines == [] then "" else lines[0] + Join(lines[1..])
  }

  /** One line: not empty, and a line end only at its end. */
  ghost predicate IsLine(line: string) {
    line != "" && forall i :: 0 <= i < |line| - 1 ==> line[i] != '\n'
  }

  ghost predicate Ended(line: string) {
    IsLine(line) && line[|line| - 1] == '\n'
  }

  /** Lines as a text splits into: only the last may lack its line end. */
  ghost predicate Lines(lines: seq<string>) {
    forall i :: LineAt(lines, i)
  }

  ghost predicate LineAt(lines: seq<string>, i: int) {
    0 <= i < |lines| ==> IsLine(lines[i]) && (i < |lines| - 1 ==> Ended(lines[i]))
  }

  lemma {:induction false} LinesCons(line: string, rest: seq<string>)
    requires IsLine(line) && Lines(rest) && (rest != [] ==> Ended(line))
    ensures Lines([line] + rest)
  {
    var lines := [line] + rest;
    forall i ensures LineAt(lines, i) {
      assert LineAt(rest, i - 1);
    }
  }

  lemma {:induction false} FirstIsLine(text: string)
    requires text != ""
    ensures var n := LineLength(text);
      IsLine(text[..n]) && (Split(text[n..]) != [] ==> Ended(text[..n]))
  {
  }

  lemma {:induction false} SplitLines(text: string)
    ensures Lines(Split(text))
    decreases |text|
  {
    if text != "" {
      var n := LineLength(text);
      SplitLines(text[n..]);
      FirstIsLine(text);
      LinesCons(text[..n], Split(text[n..]));
    }
  }

  lemma {:induction false} JoinSplit(text: string)
    ensures Join(Split(text)) == text
    decreases |text|
  {
    if text != "" {
      var n := LineLength(text);
      JoinSplit(text[n..]);
      assert ([text[..n]] + Split(text[n..]))[1..] == Split(text[n..]);
      assert text[..n] + text[n..] == text;
    }
  }

  lemma {:induction false} FirstLine(line: string, rest: string)
    requires IsLine(line) && (rest != "" ==> Ended(line))
    ensures LineLength(line + rest) == |line|
  {
    if |line| == 1 {
      assert rest == "" ==> line + rest == line && line[1..] == "";
    } else {
      FirstLine(line[1..], rest);
      assert (line + rest)[1..] == line[1..] + rest;
    }
  }

  lemma {:induction false} JoinLines(lines: seq<string>)
    requires Lines(lines)
    ensures Split(Join(lines)) == lines
  {
    if lines != [] {
      var rest := Join(lines[1..]);
      forall i ensures LineAt(lines[1..], i) {
        assert LineAt(lines, i + 1);
      }
      assert LineAt(lines, 0);
      JoinLines(lines[1..]);
      assert rest != "" ==> lines[1..] != [];
      FirstLine(lines[0], rest);
      assert (lines[0] + rest)[..|lines[0]|] == lines[0];
      assert (lines[0] + rest)[|lines[0]|..] == rest;
    }
  }

  lemma {:induction false} JoinConcat(a: seq<string>, b: seq<string>)
    ensures Join(a + b) == Join(a) + Join(b)
  {
    if a == [] {
      assert a + b == b;
    } else {
      JoinConcat(a[1..], b);
      assert (a + b)[1..] == a[1..] + b && (a + b)[0] == a[0];
      Joined(a[0], Join(a[1..]), Join(b));
    }
  }

  lemma {:induction false} Joined(a: string, b: string, c: string)
    ensures (a + b) + c == a + (b + c)
  {
  }

  // ---------------------------------------------------------------------------------------
  // Code
  // ---------------------------------------------------------------------------------------

  predicate IsSpace(c: char) {
    c == ' ' || c == '\t' || c == '\r' || c == '\n'
  }

  function TrimLeft(s: string): string {
    if s != "" && IsSpace(s[0]) then TrimLeft(s[1..]) else s
  }

  function TrimRight(s: string): string {
    if s != "" && IsSpace(s[|s| - 1]) then TrimRight(s[..|s| - 1]) else s
  }

  function Strip(s: string): string {
    TrimRight(TrimLeft(s))
  }

  /** What is left of a line when quoted strings are blanked and a comment is cut off; None if
      a quoted string does not end.  `quote` is the quote the text is in, if any. */
  function Bare(line: string, quote: Option<char>, escaped: bool): Option<string> {
    if line == "" then (if quote.Some? then None else Some(""))
    else if quote.Some? then
      Blank(if escaped then Bare(line[1..], quote, false)
            else if line[0] == '\\' then Bare(line[1..], quote, true)
            else if line[0] == quote.value then Bare(line[1..], None, false)
            else Bare(line[1..], quote, false), ' ')
    else if line[0] == '"' || line[0] == '\'' then Blank(Bare(line[1..], Some(line[0]), false), ' ')
    else if line[0] == '#' then Some("")
    else Blank(Bare(line[1..], None, false), line[0])
  }

  function Blank(rest: Option<string>, c: char): Option<string> {
    if rest.None? then None else Some([c] + rest.value)
  }

  function Code(line: string): Option<string> {
    var bare := Bare(line, None, false);
    if bare.None? then None else Some(Strip(bare.value))
  }

  /** The same, character by character. */
  method StripCommentsAndStrings(line: string) returns (output: Option<string>)
    ensures output == Bare(line, None, false)
  {
    var text := "";
    var quote: Option<char> := None;
    var escaped := false;
    assert line[0..] == line;
    PrefixedNothing(Bare(line, None, false));
    for i := 0 to |line|
      invariant Bare(line, None, false) == Prefixed(text, Bare(line[i..], quote, escaped))
      invariant quote.None? ==> !escaped
    {
      var character := line[i];
      assert line[i..][1..] == line[i + 1..];
      ghost var before := text;
      if quote.Some? {
        if escaped {
          escaped := false;
        } else if character == '\\' {
          escaped := true;
        } else if character == quote.value {
          quote := None;
        }
        text := text + [' '];
      } else if character == '"' || character == '\'' {
        quote := Some(character);
        text := text + [' '];
      } else if character == '#' {
        assert text + "" == text;
        return Some(text);
      } else {
        text := text + [character];
      }
      PrefixedMore(before, text[|text| - 1], Bare(line[i + 1..], quote, escaped));
    }
    assert line[|line|..] == "" && text + "" == text;
    output := if quote.Some? then None else Some(text);
  }

  function Prefixed(text: string, rest: Option<string>): Option<string> {
    if rest.None? then None else Some(text + rest.value)
  }

  lemma {:induction false} PrefixedNothing(rest: Option<string>)
    ensures Prefixed("", rest) == rest
  {
    if rest.Some? {
      assert "" + rest.value == rest.value;
    }
  }

  lemma {:induction false} PrefixedMore(text: string, c: char, rest: Option<string>)
    ensures Prefixed(text, Blank(rest, c)) == Prefixed(text + [c], rest)
  {
    if rest.Some? {
      assert text + ([c] + rest.value) == (text + [c]) + rest.value;
    }
  }

  function Count(s: string, c: char): nat {
    if s == "" then 0 else (if s[0] == c then 1 else 0) + Count(s[1..], c)
  }

  // ---------------------------------------------------------------------------------------
  // What stripping leaves
  // ---------------------------------------------------------------------------------------

  predicate AllSpace(s: string) {
    forall i :: 0 <= i < |s| ==> IsSpace(s[i])
  }

  lemma {:induction false} TrimLeftPadding(pad: string, s: string)
    requires AllSpace(pad)
    ensures TrimLeft(pad + s) == TrimLeft(s)
  {
    if pad == "" {
      assert pad + s == s;
    } else {
      TrimLeftPadding(pad[1..], s);
      assert (pad + s)[1..] == pad[1..] + s;
    }
  }

  lemma {:induction false} TrimRightPadding(s: string, pad: string)
    requires AllSpace(pad)
    ensures TrimRight(s + pad) == TrimRight(s)
  {
    if pad == "" {
      assert s + pad == s;
    } else {
      var n := |pad| - 1;
      TrimRightPadding(s, pad[..n]);
      assert (s + pad)[..|s + pad| - 1] == s + pad[..n];
    }
  }

  lemma {:induction false} TrimLeftKeeps(s: string, pad: string)
    requires s != "" && !IsSpace(s[0])
    ensures TrimLeft(s + pad) == s + pad
  {
  }

  /** Padding does not show in what stripping leaves of a text that begins with code. */
  lemma {:induction false} StripPadded(left: string, s: string, right: string)
    requires AllSpace(left) && AllSpace(right) && s != "" && !IsSpace(s[0]) && !IsSpace(s[|s| - 1])
    ensures Strip(left + s + right) == s
  {
    assert left + s + right == left + (s + right);
    TrimLeftPadding(left, s + right);
    TrimLeftKeeps(s, right);
    TrimRightPadding(s, right);
  }

  lemma {:induction false} TrimLeftSpace(s: string)
    ensures AllSpace(s) <==> TrimLeft(s) == ""
  {
    if s != "" && IsSpace(s[0]) {
      TrimLeftSpace(s[1..]);
      assert AllSpace(s) <==> AllSpace(s[1..]) by {
        assert forall i :: 0 < i < |s| ==> s[i] == s[1..][i - 1];
      }
    }
  }

  lemma {:induction false} TrimRightCode(s: string)
    requires s != "" && !IsSpace(s[0])
    ensures TrimRight(s) != ""
  {
    if IsSpace(s[|s| - 1]) {
      TrimRightCode(s[..|s| - 1]);
    }
  }

  lemma {:induction false} TrimLeftCode(s: string)
    ensures TrimLeft(s) != "" ==> !IsSpace(TrimLeft(s)[0])
  {
    if s != "" && IsSpace(s[0]) {
      TrimLeftCode(s[1..]);
    }
  }

  /** A line is blank exactly if it is white space. */
  lemma {:induction false} BlankIsSpace(s: string)
    ensures Strip(s) == "" <==> AllSpace(s)
  {
    TrimLeftSpace(s);
    TrimLeftCode(s);
    if TrimLeft(s) != "" {
      TrimRightCode(TrimLeft(s));
    }
  }

  // Bare text

  ghost predicate Plain(s: string) {
    forall i :: 0 <= i < |s| ==> s[i] != '"' && s[i] != '\'' && s[i] != '#'
  }

  lemma {:induction false} BarePrefix(s: string, rest: string)
    requires Plain(s)
    ensures Bare(s + rest, None, false) == Prefixed(s, Bare(rest, None, false))
  {
    if s == "" {
      assert s + rest == rest;
      PrefixedNothing(Bare(rest, None, false));
    } else {
      BarePrefix(s[1..], rest);
      assert (s + rest)[1..] == s[1..] + rest;
      var bare := Bare(rest, None, false);
      if bare.Some? {
        assert [s[0]] + (s[1..] + bare.value) == s + bare.value;
      }
    }
  }

  lemma {:induction false} BarePlain(s: string)
    requires Plain(s)
    ensures Bare(s, None, false) == Some(s)
  {
    BarePrefix(s, "");
    assert s + "" == s;
  }

  lemma {:induction false} SpaceIsPlain(s: string)
    requires AllSpace(s)
    ensures Plain(s)
  {
  }

  lemma {:induction false} BlankCode(line: string)
    requires AllSpace(line)
    ensures Code(line) == Some("")
  {
    SpaceIsPlain(line);
    BarePlain(line);
    BlankIsSpace(line);
  }

  /** A comment line has no code. */
  lemma {:induction false} CommentCode(indent: string, comment: string)
    requires AllSpace(indent) && comment != "" && comment[0] == '#'
    ensures Code(indent + comment) == Some("")
  {
    SpaceIsPlain(indent);
    BarePrefix(indent, comment);
    assert indent + "" == indent;
    BlankIsSpace(indent);
  }

  lemma {:induction false} CodeLine(indent: string, code: string, newline: string)
    requires AllSpace(indent) && AllSpace(newline) && Plain(code)
    requires code != "" && !IsSpace(code[0]) && !IsSpace(code[|code| - 1])
    ensures Code(indent + code + newline) == Some(code)
  {
    SpaceIsPlain(indent);
    SpaceIsPlain(newline);
    assert Plain(indent + code + newline);
    BarePlain(indent + code + newline);
    StripPadded(indent, code, newline);
  }

  // ---------------------------------------------------------------------------------------
  // The brace-depth scan
  // ---------------------------------------------------------------------------------------

  datatype Block = Block(start: nat, end: nat)

  datatype Cursor = Cursor(depth: nat, active: Option<nat>, blocks: seq<Block>)

  /** One line of the scan; `header` recognises the first line of a wanted block. */
  function ScanLine(c: Cursor, line: string, index: nat, header: string -> bool): Option<Cursor> {
    var code := Code(line);
    if code.None? then None
    else
      var active := if c.depth == 0 && header(code.value) then Some(index) else c.active;
      var depth := c.depth + Count(code.value, '{') - Count(code.value, '}');
      if depth < 0 then None
      else if active.Some? && depth == 0 then Some(Cursor(0, None, c.blocks + [Block(active.value, index)]))
      else Some(Cursor(depth, active, c.blocks))
  }

  function ScanFrom(c: Cursor, lines: seq<string>, index: nat, header: string -> bool): Option<Cursor>
    decreases |lines|
  {
    if lines == [] then Some(c)
    else
      var next := ScanLine(c, lines[0], index, header);
      if next.None? then None else ScanFrom(next.value, lines[1..], index + 1, header)
  }

  function FindBlocks(lines: seq<string>, header: string -> bool): Option<seq<Block>> {
    var c := ScanFrom(Cursor(0, None, []), lines, 0, header);
    if c.None? || c.value.depth != 0 || c.value.active.Some? then None else Some(c.value.blocks)
  }

  /** How far a line moves the depth. */
  function Delta(line: string): int {
    var code := Code(line);
    if code.None? then 0 else Count(code.value, '{') - Count(code.value, '}')
  }

  /** The depth before line `n`. */
  function DepthAt(lines: seq<string>, n: nat): int
    requires n <= |lines|
  {
    if n == 0 then 0 else DepthAt(lines, n - 1) + Delta(lines[n - 1])
  }

  /** The depths before the lines from `from` on and before `to`. */
  function Depths(lines: seq<string>, from: nat, to: nat): seq<int>
    requires from <= to <= |lines|
  {
    seq(to - from, i requires 0 <= i < to - from => DepthAt(lines, from + i))
  }

  ghost predicate Recorded(lines: seq<string>, block: Block, depths: seq<int>) {
    block.start <= block.end < |lines| && depths == Depths(lines, block.start, block.end + 1)
  }

  ghost predicate AllRecorded(lines: seq<string>, blocks: seq<Block>, depths: seq<seq<int>>) {
    |depths| == |blocks| && forall k :: 0 <= k < |depths| ==> Recorded(lines, blocks[k], depths[k])
  }

  lemma {:induction false} RecordedMore(lines: seq<string>, blocks: seq<Block>, depths: seq<seq<int>>, block: Block,
      more: seq<int>)
    requires AllRecorded(lines, blocks, depths) && Recorded(lines, block, more)
    ensures AllRecorded(lines, blocks + [block], depths + [more])
  {
  }

  lemma {:induction false} DepthsMore(lines: seq<string>, from: nat, to: nat)
    requires from <= to < |lines|
    ensures Depths(lines, from, to + 1) == Depths(lines, from, to) + [DepthAt(lines, to)]
  {
  }

  lemma {:induction false} ScanRest(c: Cursor, lines: seq<string>, index: nat, header: string -> bool)
    requires index < |lines|
    ensures ScanFrom(c, lines[index..], index, header) ==
            var next := ScanLine(c, lines[index], index, header);
            if next.None? then None else ScanFrom(next.value, lines[index + 1..], index + 1, header)
  {
    assert lines[index..][1..] == lines[index + 1..];
  }

  /** The scan as a loop over depth and the block it is in; `depths` has for each block the
      depth before each of its lines. */
  method ScanBlocks(lines: seq<string>, header: string -> bool) returns (blocks: Option<seq<Block>>,
      depths: seq<seq<int>>)
    ensures blocks == FindBlocks(lines, header)
    ensures blocks.Some? ==> AllRecorded(lines, blocks.value, depths)
  {
    var found: seq<Block> := [];
    var depth := 0;
    var activeStart: Option<nat> := None;
    var activeDepths: seq<int> := [];
    depths := [];
    for index := 0 to |lines|
      invariant depth >= 0 && depth == DepthAt(lines, index)
      invariant activeStart.Some? ==>
          activeStart.value <= index && activeDepths == Depths(lines, activeStart.value, index)
      invariant AllRecorded(lines, found, depths)
      invariant ScanFrom(Cursor(0, None, []), lines, 0, header) ==
                ScanFrom(Cursor(depth, activeStart, found), lines[index..], index, header)
    {
      ghost var c := Cursor(depth, activeStart, found);
      ScanRest(c, lines, index, header);
      var bare := StripCommentsAndStrings(lines[index]);
      if bare.None? {
        return None, [];
      }
      var code := Strip(bare.value);
      if depth == 0 && header(code) {
        activeStart, activeDepths := Some(index), [];
      }
      if activeStart.Some? {
        activeDepths := activeDepths + [depth];
        DepthsMore(lines, activeStart.value, index);
      }
      depth := depth + Count(code, '{') - Count(code, '}');
      if depth < 0 {
        return None, [];
      }
      if activeStart.Some? && depth == 0 {
        RecordedMore(lines, found, depths, Block(activeStart.value, index), activeDepths);
        found := found + [Block(activeStart.value, index)];
        depths := depths + [activeDepths];
        activeStart, activeDepths := None, [];
      }
      assert ScanLine(c, lines[index], index, header) == Some(Cursor(depth, activeStart, found));
    }
    blocks := if depth != 0 || activeStart.Some? then None else Some(found);
  }

  lemma {:induction false} ScanConcat(c: Cursor, a: seq<string>, b: seq<string>, index: nat, header: string -> bool)
    ensures ScanFrom(c, a + b, index, header) ==
            var mid := ScanFrom(c, a, index, header);
            if mid.None? then None else ScanFrom(mid.value, b, index + |a|, header)
    decreases |a|
  {
    if a == [] {
      assert a + b == b;
    } else {
      assert (a + b)[1..] == a[1..] + b && (a + b)[0] == a[0];
      var next := ScanLine(c, a[0], index, header);
      if next.Some? {
        ScanConcat(next.value, a[1..], b, index + 1, header);
      }
    }
  }

  /** A scan that goes through is as deep as its lines say. */
  lemma {:induction false} ScanDepth(lines: seq<string>, n: nat, header: string -> bool)
    requires n <= |lines| && ScanFrom(Cursor(0, None, []), lines[..n], 0, header).Some?
    ensures ScanFrom(Cursor(0, None, []), lines[..n], 0, header).value.depth == DepthAt(lines, n)
  {
    if n > 0 {
      var start := Cursor(0, None, []);
      assert lines[..n] == lines[..n - 1] + [lines[n - 1]];
      ScanConcat(start, lines[..n - 1], [lines[n - 1]], 0, header);
      ScanDepth(lines, n - 1, header);
      assert [lines[n - 1]][1..] == [];
    }
  }

  /** Blocks are only added, and each ends where it was found. */
  lemma {:induction false} ScanAdds(c: Cursor, lines: seq<string>, index: nat, header: string -> bool)
    requires ScanFrom(c, lines, index, header).Some?
    ensures var r := ScanFrom(c, lines, index, header).value;
      && |c.blocks| <= |r.blocks| && r.blocks[..|c.blocks|] == c.blocks
      && forall k :: |c.blocks| <= k < |r.blocks| ==> index <= r.blocks[k].end < index + |lines|
    decreases |lines|
  {
    if lines != [] {
      ScanAdds(ScanLine(c, lines[0], index, header).value, lines[1..], index + 1, header);
    }
  }

  /** Where the lines stand does not matter for whether the scan goes through, how deep it
      ends and how many blocks it finds. */
  lemma {:induction false} ScanShift(c: Cursor, c': Cursor, lines: seq<string>, index: nat, index': nat,
      header: string -> bool)
    requires c.depth == c'.depth && c.active.Some? == c'.active.Some?
    ensures var r, r' := ScanFrom(c, lines, index, header), ScanFrom(c', lines, index', header);
      && r.Some? == r'.Some?
      && (r.Some? ==>
            && r.value.depth == r'.value.depth && r.value.active.Some? == r'.value.active.Some?
            && |r.value.blocks| - |c.blocks| == |r'.value.blocks| - |c'.blocks|)
    decreases |lines|
  {
    if lines != [] {
      var next, next' := ScanLine(c, lines[0], index, header), ScanLine(c', lines[0], index', header);
      if next.Some? {
        ScanShift(next.value, next'.value, lines[1..], index + 1, index' + 1, header);
      }
    }
  }

  /** A header opens more braces than it closes. */
  ghost predicate Opens(header: string -> bool) {
    forall code :: header(code) ==> Count(code, '{') > Count(code, '}')
  }

  ghost predicate Inside(c: Cursor, index: nat) {
    c.active.Some? ==> c.depth >= 1 && c.active.value < index
  }

  lemma {:induction false} ScanInside(c: Cursor, lines: seq<string>, index: nat, header: string -> bool)
    requires Inside(c, index) && ScanFrom(c, lines, index, header).Some?
    ensures Inside(ScanFrom(c, lines, index, header).value, index + |lines|)
    decreases |lines|
  {
    if lines != [] {
      var next := ScanLine(c, lines[0], index, header).value;
      assert Inside(next, index + 1);
      ScanInside(next, lines[1..], index + 1, header);
    }
  }

  /** How the scan passes a text with exactly one block: the lines before its closing line,
      that line, and the lines behind it. */
  ghost predicate Parts(a: seq<string>, closing: string, b: seq<string>, block: Block, header: string -> bool,
      c: Cursor) {
    && block.start < block.end == |a|
    && ScanFrom(Cursor(0, None, []), a, 0, header) == Some(c)
    && c.depth >= 1 && c.active == Some(block.start) && c.blocks == []
    && ScanLine(c, closing, block.end, header) == Some(Cursor(0, None, [block]))
    && ScanFrom(Cursor(0, None, [block]), b, block.end + 1, header) == Some(Cursor(0, None, [block]))
  }

  ghost predicate OneBlock(lines: seq<string>, block: Block, header: string -> bool, c: Cursor) {
    block.end < |lines| && Parts(lines[..block.end], lines[block.end], lines[block.end + 1..], block, header, c)
  }

  lemma {:induction false} ScanAt(lines: seq<string>, e: nat, header: string -> bool)
    requires e < |lines|
    ensures ScanFrom(Cursor(0, None, []), lines, 0, header) ==
            var c := ScanFrom(Cursor(0, None, []), lines[..e], 0, header);
            if c.None? then None
            else
              var next := ScanLine(c.value, lines[e], e, header);
              if next.None? then None else ScanFrom(next.value, lines[e + 1..], e + 1, header)
  {
    assert lines[..e] + lines[e..] == lines;
    ScanConcat(Cursor(0, None, []), lines[..e], lines[e..], 0, header);
    assert lines[e..][1..] == lines[e + 1..];
  }

  lemma {:induction false} OnlyBlock(lines: seq<string>, block: Block, header: string -> bool) returns (c: Cursor)
    requires Opens(header) && FindBlocks(lines, header) == Some([block])
    ensures OneBlock(lines, block, header, c)
  {
    var start := Cursor(0, None, []);
    var r := ScanFrom(start, lines, 0, header).value;
    ScanAdds(start, lines, 0, header);
    var e := block.end;
    assert r.blocks[0].end < 0 + |lines|;
    ScanAt(lines, e, header);
    c := ScanFrom(start, lines[..e], 0, header).value;
    var next := ScanLine(c, lines[e], e, header).value;
    ScanAdds(next, lines[e + 1..], e + 1, header);
    assert r == Cursor(0, None, [block]);
    FirstKept(c.blocks, next.blocks, r.blocks, block);
    ScanAdds(start, lines[..e], 0, header);
    ScanInside(start, lines[..e], 0, header);
  }

  /** The one block is found at its closing line or before. */
  lemma {:induction false} FirstKept(before: seq<Block>, after: seq<Block>, all: seq<Block>, block: Block)
    requires all == [block] && |before| <= |after| <= |all| && after[..|before|] == before && all[..|after|] == after
    requires forall k :: |after| <= k < |all| ==> block.end < all[k].end
    ensures after == [block] && (before == [] || before == [block])
  {
    assert all[0] == block;
    assert |before| == 1 ==> before == after;
  }

  lemma {:induction false} BlockFound(lines: seq<string>, block: Block, header: string -> bool, c: Cursor)
    requires OneBlock(lines, block, header, c)
    ensures FindBlocks(lines, header) == Some([block])
  {
    ScanAt(lines, block.end, header);
  }

  /** Lines that leave the scan as it is. */
  ghost predicate Inert(c: Cursor, more: seq<string>, index: nat, header: string -> bool) {
    ScanFrom(c, more, index, header) == Some(c)
  }

  /** Such lines before the closing line of the only block move its end and nothing else. */
  lemma {:induction false} InsertInert(a: seq<string>, closing: string, b: seq<string>, block: Block,
      header: string -> bool, c: Cursor, more: seq<string>)
    requires Parts(a, closing, b, block, header, c) && Inert(c, more, block.end, header)
    ensures Parts(a + more, closing, b, Block(block.start, block.end + |more|), header, c)
  {
    var block' := Block(block.start, block.end + |more|);
    assert ScanFrom(Cursor(0, None, []), a + more, 0, header) == Some(c) by {
      ScanConcat(Cursor(0, None, []), a, more, 0, header);
    }
    assert ScanLine(c, closing, block'.end, header) == Some(Cursor(0, None, [block'])) by {
      ClosingMoves(c, closing, block, block', header);
    }
    assert ScanFrom(Cursor(0, None, [block']), b, block'.end + 1, header) == Some(Cursor(0, None, [block'])) by {
      SameTail(b, block, block', header);
    }
  }

  lemma {:induction false} ClosingMoves(c: Cursor, closing: string, block: Block, block': Block, header: string -> bool)
    requires c.depth >= 1 && c.active == Some(block.start) && c.blocks == [] && block'.start == block.start
    requires ScanLine(c, closing, block.end, header) == Some(Cursor(0, None, [block]))
    ensures ScanLine(c, closing, block'.end, header) == Some(Cursor(0, None, [block']))
  {
    assert c.blocks + [Block(block.start, block'.end)] == [block'];
  }

  lemma {:induction false} SameTail(b: seq<string>, block: Block, block': Block, header: string -> bool)
    requires ScanFrom(Cursor(0, None, [block]), b, block.end + 1, header) == Some(Cursor(0, None, [block]))
    ensures ScanFrom(Cursor(0, None, [block']), b, block'.end + 1, header) == Some(Cursor(0, None, [block']))
  {
    ScanShift(Cursor(0, None, [block]), Cursor(0, None, [block']), b, block.end + 1, block'.end + 1, header);
    ScanAdds(Cursor(0, None, [block']), b, block'.end + 1, header);
    var r := ScanFrom(Cursor(0, None, [block']), b, block'.end + 1, header).value;
    assert r.blocks == [block'];
  }

  /** A line without code before the closing line may be removed again. */
  lemma {:induction false} RemoveBlank(a: seq<string>, blank: string, closing: string, b: seq<string>, block: Block,
      header: string -> bool, c: Cursor)
    requires Parts(a + [blank], closing, b, block, header, c) && block.start < |a|
    requires Code(blank) == Some("") && !header("")
    ensures Parts(a, closing, b, Block(block.start, block.end - 1), header, c)
  {
    var block' := Block(block.start, block.end - 1);
    ScanConcat(Cursor(0, None, []), a, [blank], 0, header);
    var c' := ScanFrom(Cursor(0, None, []), a, 0, header).value;
    ScanInside(Cursor(0, None, []), a, 0, header);
    assert [blank][1..] == [];
    assert ScanLine(c', blank, |a|, header) == Some(c');
    ClosingMoves(c, closing, block, block', header);
    SameTail(b, block, block', header);
  }

  /** The active block began with a header line. */
  lemma {:induction false} ActiveHeader(c: Cursor, lines: seq<string>, index: nat, header: string -> bool, k: nat)
    requires ScanFrom(c, lines, index, header).Some? && ScanFrom(c, lines, index, header).value.active == Some(k)
    requires index <= k && (c.active.Some? ==> c.active.value < index)
    ensures k < index + |lines| && Code(lines[k - index]).Some? && header(Code(lines[k - index]).value)
    decreases |lines|
  {
    if lines != [] {
      var next := ScanLine(c, lines[0], index, header).value;
      if k > index {
        ActiveHeader(next, lines[1..], index + 1, header, k);
      } else {
        ActiveKept(next, lines[1..], index + 1, header, k);
      }
    }
  }

  lemma {:induction false} ActiveKept(c: Cursor, lines: seq<string>, index: nat, header: string -> bool, k: nat)
    requires ScanFrom(c, lines, index, header).Some? && ScanFrom(c, lines, index, header).value.active == Some(k)
    requires k < index
    ensures c.active == Some(k)
    decreases |lines|
  {
    if lines != [] {
      ActiveKept(ScanLine(c, lines[0], index, header).value, lines[1..], index + 1, header, k);
    }
  }

  // Counting characters

  lemma {:induction false} CountConcat(a: string, b: string, c: char)
    ensures Count(a + b, c) == Count(a, c) + Count(b, c)
  {
    if a == "" {
      assert a + b == b;
    } else {
      CountConcat(a[1..], b, c);
      assert (a + b)[1..] == a[1..] + b;
    }
  }

  lemma {:induction false} CountNone(s: string, c: char)
    requires c !in s
    ensures Count(s, c) == 0
  {
    if s != "" {
      CountNone(s[1..], c);
    }
  }

  lemma {:induction false} CountTrimLeft(s: string, c: char)
    requires !IsSpace(c)
    ensures Count(TrimLeft(s), c) == Count(s, c)
  {
    if s != "" && IsSpace(s[0]) {
      CountTrimLeft(s[1..], c);
    }
  }

  // ---------------------------------------------------------------------------------------
  // Inserted lines
  // ---------------------------------------------------------------------------------------

  /** Inside a block a line with this code moves the depth by its braces and nothing else. */
  lemma {:induction false} InnerLine(c: Cursor, line: string, index: nat, header: string -> bool, code: string)
    requires c.depth >= 1 && Code(line) == Some(code) && c.depth + Count(code, '{') - Count(code, '}') >= 1
    ensures ScanLine(c, line, index, header) == Some(c.(depth := c.depth + Count(code, '{') - Count(code, '}')))
  {
  }

  lemma {:induction false} ScanCons(c: Cursor, c': Cursor, line: string, rest: seq<string>, index: nat,
      header: string -> bool)
    requires ScanLine(c, line, index, header) == Some(c')
    ensures ScanFrom(c, [line] + rest, index, header) == ScanFrom(c', rest, index + 1, header)
  {
    assert ([line] + rest)[1..] == rest;
  }

  predicate ProperIndent(indent: string) {
    AllSpace(indent) && '\n' !in indent
  }

  predicate ProperNewline(newline: string) {
    newline == "\n" || newline == "\r\n"
  }

  lemma {:induction false} EndedLine(s: string, newline: string)
    requires '\n' !in s && ProperNewline(newline)
    ensures Ended(s + newline)
  {
    var line := s + newline;
    forall i | 0 <= i < |line| - 1 ensures line[i] != '\n' {
      if i < |s| {
        assert s[i] in s;
      }
    }
  }

  lemma {:induction false} GapIsBlank(newline: string)
    requires ProperNewline(newline)
    ensures Strip(newline) == "" && Code(newline) == Some("") && Ended(newline)
  {
    assert AllSpace(newline);
    BlankIsSpace(newline);
    BlankCode(newline);
    EndedLine("", newline);
    assert "" + newline == newline;
  }

  lemma {:induction false} PlainWord(s: string)
    requires '"' !in s && '\'' !in s && '#' !in s
    ensures Plain(s)
  {
    assert forall i :: 0 <= i < |s| ==> s[i] in s;
  }

  // ---------------------------------------------------------------------------------------
  // Markers
  // ---------------------------------------------------------------------------------------

  predicate MarkAt(lines: seq<string>, mark: string -> bool, i: int) {
    0 <= i < |lines| && mark(lines[i])
  }

  /** The positions of the lines that are markers. */
  function Positions(lines: seq<string>, mark: string -> bool, n: nat): seq<nat>
    requires n <= |lines|
  {
    if n == 0 then [] else Positions(lines, mark, n - 1) + if MarkAt(lines, mark, n - 1) then [n - 1] else []
  }

  datatype Markers = Absent | Broken | At(begin: nat, end: nat)

  function RangeOf(begins: seq<nat>, ends: seq<nat>): Markers {
    if begins == [] && ends == [] then Absent
    else if |begins| != 1 || |ends| != 1 || begins[0] >= ends[0] then Broken
    else At(begins[0], ends[0])
  }

  lemma {:induction false} PositionsNone(lines: seq<string>, mark: string -> bool, n: nat)
    requires n <= |lines|
    ensures Positions(lines, mark, n) == [] <==> forall i :: 0 <= i < n ==> !MarkAt(lines, mark, i)
  {
    if n > 0 {
      PositionsNone(lines, mark, n - 1);
    }
  }

  lemma {:induction false} PositionsOne(lines: seq<string>, mark: string -> bool, k: nat, n: nat)
    requires k < n <= |lines| && forall i :: 0 <= i < n ==> (MarkAt(lines, mark, i) <==> i == k)
    ensures Positions(lines, mark, n) == [k]
  {
    if k == n - 1 {
      PositionsNone(lines, mark, n - 1);
    } else {
      PositionsOne(lines, mark, k, n - 1);
    }
  }

  /** Lines of a text with one marker inserted where there was none. */
  lemma {:induction false} OneMarker(lines: seq<string>, k: nat, more: seq<string>, all: seq<string>,
      mark: string -> bool, g: nat)
    requires g < |more| && k <= |lines| && all == lines[..k] + more + lines[k..]
        && Positions(lines, mark, |lines|) == []
    requires forall i :: 0 <= i < |more| ==> (MarkAt(more, mark, i) <==> i == g)
    ensures Positions(all, mark, |all|) == [k + g]
  {
    PositionsNone(lines, mark, |lines|);
    forall i | 0 <= i < |all| ensures MarkAt(all, mark, i) <==> i == k + g {
      if i < k {
        assert MarkAt(all, mark, i) == MarkAt(lines, mark, i);
      } else if i < k + |more| {
        assert MarkAt(all, mark, i) == MarkAt(more, mark, i - k);
      } else {
        assert MarkAt(all, mark, i) == MarkAt(lines, mark, i - |more|);
      }
    }
    PositionsOne(all, mark, k + g, |all|);
  }
}
