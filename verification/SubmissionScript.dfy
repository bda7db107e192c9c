/**
 What the script that manages the local Submission listener does to a configuration, for every
 configuration that it accepts: when removing gives the text back, when the edited text is
 balanced, and where the added limit stands.

 The round trip is that of SubmissionConfig, with the script's own rules.  For the balance, the
 edited text is scanned piece by piece: the old text ends at depth 0, two lines without code
 follow, then the copy, then one more line without code.  For the limit, lines are seen as rows
 of depth and code: the copied rows are those of the source two places further on, the script
 takes the first lone brace at depth 2 for the end of `limits`, and that is the end of `limits`
 exactly if no line before it has left the block.
 */
module SubmissionScript {
  import opened Options
  import opened ConfigScan
  import opened TextSearch
  import opened SubmissionConfig
  import opened SubmissionRules

  /** The default block of a text. */
  function DefaultOf(text: string): Option<Block> {
    var blocks := FindBlocks(Split(text), IsSubmission);
    if blocks.None? then None else DefaultBlock(Split(text), blocks.value)
  }

  /** What adding has found, chosen and written. */
  lemma {:induction false} AddingChose(text: string, built: string) returns (blocks: seq<Block>, choice: Choice)
    requires Add(text) == Some(built)
    ensures FindBlocks(Split(text), IsSubmission) == Some(blocks) && Choose(Split(text), blocks) == Some(choice)
    ensures ProperChoice(Split(text), blocks, choice) && DefaultOf(text) == Some(choice.block)
    ensures ChooseIn(InnerRows(Split(text), choice.block), choice.block) == Some(choice)
  {
    var lines := Split(text);
    blocks := FindBlocks(lines, SCRIPT.header).value;
    choice := SCRIPT.choose(lines, blocks).value;
    SplitLines(text);
    ChoiceIsProper(lines, blocks, choice);
    ChoiceBlock(lines, blocks, choice);
  }

  /** The depth at the default block's last line. */
  lemma {:induction false} LastDepth(lines: seq<string>, blocks: seq<Block>, block: Block)
    requires FindBlocks(lines, IsSubmission) == Some(blocks) && block in blocks && block.start < block.end
    ensures block.end < |lines| && ClosingDepth(lines, IsSubmission, block) == DepthAt(lines, block.end)
  {
    ClosingCursor(lines, IsSubmission, blocks, block);
    ScanDepth(lines, block.end, IsSubmission);
  }

  /** For every text to which the listener can be added: removing it gives the text back, its
      last line ended, if and only if the default block's last line stands at depth 1; deeper,
      removal is refused. */
  lemma {:induction false} ScriptRoundTrip(text: string, built: string)
    requires Add(text) == Some(built)
    ensures DefaultOf(text).Some? && DefaultOf(text).value.end < |Split(text)|
    ensures Remove(built) ==
            if DepthAt(Split(text), DefaultOf(text).value.end) == 1 then Some(Whole(text, NewlineOf(text))) else None
  {
    var blocks, choice := AddingChose(text, built);
    ScriptIsProper();
    LastDepth(Split(text), blocks, choice.block);
    RoundTrip(TEXTS, SCRIPT, text, NewlineOf(text), blocks, choice, built);
  }

  // ---------------------------------------------------------------------------------------
  // Balance of the edited text
  // ---------------------------------------------------------------------------------------

  lemma {:induction false} SameCode(c: Cursor, a: string, b: string, index: nat, header: string -> bool)
    requires Code(a) == Code(b)
    ensures ScanLine(c, a, index, header) == ScanLine(c, b, index, header)
  {
  }

  /** Ending the last line does not change the scan. */
  lemma {:induction false} WholeScan(lines: seq<string>, newline: string, ends: bool, header: string -> bool)
    requires lines != [] && ProperNewline(newline)
    ensures ScanFrom(Cursor(0, None, []), WholeLines(lines, newline, ends), 0, header) ==
        ScanFrom(Cursor(0, None, []), lines, 0, header)
  {
    if !ends {
      var n, start := |lines| - 1, Cursor(0, None, []);
      var front, last, last' := lines[..n], [lines[n]], [lines[n] + newline];
      assert AllSpace(newline);
      CodePadded(lines[n], newline);
      assert lines == front + last;
      ScanConcat(start, front, last, 0, header);
      ScanConcat(start, front, last', 0, header);
      assert last[1..] == [] && last'[1..] == [];
      var c := ScanFrom(start, front, 0, header);
      if c.Some? {
        SameCode(c.value, lines[n], lines[n] + newline, n, header);
      }
    }
  }

  lemma {:induction false} NoCode(c: Cursor, line: string, rest: seq<string>, index: nat, header: string -> bool)
    requires Code(line) == Some("") && !header("") && (c.active.Some? ==> c.depth > 0)
    ensures ScanFrom(c, [line] + rest, index, header) == ScanFrom(c, rest, index + 1, header)
  {
    ScanCons(c, c, line, rest, index, header);
  }

  /** Behind a balanced text, two lines without code, lines, and one more line without code are
      balanced exactly if those lines are. */
  lemma {:induction false} Appended(whole: seq<string>, gap: string, begin: string, between: seq<string>, end: string,
      header: string -> bool)
    requires FindBlocks(whole, header).Some? && !header("")
    requires Code(gap) == Some("") && Code(begin) == Some("") && Code(end) == Some("")
    ensures FindBlocks(whole + ([gap, begin] + between + [end]), header).Some? <==> FindBlocks(between, header).Some?
  {
    var start := Cursor(0, None, []);
    var c, n := ScanFrom(start, whole, 0, header).value, |whole|;
    ScanConcat(start, whole, [gap, begin] + between + [end], 0, header);
    assert [gap, begin] + between + [end] == [gap] + ([begin] + (between + [end]));
    NoCode(c, gap, [begin] + (between + [end]), n, header);
    NoCode(c, begin, between + [end], n + 1, header);
    ScanConcat(c, between, [end], n + 2, header);
    ScanShift(start, c, between, 0, n + 2, header);
    var r := ScanFrom(c, between, n + 2, header);
    if r.Some? {
      ScanInside(c, between, n + 2, header);
      assert [end] == [end] + [];
      NoCode(r.value, end, [], n + 2 + |between|, header);
    }
  }

  /** The edited text passes the editor's own scan if and only if the default block's last line
      stands at depth 1; otherwise adding leaves the whole configuration unbalanced. */
  lemma {:induction false} EditedIsBalanced(text: string, built: string)
    requires Add(text) == Some(built)
    ensures DefaultOf(text).Some? && DefaultOf(text).value.end < |Split(text)|
    ensures FindBlocks(Split(built), IsSubmission).Some? <==> DepthAt(Split(text), DefaultOf(text).value.end) == 1
  {
    var blocks, choice := AddingChose(text, built);
    var lines, newline := Split(text), NewlineOf(text);
    ScriptIsProper();
    LastDepth(lines, blocks, choice.block);
    CopyOfBlock(TEXTS, SCRIPT, lines, blocks, choice, newline);
    EditedScan(text, built, lines, choice, newline);
  }

  lemma {:induction false} EditedScan(text: string, built: string, lines: seq<string>, choice: Choice, newline: string)
    requires Proper(TEXTS) && ProperNewline(newline) && lines == Split(text) && FindBlocks(lines, IsSubmission).Some?
    requires choice.block.start < choice.block.end < |lines| && choice.at <= |Inner(lines, choice.block)|
    requires ProperIndent(choice.authIndent) && ProperIndent(choice.limitsIndent)
    requires built == Whole(text, newline) + Join(Added(TEXTS, Inner(lines, choice.block), choice, newline))
    ensures FindBlocks(Split(built), IsSubmission).Some? <==>
            FindBlocks(Between(TEXTS, Inner(lines, choice.block), choice, newline), IsSubmission).Some?
  {
    var whole := WholeLines(lines, newline, EndsLine(text));
    var between := Between(TEXTS, Inner(lines, choice.block), choice, newline);
    var result := whole + Added(TEXTS, Inner(lines, choice.block), choice, newline);
    EditedText(TEXTS, text, lines, choice, newline, whole, result);
    WholeScan(lines, newline, EndsLine(text), IsSubmission);
    GapIsBlank(newline);
    CommentCode("", TEXTS.begin + newline);
    CommentCode("", TEXTS.end + newline);
    assert "" + (TEXTS.begin + newline) == TEXTS.begin + newline && "" + (TEXTS.end + newline) == TEXTS.end + newline;
    Appended(whole, newline, TEXTS.begin + newline, between, TEXTS.end + newline, IsSubmission);
  }

  // ---------------------------------------------------------------------------------------
  // Where the added limit stands
  // ---------------------------------------------------------------------------------------

  /** The row at which the `limits` block that begins at `s` really ends. */
  function LimitsClose(rows: seq<Row>, s: nat): Option<nat> {
    var closes := Where(|rows|, Leaves(rows, s));
    if closes == [] then None else Some(closes[0])
  }

  function Leaves(rows: seq<Row>, s: nat): nat -> bool {
    (i: nat) => s < i < |rows| && rows[i].depth + rows[i].delta <= 1
  }

  /** Row `i` is inside a `limits` block that begins at depth 1. */
  ghost predicate InLimits(rows: seq<Row>, i: nat) {
    exists j: nat :: j < i && CodeAt(rows, j, 1, LIMITS) && DeepFrom(rows, j, i)
  }

  ghost predicate Deep(rows: seq<Row>, k: int) {
    0 <= k < |rows| ==> rows[k].depth >= 2
  }

  ghost predicate DeepFrom(rows: seq<Row>, j: nat, i: nat) {
    forall k :: j < k <= i ==> Deep(rows, k)
  }

  /** What rows of successive lines are like. */
  ghost predicate Linked(rows: seq<Row>, i: int) {
    0 <= i < |rows| ==>
      && (i + 1 < |rows| ==> rows[i + 1].depth == rows[i].depth + rows[i].delta)
      && (rows[i].code == Some(BRACE) ==> rows[i].delta == -1)
      && (rows[i].code == Some(LIMITS) ==> rows[i].delta == 1)
  }

  ghost predicate AllLinked(rows: seq<Row>) {
    forall i :: Linked(rows, i)
  }

  // Rows only

  lemma {:induction false} DeepUntil(rows: seq<Row>, s: nat, c: nat)
    requires AllLinked(rows) && s < c < |rows| && CodeAt(rows, s, 1, LIMITS)
    requires forall i: nat :: i < c ==> !Leaves(rows, s)(i)
    ensures DeepFrom(rows, s, c)
  {
    forall k | s < k <= c ensures Deep(rows, k) {
      assert Linked(rows, k - 1);
      if k > s + 1 {
        assert !Leaves(rows, s)(k - 1);
      }
    }
  }

  /** The `limits` block ends at the chosen brace or before it, and at the chosen brace if and
      only if it ends with a lone brace. */
  lemma {:induction false} ChosenEnd(rows: seq<Row>, s: nat, e: nat)
    requires AllLinked(rows) && s < e && CodeAt(rows, s, 1, LIMITS) && CodeAt(rows, e, 2, BRACE)
    requires forall i: nat :: s < i < e ==> !CodeAt(rows, i, 2, BRACE)
    ensures LimitsClose(rows, s).Some?
    ensures var c := LimitsClose(rows, s).value;
      && s < c <= e && DeepFrom(rows, s, c) && rows[c].depth + rows[c].delta <= 1
      && (rows[c].code == Some(BRACE) <==> c == e)
  {
    var p := Leaves(rows, s);
    assert Linked(rows, e);
    assert p(e);
    WhereMember(|rows|, p, e);
    WhereLeast(|rows|, p);
    var c := Where(|rows|, p)[0];
    DeepUntil(rows, s, c);
    assert Linked(rows, c) && Deep(rows, c);
    if rows[c].code == Some(BRACE) {
      assert CodeAt(rows, c, 2, BRACE);
    }
  }

  /** A copy of the rows, two rows further on, has its row `e` inside `limits` if and only if
      the block does not end before. */
  lemma {:induction false} CopyInLimits(rows: seq<Row>, copied: seq<Row>, s: nat, e: nat, c: nat)
    requires AllLinked(rows) && LimitsStart(rows) == Some(s) && CodeAt(rows, s, 1, LIMITS) && s < c <= e < |rows|
        && 2 + e < |copied|
    requires copied[2..2 + e] == rows[..e] && copied[2 + e].depth == rows[e].depth
    requires DeepFrom(rows, s, c) && rows[c].depth + rows[c].delta <= 1
    ensures InLimits(copied, 2 + e) <==> c == e
  {
    forall i | 0 <= i < e ensures copied[2 + i] == rows[i] {
      assert copied[2 + i] == copied[2..2 + e][i] && rows[i] == rows[..e][i];
    }
    if c == e {
      assert CodeAt(copied, 2 + s, 1, LIMITS);
      forall k | 2 + s < k <= 2 + e ensures Deep(copied, k) {
        assert Deep(rows, k - 2);
        assert k < 2 + e ==> copied[2 + (k - 2)] == rows[k - 2];
      }
    } else {
      CopyOutside(rows, copied, s, e, c);
    }
  }

  lemma {:induction false} CopyOutside(rows: seq<Row>, copied: seq<Row>, s: nat, e: nat, c: nat)
    requires AllLinked(rows) && LimitsStart(rows) == Some(s) && s < c < e < |rows| && 2 + e < |copied|
    requires (forall i :: 0 <= i < e ==> copied[2 + i] == rows[i]) && copied[2 + e].depth == rows[e].depth
    requires rows[c].depth + rows[c].delta <= 1
    ensures !InLimits(copied, 2 + e)
  {
    var m := 2 + (c + 1);
    assert Linked(rows, c) && copied[m].depth == rows[c + 1].depth;
    assert !Deep(copied, m);
    forall j: nat | j < 2 + e && CodeAt(copied, j, 1, LIMITS) ensures j < m {
      if j >= 2 {
        assert copied[2 + (j - 2)] == rows[j - 2];
        assert OpensLimits(rows)(j - 2);
        WhereMember(|rows|, OpensLimits(rows), j - 2);
      }
    }
  }

  // Rows of lines

  function AllRows(lines: seq<string>): seq<Row> {
    seq(|lines|, k requires 0 <= k < |lines| => RowOf(lines, k))
  }

  lemma {:induction false} BraceMoves(line: string)
    ensures Code(line) == Some(BRACE) ==> Delta(line) == -1
    ensures Code(line) == Some(LIMITS) ==> Delta(line) == 1
  {
    assert "}"[1..] == "";
    assert Letters("limits");
    OpeningBraces("limits");
  }

  lemma {:induction false} DepthNext(lines: seq<string>, n: nat)
    requires n < |lines|
    ensures DepthAt(lines, n + 1) == DepthAt(lines, n) + Delta(lines[n])
  {
  }

  lemma {:induction false} InnerLinked(lines: seq<string>, block: Block)
    requires block.start < block.end < |lines|
    ensures AllLinked(InnerRows(lines, block))
  {
    var rows, n := InnerRows(lines, block), block.start + 1;
    forall i ensures Linked(rows, i) {
      if 0 <= i < |rows| {
        assert rows[i] == RowOf(lines, n + i);
        assert i + 1 < |rows| ==> rows[i + 1] == RowOf(lines, n + i + 1);
        DepthNext(lines, n + i);
        BraceMoves(lines[n + i]);
      }
    }
  }

  /** The default block's first inner line stands at depth 1. */
  lemma {:induction false} InnerDepth(lines: seq<string>, blocks: seq<Block>, block: Block)
    requires FindBlocks(lines, IsSubmission) == Some(blocks) && block in blocks && block.start < block.end < |lines|
        && HeaderDepth(lines, block) == 1
    ensures DepthAt(lines, block.start + 1) == 1
  {
    var start := Cursor(0, None, []);
    ClosingCursor(lines, IsSubmission, blocks, block);
    ActiveSince(start, lines[..block.end], 0, IsSubmission, block.start);
    assert lines[..block.end][..block.start] == lines[..block.start];
    ScanDepth(lines, block.start, IsSubmission);
  }

  /** The first two lines of the copy raise the depth to 1. */
  lemma {:induction false} CopyBegins(t: Texts, between: seq<string>, indent: string, newline: string)
    requires Proper(t) && ProperNewline(newline) && ProperIndent(indent) && |between| >= 2
    requires between[0] == t.Header() + newline && between[1] == indent + t.tls + newline
    ensures DepthAt(between, 2) == 1
  {
    HeaderCode(t, newline, between[0]);
    WordLine(indent, t.tls, newline);
    DepthNext(between, 0);
    DepthNext(between, 1);
  }

  /** How far lines move the depth together. */
  function Moves(lines: seq<string>): int {
    if lines == [] then 0 else Moves(lines[..|lines| - 1]) + Delta(lines[|lines| - 1])
  }

  lemma {:induction false} DepthMoves(lines: seq<string>, m: nat, i: nat)
    requires m + i <= |lines|
    ensures DepthAt(lines, m + i) == DepthAt(lines, m) + Moves(lines[m..m + i])
  {
    if i > 0 {
      var part := lines[m..m + i];
      DepthMoves(lines, m, i - 1);
      assert part[..i - 1] == lines[m..m + (i - 1)] && part[i - 1] == lines[m + i - 1];
    }
  }

  lemma {:induction false} CopiedLines(t: Texts, lines: seq<string>, choice: Choice, newline: string, i: nat)
    requires choice.block.start < choice.block.end < |lines| && i <= choice.at <= |Inner(lines, choice.block)|
    ensures var between, n := Between(t, Inner(lines, choice.block), choice, newline), choice.block.start + 1;
      2 + i <= |between| && between[2..2 + i] == lines[n..n + i]
  {
    var between, inner, n := Between(t, Inner(lines, choice.block), choice, newline), Inner(lines, choice.block),
        choice.block.start + 1;
    CopyShape(t, between, inner, choice, newline);
    ShorterSlice(between, 2, choice.at, i);
    ShorterSlice(inner, 0, choice.at, i);
    SliceOfSlice(lines, n, choice.block.end, i);
  }

  lemma {:induction false} ShorterSlice(s: seq<string>, m: nat, a: nat, i: nat)
    requires i <= a && m + a <= |s|
    ensures s[m..m + i] == s[m..m + a][..i]
  {
  }

  lemma {:induction false} SliceOfSlice(s: seq<string>, n: nat, e: nat, i: nat)
    requires n + i <= e <= |s|
    ensures s[n..e][0..i] == s[n..n + i]
  {
  }

  lemma {:induction false} CopyShape(t: Texts, between: seq<string>, inner: seq<string>, choice: Choice,
      newline: string)
    requires choice.at <= |inner| && between == Between(t, inner, choice, newline)
    ensures |between| == |inner| + 4 && between[2..2 + choice.at] == inner[..choice.at]
    ensures between[2 + choice.at] == choice.limitsIndent + "    " + t.limit + newline
  {
    var copied := Copied(t, inner, choice, newline);
    forall k | 0 <= k < choice.at ensures between[2..2 + choice.at][k] == inner[..choice.at][k] {
      assert between[2 + k] == copied[1 + k] == inner[k];
    }
    assert between[2 + choice.at] == copied[1 + choice.at];
  }

  /** The copied lines have the depths of the lines they were copied from. */
  lemma {:induction false} CopiedDepth(t: Texts, lines: seq<string>, choice: Choice, newline: string, i: nat)
    requires Proper(t) && ProperNewline(newline) && ProperIndent(choice.authIndent)
    requires choice.block.start < choice.block.end < |lines| && i <= choice.at <= |Inner(lines, choice.block)|
    requires DepthAt(lines, choice.block.start + 1) == 1
    ensures var between := Between(t, Inner(lines, choice.block), choice, newline);
      2 + i <= |between| && DepthAt(between, 2 + i) == DepthAt(lines, choice.block.start + 1 + i)
  {
    var between, n := Between(t, Inner(lines, choice.block), choice, newline), choice.block.start + 1;
    CopyBegins(t, between, choice.authIndent, newline);
    CopiedLines(t, lines, choice, newline, i);
    DepthMoves(between, 2, i);
    DepthMoves(lines, n, i);
  }

  lemma {:induction false} SameRow(a: seq<string>, m: nat, b: seq<string>, n: nat)
    requires m < |a| && n < |b| && a[m] == b[n] && DepthAt(a, m) == DepthAt(b, n)
    ensures RowOf(a, m) == RowOf(b, n)
  {
  }

  lemma {:induction false} CopiedLine(t: Texts, lines: seq<string>, choice: Choice, newline: string, i: nat)
    requires choice.block.start < choice.block.end < |lines| && i < choice.at <= |Inner(lines, choice.block)|
    ensures var between := Between(t, Inner(lines, choice.block), choice, newline);
      2 + i < |between| && between[2 + i] == lines[choice.block.start + 1 + i]
  {
    var between, n := Between(t, Inner(lines, choice.block), choice, newline), choice.block.start + 1;
    CopiedLines(t, lines, choice, newline, i + 1);
    assert between[2 + i] == between[2..2 + (i + 1)][i] && lines[n + i] == lines[n..n + (i + 1)][i];
  }

  lemma {:induction false} CopiedRow(t: Texts, lines: seq<string>, choice: Choice, newline: string, i: nat)
    requires Proper(t) && ProperNewline(newline) && ProperIndent(choice.authIndent)
    requires choice.block.start < choice.block.end < |lines| && i < choice.at < |Inner(lines, choice.block)|
    requires DepthAt(lines, choice.block.start + 1) == 1
    ensures var rows := InnerRows(lines, choice.block);
      var copied := AllRows(Between(t, Inner(lines, choice.block), choice, newline));
      2 + i < |copied| && copied[2 + i] == rows[i]
  {
    var between, n := Between(t, Inner(lines, choice.block), choice, newline), choice.block.start + 1;
    CopiedDepth(t, lines, choice, newline, i);
    CopiedLine(t, lines, choice, newline, i);
    SameRow(between, 2 + i, lines, n + i);
  }

  lemma {:induction false} RowsAt(lines: seq<string>, k: nat)
    requires k < |lines|
    ensures AllRows(lines)[k].depth == DepthAt(lines, k) && AllRows(lines)[k].code == Code(lines[k])
  {
  }

  lemma {:induction false} InnerRowsAt(lines: seq<string>, block: Block, i: nat)
    requires block.start < block.end < |lines| && i < block.end - block.start - 1
    ensures InnerRows(lines, block)[i].depth == DepthAt(lines, block.start + 1 + i)
  {
  }

  lemma {:induction false} AddedRow(t: Texts, lines: seq<string>, choice: Choice, newline: string)
    requires Proper(t) && ProperNewline(newline) && ProperIndent(choice.authIndent) && ProperIndent(choice.limitsIndent)
    requires choice.block.start < choice.block.end < |lines| && choice.at < |Inner(lines, choice.block)|
    requires DepthAt(lines, choice.block.start + 1) == 1
    ensures var rows, copied, e := InnerRows(lines, choice.block),
        AllRows(Between(t, Inner(lines, choice.block), choice, newline)), choice.at;
      2 + e < |copied| && copied[2 + e].code == Some(t.limit) && copied[2 + e].depth == rows[e].depth
  {
    var between := Between(t, Inner(lines, choice.block), choice, newline);
    AddedCode(t, between, Inner(lines, choice.block), choice, newline);
    CopiedDepth(t, lines, choice, newline, choice.at);
    RowsAt(between, 2 + choice.at);
    InnerRowsAt(lines, choice.block, choice.at);
  }

  lemma {:induction false} AddedCode(t: Texts, between: seq<string>, inner: seq<string>, choice: Choice,
      newline: string)
    requires Proper(t) && ProperNewline(newline) && ProperIndent(choice.limitsIndent)
    requires choice.at <= |inner| && between == Between(t, inner, choice, newline)
    ensures 2 + choice.at < |between| && Code(between[2 + choice.at]) == Some(t.limit)
  {
    CopyShape(t, between, inner, choice, newline);
    WordLine(choice.limitsIndent + "    ", t.limit, newline);
  }

  /** The rows of the copy up to the added limit. */
  lemma {:induction false} CopiedRows(t: Texts, lines: seq<string>, choice: Choice, newline: string,
      between: seq<string>)
    requires Proper(t) && ProperNewline(newline) && ProperIndent(choice.authIndent) && ProperIndent(choice.limitsIndent)
    requires choice.block.start < choice.block.end < |lines| && choice.at < |Inner(lines, choice.block)|
    requires DepthAt(lines, choice.block.start + 1) == 1
        && between == Between(t, Inner(lines, choice.block), choice, newline)
    ensures var rows, copied, e := InnerRows(lines, choice.block), AllRows(between), choice.at;
      2 + e < |copied| && copied[2..2 + e] == rows[..e] && copied[2 + e].depth == rows[e].depth
          && copied[2 + e].code == Some(t.limit)
  {
    var e := choice.at;
    var rows, copied := InnerRows(lines, choice.block), AllRows(between);
    AddedRow(t, lines, choice, newline);
    forall i | 0 <= i < e ensures copied[2 + i] == rows[i] {
      CopiedRow(t, lines, choice, newline, i);
    }
    SameRows(copied, rows, e);
  }

  lemma {:induction false} SameRows(copied: seq<Row>, rows: seq<Row>, e: nat)
    requires e <= |rows| && 2 + e <= |copied| && forall i :: 0 <= i < e ==> copied[2 + i] == rows[i]
    ensures copied[2..2 + e] == rows[..e]
  {
  }

  /** What is claimed of the added limit: it stands at depth 2 of the copy, and it is inside the
      copied `limits` block if and only if that block ends with a lone brace. */
  ghost predicate LimitPlaced(t: Texts, rows: seq<Row>, copied: seq<Row>, choice: Choice) {
    var at := 2 + choice.at;
    && at < |copied| && copied[at].code == Some(t.limit) && copied[at].depth == 2
    && LimitsStart(rows).Some? && LimitsClose(rows, LimitsStart(rows).value).Some?
    && var c := LimitsClose(rows, LimitsStart(rows).value).value;
    && c < |rows| && (InLimits(copied, at) <==> rows[c].code == Some(BRACE))
  }

  lemma {:induction false} LimitIsInside(text: string, built: string)
    requires Add(text) == Some(built)
    ensures DefaultOf(text).Some?
    ensures var lines, block := Split(text), DefaultOf(text).value;
      && block.start < block.end < |lines| && ChooseIn(InnerRows(lines, block), block).Some?
      && var choice := ChooseIn(InnerRows(lines, block), block).value;
      && choice.at <= |Inner(lines, block)|
      && LimitPlaced(TEXTS, InnerRows(lines, block), AllRows(Between(TEXTS, Inner(lines, block), choice,
          NewlineOf(text))), choice)
  {
    var blocks, choice := AddingChose(text, built);
    var lines, block := Split(text), choice.block;
    InnerDepth(lines, blocks, block);
    TextsAreProper();
    var a, s := ChoiceIs(InnerRows(lines, block), block, choice);
    LimitIsPlaced(TEXTS, lines, choice, NewlineOf(text), InnerRows(lines, block), a, s);
  }

  lemma {:induction false} LimitIsPlaced(t: Texts, lines: seq<string>, choice: Choice, newline: string,
      rows: seq<Row>, a: nat, s: nat)
    requires Proper(t) && ProperNewline(newline) && ProperIndent(choice.authIndent) && ProperIndent(choice.limitsIndent)
    requires choice.block.start < choice.block.end < |lines| && DepthAt(lines, choice.block.start + 1) == 1
    requires rows == InnerRows(lines, choice.block) && Chosen(rows, choice, a, s)
    ensures choice.at <= |Inner(lines, choice.block)|
    ensures LimitPlaced(t, rows, AllRows(Between(t, Inner(lines, choice.block), choice, newline)), choice)
  {
    InnerLinked(lines, choice.block);
    var between := Between(t, Inner(lines, choice.block), choice, newline);
    CopiedRows(t, lines, choice, newline, between);
    RowsPlaced(t, rows, AllRows(between), choice, a, s);
  }

  lemma {:induction false} RowsPlaced(t: Texts, rows: seq<Row>, copied: seq<Row>, choice: Choice, a: nat, s: nat)
    requires AllLinked(rows) && Chosen(rows, choice, a, s) && 2 + choice.at < |copied|
        && copied[2..2 + choice.at] == rows[..choice.at]
    requires copied[2 + choice.at].depth == rows[choice.at].depth && copied[2 + choice.at].code == Some(t.limit)
    ensures LimitPlaced(t, rows, copied, choice)
  {
    ChosenEnd(rows, s, choice.at);
    CopyInLimits(rows, copied, s, choice.at, LimitsClose(rows, s).value);
  }
}
