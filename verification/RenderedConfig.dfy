/**
 Configurations whose lines are words separated by single blanks, behind an indentation, with
 at most one brace word at the end of a line.  The scanner and the searches see in such a line
 exactly its words, so what the editor finds in such a configuration can be read off the words.

 The lemmas go from one line to many.  For one line: its code is its words (`ItemCode`), and it
 moves the depth as its last word says (`ItemDelta`).  For many: the depth before each line is
 the sum of these moves (`RenderedDepth`), a text that stays deep from its first line to its
 last is one block (`RenderedBlock`), a pattern that a line shows is found in the whole
 (`PatternShown`), and a word with a letter that no word of a line has is not in that line
 (`LackingWord`, `ItemLacks`).
 */
module RenderedConfig {
  import opened Options
  import opened ConfigScan
  import opened TextSearch
  import opened SubmissionConfig
  import opened SubmissionRules

  /** A line: its indentation, its pieces but the last, and its last word. */
  datatype Item = Item(indent: nat, head: seq<Piece>, last: string)

  function Pad(n: nat): string {
    seq(n, _ => ' ')
  }

  function Pieces(item: Item): seq<Piece> {
    item.head + [Lit(item.last)]
  }

  function CodeOf(item: Item): string {
    Render(Pieces(item))
  }

  function TextOf(item: Item): string {
    Pad(item.indent) + CodeOf(item)
  }

  function LineOf(item: Item): string {
    TextOf(item) + "\n"
  }

  function TextsOf(items: seq<Item>): seq<string> {
    seq(|items|, k requires 0 <= k < |items| => TextOf(items[k]))
  }

  function LinesOf(items: seq<Item>): seq<string> {
    seq(|items|, k requires 0 <= k < |items| => LineOf(items[k]))
  }

  /** How far the last word of a line moves the depth. */
  function Move(last: string): int {
    if last == "{" then 1 else if last == "}" then -1 else if last == "}}" then -2 else 0
  }

  predicate CalmChar(c: char) {
    'a' <= c <= 'z' || '0' <= c <= '9' || c == '_' || c == '$' || c == '(' || c == ')' || c == '&' || c == '.'
        || c == ':' || c == '/'
  }

  predicate Calm(s: string) {
    forall i :: 0 <= i < |s| ==> CalmChar(s[i])
  }

  predicate ShownChar(c: char) {
    CalmChar(c) || c == ' ' || c == '{' || c == '}'
  }

  predicate Shows(s: string) {
    forall i :: 0 <= i < |s| ==> ShownChar(s[i])
  }

  predicate Brace(w: string) {
    w == "{" || w == "}" || w == "}}"
  }

  ghost predicate Calms(p: seq<Piece>) {
    forall i :: 0 <= i < |p| ==> CalmPiece(p[i])
  }

  ghost predicate CalmPiece(piece: Piece) {
    match piece case Lit(w) => w != ""
        && Calm(w) case Edge => false case LineStart => false case Spaces => true case MaybeSpaces => true
  }

  ghost predicate Good(item: Item) {
    && Calms(item.head) && (Calm(item.last) || Brace(item.last))
    && (item.head != [] ==> item.head[0].Lit? && item.last != "")
  }

  // ---------------------------------------------------------------------------------------
  // One line
  // ---------------------------------------------------------------------------------------

  lemma {:induction false} RenderMore(p: seq<Piece>, w: string)
    ensures Render(p + [Lit(w)]) == Render(p) + w
  {
    if p == [] {
      assert [Lit(w)][1..] == [] && w + "" == w && p + [Lit(w)] == [Lit(w)];
    } else {
      RenderMore(p[1..], w);
      assert (p + [Lit(w)])[1..] == p[1..] + [Lit(w)] && (p + [Lit(w)])[0] == p[0];
      Joined(Shown(p[0]), Render(p[1..]), w);
    }
  }

  /** A text of calm pieces has only calm characters and blanks, and begins like its first word. */
  lemma {:induction false} RenderCalm(p: seq<Piece>)
    requires Calms(p)
    ensures forall i :: 0 <= i < |Render(p)| ==> CalmChar(Render(p)[i]) || Render(p)[i] == ' '
    ensures p != [] && p[0].Lit? ==> Render(p) != "" && Render(p)[0] == p[0].word[0]
  {
    if p != [] {
      assert CalmPiece(p[0]);
      assert Calms(p[1..]) by {
        forall i | 0 <= i < |p[1..]| ensures CalmPiece(p[1..][i]) {
          assert p[1..][i] == p[i + 1];
        }
      }
      RenderCalm(p[1..]);
      RenderFirst(p, Shown(p[0]), Render(p[1..]));
    }
  }

  lemma {:induction false} RenderFirst(p: seq<Piece>, first: string, rest: string)
    requires p != [] && CalmPiece(p[0]) && first == Shown(p[0])
    requires forall i :: 0 <= i < |rest| ==> CalmChar(rest[i]) || rest[i] == ' '
    ensures forall i :: 0 <= i < |first + rest| ==> CalmChar((first + rest)[i]) || (first + rest)[i] == ' '
    ensures p[0].Lit? ==> first + rest != "" && (first + rest)[0] == p[0].word[0]
  {
    assert forall i :: 0 <= i < |first| ==> CalmChar(first[i]) || first[i] == ' ';
  }

  lemma {:induction false} ItemShows(item: Item)
    requires Good(item)
    ensures Shows(TextOf(item)) && Shows(CodeOf(item))
  {
    RenderMore(item.head, item.last);
    RenderCalm(item.head);
    assert Shows(item.last);
  }

  lemma {:induction false} ShownIsPlain(s: string)
    requires Shows(s)
    ensures Plain(s) && Plain(s + "\n") && '\n' !in s
  {
    assert forall i :: 0 <= i < |s| ==> ShownChar(s[i]) && s[i] != '\n' && s[i] != '#' && s[i] != '"' && s[i] != '\'';
  }

  lemma {:induction false} ShownLine(s: string)
    requires Shows(s)
    ensures Bare(s, None, false) == Some(s) && Bare(s + "\n", None, false) == Some(s + "\n")
    ensures Chomp(s + "\n") == s && Ended(s + "\n")
  {
    ShownIsPlain(s);
    BarePlain(s);
    BarePlain(s + "\n");
    ChompNewline(s, "\n");
    assert s != "" ==> ShownChar(s[|s| - 1]);
    EndedLine(s, "\n");
  }

  lemma {:induction false} ItemEnds(item: Item)
    requires Good(item) && CodeOf(item) != ""
    ensures !IsSpace(CodeOf(item)[0]) && !IsSpace(CodeOf(item)[|CodeOf(item)| - 1])
  {
    RenderMore(item.head, item.last);
    RenderCalm(item.head);
    var code := Render(item.head) + item.last;
    if item.head != [] {
      assert CalmPiece(item.head[0]);
    }
    assert item.last != "";
    assert code[|code| - 1] == item.last[|item.last| - 1];
    assert Calm(item.last) ==> CalmChar(item.last[0]) && CalmChar(item.last[|item.last| - 1]);
  }

  lemma {:induction false} ItemCode(item: Item)
    requires Good(item)
    ensures Code(LineOf(item)) == Some(CodeOf(item))
  {
    var pad, code := Pad(item.indent), CodeOf(item);
    assert AllSpace(pad) && AllSpace("\n");
    if code == "" {
      assert LineOf(item) == pad + "\n";
      assert AllSpace(pad + "\n");
      BlankCode(pad + "\n");
    } else {
      ItemEnds(item);
      ItemShows(item);
      ShownIsPlain(code);
      CodeLine(pad, code, "\n");
    }
  }

  lemma {:induction false} CalmCount(s: string, c: char)
    requires (forall i :: 0 <= i < |s| ==> CalmChar(s[i]) || s[i] == ' ') && (c == '{' || c == '}')
    ensures Count(s, c) == 0
  {
    assert forall i :: 0 <= i < |s| ==> (CalmChar(s[i]) || s[i] == ' ') && s[i] != c;
    CountNone(s, c);
  }

  lemma {:induction false} LastCount(last: string)
    requires Calm(last) || Brace(last)
    ensures Count(last, '{') - Count(last, '}') == Move(last)
  {
    if Brace(last) {
      assert "{"[1..] == "" && "}"[1..] == "" && "}}"[1..] == "}";
    } else {
      CalmCount(last, '{');
      CalmCount(last, '}');
    }
  }

  lemma {:induction false} ItemDelta(item: Item)
    requires Good(item)
    ensures Delta(LineOf(item)) == Move(item.last)
  {
    ItemCode(item);
    RenderMore(item.head, item.last);
    RenderCalm(item.head);
    var head := Render(item.head);
    CalmCount(head, '{');
    CalmCount(head, '}');
    CountConcat(head, item.last, '{');
    CountConcat(head, item.last, '}');
    LastCount(item.last);
  }

  // ---------------------------------------------------------------------------------------
  // Many lines
  // ---------------------------------------------------------------------------------------

  ghost predicate AllGood(items: seq<Item>) {
    forall k :: 0 <= k < |items| ==> Good(items[k])
  }

  lemma {:induction false} RenderedLines(items: seq<Item>)
    requires AllGood(items)
    ensures Lines(LinesOf(items)) && Split(Join(LinesOf(items))) == LinesOf(items)
  {
    var lines := LinesOf(items);
    forall i ensures LineAt(lines, i) {
      if 0 <= i < |items| {
        ItemShows(items[i]);
        ShownLine(TextOf(items[i]));
      }
    }
    JoinLines(lines);
  }

  /** The depth before line `k`, from the last words. */
  function Height(items: seq<Item>, k: nat): int
    requires k <= |items|
  {
    if k == 0 then 0 else Height(items, k - 1) + Move(items[k - 1].last)
  }

  lemma {:induction false} RenderedDepth(items: seq<Item>, k: nat)
    requires AllGood(items) && k <= |items|
    ensures DepthAt(LinesOf(items), k) == Height(items, k)
  {
    if k > 0 {
      RenderedDepth(items, k - 1);
      ItemDelta(items[k - 1]);
      assert LinesOf(items)[k - 1] == LineOf(items[k - 1]);
    }
  }

  /** Where the scan of a text that is one block is before line `k`. */
  ghost function CursorAt(items: seq<Item>, k: nat): Cursor
    requires k <= |items| && OneDeep(items)
  {
    if k == 0 then Cursor(0, None, [])
    else if k < |items| then Cursor(Height(items, k), Some(0), [])
    else Cursor(0, None, [Block(0, k - 1)])
  }

  /** The depth is positive behind the first line, up to the last. */
  ghost predicate OneDeep(items: seq<Item>) {
    items != [] && Height(items, |items|) == 0 && forall i: nat :: 0 < i < |items| ==> Height(items, i) >= 1
  }

  lemma {:induction false} RenderedScan(items: seq<Item>, header: string -> bool, k: nat)
    requires AllGood(items) && OneDeep(items) && k <= |items| && header(CodeOf(items[0]))
    ensures ScanFrom(Cursor(0, None, []), LinesOf(items)[..k], 0, header) == Some(CursorAt(items, k))
  {
    var lines := LinesOf(items);
    if k > 0 {
      var n := k - 1;
      RenderedScan(items, header, n);
      RenderedNext(items, header, n);
      ScanNext(lines, n, CursorAt(items, n), CursorAt(items, k), header);
    }
  }

  lemma {:induction false} ScanNext(lines: seq<string>, n: nat, c: Cursor, c': Cursor, header: string -> bool)
    requires n < |lines| && ScanFrom(Cursor(0, None, []), lines[..n], 0, header) == Some(c)
        && ScanLine(c, lines[n], n, header) == Some(c')
    ensures ScanFrom(Cursor(0, None, []), lines[..n + 1], 0, header) == Some(c')
  {
    assert lines[..n + 1] == lines[..n] + [lines[n]] && [lines[n]] == [lines[n]] + [];
    ScanConcat(Cursor(0, None, []), lines[..n], [lines[n]], 0, header);
    ScanCons(c, c', lines[n], [], n, header);
  }

  lemma {:induction false} RenderedNext(items: seq<Item>, header: string -> bool, n: nat)
    requires AllGood(items) && OneDeep(items) && n < |items| && header(CodeOf(items[0]))
    ensures ScanLine(CursorAt(items, n), LinesOf(items)[n], n, header) == Some(CursorAt(items, n + 1))
  {
    ItemCode(items[n]);
    ItemDelta(items[n]);
    RenderedStep(CursorAt(items, n), items[n], n, Height(items, n), Height(items, n + 1), n + 1 == |items|, header);
  }

  lemma {:induction false} RenderedStep(c: Cursor, item: Item, n: nat, before: int, after: int, last: bool,
      header: string -> bool)
    requires Code(LineOf(item)) == Some(CodeOf(item)) && Delta(LineOf(item)) == Move(item.last)
        && after == before + Move(item.last)
    requires n == 0 ==> c == Cursor(0, None, []) && before == 0 && header(CodeOf(item))
    requires n > 0 ==> before >= 1 && c == Cursor(before, Some(0), [])
    requires if last then after == 0 else after >= 1
    ensures ScanLine(c, LineOf(item), n, header) == Some(if last then Cursor(0, None, [Block(0, n)])
        else Cursor(after, Some(0), []))
  {
    assert [] + [Block(0, n)] == [Block(0, n)];
  }

  lemma {:induction false} RenderedBlock(items: seq<Item>, header: string -> bool)
    requires AllGood(items) && OneDeep(items) && header(CodeOf(items[0]))
    ensures FindBlocks(LinesOf(items), header) == Some([Block(0, |items| - 1)])
  {
    RenderedScan(items, header, |items|);
    assert LinesOf(items)[..|items|] == LinesOf(items);
  }

  // Texts

  ghost predicate NoCapital(s: string) {
    forall i :: 0 <= i < |s| ==> !('A' <= s[i] <= 'Z')
  }

  lemma {:induction false} LowerSame(s: string)
    requires NoCapital(s)
    ensures Lower(s) == s
  {
  }

  lemma {:induction false} LinedSmall(texts: seq<string>)
    requires forall k :: 0 <= k < |texts| ==> NoCapital(texts[k])
    ensures NoCapital(Lined(texts))
  {
    if |texts| > 1 {
      LinedSmall(texts[1..]);
      assert NoCapital(texts[0]);
    }
  }

  lemma {:induction false} CodeForRendered(items: seq<Item>)
    requires AllGood(items) && items != []
    ensures CodeFor(LinesOf(items), Block(0, |items| - 1)) == Lined(LinesOf(items)) == Lower(Lined(LinesOf(items)))
  {
    var lines, n := LinesOf(items), |items|;
    assert lines[0..n] == lines;
    forall k | 0 <= k < n ensures BareLines(lines)[k] == lines[k] && NoCapital(lines[k]) {
      ItemShows(items[k]);
      ShownLine(TextOf(items[k]));
      ShownSmall(TextOf(items[k]));
    }
    assert BareLines(lines) == lines;
    LinedSmall(lines);
    LowerSame(Lined(lines));
  }

  lemma {:induction false} ShownSmall(s: string)
    requires Shows(s)
    ensures NoCapital(s) && NoCapital(s + "\n")
  {
    assert forall i :: 0 <= i < |s| ==> ShownChar(s[i]) && !('A' <= s[i] <= 'Z');
  }

  lemma {:induction false} ManagedRendered(items: seq<Item>)
    requires AllGood(items)
    ensures Managed(LinesOf(items)) == Lined(TextsOf(items))
  {
    var lines, texts := LinesOf(items), TextsOf(items);
    forall k | 0 <= k < |items| ensures Chomped(lines)[k] == texts[k] && BareLines(texts)[k] == texts[k]
        && NoCapital(texts[k]) {
      ItemShows(items[k]);
      ShownLine(TextOf(items[k]));
      ShownSmall(TextOf(items[k]));
    }
    assert Chomped(lines) == texts && BareLines(texts) == texts;
    LinedSmall(texts);
    LowerSame(Lined(texts));
  }

  /** A pattern that one line shows at its beginning, or behind other words. */
  ghost predicate ShowsPattern(text: string, p: seq<Piece>, closed: bool, a: string, b: string) {
    && Unbound(p) && text == a + Render(p) + b && Render(p) != "" && WordChar(Render(p)[0])
    && (a == "" || !WordChar(a[|a| - 1])) && (closed ==>
        WordChar(Render(p)[|Render(p)| - 1]) && (b == "" || !WordChar(b[0])))
  }

  lemma {:induction false} PatternInLine(texts: seq<string>, k: nat, p: seq<Piece>, closed: bool, a: string, b: string)
    requires k < |texts| && ShowsPattern(texts[k], p, closed, a, b)
    ensures Search(Bounded(p, closed), Lined(texts))
  {
    var x, y := LinedHas(texts, k);
    PatternWithin(Lined(texts), x, y, texts[k], p, closed, a, b);
  }

  lemma {:induction false} PatternWithin(s: string, x: string, y: string, text: string, p: seq<Piece>, closed: bool,
      a: string, b: string)
    requires s == x + text + y && ShowsPattern(text, p, closed, a, b)
    requires (x == "" || x[|x| - 1] == '\n') && (y == "" || y[0] == '\n')
    ensures Search(Bounded(p, closed), s)
  {
    Nested(x, a, Render(p), b, y);
    assert a != "" ==> (x + a)[|x + a| - 1] == a[|a| - 1];
    assert a == "" ==> x + a == x;
    assert b == "" ==> b + y == y;
    PatternFound(p, closed, x + a, b + y, s);
  }

  lemma {:induction false} Nested(x: string, a: string, w: string, b: string, y: string)
    ensures x + (a + w + b) + y == (x + a) + w + (b + y)
  {
  }

  lemma {:induction false} ShowsMore(text: string, p: seq<Piece>, closed: bool, a: string, b: string)
    requires ShowsPattern(text, p, closed, a, b)
    ensures ShowsPattern(text + "\n", p, closed, a, b + "\n")
  {
    assert text + "\n" == a + Render(p) + (b + "\n");
  }

  /** A line that shows the pattern makes both texts show it: the lines as they are, and
      without their ends. */
  lemma {:induction false} PatternShown(items: seq<Item>, item: Item, p: seq<Piece>, closed: bool, a: string, b: string)
    requires item in items && ShowsPattern(TextOf(item), p, closed, a, b)
    ensures Search(Bounded(p, closed), Lined(LinesOf(items))) && Search(Bounded(p, closed), Lined(TextsOf(items)))
  {
    var k :| 0 <= k < |items| && items[k] == item;
    ShowsMore(TextOf(item), p, closed, a, b);
    PatternInLine(LinesOf(items), k, p, closed, a, b + "\n");
    PatternInLine(TextsOf(items), k, p, closed, a, b);
  }

  // Absent words

  ghost predicate Lacks(s: string, c: char) {
    forall i :: 0 <= i < |s| ==> s[i] != c
  }

  lemma {:induction false} LackingWord(s: string, w: string, j: nat)
    requires j < |w| && Lacks(s, w[j])
    ensures !Contains(s, w)
  {
    forall i | 0 <= i <= |s| ensures !FoundAt(s, w, i) {
      if i + |w| <= |s| {
        assert s[i..i + |w|][j] == s[i + j];
      }
    }
  }

  ghost predicate AllLack(p: seq<Piece>, c: char) {
    forall i :: 0 <= i < |p| ==> (p[i].Lit? ==> Lacks(p[i].word, c))
  }

  lemma {:induction false} RenderLacks(p: seq<Piece>, c: char)
    requires AllLack(p, c) && c != ' '
    ensures Lacks(Render(p), c)
  {
    if p != [] {
      assert AllLack(p[1..], c) by {
        forall i | 0 <= i < |p[1..]| ensures p[1..][i].Lit? ==> Lacks(p[1..][i].word, c) {
          assert p[1..][i] == p[i + 1];
        }
      }
      RenderLacks(p[1..], c);
      assert Lacks(Shown(p[0]), c);
    }
  }

  lemma {:induction false} ItemLacks(item: Item, c: char)
    requires AllLack(item.head, c) && Lacks(item.last, c) && c != ' '
    ensures Lacks(TextOf(item), c)
  {
    RenderMore(item.head, item.last);
    RenderLacks(item.head, c);
  }

  // Words and patterns that a line shows

  lemma {:induction false} ItemPattern(item: Item, p: seq<Piece>, closed: bool)
    requires Good(item) && item.head != [] && Pieces(item) == p && WordChar(item.head[0].word[0])
    requires closed ==> item.last != "" && WordChar(item.last[|item.last| - 1])
    ensures ShowsPattern(TextOf(item), p, closed, Pad(item.indent), "")
  {
    RenderMore(item.head, item.last);
    RenderCalm(item.head);
    assert TextOf(item) == Pad(item.indent) + Render(p) + "";
    assert Render(p)[0] == Render(item.head)[0];
    assert closed ==> Render(p)[|Render(p)| - 1] == item.last[|item.last| - 1];
    forall i | 0 <= i < |p| ensures !p[i].Edge? && !p[i].LineStart? {
      assert i < |item.head| ==> CalmPiece(item.head[i]);
    }
  }

  /** The first word of a line. */
  lemma {:induction false} FirstToken(item: Item, w: string, q: seq<Piece>)
    requires Pieces(item) == [Lit(w)] + q && q != [] && !q[0].Lit? && q[0] != Edge && q[0] != LineStart
    requires w != "" && WordChar(w[0]) && WordChar(w[|w| - 1])
    ensures ShowsPattern(TextOf(item), [Lit(w)], true, Pad(item.indent), Render(q))
  {
    assert ([Lit(w)] + q)[1..] == q && [Lit(w)][1..] == [];
    assert Render([Lit(w)]) == w + "" == w;
    assert TextOf(item) == Pad(item.indent) + w + Render(q);
    assert Render(q) == " " + Render(q[1..]);
  }

  /** The last word of a line behind an ampersand. */
  lemma {:induction false} LastToken(item: Item, w: string)
    requires item.last == "&" + w && w != "" && WordChar(w[0]) && WordChar(w[|w| - 1])
    ensures ShowsPattern(TextOf(item), [Lit(w)], true, Pad(item.indent) + Render(item.head) + "&", "")
  {
    RenderMore(item.head, item.last);
    assert [Lit(w)][1..] == [] && Render([Lit(w)]) == w + "" == w;
    assert TextOf(item) == Pad(item.indent) + Render(item.head) + "&" + w + "";
  }

  lemma {:induction false} RenderConcat(p: seq<Piece>, q: seq<Piece>)
    ensures Render(p + q) == Render(p) + Render(q)
  {
    if p == [] {
      assert p + q == q;
    } else {
      RenderConcat(p[1..], q);
      assert (p + q)[1..] == p[1..] + q && (p + q)[0] == p[0];
      Joined(Shown(p[0]), Render(p[1..]), Render(q));
    }
  }

  /** A line with one word in the middle. */
  lemma {:induction false} LineAround(item: Item, front: seq<Piece>, w: string, back: seq<Piece>)
    requires Pieces(item) == front + ([Lit(w)] + back)
    ensures LineOf(item) == Pad(item.indent) + Render(front) + w + (Render(back) + "\n")
  {
    RenderConcat(front, [Lit(w)] + back);
    assert ([Lit(w)] + back)[1..] == back;
    var a, b, c := Pad(item.indent), Render(front), Render(back);
    assert a + (b + (w + c)) + "\n" == a + b + w + (c + "\n");
  }

  // ---------------------------------------------------------------------------------------
  // What the rules see in a line
  // ---------------------------------------------------------------------------------------

  lemma {:induction false} ItemTrim(item: Item)
    requires Good(item)
    ensures TrimLeft(Chomp(LineOf(item))) == CodeOf(item)
  {
    ItemShows(item);
    ShownLine(TextOf(item));
    assert AllSpace(Pad(item.indent));
    TrimLeftPadding(Pad(item.indent), CodeOf(item));
    if CodeOf(item) != "" {
      ItemEnds(item);
    }
  }

  /** A line is no directive with a name that begins differently. */
  lemma {:induction false} NotDirective(item: Item, name: string)
    requires Good(item) && name != "" && (CodeOf(item) == "" || CodeOf(item)[0] != name[0])
    ensures !Directive(LineOf(item), name)
  {
    ItemTrim(item);
  }

  lemma {:induction false} NoComment(s: string)
    requires '#' !in s
    ensures BeforeComment(s) == s
  {
    if s != "" {
      NoComment(s[1..]);
    }
  }

  lemma {:induction false} IsDirective(item: Item, name: string, rest: string)
    requires Good(item) && CodeOf(item) == name + rest && |rest| >= 2 && rest[0] == ' ' && '#' !in rest
        && '{' !in rest && '}' !in rest
    ensures Directive(LineOf(item), name)
  {
    ItemTrim(item);
    NoComment(rest);
    assert (name + rest)[|name|..] == rest;
  }

  lemma {:induction false} LeadingPad(n: nat, s: string)
    requires s != "" && !IsSpace(s[0])
    ensures Leading(Pad(n) + s) == Pad(n)
  {
    if n == 0 {
      assert Pad(0) + s == s && Pad(0) == "";
    } else {
      assert Pad(n) == [' '] + Pad(n - 1);
      LeadingPad(n - 1, s);
      assert (Pad(n) + s)[1..] == Pad(n - 1) + s;
    }
  }

  lemma {:induction false} ItemIndent(item: Item)
    requires Good(item) && CodeOf(item) != ""
    ensures Leading(LineOf(item)) == Pad(item.indent)
  {
    ItemEnds(item);
    assert LineOf(item) == Pad(item.indent) + (CodeOf(item) + "\n");
    LeadingPad(item.indent, CodeOf(item) + "\n");
  }

  lemma {:induction false} FirstLetter(item: Item)
    requires Good(item) && item.head != []
    ensures CodeOf(item) != "" && item.head[0].word != "" && CodeOf(item)[0] == item.head[0].word[0]
  {
    RenderMore(item.head, item.last);
    RenderCalm(item.head);
    assert CalmPiece(item.head[0]);
  }

  /** No line is a marker of the editor. */
  lemma {:induction false} NoMarkerLines(items: seq<Item>, t: Texts)
    requires AllGood(items) && Proper(t)
    ensures MarkerRange(t, LinesOf(items)) == Absent
  {
    NoMarkerLine(items, t.begin);
    NoMarkerLine(items, t.end);
  }

  lemma {:induction false} NoMarkerLine(items: seq<Item>, marker: string)
    requires AllGood(items) && Marker(marker)
    ensures Positions(LinesOf(items), Reads(marker), |items|) == []
  {
    var lines := LinesOf(items);
    forall k | 0 <= k < |items| ensures !MarkAt(lines, Reads(marker), k) {
      ItemShows(items[k]);
      ShownLine(TextOf(items[k]));
      assert TextOf(items[k]) != "" ==> ShownChar(TextOf(items[k])[0]);
    }
    PositionsNone(lines, Reads(marker), |items|);
  }
}
