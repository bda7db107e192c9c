/**
 What the configuration scanner means, apart from how it goes along: the code of a line by the
 grammar of its strings and comment, and the blocks of a text by the depths of its lines.
 */
module ConfigMeaning {
  import opened Options
  import opened ConfigScan

  // ---------------------------------------------------------------------------------------
  // The grammar of a line
  // ---------------------------------------------------------------------------------------

  /** A character of a quoted string: as it is, or behind a backslash. */
  datatype Quoted = Plainly(c: char) | Escaped(c: char)

  /** A character of code, or a string between two quotes. */
  datatype Piece = Letter(c: char) | Text(quote: char, body: seq<Quoted>)

  function WrittenBody(body: seq<Quoted>): string {
    if body == [] then ""
    else (if body[0].Plainly? then [body[0].c] else ['\\', body[0].c]) + WrittenBody(body[1..])
  }

  function WrittenPiece(p: Piece): string {
    match p
    case Letter(c) => [c]
    case Text(quote, body) => [quote] + (WrittenBody(body) + [quote])
  }

  function Written(pieces: seq<Piece>): string {
    if pieces == [] then "" else WrittenPiece(pieces[0]) + Written(pieces[1..])
  }

  /** A string ends at the first quote of its kind that no backslash stands before. */
  ghost predicate GoodBody(quote: char, body: seq<Quoted>) {
    forall i :: 0 <= i < |body| && body[i].Plainly? ==> body[i].c != quote && body[i].c != '\\'
  }

  ghost predicate GoodPiece(p: Piece) {
    match p
    case Letter(c) => c != '"' && c != '\'' && c != '#'
    case Text(quote, body) => (quote == '"' || quote == '\'') && GoodBody(quote, body)
  }

  ghost predicate Good(pieces: seq<Piece>) {
    forall i :: 0 <= i < |pieces| ==> GoodPiece(pieces[i])
  }

  function Spaces(n: nat): string {
    seq(n, _ => ' ')
  }

  function ShownPiece(p: Piece): string {
    match p
    case Letter(c) => [c]
    case Text(_, body) => Spaces(|WrittenBody(body)| + 2)
  }

  /** The code of a line: strings are blank. */
  function Shown(pieces: seq<Piece>): string {
    if pieces == [] then "" else ShownPiece(pieces[0]) + Shown(pieces[1..])
  }

  ghost predicate Comment(s: string) {
    s != "" ==> s[0] == '#'
  }

  /** A line as the grammar reads it. */
  ghost predicate Reads(line: string, pieces: seq<Piece>, comment: string) {
    Good(pieces) && Comment(comment) && line == Written(pieces) + comment
  }

  lemma {:induction false} BlankSpaces(n: nat, rest: Option<string>)
    ensures Blank(Prefixed(Spaces(n), rest), ' ') == Prefixed(Spaces(n + 1), rest)
  {
    if rest.Some? {
      assert [' '] + (Spaces(n) + rest.value) == Spaces(n + 1) + rest.value;
    }
  }

  lemma {:induction false} EscapeBlank(c: char, tail: string, quote: char)
    requires quote != '\\'
    ensures Bare(['\\', c] + tail, Some(quote), false) == Blank(Blank(Bare(tail, Some(quote), false), ' '), ' ')
  {
    var line := ['\\', c] + tail;
    assert line[1..] == [c] + tail && line[1..][1..] == tail;
  }

  lemma {:induction false} BodyBlank(quote: char, body: seq<Quoted>, rest: string)
    requires quote != '\\' && GoodBody(quote, body)
    ensures Bare(WrittenBody(body) + [quote] + rest, Some(quote), false) ==
            Prefixed(Spaces(|WrittenBody(body)| + 1), Bare(rest, None, false))
    decreases |body|
  {
    var line, bare := WrittenBody(body) + [quote] + rest, Bare(rest, None, false);
    if body == [] {
      assert line == [quote] + rest && line[1..] == rest;
      assert Spaces(1) == [' '];
    } else {
      var tail := WrittenBody(body[1..]) + [quote] + rest;
      BodyBlank(quote, body[1..], rest);
      BlankSpaces(|WrittenBody(body[1..])| + 1, bare);
      BlankSpaces(|WrittenBody(body[1..])| + 2, bare);
      if body[0].Plainly? {
        assert line == [body[0].c] + tail && line[1..] == tail;
      } else {
        EscapeBlank(body[0].c, tail, quote);
        assert line == ['\\', body[0].c] + tail;
      }
    }
  }

  lemma {:induction false} TextBare(quote: char, body: seq<Quoted>, tail: string, shown: string)
    requires (quote == '"' || quote == '\'') && GoodBody(quote, body) && Bare(tail, None, false) == Some(shown)
    ensures Bare([quote] + (WrittenBody(body) + [quote] + tail), None, false) ==
        Some(Spaces(|WrittenBody(body)| + 2) + shown)
  {
    var line := [quote] + (WrittenBody(body) + [quote] + tail);
    assert line[1..] == WrittenBody(body) + [quote] + tail;
    BodyBlank(quote, body, tail);
    BlankSpaces(|WrittenBody(body)| + 1, Bare(tail, None, false));
  }

  lemma {:induction false} PieceBare(p: Piece, tail: string, shown: string)
    requires GoodPiece(p) && Bare(tail, None, false) == Some(shown)
    ensures Bare(WrittenPiece(p) + tail, None, false) == Some(ShownPiece(p) + shown)
  {
    match p
    case Letter(c) =>
      assert ([c] + tail)[1..] == tail;
    case Text(quote, body) =>
      assert WrittenPiece(p) + tail == [quote] + (WrittenBody(body) + [quote] + tail);
      TextBare(quote, body, tail, shown);
  }

  lemma {:induction false} WrittenMore(p: Piece, pieces: seq<Piece>, comment: string)
    ensures Written([p] + pieces) + comment == WrittenPiece(p) + (Written(pieces) + comment)
    ensures Shown([p] + pieces) == ShownPiece(p) + Shown(pieces)
    ensures GoodPiece(p) && Good(pieces) ==> Good([p] + pieces)
  {
    assert ([p] + pieces)[1..] == pieces;
  }

  /** A line that the grammar reads has the code it shows. */
  lemma {:induction false} ReadsBare(pieces: seq<Piece>, comment: string)
    requires Good(pieces) && Comment(comment)
    ensures Bare(Written(pieces) + comment, None, false) == Some(Shown(pieces))
  {
    if pieces == [] {
      assert Written(pieces) + comment == comment;
    } else {
      ReadsBare(pieces[1..], comment);
      PieceBare(pieces[0], Written(pieces[1..]) + comment, Shown(pieces[1..]));
      WrittenMore(pieces[0], pieces[1..], comment);
      assert pieces == [pieces[0]] + pieces[1..];
    }
  }

  /** The end of a string that the scan is in, and what is behind it. */
  lemma {:induction false} BareBody(line: string, quote: char) returns (body: seq<Quoted>, rest: string)
    requires quote != '\\' && Bare(line, Some(quote), false).Some?
    ensures GoodBody(quote, body) && line == WrittenBody(body) + [quote] + rest
    ensures Bare(rest, None, false).Some?
    decreases |line|
  {
    if line[0] == quote {
      body, rest := [], line[1..];
      assert line == [] + [quote] + rest;
    } else if line[0] == '\\' {
      var more;
      assert line[1..] != "";
      more, rest := BareBody(line[2..], quote) by {
        assert line[1..][1..] == line[2..];
      }
      body := [Escaped(line[1])] + more;
      assert body[1..] == more && line == ['\\', line[1]] + line[2..];
    } else {
      var more;
      more, rest := BareBody(line[1..], quote);
      body := [Plainly(line[0])] + more;
      assert body[1..] == more && line == [line[0]] + line[1..];
    }
  }

  /** A line that the scan gets through is one that the grammar reads. */
  lemma {:induction false} BareReads(line: string) returns (pieces: seq<Piece>, comment: string)
    requires Bare(line, None, false).Some?
    ensures Reads(line, pieces, comment)
    decreases |line|
  {
    if line == "" || line[0] == '#' {
      pieces, comment := [], line;
      assert line == "" + line;
    } else {
      var first, rest := FirstPiece(line);
      pieces, comment := BareReads(rest);
      WrittenMore(first, pieces, comment);
      pieces := [first] + pieces;
    }
  }

  lemma {:induction false} FirstPiece(line: string) returns (first: Piece, rest: string)
    requires line != "" && line[0] != '#' && Bare(line, None, false).Some?
    ensures GoodPiece(first) && line == WrittenPiece(first) + rest && |rest| < |line|
    ensures Bare(rest, None, false).Some?
  {
    assert line == [line[0]] + line[1..];
    if line[0] == '"' || line[0] == '\'' {
      var body;
      body, rest := BareBody(line[1..], line[0]);
      first := Text(line[0], body);
      assert WrittenPiece(first) + rest == [line[0]] + (WrittenBody(body) + [line[0]] + rest);
    } else {
      first, rest := Letter(line[0]), line[1..];
    }
  }

  /** The scanner accepts a line exactly if the grammar reads it, and its code is what the
      grammar shows: the characters outside strings and comment, strings being blank. */
  lemma {:induction false} CodeExactly(line: string, code: string)
    ensures Bare(line, None, false) == Some(code) <==>
      exists pieces, comment :: Reads(line, pieces, comment) && code == Shown(pieces)
  {
    if Bare(line, None, false) == Some(code) {
      var pieces, comment := BareReads(line);
      ReadsBare(pieces, comment);
    }
    if pieces, comment :| Reads(line, pieces, comment) && code == Shown(pieces) {
      ReadsBare(pieces, comment);
    }
  }

  // ---------------------------------------------------------------------------------------
  // Blocks
  // ---------------------------------------------------------------------------------------

  /** Every line has a code, and no brace closes what was not opened, up to line `n`. */
  ghost predicate Passable(lines: seq<string>, n: nat)
    requires n <= |lines|
  {
    && (forall i :: 0 <= i < n ==> Code(lines[i]).Some?)
    && (forall i :: 0 <= i <= n ==> DepthAt(lines, i) >= 0)
  }

  /** Line `s` begins a wanted block: it stands outside all braces, and is a header. */
  ghost predicate Begins(lines: seq<string>, header: string -> bool, s: nat) {
    s < |lines| && Code(lines[s]).Some? && header(Code(lines[s]).value) && DepthAt(lines, s) == 0
  }

  /** Behind line `s` and up to before line `n` the text stays inside braces. */
  ghost predicate StaysInside(lines: seq<string>, s: nat, n: nat)
    requires n <= |lines|
  {
    forall i :: s < i <= n ==> DepthAt(lines, i) > 0
  }

  /** A wanted block ends with the first line behind which the text is outside all braces. */
  ghost predicate IsBlock(lines: seq<string>, header: string -> bool, b: Block) {
    && Begins(lines, header, b.start) && b.start <= b.end < |lines|
    && StaysInside(lines, b.start, b.end) && DepthAt(lines, b.end + 1) == 0
  }

  /** Where the scan stands before line `n`. */
  ghost predicate Stands(lines: seq<string>, header: string -> bool, n: nat, c: Cursor)
    requires n <= |lines|
  {
    && c.depth == DepthAt(lines, n)
    && (forall s: nat :: c.active == Some(s) <==> s < n && Begins(lines, header, s) && StaysInside(lines, s, n))
    && (forall b :: b in c.blocks <==> b.end < n && IsBlock(lines, header, b))
    && (forall i, j :: 0 <= i < j < |c.blocks| ==> c.blocks[i].end < c.blocks[j].start)
  }

  /** One line on. */
  lemma {:induction false} StandsNext(lines: seq<string>, header: string -> bool, n: nat, c: Cursor, c': Cursor)
    requires n < |lines| && Passable(lines, n) && Stands(lines, header, n, c)
    requires ScanLine(c, lines[n], n, header) == Some(c')
    ensures Passable(lines, n + 1) && Stands(lines, header, n + 1, c')
  {
    var depth := DepthAt(lines, n + 1);
    var active := if Begins(lines, header, n) then Some(n) else c.active;
    assert depth == c.depth + Delta(lines[n]);
    forall s: nat ensures active == Some(s) <==> s <= n && Begins(lines, header, s) && StaysInside(lines, s, n) {
      if s < n && Begins(lines, header, n) {
        assert DepthAt(lines, n) == 0;
      }
    }
    NextActive(lines, header, n, active, c');
    NextBlocks(lines, header, n, c, active, c');
  }

  lemma {:induction false} NextActive(lines: seq<string>, header: string -> bool, n: nat, active: Option<nat>,
      c': Cursor)
    requires n < |lines| && c'.active == (if active.Some? && DepthAt(lines, n + 1) == 0 then None else active)
    requires DepthAt(lines, n + 1) >= 0
    requires forall s: nat :: active == Some(s) <==> s <= n && Begins(lines, header, s) && StaysInside(lines, s, n)
    ensures forall s: nat :: c'.active == Some(s) <==>
        s < n + 1 && Begins(lines, header, s) && StaysInside(lines, s, n + 1)
  {
    forall s: nat ensures c'.active == Some(s) <==>
        s < n + 1 && Begins(lines, header, s) && StaysInside(lines, s, n + 1)
    {
      if s <= n && StaysInside(lines, s, n + 1) {
        assert StaysInside(lines, s, n) && DepthAt(lines, n + 1) > 0;
      }
    }
  }

  lemma {:induction false} NextBlocks(lines: seq<string>, header: string -> bool, n: nat, c: Cursor,
      active: Option<nat>, c': Cursor)
    requires n < |lines| && Stands(lines, header, n, c)
    requires forall s: nat :: active == Some(s) <==> s <= n && Begins(lines, header, s) && StaysInside(lines, s, n)
    requires c'.blocks == if active.Some? && DepthAt(lines, n + 1) == 0 then c.blocks + [Block(active.value, n)]
        else c.blocks
    ensures forall b :: b in c'.blocks <==> b.end < n + 1 && IsBlock(lines, header, b)
    ensures forall i, j :: 0 <= i < j < |c'.blocks| ==> c'.blocks[i].end < c'.blocks[j].start
  {
    forall b ensures b in c'.blocks <==> b.end < n + 1 && IsBlock(lines, header, b) {
      if b.end == n {
        assert b !in c.blocks;
        assert IsBlock(lines, header, b) <==> active == Some(b.start) && DepthAt(lines, n + 1) == 0;
      }
    }
    forall b | b in c.blocks && active.Some? ensures b.end < active.value {
      assert IsBlock(lines, header, b);
    }
  }

  lemma {:induction false} ScanMore(lines: seq<string>, header: string -> bool, n: nat)
    requires n < |lines|
    ensures var start := Cursor(0, None, []);
      ScanFrom(start, lines[..n + 1], 0, header) ==
        var mid := ScanFrom(start, lines[..n], 0, header);
        if mid.None? then None else ScanLine(mid.value, lines[n], n, header)
  {
    assert lines[..n + 1] == lines[..n] + [lines[n]];
    ScanConcat(Cursor(0, None, []), lines[..n], [lines[n]], 0, header);
    assert [lines[n]][1..] == [];
  }

  lemma {:induction false} StopsHere(lines: seq<string>, header: string -> bool, n: nat, c: Cursor)
    requires n < |lines| && Stands(lines, header, n, c) && ScanLine(c, lines[n], n, header).None?
    ensures !Passable(lines, n + 1)
  {
    assert DepthAt(lines, n + 1) == c.depth + Delta(lines[n]);
  }

  lemma {:induction false} ScanStands(lines: seq<string>, header: string -> bool, n: nat)
    requires n <= |lines|
    ensures var r := ScanFrom(Cursor(0, None, []), lines[..n], 0, header);
      && (r.Some? <==> Passable(lines, n)) && (r.Some? ==> Stands(lines, header, n, r.value))
  {
    if n > 0 {
      ScanMore(lines, header, n - 1);
      ScanStands(lines, header, n - 1);
      var mid := ScanFrom(Cursor(0, None, []), lines[..n - 1], 0, header);
      if mid.Some? {
        var next := ScanLine(mid.value, lines[n - 1], n - 1, header);
        if next.Some? {
          StandsNext(lines, header, n - 1, mid.value, next.value);
        } else {
          StopsHere(lines, header, n - 1, mid.value);
        }
      }
    }
  }

  /** The braces of a text are balanced and every line has a code. */
  ghost predicate Balanced(lines: seq<string>) {
    Passable(lines, |lines|) && DepthAt(lines, |lines|) == 0
  }

  /** The scanner accepts exactly the balanced texts, and finds exactly the wanted blocks, in
      their order. */
  lemma {:induction false} BlocksExactly(lines: seq<string>, header: string -> bool)
    ensures FindBlocks(lines, header).Some? <==> Balanced(lines)
    ensures FindBlocks(lines, header).Some? ==>
      var blocks := FindBlocks(lines, header).value;
      && (forall b :: b in blocks <==> IsBlock(lines, header, b))
      && (forall i, j :: 0 <= i < j < |blocks| ==> blocks[i].end < blocks[j].start)
  {
    ScanStands(lines, header, |lines|);
    assert lines[..|lines|] == lines;
  }
}
