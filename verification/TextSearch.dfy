/**
 Searching a text, as the configuration editors do: substrings and how often they occur,
 lower case, lines joined to one text, and the regular expressions that are made of literal
 words, white space, word boundaries and the beginning of a line.  Letters and digits are
 those of ASCII.

 What a text contains is found again in its lines: a word without a line end occurs in the
 joined text as often as in the lines together (`OccurrencesLined`), and a pattern that one
 line shows is found in the whole (`PatternFound`, `LinedHas`).  Conversely, where a pattern
 matches, each of its words is in the text (`MatchHasWord`).  These three are what is needed
 to follow the editor's checks through a configuration, and to show that some word is not in it.
 They hold for all texts, words and patterns of this kind and do not mention any configuration.
 */
module TextSearch {
  import opened ConfigScan

  function ToLower(c: char): char {
    if 'A' <= c <= 'Z' then (c as int + 32) as char else c
  }

  function Lower(s: string): string {
    seq(|s|, i requires 0 <= i < |s| => ToLower(s[i]))
  }

  predicate FoundAt(s: string, w: string, i: int) {
    0 <= i && i + |w| <= |s| && s[i..i + |w|] == w
  }

  predicate Contains(s: string, w: string) {
    exists i | 0 <= i <= |s| :: FoundAt(s, w, i)
  }

  /** How often a word occurs, counted from the left without overlap. */
  function Occurrences(s: string, w: string): nat
    requires w != ""
    decreases |s|
  {
    if |s| < |w| then 0
    else if s[..|w|] == w then 1 + Occurrences(s[|w|..], w)
    else Occurrences(s[1..], w)
  }

  /** Texts joined by line ends. */
  function Lined(texts: seq<string>): string {
    if texts == [] then ""
    else if |texts| == 1 then texts[0]
    else texts[0] + "\n" + Lined(texts[1..])
  }

  // ---------------------------------------------------------------------------------------
  // Patterns
  // ---------------------------------------------------------------------------------------

  datatype Piece = Edge | LineStart | Spaces | MaybeSpaces | Lit(word: string)

  predicate WordChar(c: char) {
    'a' <= c <= 'z' || 'A' <= c <= 'Z' || '0' <= c <= '9' || c == '_'
  }

  predicate EdgeAt(s: string, i: nat)
    requires i <= |s|
  {
    (i > 0 && WordChar(s[i - 1])) != (i < |s| && WordChar(s[i]))
  }

  predicate MatchAt(p: seq<Piece>, s: string, i: nat)
    requires i <= |s|
    decreases |p|
  {
    p == [] ||
    match p[0]
    case Edge => EdgeAt(s, i) && MatchAt(p[1..], s, i)
    case LineStart => (i == 0 || s[i - 1] == '\n') && MatchAt(p[1..], s, i)
    case Spaces => exists n: nat | i < n <= |s| :: AllSpace(s[i..n]) && MatchAt(p[1..], s, n)
    case MaybeSpaces => exists n: nat | i <= n <= |s| :: AllSpace(s[i..n]) && MatchAt(p[1..], s, n)
    case Lit(w) => FoundAt(s, w, i) && MatchAt(p[1..], s, i + |w|)
  }

  predicate Search(p: seq<Piece>, s: string) {
    exists i: nat | i <= |s| :: MatchAt(p, s, i)
  }

  /** A pattern that begins, and if `closed` ends, at a word boundary. */
  function Bounded(p: seq<Piece>, closed: bool): seq<Piece> {
    [Edge] + (p + (if closed then [Edge] else []))
  }

  /** Where a pattern matches, each of its words is in the text. */
  lemma {:induction false} MatchHasWord(p: seq<Piece>, s: string, i: nat, w: string)
    requires i <= |s| && MatchAt(p, s, i) && Lit(w) in p
    ensures Contains(s, w)
    decreases |p|
  {
    if p[0] != Lit(w) {
      assert Lit(w) in p[1..];
      match p[0]
      case Edge => MatchHasWord(p[1..], s, i, w);
      case LineStart => MatchHasWord(p[1..], s, i, w);
      case Spaces =>
        var n: nat :| i < n <= |s| && AllSpace(s[i..n]) && MatchAt(p[1..], s, n);
        MatchHasWord(p[1..], s, n, w);
      case MaybeSpaces =>
        var n: nat :| i <= n <= |s| && AllSpace(s[i..n]) && MatchAt(p[1..], s, n);
        MatchHasWord(p[1..], s, n, w);
      case Lit(v) => MatchHasWord(p[1..], s, i + |v|, w);
    }
  }

  lemma {:induction false} SearchHasWord(p: seq<Piece>, s: string, w: string)
    requires Search(p, s) && Lit(w) in p
    ensures Contains(s, w)
  {
    var i: nat :| i <= |s| && MatchAt(p, s, i);
    MatchHasWord(p, s, i, w);
  }

  /** One blank for white space. */
  function Shown(piece: Piece): string {
    match piece case Lit(w) => w case Edge => "" case LineStart => "" case Spaces => " " case MaybeSpaces => " "
  }

  /** A text that a pattern without boundaries matches: its pieces one after the other. */
  function Render(p: seq<Piece>): string {
    if p == [] then ""
    else Shown(p[0]) + Render(p[1..])
  }

  ghost predicate Unbound(p: seq<Piece>) {
    forall i :: 0 <= i < |p| ==> !p[i].Edge? && !p[i].LineStart?
  }

  lemma {:induction false} MatchPiece(p: seq<Piece>, s: string, i: nat, n: nat)
    requires p != [] && !p[0].Edge? && !p[0].LineStart? && i <= n <= |s| && s[i..n] == Shown(p[0])
        && MatchAt(p[1..], s, n)
    ensures MatchAt(p, s, i)
  {
    assert |s[i..n]| == n - i;
    match p[0]
    case Lit(w) => assert FoundAt(s, w, i);
    case Spaces => assert AllSpace(s[i..n]);
    case MaybeSpaces => assert AllSpace(s[i..n]);
  }

  lemma {:induction false} Rendered(p: seq<Piece>, last: seq<Piece>, a: string, b: string, s: string)
    requires Unbound(p) && s == a + Render(p) + b && MatchAt(last, s, |a| + |Render(p)|)
    ensures MatchAt(p + last, s, |a|)
    decreases |p|
  {
    if p == [] {
      assert p + last == last;
    } else {
      var w, rest := Shown(p[0]), Render(p[1..]);
      Regroup(a, w, rest, b, s);
      UnboundTail(p);
      assert |a| + |Render(p)| == |a + w| + |rest|;
      Rendered(p[1..], last, a + w, b, s);
      RenderedFirst(p, last, s, |a|, |a + w|);
    }
  }

  lemma {:induction false} UnboundTail(p: seq<Piece>)
    requires Unbound(p) && p != []
    ensures Unbound(p[1..]) && !p[0].Edge? && !p[0].LineStart?
  {
  }

  lemma {:induction false} RenderedFirst(p: seq<Piece>, last: seq<Piece>, s: string, i: nat, n: nat)
    requires p != [] && !p[0].Edge? && !p[0].LineStart? && i <= n <= |s| && s[i..n] == Shown(p[0])
        && MatchAt(p[1..] + last, s, n)
    ensures MatchAt(p + last, s, i)
  {
    assert (p + last)[1..] == p[1..] + last;
    MatchPiece(p + last, s, i, n);
  }

  lemma {:induction false} Regroup(a: string, w: string, rest: string, b: string, s: string)
    requires s == a + (w + rest) + b
    ensures s == (a + w) + rest + b && s[|a|..|a + w|] == w
  {
  }

  /** A pattern between word boundaries is found where its text stands free. */
  lemma {:induction false} PatternFound(p: seq<Piece>, closed: bool, a: string, b: string, s: string)
    requires Unbound(p) && s == a + Render(p) + b && Render(p) != "" && WordChar(Render(p)[0])
    requires a == "" || !WordChar(a[|a| - 1])
    requires closed ==> WordChar(Render(p)[|Render(p)| - 1]) && (b == "" || !WordChar(b[0]))
    ensures Search(Bounded(p, closed), s)
  {
    var w := Render(p);
    var last: seq<Piece> := if closed then [Edge] else [];
    var i, n := |a|, |a| + |w|;
    assert s[i] == w[0] && s[n - 1] == w[|w| - 1] && (i > 0 ==> s[i - 1] == a[i - 1]) && (n < |s| ==> s[n] == b[0]);
    assert closed ==> last[1..] == [];
    assert MatchAt(last, s, n);
    Rendered(p, last, a, b, s);
    assert ([Edge] + (p + last))[1..] == p + last;
    assert MatchAt([Edge] + (p + last), s, i);
  }

  // ---------------------------------------------------------------------------------------
  // Words in joined lines
  // ---------------------------------------------------------------------------------------

  lemma {:induction false} ContainsMiddle(a: string, w: string, b: string)
    ensures Contains(a + w + b, w)
  {
    assert (a + w + b)[|a|..|a| + |w|] == w;
    assert FoundAt(a + w + b, w, |a|);
  }

  lemma {:induction false} OccursIff(s: string, w: string)
    requires w != ""
    ensures Occurrences(s, w) > 0 <==> Contains(s, w)
    decreases |s|
  {
    if |s| >= |w| {
      if s[..|w|] == w {
        assert FoundAt(s, w, 0);
      } else {
        OccursIff(s[1..], w);
        if i :| 0 <= i <= |s| && FoundAt(s, w, i) {
          assert i > 0 && s[1..][i - 1..i - 1 + |w|] == s[i..i + |w|];
          assert FoundAt(s[1..], w, i - 1);
        }
        if i :| 0 <= i <= |s[1..]| && FoundAt(s[1..], w, i) {
          assert s[1..][i..i + |w|] == s[i + 1..i + 1 + |w|];
          assert FoundAt(s, w, i + 1);
        }
      }
    }
  }

  lemma {:induction false} WordEnds(s: string, w: string, k: nat)
    requires |w| <= |s| && s[..|w|] == w && '\n' !in w && k < |s| && s[k] == '\n'
    ensures |w| <= k
  {
    forall i | 0 <= i < |w| ensures s[i] != '\n' {
      assert s[i] == s[..|w|][i];
      assert w[i] in w;
    }
  }

  lemma {:induction false} OccurrencesApart(a: string, b: string, w: string)
    requires w != "" && '\n' !in w
    ensures Occurrences(a + "\n" + b, w) == Occurrences(a, w) + Occurrences(b, w)
    decreases |a|
  {
    var s, n := a + "\n" + b, |w|;
    if n <= |s| && s[..n] == w {
      WordEnds(s, w, |a|);
      assert s[..n] == a[..n] && s[n..] == a[n..] + "\n" + b;
      OccurrencesApart(a[n..], b, w);
    } else if a == "" {
      assert s[1..] == b;
      assert |b| < n ==> Occurrences(b, w) == 0;
    } else {
      assert s[1..] == a[1..] + "\n" + b;
      assert n <= |a| ==> s[..n] == a[..n];
      OccurrencesApart(a[1..], b, w);
      assert |a| < n ==> Occurrences(a, w) == 0 == Occurrences(a[1..], w);
    }
  }

  function Total(texts: seq<string>, w: string): nat
    requires w != ""
  {
    if texts == [] then 0 else Occurrences(texts[0], w) + Total(texts[1..], w)
  }

  /** A word without a line end occurs in joined lines as often as in the lines together. */
  lemma {:induction false} OccurrencesLined(texts: seq<string>, w: string)
    requires w != "" && '\n' !in w
    ensures Occurrences(Lined(texts), w) == Total(texts, w)
  {
    if |texts| == 1 {
      assert texts[1..] == [];
    } else if texts != [] {
      OccurrencesLined(texts[1..], w);
      OccurrencesApart(texts[0], Lined(texts[1..]), w);
    }
  }

  lemma {:induction false} TotalNone(texts: seq<string>, w: string)
    requires w != "" && forall k :: 0 <= k < |texts| ==> !Contains(texts[k], w)
    ensures Total(texts, w) == 0
  {
    if texts != [] {
      OccursIff(texts[0], w);
      TotalNone(texts[1..], w);
    }
  }

  lemma {:induction false} TotalSplit(a: seq<string>, b: seq<string>, w: string)
    requires w != ""
    ensures Total(a + b, w) == Total(a, w) + Total(b, w)
  {
    if a == [] {
      assert a + b == b;
    } else {
      assert (a + b)[1..] == a[1..] + b;
      TotalSplit(a[1..], b, w);
    }
  }

  /** One line alone contains the word, once. */
  lemma {:induction false} TotalOne(texts: seq<string>, w: string, m: nat)
    requires w != "" && m < |texts| && Occurrences(texts[m], w) == 1
    requires forall k :: 0 <= k < |texts| && k != m ==> !Contains(texts[k], w)
    ensures Total(texts, w) == 1
  {
    assert texts == texts[..m] + ([texts[m]] + texts[m + 1..]);
    TotalSplit(texts[..m], [texts[m]] + texts[m + 1..], w);
    assert ([texts[m]] + texts[m + 1..])[1..] == texts[m + 1..];
    TotalNone(texts[..m], w);
    TotalNone(texts[m + 1..], w);
  }

  lemma {:induction false} NotInLines(texts: seq<string>, w: string)
    requires w != "" && '\n' !in w && forall k :: 0 <= k < |texts| ==> !Contains(texts[k], w)
    ensures !Contains(Lined(texts), w)
  {
    TotalNone(texts, w);
    OccurrencesLined(texts, w);
    OccursIff(Lined(texts), w);
  }

  /** Each line stands in the joined text between line ends. */
  lemma {:induction false} LinedHas(texts: seq<string>, k: nat) returns (a: string, b: string)
    requires k < |texts|
    ensures Lined(texts) == a + texts[k] + b
    ensures (a == "" || a[|a| - 1] == '\n') && (b == "" || b[0] == '\n')
  {
    if |texts| == 1 {
      a, b := "", "";
    } else if k == 0 {
      a, b := "", "\n" + Lined(texts[1..]);
    } else {
      var a', b' := LinedHas(texts[1..], k - 1);
      a, b := texts[0] + "\n" + a', b';
    }
  }

  lemma {:induction false} ContainsLine(texts: seq<string>, k: nat, w: string)
    requires k < |texts| && Contains(texts[k], w)
    ensures Contains(Lined(texts), w)
  {
    var a, b := LinedHas(texts, k);
    var i :| 0 <= i <= |texts[k]| && FoundAt(texts[k], w, i);
    assert Lined(texts)[|a| + i..|a| + i + |w|] == texts[k][i..i + |w|];
    assert FoundAt(Lined(texts), w, |a| + i);
  }

  lemma {:induction false} LowerContains(s: string, w: string)
    requires Contains(s, w)
    ensures Contains(Lower(s), Lower(w))
  {
    var i :| 0 <= i <= |s| && FoundAt(s, w, i);
    forall j | 0 <= j < |w| ensures Lower(s)[i..i + |w|][j] == Lower(w)[j] {
      assert s[i..i + |w|][j] == s[i + j];
    }
    assert FoundAt(Lower(s), Lower(w), i);
  }
}
