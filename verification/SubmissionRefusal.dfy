/**
 The script of SubmissionScript on the configurations of SampleConfig: adding the listener
 succeeds for all four; only `ends` decides whether it can be removed again, and only `lone`
 whether the added limit ends up in `limits`.
 */
module SubmissionRefusal {
  import opened Options
  import opened ConfigScan
  import opened TextSearch
  import opened SubmissionConfig
  import opened SubmissionRules
  import opened SubmissionScript
  import opened RenderedConfig
  import opened SampleConfig

  // ---------------------------------------------------------------------------------------
  // The family
  // ---------------------------------------------------------------------------------------

  function Configuration(lone: bool, ends: bool): string {
    Join(LinesOf(Items(lone, ends)))
  }

  ghost predicate NoReturn(s: string) {
    forall i :: 0 <= i < |s| ==> s[i] != '\r'
  }

  lemma {:induction false} JoinNoReturn(lines: seq<string>)
    requires forall k :: 0 <= k < |lines| ==> NoReturn(lines[k])
    ensures NoReturn(Join(lines))
  {
    if lines != [] {
      assert NoReturn(lines[0]);
      JoinNoReturn(lines[1..]);
    }
  }

  lemma {:induction false} ShownNoReturn(s: string)
    requires Shows(s)
    ensures NoReturn(s + "\n")
  {
    assert forall i :: 0 <= i < |s| ==> ShownChar(s[i]) && s[i] != '\r';
  }

  lemma {:induction false} PlainNewline(items: seq<Item>)
    requires AllGood(items)
    ensures NewlineOf(Join(LinesOf(items))) == "\n"
  {
    var text := Join(LinesOf(items));
    forall k | 0 <= k < |items| ensures NoReturn(LinesOf(items)[k]) {
      ItemShows(items[k]);
      ShownNoReturn(TextOf(items[k]));
    }
    JoinNoReturn(LinesOf(items));
    assert Lacks(text, "\r\n"[0]);
    LackingWord(text, "\r\n", 0);
  }

  /** The configuration ends with a line end, so adding ends no line. */
  lemma {:induction false} EndsWithLine(items: seq<Item>)
    requires AllGood(items) && items != []
    ensures EndsLine(Join(LinesOf(items)))
  {
    var lines, n := LinesOf(items), |items| - 1;
    RenderedLines(items);
    ItemShows(items[n]);
    ShownLine(TextOf(items[n]));
    LastCharacter(lines);
  }

  /** What the script finds in a configuration of the family. */
  lemma {:induction false} FamilyChoice(lone: bool, ends: bool) returns (choice: Choice)
    ensures var lines := LinesOf(Items(lone, ends));
      && FindBlocks(lines, IsSubmission) == Some([Block(0, 25)])
          && DefaultBlock(lines, [Block(0, 25)]) == Some(Block(0, 25))
      && Choose(lines, [Block(0, 25)]) == Some(choice) && ChooseIn(RowsOf(lone, ends), Block(0, 25)) == Some(choice)
    ensures choice.block == Block(0, 25) && choice.at < 24 && choice.authIndent == Pad(4)
        && choice.limitsIndent == Pad(4)
    ensures LimitsStart(RowsOf(lone, ends)) == Some(0)
  {
    ItemsAreGood(lone, ends);
    BlockChosen(lone, ends);
    PortFree(lone, ends);
    CodeForRendered(Items(lone, ends));
    ConcurrencyAbsent(lone, ends);
    RowsVisible(lone, ends);
    choice := RowsChosen(RowsOf(lone, ends), Block(0, 25));
  }

  lemma {:induction false} InnerRendered(lone: bool, ends: bool)
    ensures Inner(LinesOf(Items(lone, ends)), Block(0, 25)) == LinesOf(InnerItems(lone, ends))
  {
  }

  /** The script accepts every configuration of the family. */
  lemma {:induction false} FamilyAccepted(lone: bool, ends: bool)
    ensures var text := Configuration(lone, ends);
      && Split(text) == LinesOf(Items(lone, ends)) && NewlineOf(text) == "\n" && EndsLine(text)
      && Add(text).Some? && DefaultOf(text) == Some(Block(0, 25))
  {
    var items := Items(lone, ends);
    ItemsAreGood(lone, ends);
    RenderedLines(items);
    PlainNewline(items);
    EndsWithLine(items);
    TextsAreProper();
    NoMarkerLines(items, TEXTS);
    var choice := FamilyChoice(lone, ends);
    InnerRendered(lone, ends);
    CopySound(lone, ends, choice.at);
    CopyRendered(InnerItems(lone, ends), choice);
    AddSucceeds(Configuration(lone, ends), LinesOf(items), [Block(0, 25)], choice, "\n");
  }

  lemma {:induction false} AddSucceeds(text: string, lines: seq<string>, blocks: seq<Block>, choice: Choice,
      newline: string)
    requires lines == Split(text) && newline == NewlineOf(text) && MarkerRange(TEXTS, lines) == Absent
    requires FindBlocks(lines, IsSubmission) == Some(blocks) && Choose(lines, blocks) == Some(choice)
        && choice.block in blocks
    requires choice.block.start < choice.block.end < |lines| && choice.at <= |Inner(lines, choice.block)|
    requires Sound(Between(TEXTS, Inner(lines, choice.block), choice, newline))
    ensures Add(text).Some?
  {
  }

  /** Adding succeeds, and removing gives the configuration back if and only if its last brace
      stands alone; otherwise removing is refused and the edited text is not balanced. */
  lemma {:induction false} AddedButNotRemoved(lone: bool, ends: bool)
    ensures var text := Configuration(lone, ends);
      && Add(text).Some?
      && Remove(Add(text).value) == (if ends then Some(text) else None)
      && (FindBlocks(Split(Add(text).value), IsSubmission).Some? <==> ends)
  {
    var text := Configuration(lone, ends);
    FamilyAccepted(lone, ends);
    FamilyDepth(lone, ends);
    ScriptRoundTrip(text, Add(text).value);
    EditedIsBalanced(text, Add(text).value);
  }

  lemma {:induction false} FamilyDepth(lone: bool, ends: bool)
    ensures DepthAt(LinesOf(Items(lone, ends)), 25) == if ends then 1 else 2
  {
    ItemsAreGood(lone, ends);
    RenderedDepth(Items(lone, ends), 25);
    HeightIs(25, lone, ends);
  }

  // Where the limit ends up

  lemma {:induction false} RateRow(lone: bool, ends: bool)
    ensures var row := RowsOf(lone, ends)[1];
        row.depth == 2 && row.delta == (if lone then 0 else -1) && row.code != Some(BRACE)
  {
    RowIs(2, lone, ends);
    LastMoves();
    RateIsNoBrace(lone, ends);
  }

  lemma {:induction false} LoneRow(lone: bool, ends: bool)
    requires lone
    ensures var row := RowsOf(lone, ends)[2]; row.depth == 2 && row.delta == -1 && row.code == Some(BRACE)
  {
    RowIs(3, lone, ends);
    LastMoves();
    BraceLine(3, lone, ends);
  }

  lemma {:induction false} CloseRow(lone: bool, ends: bool)
    ensures var rows, c := RowsOf(lone, ends), if lone then 2 else 1;
      |rows| == 24 && LimitsClose(rows, 0) == Some(c) && (rows[c].code == Some(BRACE) <==> lone)
  {
    RateRow(lone, ends);
    if lone {
      LoneRow(lone, ends);
    }
    CloseOf(RowsOf(lone, ends), lone);
  }

  lemma {:induction false} CloseOf(rows: seq<Row>, lone: bool)
    requires |rows| == 24 && rows[1].depth == 2 && rows[1].delta == (if lone then 0 else -1)
        && (lone ==> rows[2].depth == 2 && rows[2].delta == -1)
    ensures LimitsClose(rows, 0) == Some(if lone then 2 else 1)
  {
    WhereFirst(24, Leaves(rows, 0), if lone then 2 else 1);
  }

  lemma {:induction false} RateIsNoBrace(lone: bool, ends: bool)
    ensures CodeOf(Entry(2, lone, ends)) != BRACE
  {
    EntryIsGood(2, lone, ends);
    assert Entry(2, lone, ends).head[0] == Lit("all") && "all"[0] == 'a' && BRACE[0] == '}';
    FirstLetter(Entry(2, lone, ends));
  }

  lemma {:induction false} WhereFirst(n: nat, p: nat -> bool, k: nat)
    requires k < n && p(k) && forall i: nat :: i < k ==> !p(i)
    ensures Where(n, p) != [] && Where(n, p)[0] == k
  {
    WhereMember(n, p, k);
    WhereLeast(n, p);
  }

  /** The added limit is inside the copied `limits` block if and only if that block's brace
      stands alone; otherwise it has ended up in the `source` block. */
  lemma {:induction false} LimitMisplaced(lone: bool, ends: bool) returns (choice: Choice)
    ensures var lines := LinesOf(Items(lone, ends));
      && Add(Configuration(lone, ends)).Some? && Choose(lines, [Block(0, 25)]) == Some(choice)
          && choice.at <= |Inner(lines, Block(0, 25))|
      && (InLimits(AllRows(Between(TEXTS, Inner(lines, Block(0, 25)), choice, "\n")), 2 + choice.at) <==> lone)
  {
    choice := FamilyChoice(lone, ends);
    FamilyPlaced(lone, ends, choice);
    CloseRow(lone, ends);
    var lines := LinesOf(Items(lone, ends));
    PlacedMeans(TEXTS, RowsOf(lone, ends), AllRows(Between(TEXTS, Inner(lines, Block(0, 25)), choice, "\n")), choice,
        if lone then 2 else 1);
  }

  lemma {:induction false} FamilyPlaced(lone: bool, ends: bool, choice: Choice)
    requires ChooseIn(RowsOf(lone, ends), Block(0, 25)) == Some(choice)
    ensures var lines := LinesOf(Items(lone, ends));
      && Add(Configuration(lone, ends)).Some? && choice.at <= |Inner(lines, Block(0, 25))|
      && LimitPlaced(TEXTS, RowsOf(lone, ends), AllRows(Between(TEXTS, Inner(lines, Block(0, 25)), choice, "\n")),
          choice)
  {
    var text := Configuration(lone, ends);
    FamilyAccepted(lone, ends);
    LimitIsInside(text, Add(text).value);
  }

  lemma {:induction false} PlacedMeans(t: Texts, rows: seq<Row>, copied: seq<Row>, choice: Choice, c: nat)
    requires LimitPlaced(t, rows, copied, choice) && LimitsStart(rows) == Some(0) && LimitsClose(rows, 0) == Some(c)
    ensures c < |rows| && (InLimits(copied, 2 + choice.at) <==> rows[c].code == Some(BRACE))
  {
  }
}
