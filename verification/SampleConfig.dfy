/**
 Four complete configurations that the script of SubmissionScript accepts, the default one of
 Maddy in its shape.  `ends` says whether the default block's last brace stands alone on its
 line, and `lone` whether the last brace of its `limits` block does.

 The lines are rendered from words.  What has to be shown of them is shown word by word: which
 letters a word has decides which other words a line cannot contain, its last word decides how
 the line moves the depth, and its first letter whether the line can be a directive.  From
 this follows what the script finds: one block, all its patterns, one `auth` line, one `limits`
 line and an end for it (`BlockChosen`, `RowsVisible`), and that the copy of the block passes
 the checks of the script (`CopySound`).
 */
module SampleConfig {
  import opened Options
  import opened ConfigScan
  import opened TextSearch
  import opened SubmissionConfig
  import opened SubmissionRules
  import opened RenderedConfig

  const SIZE := 26

  function HeadOf(k: nat, lone: bool): seq<Piece> {
    if k == 0 then [Lit("submission"), Spaces, Lit("tls://0.0.0.0:465"), Spaces, Lit("tcp://0.0.0.0:587"), Spaces]
    else if k == 1 then [Lit("limits"), Spaces]
    else if k == 2 then [Lit("all"), Spaces, Lit("rate"), Spaces, Lit("50"), Spaces]
        + (if lone then [] else [Lit("1s"), Spaces])
    else if k == 4 then [Lit("auth"), Spaces]
    else if k == 5 then [Lit("source"), Spaces, DOMAINS, MaybeSpaces]
    else if k == 6 then [Lit("check"), Spaces]
    else if k == 7 then [Lit("authorize_sender"), MaybeSpaces]
    else if k == 8 then [Lit("prepare_email"), Spaces]
    else if k == 9 then [Lit("user_to_email"), Spaces]
    else if k == 12 then [Lit("destination"), Spaces, Lit("postmaster"), Spaces, DOMAINS, MaybeSpaces]
    else if k == 13 then [Lit("deliver_to"), Spaces]
    else if k == 15 then [Lit("default_destination"), MaybeSpaces]
    else if k == 16 then [Lit("modify"), Spaces]
    else if k == 17 then [Lit("dkim"), Spaces, Lit("$(primary_domain)"), Spaces, DOMAINS, Spaces]
    else if k == 19 then [Lit("deliver_to"), Spaces]
    else if k == 22 then [Lit("default_source"), MaybeSpaces]
    else if k == 23 then [Lit("reject"), Spaces, Lit("501"), Spaces]
    else []
  }

  function LastOf(k: nat, lone: bool, ends: bool): string {
    if k == 2 then (if lone then "1s" else "}")
    else if k == 3 then (if lone then "}" else "")
    else if k == 4 then "&local_authdb"
    else if k == 8 then "&local_rewrites"
    else if k == 9 then "identity"
    else if k == 13 then "&local_routing"
    else if k == 17 then "default"
    else if k == 19 then "&remote_queue"
    else if k == 23 then "5.1.8"
    else if k == 24 then (if ends then "}" else "")
    else if k == 25 then (if ends then "}" else "}}")
    else if k == 10 || k == 11 || k == 14 || k == 18 || k == 20 || k == 21 then "}"
    else "{"
  }

  function IndentOf(k: nat): nat {
    if k == 0 || k == 25 then 0
    else if k == 1 || k == 3 || k == 4 || k == 5 || k == 21 || k == 22 || k == 24 then 4
    else if k == 7 || k == 10 || k == 13 || k == 16 || k == 18 || k == 19 then 12
    else if k == 8 || k == 9 || k == 17 then 16
    else 8
  }

  function Entry(k: nat, lone: bool, ends: bool): Item {
    Item(IndentOf(k), HeadOf(k, lone), LastOf(k, lone, ends))
  }

  function Items(lone: bool, ends: bool): seq<Item> {
    seq(SIZE, k requires 0 <= k < SIZE => Entry(k, lone, ends))
  }

  // ---------------------------------------------------------------------------------------
  // Depths
  // ---------------------------------------------------------------------------------------

  function Table(k: nat, lone: bool, ends: bool): int {
    if k == 0 || k >= SIZE then 0
    else if k == 1 || k == 4 || k == 5 || k == 22 then 1
    else if k == 3 then (if lone then 2 else 1)
    else if k == 25 then (if ends then 1 else 2)
    else if k == 7 || k == 11 || k == 13 || k == 14 || k == 16 || k == 19 || k == 20 then 3
    else if k == 8 || k == 9 || k == 10 || k == 17 || k == 18 then 4
    else 2
  }

  lemma {:induction false} TableStep(k: nat, lone: bool, ends: bool)
    requires k < SIZE
    ensures Table(k + 1, lone, ends) == Table(k, lone, ends) + Move(LastOf(k, lone, ends))
  {
    LastMoves();
  }

  lemma {:induction false} LastMoves()
    ensures Move("1s") == Move("") == Move("&local_authdb") == Move("&local_rewrites") == Move("identity") ==
        Move("&local_routing") == 0
    ensures Move("default") == Move("&remote_queue") == Move("5.1.8") == 0 && Move("{") == 1 && Move("}") == -1
        && Move("}}") == -2
  {
  }

  lemma {:induction false} HeightIs(k: nat, lone: bool, ends: bool)
    requires k <= SIZE
    ensures Height(Items(lone, ends), k) == Table(k, lone, ends)
  {
    if k > 0 {
      HeightIs(k - 1, lone, ends);
      TableStep(k - 1, lone, ends);
    }
  }

  // ---------------------------------------------------------------------------------------
  // Words
  // ---------------------------------------------------------------------------------------

  /** A calm word without the letters `h` and `y`. */
  predicate Mute(w: string) {
    forall i :: 0 <= i < |w| ==> CalmChar(w[i]) && w[i] != 'h' && w[i] != 'y'
  }

  ghost predicate MutePiece(piece: Piece) {
    match piece case Lit(w) => w != ""
        && Mute(w) case Edge => false case LineStart => false case Spaces => true case MaybeSpaces => true
  }

  ghost predicate MuteItem(item: Item) {
    && (forall i :: 0 <= i < |item.head| ==> MutePiece(item.head[i])) && (Mute(item.last) || Brace(item.last))
    && (item.head != [] ==> item.head[0].Lit? && item.last != "")
  }

  lemma {:induction false} MuteIsGood(item: Item)
    requires MuteItem(item)
    ensures Good(item) && Lacks(TextOf(item), 'h') && Lacks(TextOf(item), 'y')
  {
    forall i | 0 <= i < |item.head| ensures CalmPiece(item.head[i])
        && (item.head[i].Lit? ==> Lacks(item.head[i].word, 'h') && Lacks(item.head[i].word, 'y')) {
      assert MutePiece(item.head[i]);
    }
    ItemLacks(item, 'h');
    ItemLacks(item, 'y');
  }

  /** Entries of none, one, two and three words before the last. */
  lemma {:induction false} MuteNone(indent: nat, last: string)
    requires Mute(last) || Brace(last)
    ensures MuteItem(Item(indent, [], last))
  {
  }

  lemma {:induction false} MuteOne(indent: nat, a: string, space: Piece, last: string)
    requires a != "" && Mute(a) && last != "" && (Mute(last) || Brace(last))
        && (space == Spaces || space == MaybeSpaces)
    ensures MuteItem(Item(indent, [Lit(a), space], last))
  {
    forall i | 0 <= i < 2 ensures MutePiece([Lit(a), space][i]) {
    }
  }

  lemma {:induction false} MuteTwo(indent: nat, a: string, b: string, space: Piece, last: string)
    requires a != "" && Mute(a) && b != "" && Mute(b) && last != "" && (Mute(last) || Brace(last))
        && (space == Spaces || space == MaybeSpaces)
    ensures MuteItem(Item(indent, [Lit(a), Spaces, Lit(b), space], last))
  {
    forall i | 0 <= i < 4 ensures MutePiece([Lit(a), Spaces, Lit(b), space][i]) {
    }
  }

  lemma {:induction false} MuteThree(indent: nat, a: string, b: string, c: string, space: Piece, last: string)
    requires a != "" && Mute(a) && b != "" && Mute(b) && c != "" && Mute(c)
    requires last != "" && (Mute(last) || Brace(last)) && (space == Spaces || space == MaybeSpaces)
    ensures MuteItem(Item(indent, [Lit(a), Spaces, Lit(b), Spaces, Lit(c), space], last))
  {
    forall i | 0 <= i < 6 ensures MutePiece([Lit(a), Spaces, Lit(b), Spaces, Lit(c), space][i]) {
    }
  }

  lemma {:induction false} MuteFour(indent: nat, a: string, b: string, c: string, d: string, last: string)
    requires a != "" && Mute(a) && b != "" && Mute(b) && c != "" && Mute(c) && d != "" && Mute(d) && last != ""
        && (Mute(last) || Brace(last))
    ensures MuteItem(Item(indent, [Lit(a), Spaces, Lit(b), Spaces, Lit(c), Spaces, Lit(d), Spaces], last))
  {
    forall i | 0 <= i < 8 ensures MutePiece([Lit(a), Spaces, Lit(b), Spaces, Lit(c), Spaces, Lit(d), Spaces][i]) {
    }
  }

  lemma {:induction false} MuteHeader()
    ensures MuteItem(Entry(0, true, true))
  {
    MuteThree(0, "submission", "tls://0.0.0.0:465", "tcp://0.0.0.0:587", Spaces, "{");
  }

  lemma {:induction false} MuteRate(lone: bool, ends: bool)
    ensures MuteItem(Entry(2, lone, ends))
  {
    MuteThree(8, "all", "rate", "50", Spaces, "1s");
    MuteFour(8, "all", "rate", "50", "1s", "}");
    assert [Lit("all"), Spaces, Lit("rate"), Spaces, Lit("50"), Spaces] + [] ==
        [Lit("all"), Spaces, Lit("rate"), Spaces, Lit("50"), Spaces];
    assert [Lit("all"), Spaces, Lit("rate"), Spaces, Lit("50"), Spaces] + [Lit("1s"), Spaces] ==
           [Lit("all"), Spaces, Lit("rate"), Spaces, Lit("50"), Spaces, Lit("1s"), Spaces];
  }

  lemma {:induction false} MuteSource()
    ensures MuteItem(Entry(5, true, true))
  {
    MuteTwo(4, "source", "$(local_domains)", MaybeSpaces, "{");
  }

  lemma {:induction false} MutePrepare()
    ensures MuteItem(Entry(8, true, true))
  {
    MuteOne(16, "prepare_email", Spaces, "&local_rewrites");
  }

  lemma {:induction false} MutePostmaster()
    ensures MuteItem(Entry(12, true, true))
  {
    MuteThree(8, "destination", "postmaster", "$(local_domains)", MaybeSpaces, "{");
  }

  lemma {:induction false} MuteRouting()
    ensures MuteItem(Entry(13, true, true))
  {
    MuteOne(12, "deliver_to", Spaces, "&local_routing");
  }

  lemma {:induction false} MuteQueue()
    ensures MuteItem(Entry(19, true, true))
  {
    MuteOne(12, "deliver_to", Spaces, "&remote_queue");
  }

  lemma {:induction false} MuteLimits()
    ensures MuteItem(Entry(1, true, true))
  {
    MuteOne(4, "limits", Spaces, "{");
  }

  lemma {:induction false} MuteDestination()
    ensures MuteItem(Entry(15, true, true))
  {
    MuteOne(8, "default_destination", MaybeSpaces, "{");
  }

  lemma {:induction false} MuteDefault()
    ensures MuteItem(Entry(22, true, true))
  {
    MuteOne(4, "default_source", MaybeSpaces, "{");
  }

  lemma {:induction false} MuteReject()
    ensures MuteItem(Entry(23, true, true))
  {
    MuteTwo(8, "reject", "501", Spaces, "5.1.8");
  }

  /** Lines with nothing but braces, or blank ones. */
  predicate BraceOnly(k: nat) {
    k == 3 || k == 10 || k == 11 || k == 14 || k == 18 || k == 20 || k == 21 || k == 24 || k == 25
  }

  lemma {:induction false} MuteBraces(k: nat, lone: bool, ends: bool)
    requires BraceOnly(k)
    ensures MuteItem(Entry(k, lone, ends))
  {
    MuteNone(IndentOf(k), LastOf(k, lone, ends));
  }

  /** The two choices matter in five entries only. */
  lemma {:induction false} SameEntry(k: nat, lone: bool, ends: bool)
    requires k != 2 && k != 3 && k != 24 && k != 25
    ensures Entry(k, lone, ends) == Entry(k, true, true)
  {
  }

  /** The entries that have the letter `h` or `y`. */
  predicate Special(k: nat) {
    k == 4 || k == 6 || k == 7 || k == 9 || k == 16 || k == 17
  }

  lemma {:induction false} MuteEntry(k: nat, lone: bool, ends: bool)
    requires k < SIZE && !Special(k)
    ensures MuteItem(Entry(k, lone, ends))
  {
    if BraceOnly(k) {
      MuteBraces(k, lone, ends);
    } else if k == 2 {
      MuteRate(lone, ends);
    } else {
      SameEntry(k, lone, ends);
      MuteFixed(k);
    }
  }

  lemma {:induction false} MuteFixed(k: nat)
    requires k < SIZE && !Special(k) && !BraceOnly(k) && k != 2
    ensures MuteItem(Entry(k, true, true))
  {
    if k == 0 {
      MuteHeader();
    } else if k == 5 {
      MuteSource();
    } else if k == 8 {
      MutePrepare();
    } else if k == 12 {
      MutePostmaster();
    } else if k == 13 {
      MuteRouting();
    } else if k == 19 {
      MuteQueue();
    } else if k == 23 {
      MuteReject();
    } else if k == 1 {
      MuteLimits();
    } else if k == 15 {
      MuteDestination();
    } else {
      MuteDefault();
    }
  }

  /** An entry of one word before the last, whose words have no `c`. */
  lemma {:induction false} OneLacks(item: Item, a: string, space: Piece, c: char)
    requires item.head == [Lit(a), space] && (space == Spaces || space == MaybeSpaces) && c != ' '
    requires a != "" && Calm(a) && item.last != "" && (Calm(item.last) || Brace(item.last)) && Lacks(a, c)
        && Lacks(item.last, c)
    ensures Good(item) && Lacks(TextOf(item), c)
  {
    assert Calms(item.head) && AllLack(item.head, c);
    ItemLacks(item, c);
  }

  /** The entries 4, 6 and 7 have an `h`, but no `y`. */
  lemma {:induction false} AuthEntry()
    ensures Good(Entry(4, true, true)) && Lacks(TextOf(Entry(4, true, true)), 'y')
  {
    OneLacks(Entry(4, true, true), "auth", Spaces, 'y');
  }

  lemma {:induction false} CheckEntry()
    ensures Good(Entry(6, true, true)) && Lacks(TextOf(Entry(6, true, true)), 'y')
  {
    OneLacks(Entry(6, true, true), "check", Spaces, 'y');
  }

  lemma {:induction false} CheckEntryMore()
    ensures Lacks(TextOf(Entry(6, true, true)), '&')
  {
    OneLacks(Entry(6, true, true), "check", Spaces, '&');
  }

  lemma {:induction false} AuthorizeEntry()
    ensures Good(Entry(7, true, true)) && Lacks(TextOf(Entry(7, true, true)), 'y')
  {
    OneLacks(Entry(7, true, true), "authorize_sender", MaybeSpaces, 'y');
  }

  lemma {:induction false} AuthorizeEntryMore()
    ensures Lacks(TextOf(Entry(7, true, true)), '&')
  {
    OneLacks(Entry(7, true, true), "authorize_sender", MaybeSpaces, '&');
  }

  /** The entries 9, 16 and 17 have a `y`, but no `h`. */
  lemma {:induction false} IdentityEntry()
    ensures Good(Entry(9, true, true)) && Lacks(TextOf(Entry(9, true, true)), 'h')
  {
    OneLacks(Entry(9, true, true), "user_to_email", Spaces, 'h');
  }

  lemma {:induction false} IdentityEntryMore()
    ensures Lacks(TextOf(Entry(9, true, true)), 'c')
  {
    OneLacks(Entry(9, true, true), "user_to_email", Spaces, 'c');
  }

  lemma {:induction false} ModifyEntry()
    ensures Good(Entry(16, true, true)) && Lacks(TextOf(Entry(16, true, true)), 'h')
  {
    OneLacks(Entry(16, true, true), "modify", Spaces, 'h');
  }

  lemma {:induction false} ModifyEntryMore()
    ensures Lacks(TextOf(Entry(16, true, true)), 'c')
  {
    OneLacks(Entry(16, true, true), "modify", Spaces, 'c');
  }

  lemma {:induction false} DkimEntry()
    ensures Good(Entry(17, true, true)) && Lacks(TextOf(Entry(17, true, true)), 'h')
  {
    DkimWords();
    ThreeLack(Entry(17, true, true), "dkim", "$(primary_domain)", "$(local_domains)", 'h');
  }

  lemma {:induction false} DkimWords()
    ensures Calm("dkim") && Calm("$(primary_domain)") && Calm("$(local_domains)") && Calm("default")
    ensures Lacks("dkim", 'h') && Lacks("$(primary_domain)", 'h') && Lacks("$(local_domains)", 'h')
        && Lacks("default", 'h')
  {
  }

  lemma {:induction false} ThreeLack(item: Item, a: string, b: string, d: string, c: char)
    requires item.head == [Lit(a), Spaces, Lit(b), Spaces, Lit(d), Spaces] && c != ' '
    requires a != "" && b != "" && d != "" && item.last != "" && Calm(a) && Calm(b) && Calm(d) && Calm(item.last)
    requires Lacks(a, c) && Lacks(b, c) && Lacks(d, c) && Lacks(item.last, c)
    ensures Good(item) && Lacks(TextOf(item), c)
  {
    forall i | 0 <= i < 6 ensures CalmPiece(item.head[i]) && (item.head[i].Lit? ==> Lacks(item.head[i].word, c)) {
    }
    ItemLacks(item, c);
  }

  lemma {:induction false} SpecialEntry(k: nat, lone: bool, ends: bool)
    requires Special(k)
    ensures Good(Entry(k, lone, ends))
    ensures k == 4 || k == 6 || k == 7 ==> Lacks(TextOf(Entry(k, lone, ends)), 'y')
    ensures k == 6 || k == 7 ==> Lacks(TextOf(Entry(k, lone, ends)), '&')
    ensures k == 9 || k == 16 || k == 17 ==> Lacks(TextOf(Entry(k, lone, ends)), 'h')
    ensures k == 9 || k == 16 ==> Lacks(TextOf(Entry(k, lone, ends)), 'c')
  {
    SameEntry(k, lone, ends);
    if k == 4 {
      AuthEntry();
    } else if k == 6 {
      CheckEntry();
      CheckEntryMore();
    } else if k == 7 {
      AuthorizeEntry();
      AuthorizeEntryMore();
    } else if k == 9 {
      IdentityEntry();
      IdentityEntryMore();
    } else if k == 16 {
      ModifyEntry();
      ModifyEntryMore();
    } else {
      DkimEntry();
    }
  }

  lemma {:induction false} EntryIsGood(k: nat, lone: bool, ends: bool)
    requires k < SIZE
    ensures Good(Entry(k, lone, ends))
  {
    if Special(k) {
      SpecialEntry(k, lone, ends);
    } else {
      MuteEntry(k, lone, ends);
      MuteIsGood(Entry(k, lone, ends));
    }
  }

  lemma {:induction false} ItemsAreGood(lone: bool, ends: bool)
    ensures AllGood(Items(lone, ends)) && OneDeep(Items(lone, ends))
  {
    var items := Items(lone, ends);
    forall k | 0 <= k < SIZE ensures Good(items[k]) {
      EntryIsGood(k, lone, ends);
    }
    forall k: nat | k <= SIZE ensures Height(items, k) == Table(k, lone, ends) {
      HeightIs(k, lone, ends);
    }
  }

  // ---------------------------------------------------------------------------------------
  // Patterns
  // ---------------------------------------------------------------------------------------

  /** The entries that the script looks for. */
  predicate Wanted(k: nat) {
    k == 5 || k == 7 || k == 8 || k == 9 || k == 12 || k == 13 || k == 15 || k == 17 || k == 19 || k == 22
  }

  ghost predicate HasWanted(items: seq<Item>) {
    forall k: nat :: Wanted(k) ==> Entry(k, true, true) in items
  }

  ghost predicate Found(items: seq<Item>, p: seq<Piece>, closed: bool) {
    Search(Bounded(p, closed), Lined(LinesOf(items))) && Search(Bounded(p, closed), Lined(TextsOf(items)))
  }

  lemma {:induction false} EntryFound(items: seq<Item>, k: nat, p: seq<Piece>, closed: bool)
    requires HasWanted(items) && Wanted(k) && Pieces(Entry(k, true, true)) == p
    requires Entry(k, true, true).head != [] && Entry(k, true, true).head[0].Lit?
        && Entry(k, true, true).head[0].word != ""
    requires WordChar(Entry(k, true, true).head[0].word[0])
    requires var last := Entry(k, true, true).last; closed ==> last != "" && WordChar(last[|last| - 1])
    ensures Found(items, p, closed)
  {
    var item := Entry(k, true, true);
    EntryIsGood(k, true, true);
    ItemPattern(item, p, closed);
    PatternShown(items, item, p, closed, Pad(item.indent), "");
  }

  lemma {:induction false} OpenersFound(items: seq<Item>)
    requires HasWanted(items)
    ensures Found(items, SOURCE, false) && Found(items, AUTHORIZE, false)
  {
    EntryFound(items, 5, SOURCE, false);
    EntryFound(items, 7, AUTHORIZE, false);
  }

  lemma {:induction false} DefaultsFound(items: seq<Item>)
    requires HasWanted(items)
    ensures Found(items, DESTINATION, false) && Found(items, DEFAULT_SOURCE, false)
  {
    EntryFound(items, 15, DESTINATION, false);
    EntryFound(items, 22, DEFAULT_SOURCE, false);
  }

  lemma {:induction false} MailFound(items: seq<Item>)
    requires HasWanted(items)
    ensures Found(items, PREPARE, true) && Found(items, IDENTITY, true)
  {
    EntryFound(items, 8, PREPARE, true);
    EntryFound(items, 9, IDENTITY, true);
  }

  lemma {:induction false} DeliveryFound(items: seq<Item>)
    requires HasWanted(items)
    ensures Found(items, ROUTING, true) && Found(items, QUEUE, true)
  {
    EntryFound(items, 13, ROUTING, true);
    EntryFound(items, 19, QUEUE, true);
  }

  lemma {:induction false} LongFound(items: seq<Item>)
    requires HasWanted(items)
    ensures Found(items, POSTMASTER, false) && Found(items, DKIM, true)
  {
    EntryFound(items, 12, POSTMASTER, false);
    EntryFound(items, 17, DKIM, true);
  }

  lemma {:induction false} AllPatterns(s: string)
    requires Search(Bounded(SOURCE, false), s) && Search(Bounded(AUTHORIZE, false), s)
        && Search(Bounded(PREPARE, true), s)
    requires Search(Bounded(IDENTITY, true), s) && Search(Bounded(POSTMASTER, false), s)
        && Search(Bounded(ROUTING, true), s)
    requires Search(Bounded(DESTINATION, false), s) && Search(Bounded(DKIM, true), s) && Search(Bounded(QUEUE, true), s)
    requires Search(Bounded(DEFAULT_SOURCE, false), s)
    ensures HasPatterns(s)
  {
  }

  lemma {:induction false} PatternsFound(items: seq<Item>)
    requires HasWanted(items)
    ensures HasPatterns(Lined(LinesOf(items)))
  {
    OpenersFound(items);
    DefaultsFound(items);
    MailFound(items);
    DeliveryFound(items);
    LongFound(items);
    AllPatterns(Lined(LinesOf(items)));
  }

  // Tokens

  ghost predicate Token(items: seq<Item>, token: string) {
    HasToken(Lined(LinesOf(items)), token) && HasToken(Lined(TextsOf(items)), token)
  }

  lemma {:induction false} AuthorizeFound(items: seq<Item>)
    requires HasWanted(items)
    ensures Token(items, "authorize_sender")
  {
    var item := Entry(7, true, true);
    var q := [MaybeSpaces, Lit("{")];
    assert Pieces(item) == [Lit("authorize_sender")] + q;
    FirstToken(item, "authorize_sender", q);
    PatternShown(items, item, [Lit("authorize_sender")], true, Pad(item.indent), Render(q));
  }

  lemma {:induction false} DkimFound(items: seq<Item>)
    requires HasWanted(items)
    ensures Token(items, "dkim")
  {
    var item := Entry(17, true, true);
    var q := [Spaces, Lit("$(primary_domain)"), Spaces, DOMAINS, Spaces, Lit("default")];
    assert Pieces(item) == [Lit("dkim")] + q;
    FirstToken(item, "dkim", q);
    PatternShown(items, item, [Lit("dkim")], true, Pad(item.indent), Render(q));
  }

  lemma {:induction false} RoutingFound(items: seq<Item>)
    requires HasWanted(items)
    ensures Token(items, "local_routing")
  {
    var item := Entry(13, true, true);
    assert "&local_routing" == "&" + "local_routing";
    LastToken(item, "local_routing");
    PatternShown(items, item, [Lit("local_routing")], true, Pad(item.indent) + Render(item.head) + "&", "");
  }

  lemma {:induction false} QueueFound(items: seq<Item>)
    requires HasWanted(items)
    ensures Token(items, "remote_queue")
  {
    var item := Entry(19, true, true);
    assert "&remote_queue" == "&" + "remote_queue";
    LastToken(item, "remote_queue");
    PatternShown(items, item, [Lit("remote_queue")], true, Pad(item.indent) + Render(item.head) + "&", "");
  }

  lemma {:induction false} FourTokens(s: string, a: string, b: string, c: string, d: string)
    requires HasToken(s, a) && HasToken(s, b) && HasToken(s, c) && HasToken(s, d)
    ensures HasEach(s, [a, b, c, d])
  {
    forall k | 0 <= k < 4 ensures HasToken(s, [a, b, c, d][k]) {
    }
  }

  lemma {:induction false} TokensFound(items: seq<Item>)
    requires HasWanted(items)
    ensures HasTokens(Lined(LinesOf(items))) && HasTokens(Lined(TextsOf(items)))
  {
    AuthorizeFound(items);
    RoutingFound(items);
    DkimFound(items);
    QueueFound(items);
    FourTokens(Lined(LinesOf(items)), "authorize_sender", "local_routing", "dkim", "remote_queue");
    FourTokens(Lined(TextsOf(items)), "authorize_sender", "local_routing", "dkim", "remote_queue");
  }

  // ---------------------------------------------------------------------------------------
  // Words that are absent
  // ---------------------------------------------------------------------------------------

  lemma {:induction false} NoConcurrency(k: nat, lone: bool, ends: bool)
    requires k < SIZE
    ensures !Contains(LineOf(Entry(k, lone, ends)), "concurrency")
  {
    var item := Entry(k, lone, ends);
    var w := "concurrency";
    assert w[10] == 'y' && w[0] == 'c';
    if !Special(k) {
      MuteEntry(k, lone, ends);
      MuteIsGood(item);
      LackingWord(LineOf(item), w, 10);
    } else {
      SpecialEntry(k, lone, ends);
      if k == 4 || k == 6 || k == 7 {
        LackingWord(LineOf(item), w, 10);
      } else if k != 17 {
        LackingWord(LineOf(item), w, 0);
      } else {
        SameEntry(k, lone, ends);
        NoConcurrencyInDkim();
      }
    }
  }

  /** The one `y` of that line is behind an `r`. */
  lemma {:induction false} NoConcurrencyInDkim()
    ensures !Contains(LineOf(Entry(17, true, true)), "concurrency")
  {
    var front, back := [Lit("dkim"), Spaces], [Spaces, DOMAINS, Spaces, Lit("default")];
    DkimPieces(front, back);
    DkimLacks(front, back);
    DkimWord();
    OneY(Entry(17, true, true), front, back, "$(primar", "_domain)", "$(primary_domain)", "concurrency");
  }

  lemma {:induction false} DkimPieces(front: seq<Piece>, back: seq<Piece>)
    requires front == [Lit("dkim"), Spaces] && back == [Spaces, DOMAINS, Spaces, Lit("default")]
    ensures Pieces(Entry(17, true, true)) == front + ([Lit("$(primary_domain)")] + back)
  {
  }

  lemma {:induction false} DkimWord()
    ensures "$(primary_domain)" == "$(primar" + "y" + "_domain)" && Lacks("$(primar", 'y') && Lacks("_domain)", 'y')
        && "$(primar"[7] == 'r'
    ensures |"concurrency"| == 11 && "concurrency"[9] == 'c' && "concurrency"[10] == 'y'
  {
  }

  lemma {:induction false} OneY(item: Item, front: seq<Piece>, back: seq<Piece>, u: string, v: string, w: string,
      bad: string)
    requires Pieces(item) == front + ([Lit(w)] + back) && w == u + "y" + v && Lacks(Render(front), 'y')
        && Lacks(Render(back), 'y')
    requires Lacks(u, 'y') && Lacks(v, 'y') && u != "" && u[|u| - 1] != 'c' && |bad| > 10 && bad[9] == 'c'
        && bad[10] == 'y'
    ensures !Contains(LineOf(item), bad)
  {
    LineAround(item, front, w, back);
    var a, b := Pad(item.indent) + Render(front), Render(back) + "\n";
    YAround(a, u, v, b, w);
    OnlyY(a + u, v + b, bad);
  }

  lemma {:induction false} DkimLacks(front: seq<Piece>, back: seq<Piece>)
    requires front == [Lit("dkim"), Spaces] && back == [Spaces, Lit("$(local_domains)"), Spaces, Lit("default")]
    ensures Lacks(Render(front), 'y') && Lacks(Render(back), 'y')
  {
    assert Lacks("dkim", 'y') && Lacks("$(local_domains)", 'y') && Lacks("default", 'y');
    RenderLacks(front, 'y');
    RenderLacks(back, 'y');
  }

  lemma {:induction false} YAround(a: string, u: string, v: string, b: string, w: string)
    requires w == u + "y" + v
    ensures a + w + b == (a + u) + "y" + (v + b)
  {
  }

  lemma {:induction false} OnlyY(a: string, b: string, w: string)
    requires Lacks(a, 'y') && Lacks(b, 'y') && a != "" && a[|a| - 1] != 'c' && |w| > 10 && w[9] == 'c' && w[10] == 'y'
    ensures !Contains(a + "y" + b, w)
  {
    var s := a + "y" + b;
    forall i | 0 <= i <= |s| ensures !FoundAt(s, w, i) {
      if i + |w| <= |s| {
        assert s[i..i + |w|][9] == s[i + 9] && s[i..i + |w|][10] == s[i + 10];
        assert i + 10 == |a| ==> s[i + 9] == a[|a| - 1];
      }
    }
  }

  lemma {:induction false} ConcurrencyAbsent(lone: bool, ends: bool)
    ensures !Search(CONCURRENCY, Lined(LinesOf(Items(lone, ends))))
  {
    var lines := LinesOf(Items(lone, ends));
    forall k | 0 <= k < |lines| ensures !Contains(lines[k], "concurrency") {
      NoConcurrency(k, lone, ends);
    }
    NotInLines(lines, "concurrency");
    if Search(CONCURRENCY, Lined(lines)) {
      assert CONCURRENCY[4] == Lit("concurrency");
      SearchHasWord(CONCURRENCY, Lined(lines), "concurrency");
    }
  }

  // ---------------------------------------------------------------------------------------
  // The default block
  // ---------------------------------------------------------------------------------------

  lemma {:induction false} HeaderCodeIs()
    ensures CodeOf(Entry(0, true, true)) == PLAIN_HEADER
  {
    RenderThree("submission", "tls://0.0.0.0:465", "tcp://0.0.0.0:587", "{");
    HeaderPieces();
    HeaderBlanks();
    Regrouped("submission" + " ", "tls://0.0.0.0:465" + " ", "tcp://0.0.0.0:587", "{");
  }

  lemma {:induction false} HeaderPieces()
    ensures Pieces(Entry(0, true, true)) == [Lit("submission"), Spaces, Lit("tls://0.0.0.0:465"), Spaces,
        Lit("tcp://0.0.0.0:587"), Spaces, Lit("{")]
  {
  }

  lemma {:induction false} HeaderBlanks()
    ensures "submission " == "submission" + " " && "tls://0.0.0.0:465 " == "tls://0.0.0.0:465" + " "
        && " {" == " " + "{"
  {
  }

  lemma {:induction false} Regrouped(x: string, y: string, c: string, l: string)
    ensures x + y + c + (" " + l) == x + (y + ((c + " ") + l))
  {
  }

  /** A word and a blank in front. */
  lemma {:induction false} RenderWord(a: string, q: seq<Piece>)
    ensures Render([Lit(a), Spaces] + q) == (a + " ") + Render(q)
  {
    var p := [Lit(a), Spaces] + q;
    assert p[1..] == [Spaces] + q && ([Spaces] + q)[1..] == q;
    assert Render(p) == a + (" " + Render(q));
  }

  lemma {:induction false} RenderOne(a: string, last: string)
    ensures Render([Lit(a), Spaces, Lit(last)]) == (a + " ") + last
  {
    RenderWord(a, [Lit(last)]);
    assert [Lit(last)][1..] == [] && Render([Lit(last)]) == last + "" == last;
    assert [Lit(a), Spaces, Lit(last)] == [Lit(a), Spaces] + [Lit(last)];
  }

  lemma {:induction false} RenderTwo(a: string, b: string, last: string)
    ensures Render([Lit(a), Spaces, Lit(b), Spaces, Lit(last)]) == (a + " ") + ((b + " ") + last)
  {
    RenderWord(a, [Lit(b), Spaces, Lit(last)]);
    RenderOne(b, last);
    assert [Lit(a), Spaces, Lit(b), Spaces, Lit(last)] == [Lit(a), Spaces] + [Lit(b), Spaces, Lit(last)];
  }

  lemma {:induction false} RenderThree(a: string, b: string, c: string, last: string)
    ensures Render([Lit(a), Spaces, Lit(b), Spaces, Lit(c), Spaces, Lit(last)]) ==
        (a + " ") + ((b + " ") + ((c + " ") + last))
  {
    RenderWord(a, [Lit(b), Spaces, Lit(c), Spaces, Lit(last)]);
    RenderTwo(b, c, last);
    assert [Lit(a), Spaces, Lit(b), Spaces, Lit(c), Spaces, Lit(last)] ==
        [Lit(a), Spaces] + [Lit(b), Spaces, Lit(c), Spaces, Lit(last)];
  }

  lemma {:induction false} HeaderIsSubmission(code: string)
    requires code == PLAIN_HEADER
    ensures IsSubmission(code)
  {
    assert "submission " == "submission" + " ";
    assert code == "submission" + (" " + "tls://0.0.0.0:465 " + "tcp://0.0.0.0:587" + " {");
    assert code[..10] == "submission" && code[10] == ' ';
  }

  lemma {:induction false} PortFree(lone: bool, ends: bool)
    ensures !PortTaken(LinesOf(Items(lone, ends)), [Block(0, 25)])
  {
    var line := LineOf(Entry(0, true, true));
    SameEntry(0, lone, ends);
    EntryIsGood(0, true, true);
    ItemShows(Entry(0, true, true));
    ShownLine(TextOf(Entry(0, true, true)));
    HeaderLacks();
    assert "1587"[0] == '1';
    LackingWord(line, "1587", 0);
    assert LinesOf(Items(lone, ends))[0] == line && BareText(line) == line;
    NotNamed(line);
  }

  lemma {:induction false} NotNamed(s: string)
    requires !Contains(s, "1587")
    ensures !NamesPort(s)
  {
  }

  lemma {:induction false} HeaderLacks()
    ensures Lacks(LineOf(Entry(0, true, true)), '1')
  {
    var item := Entry(0, true, true);
    HeaderWords();
    forall i | 0 <= i < 6 ensures item.head[i].Lit? ==> Lacks(item.head[i].word, '1') {
    }
    ItemLacks(item, '1');
  }

  lemma {:induction false} HeaderWords()
    ensures Lacks("submission", '1') && Lacks("tls://0.0.0.0:465", '1') && Lacks("tcp://0.0.0.0:587", '1')
        && Lacks("{", '1')
  {
  }

  lemma {:induction false} AllWanted(lone: bool, ends: bool)
    ensures HasWanted(Items(lone, ends))
  {
    forall k: nat | Wanted(k) ensures Entry(k, true, true) in Items(lone, ends) {
      SameEntry(k, lone, ends);
      assert Items(lone, ends)[k] == Entry(k, lone, ends);
    }
  }

  lemma {:induction false} BlockChosen(lone: bool, ends: bool)
    ensures var lines := LinesOf(Items(lone, ends));
      FindBlocks(lines, IsSubmission) == Some([Block(0, 25)])
          && DefaultBlock(lines, [Block(0, 25)]) == Some(Block(0, 25))
  {
    var items, lines := Items(lone, ends), LinesOf(Items(lone, ends));
    ItemsAreGood(lone, ends);
    AllWanted(lone, ends);
    SameEntry(0, lone, ends);
    HeaderCodeIs();
    HeaderIsSubmission(PLAIN_HEADER);
    RenderedBlock(items, IsSubmission);
    CodeForRendered(items);
    TokensFound(items);
    PatternsFound(items);
    ItemCode(items[0]);
    OnlyCandidate(lines, Block(0, 25));
  }

  lemma {:induction false} OnlyCandidate(lines: seq<string>, block: Block)
    requires block.start < block.end < |lines| && HasTokens(Lower(CodeFor(lines, block)))
        && HasPatterns(Lower(CodeFor(lines, block)))
    requires Code(lines[block.start]) == Some(PLAIN_HEADER)
    ensures DefaultBlock(lines, [block]) == Some(block)
  {
    assert [block][1..] == [];
    assert Candidates(lines, [block]) == [block] + [];
    assert [block] + [] == [block];
  }

  // ---------------------------------------------------------------------------------------
  // The choice
  // ---------------------------------------------------------------------------------------

  function RowsOf(lone: bool, ends: bool): seq<Row> {
    InnerRows(LinesOf(Items(lone, ends)), Block(0, 25))
  }

  lemma {:induction false} RowIs(k: nat, lone: bool, ends: bool)
    requires 1 <= k <= 24
    ensures var row, item := RowsOf(lone, ends)[k - 1], Entry(k, lone, ends);
      && row.depth == Table(k, lone, ends) && row.delta == Move(item.last) && row.code == Some(CodeOf(item))
      && row.isTls == Directive(LineOf(item), "tls") && row.isAuth == Directive(LineOf(item), "auth")
          && row.indent == Leading(LineOf(item))
  {
    var items, lines := Items(lone, ends), LinesOf(Items(lone, ends));
    ItemsAreGood(lone, ends);
    RenderedDepth(items, k);
    HeightIs(k, lone, ends);
    ItemCode(items[k]);
    ItemDelta(items[k]);
    RowAt(lines, k);
    assert lines[k] == LineOf(items[k]) && items[k] == Entry(k, lone, ends);
  }

  lemma {:induction false} RowAt(lines: seq<string>, k: nat)
    requires |lines| == SIZE && 1 <= k <= 24
    ensures InnerRows(lines, Block(0, 25))[k - 1] == RowOf(lines, k)
  {
  }

  /** A line that begins with this letter, none of `t`, `a` and `l`. */
  lemma {:induction false} OtherLetter(item: Item)
    requires Good(item) && item.head != [] && item.head[0].word != ""
    requires item.head[0].word[0] != 't' && item.head[0].word[0] != 'a' && item.head[0].word[0] != 'l'
    ensures !Directive(LineOf(item), "tls") && !Directive(LineOf(item), "auth") && CodeOf(item) != LIMITS
  {
    FirstLetter(item);
    assert "tls"[0] == 't' && "auth"[0] == 'a' && LIMITS[0] == 'l';
    NotDirective(item, "tls");
    NotDirective(item, "auth");
  }

  lemma {:induction false} LimitsLine()
    ensures var item := Entry(1, true, true);
      CodeOf(item) == LIMITS && !Directive(LineOf(item), "tls") && !Directive(LineOf(item), "auth")
          && Leading(LineOf(item)) == Pad(4)
  {
    var item := Entry(1, true, true);
    EntryIsGood(1, true, true);
    RenderOne("limits", "{");
    assert Pieces(item) == [Lit("limits"), Spaces, Lit("{")] && " {" == " " + "{";
    FirstLetter(item);
    assert "tls"[0] == 't' && "auth"[0] == 'a';
    NotDirective(item, "tls");
    NotDirective(item, "auth");
    ItemIndent(item);
  }

  lemma {:induction false} AuthCode()
    ensures CodeOf(Entry(4, true, true)) == AUTH
  {
    RenderOne("auth", "&local_authdb");
    assert Pieces(Entry(4, true, true)) == [Lit("auth"), Spaces, Lit("&local_authdb")];
    assert "auth " == "auth" + " ";
  }

  lemma {:induction false} AuthLineIs()
    ensures var item := Entry(4, true, true);
      CodeOf(item) == AUTH && CodeOf(item) != LIMITS && !Directive(LineOf(item), "tls")
          && Directive(LineOf(item), "auth") && Leading(LineOf(item)) == Pad(4)
  {
    EntryIsGood(4, true, true);
    AuthCode();
    ItemIndent(Entry(4, true, true));
    AuthLike(Entry(4, true, true));
  }

  lemma {:induction false} AuthLike(item: Item)
    requires Good(item) && CodeOf(item) == AUTH
    ensures AUTH != LIMITS && !Directive(LineOf(item), "tls") && Directive(LineOf(item), "auth")
  {
    assert "auth " == "auth" + " " && "auth"[0] == 'a' && "tls"[0] == 't' && LIMITS[0] == "limits"[0] == 'l';
    assert AUTH == "auth" + (" " + "&local_authdb") && AUTH[0] == 'a';
    NotDirective(item, "tls");
    AuthIsDirective(item);
  }

  lemma {:induction false} AuthIsDirective(item: Item)
    requires Good(item) && CodeOf(item) == "auth" + (" " + "&local_authdb")
    ensures Directive(LineOf(item), "auth")
  {
    AuthRest();
    IsDirective(item, "auth", " " + "&local_authdb");
  }

  lemma {:induction false} AuthRest()
    ensures var rest := " " + "&local_authdb";
        |rest| >= 2 && rest[0] == ' ' && '#' !in rest && '{' !in rest && '}' !in rest
  {
    assert Calm("&local_authdb");
  }

  lemma {:induction false} BlankLine(lone: bool, ends: bool)
    requires !lone
    ensures var item := Entry(3, lone, ends);
      CodeOf(item) != LIMITS && !Directive(LineOf(item), "tls") && !Directive(LineOf(item), "auth")
  {
    var item := Entry(3, lone, ends);
    EntryIsGood(3, lone, ends);
    RenderMore(item.head, item.last);
    assert CodeOf(item) == "" && LIMITS[0] == 'l';
    NotDirective(item, "tls");
    NotDirective(item, "auth");
  }

  lemma {:induction false} SourceLine()
    ensures var item := Entry(5, true, true);
        !Directive(LineOf(item), "tls") && !Directive(LineOf(item), "auth") && CodeOf(item) != LIMITS
  {
    EntryIsGood(5, true, true);
    assert "source"[0] == 's';
    OtherLetter(Entry(5, true, true));
  }

  lemma {:induction false} DefaultLine()
    ensures var item := Entry(22, true, true);
        !Directive(LineOf(item), "tls") && !Directive(LineOf(item), "auth") && CodeOf(item) != LIMITS
  {
    EntryIsGood(22, true, true);
    assert "default_source"[0] == 'd';
    OtherLetter(Entry(22, true, true));
  }

  /** The lines at depth 1: one `limits` line, one `auth` line, no `tls` line. */
  lemma {:induction false} ShallowLine(k: nat, lone: bool, ends: bool)
    requires 1 <= k <= 24 && Table(k, lone, ends) == 1
    ensures var item := Entry(k, lone, ends);
      && !Directive(LineOf(item), "tls") && (Directive(LineOf(item), "auth") <==> k == 4)
          && (CodeOf(item) == LIMITS <==> k == 1)
  {
    assert k == 1 || k == 4 || k == 5 || k == 22 || (k == 3 && !lone);
    if k == 3 {
      BlankLine(lone, ends);
    } else {
      SameEntry(k, lone, ends);
      if k == 1 {
        LimitsLine();
      } else if k == 4 {
        AuthLineIs();
      } else if k == 5 {
        SourceLine();
      } else {
        DefaultLine();
      }
    }
  }

  /** What there is to see in the rows. */
  ghost predicate Visible(rows: seq<Row>) {
    && |rows| == 24 && CodeAt(rows, 0, 1, LIMITS) && CodeAt(rows, 3, 1, AUTH) && rows[3].isAuth
        && CodeAt(rows, 20, 2, BRACE)
    && forall i :: 0 <= i < 24 ==> ShallowRow(rows, i)
  }

  ghost predicate ShallowRow(rows: seq<Row>, i: nat) {
    i < |rows| && rows[i].depth == 1 ==>
      !rows[i].isTls && (rows[i].isAuth <==> i == 3) && (rows[i].code == Some(LIMITS) <==> i == 0)
  }

  lemma {:induction false} RowShallow(i: nat, lone: bool, ends: bool)
    requires i < 24
    ensures ShallowRow(RowsOf(lone, ends), i)
  {
    RowIs(i + 1, lone, ends);
    if Table(i + 1, lone, ends) == 1 {
      ShallowLine(i + 1, lone, ends);
    }
  }

  lemma {:induction false} LimitsRow(lone: bool, ends: bool)
    ensures CodeAt(RowsOf(lone, ends), 0, 1, LIMITS) && RowsOf(lone, ends)[0].indent == Pad(4)
  {
    RowIs(1, lone, ends);
    SameEntry(1, lone, ends);
    LimitsLine();
  }

  lemma {:induction false} AuthRow(lone: bool, ends: bool)
    ensures CodeAt(RowsOf(lone, ends), 3, 1, AUTH) && RowsOf(lone, ends)[3].isAuth
        && RowsOf(lone, ends)[3].indent == Pad(4)
  {
    RowIs(4, lone, ends);
    SameEntry(4, lone, ends);
    AuthLineIs();
  }

  lemma {:induction false} SourceEndRow(lone: bool, ends: bool)
    ensures CodeAt(RowsOf(lone, ends), 20, 2, BRACE)
  {
    RowIs(21, lone, ends);
    BraceLine(21, lone, ends);
  }

  lemma {:induction false} RowsVisible(lone: bool, ends: bool)
    ensures Visible(RowsOf(lone, ends)) && RowsOf(lone, ends)[0].indent == Pad(4)
        && RowsOf(lone, ends)[3].indent == Pad(4)
  {
    forall i | 0 <= i < 24 ensures ShallowRow(RowsOf(lone, ends), i) {
      RowShallow(i, lone, ends);
    }
    LimitsRow(lone, ends);
    AuthRow(lone, ends);
    SourceEndRow(lone, ends);
  }

  lemma {:induction false} BraceLine(k: nat, lone: bool, ends: bool)
    requires Entry(k, lone, ends).head == [] && Entry(k, lone, ends).last == "}"
    ensures CodeOf(Entry(k, lone, ends)) == BRACE
  {
    RenderMore([], "}");
  }

  lemma {:induction false} WhereOnly(n: nat, p: nat -> bool, k: nat)
    requires k < n && forall i: nat :: i < n ==> (p(i) <==> i == k)
    ensures Where(n, p) == [k]
  {
    if k == n - 1 {
      WhereNone(n - 1, p);
    } else {
      WhereOnly(n - 1, p, k);
    }
  }

  lemma {:induction false} WhereNone(n: nat, p: nat -> bool)
    requires forall i: nat :: i < n ==> !p(i)
    ensures Where(n, p) == []
  {
    if n > 0 {
      WhereNone(n - 1, p);
    }
  }

  lemma {:induction false} AuthChosen(rows: seq<Row>)
    requires Visible(rows)
    ensures AuthLine(rows) == Some(3)
  {
    forall i: nat | i < 24 ensures !IsTls(rows)(i) && (IsAuth(rows)(i) <==> i == 3) {
      assert ShallowRow(rows, i);
    }
    WhereNone(24, IsTls(rows));
    WhereOnly(24, IsAuth(rows), 3);
  }

  lemma {:induction false} LimitsChosen(rows: seq<Row>)
    requires Visible(rows)
    ensures LimitsStart(rows) == Some(0) && LimitsEnd(rows, 0).Some? && LimitsEnd(rows, 0).value < 24
  {
    forall i: nat | i < 24 ensures OpensLimits(rows)(i) <==> i == 0 {
      assert ShallowRow(rows, i);
    }
    WhereOnly(24, OpensLimits(rows), 0);
    assert LoneBrace(rows, 0)(20);
    WhereMember(24, LoneBrace(rows, 0), 20);
    WhereLeast(24, LoneBrace(rows, 0));
  }

  /** Such rows have exactly one `auth` and one `limits` line, and an end for the latter. */
  lemma {:induction false} RowsChosen(rows: seq<Row>, block: Block) returns (choice: Choice)
    requires Visible(rows)
    ensures ChooseIn(rows, block) == Some(choice) && LimitsStart(rows) == Some(0)
    ensures choice.block == block && choice.authIndent == rows[3].indent && choice.limitsIndent == rows[0].indent
        && choice.at < 24
  {
    AuthChosen(rows);
    LimitsChosen(rows);
    choice := Choice(block, rows[3].indent, rows[0].indent, LimitsEnd(rows, 0).value);
  }

  // ---------------------------------------------------------------------------------------
  // The copy
  // ---------------------------------------------------------------------------------------

  function ListenerItem(): Item {
    Item(0, [Lit("submission"), Spaces, Lit("tcp://127.0.0.1:1587"), Spaces], "{")
  }

  function TlsItem(): Item {
    Item(4, [Lit("tls"), Spaces], "off")
  }

  function LimitItem(): Item {
    Item(8, [Lit("all"), Spaces, Lit("concurrency"), Spaces], "2")
  }

  function ClosingItem(): Item {
    Item(0, [], "}")
  }

  function CopyItems(inner: seq<Item>, at: nat): seq<Item>
    requires at <= |inner|
  {
    Around(ListenerItem(), TlsItem(), inner, at, LimitItem(), ClosingItem())
  }

  function Around(h: Item, x: Item, inner: seq<Item>, at: nat, l: Item, c: Item): seq<Item>
    requires at <= |inner|
  {
    [h] + (([x] + (inner[..at] + ([l] + inner[at..]))) + [c])
  }

  lemma {:induction false} LinesConcat(a: seq<Item>, b: seq<Item>)
    ensures LinesOf(a + b) == LinesOf(a) + LinesOf(b)
  {
  }

  lemma {:induction false} LinesOne(item: Item)
    ensures LinesOf([item]) == [LineOf(item)]
  {
  }

  lemma {:induction false} CopyLines(h: Item, x: Item, a: seq<Item>, l: Item, b: seq<Item>, c: Item)
    ensures LinesOf([h] + (([x] + (a + ([l] + b))) + [c])) ==
            [LineOf(h)] + (([LineOf(x)] + (LinesOf(a) + ([LineOf(l)] + LinesOf(b)))) + [LineOf(c)])
  {
    LinesConcat([h], ([x] + (a + ([l] + b))) + [c]);
    LinesConcat([x] + (a + ([l] + b)), [c]);
    LinesConcat([x], a + ([l] + b));
    LinesConcat(a, [l] + b);
    LinesConcat([l], b);
    LinesOne(h);
    LinesOne(x);
    LinesOne(l);
    LinesOne(c);
  }

  lemma {:induction false} ListenerLine()
    ensures LineOf(ListenerItem()) == TEXTS.Header() + "\n"
  {
    ListenerPieces();
    ListenerHeader();
    ListenerText(ListenerItem(), "submission", "tcp://127.0.0.1:1587", "{", TEXTS.Header());
  }

  lemma {:induction false} ListenerPieces()
    ensures Pieces(ListenerItem()) == [Lit("submission"), Spaces, Lit("tcp://127.0.0.1:1587"), Spaces, Lit("{")]
  {
  }

  lemma {:induction false} ListenerHeader()
    ensures TEXTS.Header() == ("submission" + " ") + "tcp://127.0.0.1:1587" + (" " + "{")
  {
    HeaderBlanks();
  }

  lemma {:induction false} ListenerText(item: Item, a: string, b: string, l: string, header: string)
    requires item.indent == 0 && Pieces(item) == [Lit(a), Spaces, Lit(b), Spaces, Lit(l)]
    requires header == (a + " ") + b + (" " + l)
    ensures LineOf(item) == header + "\n"
  {
    RenderTwo(a, b, l);
    assert Pad(0) == "";
    assert (a + " ") + ((b + " ") + l) == header;
  }

  lemma {:induction false} TlsLine()
    ensures LineOf(TlsItem()) == Pad(4) + TEXTS.tls + "\n"
  {
    RenderOne("tls", "off");
    assert Pieces(TlsItem()) == [Lit("tls"), Spaces, Lit("off")];
    assert "tls off" == "tls" + (" " + "off");
  }

  lemma {:induction false} LimitLine()
    ensures LineOf(LimitItem()) == Pad(4) + "    " + TEXTS.limit + "\n"
  {
    RenderTwo("all", "concurrency", "2");
    LimitPieces();
    LimitBlanks();
    assert Pad(8) == Pad(4) + "    ";
  }

  lemma {:induction false} LimitPieces()
    ensures Pieces(LimitItem()) == [Lit("all"), Spaces, Lit("concurrency"), Spaces, Lit("2")]
  {
  }

  lemma {:induction false} LimitBlanks()
    ensures "all concurrency 2" == ("all" + " ") + (("concurrency" + " ") + "2")
  {
  }

  lemma {:induction false} ClosingLine()
    ensures LineOf(ClosingItem()) == "}" + "\n"
  {
    RenderMore([], "}");
    assert Pad(0) == "";
  }

  /** The editor's copy of the inner lines, as rendered lines. */
  lemma {:induction false} CopyRendered(inner: seq<Item>, choice: Choice)
    requires choice.at <= |inner| && choice.authIndent == Pad(4) && choice.limitsIndent == Pad(4)
    ensures Between(TEXTS, LinesOf(inner), choice, "\n") == LinesOf(CopyItems(inner, choice.at))
  {
    var at := choice.at;
    CopyLines(ListenerItem(), TlsItem(), inner[..at], LimitItem(), inner[at..], ClosingItem());
    ListenerLine();
    TlsLine();
    LimitLine();
    ClosingLine();
    assert LinesOf(inner)[..at] == LinesOf(inner[..at]) && LinesOf(inner)[at..] == LinesOf(inner[at..]);
  }

  // Its checks

  lemma {:induction false} AddedMute()
    ensures MuteItem(ListenerItem()) && MuteItem(TlsItem()) && MuteItem(ClosingItem())
  {
    MuteTwo(0, "submission", "tcp://127.0.0.1:1587", Spaces, "{");
    MuteOne(4, "tls", Spaces, "off");
    MuteNone(0, "}");
  }

  lemma {:induction false} LimitLacks()
    ensures Good(LimitItem()) && Lacks(TextOf(LimitItem()), 'h')
  {
    var item := LimitItem();
    LimitWords();
    forall i | 0 <= i < 4 ensures CalmPiece(item.head[i]) && (item.head[i].Lit? ==> Lacks(item.head[i].word, 'h')) {
    }
    ItemLacks(item, 'h');
  }

  lemma {:induction false} LimitWords()
    ensures Calm("all") && Calm("concurrency") && Calm("2") && Lacks("all", 'h') && Lacks("concurrency", 'h')
        && Lacks("2", 'h')
  {
  }

  /** A line that cannot hold the words about authentication. */
  ghost predicate Silent(item: Item) {
    Good(item) && !Contains(TextOf(item), AUTH) && !Contains(TextOf(item), DUMMY)
  }

  lemma {:induction false} AuthLetters()
    ensures |AUTH| > 5 && AUTH[0] == 'a' && AUTH[3] == 'h' && AUTH[5] == '&' && '\n' !in AUTH
    ensures |DUMMY| > 9 && DUMMY[3] == 'h' && DUMMY[9] == 'y' && '\n' !in DUMMY
  {
    assert AUTH[5] == "&local_authdb"[0];
    assert DUMMY[9] == "dummy"[4];
  }

  lemma {:induction false} NoHIsSilent(item: Item)
    requires Good(item) && Lacks(TextOf(item), 'h')
    ensures Silent(item)
  {
    AuthLetters();
    LackingWord(TextOf(item), AUTH, 3);
    LackingWord(TextOf(item), DUMMY, 3);
  }

  lemma {:induction false} NoAmpIsSilent(item: Item)
    requires Good(item) && Lacks(TextOf(item), '&') && Lacks(TextOf(item), 'y')
    ensures Silent(item)
  {
    AuthLetters();
    LackingWord(TextOf(item), AUTH, 5);
    LackingWord(TextOf(item), DUMMY, 9);
  }

  lemma {:induction false} EntrySilent(k: nat, lone: bool, ends: bool)
    requires k < SIZE && k != 4
    ensures Silent(Entry(k, lone, ends))
  {
    if !Special(k) {
      MuteEntry(k, lone, ends);
      MuteIsGood(Entry(k, lone, ends));
      NoHIsSilent(Entry(k, lone, ends));
    } else {
      SpecialEntry(k, lone, ends);
      if k == 6 || k == 7 {
        NoAmpIsSilent(Entry(k, lone, ends));
      } else {
        NoHIsSilent(Entry(k, lone, ends));
      }
    }
  }

  lemma {:induction false} AddedSilent()
    ensures Silent(ListenerItem()) && Silent(TlsItem()) && Silent(LimitItem()) && Silent(ClosingItem())
  {
    AddedMute();
    MuteIsGood(ListenerItem());
    MuteIsGood(TlsItem());
    MuteIsGood(ClosingItem());
    LimitLacks();
    NoHIsSilent(ListenerItem());
    NoHIsSilent(TlsItem());
    NoHIsSilent(ClosingItem());
    NoHIsSilent(LimitItem());
  }

  lemma {:induction false} PaddedOnce(n: nat, w: string)
    requires w != "" && w[0] != ' '
    ensures Occurrences(Pad(n) + w, w) == 1
  {
    if n == 0 {
      assert Pad(0) + w == w && w[|w|..] == "" && w[..|w|] == w;
    } else {
      assert (Pad(n) + w)[1..] == Pad(n - 1) + w && (Pad(n) + w)[..|w|][0] == ' ';
      PaddedOnce(n - 1, w);
    }
  }

  lemma {:induction false} AuthOnce()
    ensures Occurrences(TextOf(Entry(4, true, true)), AUTH) == 1 && !Contains(TextOf(Entry(4, true, true)), DUMMY)
        && Good(Entry(4, true, true))
  {
    var item := Entry(4, true, true);
    AuthLetters();
    AuthLineIs();
    AuthEntry();
    LackingWord(TextOf(item), DUMMY, 9);
    PaddedOnce(4, AUTH);
  }

  // The copy passes the checks

  function InnerItems(lone: bool, ends: bool): seq<Item> {
    Items(lone, ends)[1..25]
  }

  /** Silent lines, except for the one `auth` line. */
  ghost predicate OneVoice(items: seq<Item>, m: nat) {
    && m < |items| && items[m] == Entry(4, true, true)
    && forall k :: 0 <= k < |items| && k != m ==> Silent(items[k])
  }

  lemma {:induction false} InnerVoice(lone: bool, ends: bool)
    ensures |InnerItems(lone, ends)| == 24 && OneVoice(InnerItems(lone, ends), 3)
  {
    var inner := InnerItems(lone, ends);
    SameEntry(4, lone, ends);
    forall k | 0 <= k < 24 ensures inner[k] == Entry(k + 1, lone, ends) && (k != 3 ==> Silent(inner[k])) {
      if k != 3 {
        EntrySilent(k + 1, lone, ends);
      }
    }
  }

  lemma {:induction false} CopyVoice(inner: seq<Item>, m: nat, at: nat)
    requires OneVoice(inner, m) && at <= |inner|
    ensures OneVoice(CopyItems(inner, at), if m < at then 2 + m else 3 + m)
  {
    AddedSilent();
    AroundVoice(ListenerItem(), TlsItem(), inner, at, LimitItem(), ClosingItem(), m);
  }

  lemma {:induction false} AroundAt(h: Item, x: Item, inner: seq<Item>, at: nat, l: Item, c: Item, k: nat)
    requires at <= |inner| && k < |inner| + 4
    ensures |Around(h, x, inner, at, l, c)| == |inner| + 4
    ensures Around(h, x, inner, at, l, c)[k] ==
            if k == 0 then h else if k == 1 then x else if k < 2 + at then inner[k - 2] else if k == 2 + at then l
            else if k < 3 + |inner| then inner[k - 3] else c
  {
  }

  lemma {:induction false} AroundVoice(h: Item, x: Item, inner: seq<Item>, at: nat, l: Item, c: Item, m: nat)
    requires OneVoice(inner, m) && at <= |inner| && Silent(h) && Silent(x) && Silent(l) && Silent(c)
    ensures OneVoice(Around(h, x, inner, at, l, c), if m < at then 2 + m else 3 + m)
  {
    var items, n := Around(h, x, inner, at, l, c), if m < at then 2 + m else 3 + m;
    AroundAt(h, x, inner, at, l, c, n);
    forall k | 0 <= k < |items| && k != n ensures Silent(items[k]) {
      AroundAt(h, x, inner, at, l, c, k);
    }
  }

  lemma {:induction false} VoiceIsGood(items: seq<Item>, m: nat)
    requires OneVoice(items, m)
    ensures AllGood(items) && !Contains(Lined(TextsOf(items)), DUMMY) && Occurrences(Lined(TextsOf(items)), AUTH) == 1
  {
    var texts := TextsOf(items);
    AuthOnce();
    AuthLetters();
    forall k | 0 <= k < |items| ensures Good(items[k]) && !Contains(texts[k], DUMMY)
        && (k != m ==> !Contains(texts[k], AUTH)) {
      assert k != m ==> Silent(items[k]);
    }
    NotInLines(texts, DUMMY);
    TotalOne(texts, AUTH, m);
    OccurrencesLined(texts, AUTH);
  }

  lemma {:induction false} CopyWanted(inner: seq<Item>, at: nat)
    requires HasWanted(inner) && at <= |inner|
    ensures HasWanted(CopyItems(inner, at))
  {
    forall k: nat | Wanted(k) ensures Entry(k, true, true) in CopyItems(inner, at) {
      CopyKeeps(inner, at, Entry(k, true, true));
    }
  }

  lemma {:induction false} CopyKeeps(inner: seq<Item>, at: nat, item: Item)
    requires item in inner && at <= |inner|
    ensures item in CopyItems(inner, at)
  {
    assert inner == inner[..at] + inner[at..];
    assert item in inner[..at] || item in inner[at..];
  }

  lemma {:induction false} InnerWanted(lone: bool, ends: bool)
    ensures HasWanted(InnerItems(lone, ends))
  {
    forall k: nat | Wanted(k) ensures Entry(k, true, true) in InnerItems(lone, ends) {
      SameEntry(k, lone, ends);
      assert InnerItems(lone, ends)[k - 1] == Items(lone, ends)[k];
    }
  }

  lemma {:induction false} CopySound(lone: bool, ends: bool, at: nat)
    requires at <= 24
    ensures |InnerItems(lone, ends)| == 24 && Sound(LinesOf(CopyItems(InnerItems(lone, ends), at)))
  {
    var inner := InnerItems(lone, ends);
    InnerVoice(lone, ends);
    var items := CopyItems(inner, at);
    CopyVoice(inner, 3, at);
    VoiceIsGood(items, if 3 < at then 2 + 3 else 3 + 3);
    InnerWanted(lone, ends);
    CopyWanted(inner, at);
    TokensFound(items);
    ManagedRendered(items);
  }
}
