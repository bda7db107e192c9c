/**
 When the delivery filter is added and where it then stands, apart from the editor's own search
 and check: by the depths of the lines and the lines themselves.
 */
module ImapFilterMeaning {
  import opened Options
  import opened ConfigScan
  import opened ConfigMeaning
  import opened ImapFilterConfig
  import opened ImapFilterScript

  /** The only storage block of a balanced configuration. */
  ghost predicate OnlyStorage(t: Texts, lines: seq<string>, b: Block) {
    Balanced(lines) && forall other :: IsBlock(lines, Header(t), other) <==> other == b
  }

  ghost predicate Unmarked(t: Texts, lines: seq<string>) {
    forall i :: 0 <= i < |lines| ==> Strip(lines[i]) != t.begin && Strip(lines[i]) != t.end
  }

  /** The filter can be added: there is one storage block, on more than one line, with no filter
      in it, and no line that looks like a marker. */
  ghost predicate Addable(t: Texts, lines: seq<string>, b: Block) {
    && OnlyStorage(t, lines, b) && b.start < b.end && Unmarked(t, lines)
    && forall i :: b.start < i < b.end ==> !FilterAt(t, lines, i)
  }

  lemma {:induction false} OnlyOne(t: Texts, lines: seq<string>, b: Block)
    ensures StorageBlock(t, lines) == Some(b) <==> OnlyStorage(t, lines, b)
  {
    BlocksExactly(lines, Header(t));
    if FindBlocks(lines, Header(t)).Some? {
      var blocks := FindBlocks(lines, Header(t)).value;
      if StorageBlock(t, lines) == Some(b) {
        assert blocks == [b];
      }
      if OnlyStorage(t, lines, b) {
        OnlyMember(lines, Header(t), blocks, b);
      }
    }
  }

  lemma {:induction false} OnlyMember(lines: seq<string>, header: string -> bool, blocks: seq<Block>, b: Block)
    requires forall other :: other in blocks <==> other == b
    requires IsBlock(lines, header, b)
    requires forall i, j :: 0 <= i < j < |blocks| ==> blocks[i].end < blocks[j].start
    ensures blocks == [b]
  {
    assert b in blocks;
    forall i | 0 <= i < |blocks| ensures blocks[i] == b {
      assert blocks[i] in blocks;
    }
    assert |blocks| > 1 ==> blocks[0].end < blocks[1].start;
  }

  lemma {:induction false} UnmarkedExactly(t: Texts, lines: seq<string>)
    ensures MarkerRange(t, lines) == Absent <==> Unmarked(t, lines)
  {
    PositionsNone(lines, Shows(t.begin), |lines|);
    PositionsNone(lines, Shows(t.end), |lines|);
    forall i | 0 <= i < |lines|
      ensures MarkAt(lines, Shows(t.begin), i) <==> Strip(lines[i]) == t.begin
      ensures MarkAt(lines, Shows(t.end), i) <==> Strip(lines[i]) == t.end
    {
    }
  }

  lemma {:induction false} EditableExactly(t: Texts, lines: seq<string>)
    ensures Editable(t, lines) <==> exists b :: Addable(t, lines, b)
    ensures forall b :: Addable(t, lines, b) ==> StorageBlock(t, lines) == Some(b)
  {
    UnmarkedExactly(t, lines);
    forall b ensures StorageBlock(t, lines) == Some(b) <==> OnlyStorage(t, lines, b) {
      OnlyOne(t, lines, b);
    }
    if Editable(t, lines) {
      assert Addable(t, lines, StorageBlock(t, lines).value);
    }
    if b :| Addable(t, lines, b) {
      assert StorageBlock(t, lines) == Some(b) && IsBlock(lines, Header(t), b);
    }
  }

  /** The five lines that are added. */
  function FiveLines(indent: string, newline: string, command: string): seq<string> {
    [indent + "# BEGIN MADDYWEB MANAGED IMAP FILTER v1" + newline,
     indent + "imap_filter {" + newline,
     indent + "    " + command + newline,
     indent + "}" + newline,
     indent + "# END MADDYWEB MANAGED IMAP FILTER v1" + newline]
  }

  /** The words of the script. */
  ghost predicate Named(t: Texts) {
    && t.begin == "# BEGIN MADDYWEB MANAGED IMAP FILTER v1" && t.end == "# END MADDYWEB MANAGED IMAP FILTER v1"
    && t.filter == "imap_filter"
  }

  lemma {:induction false} ExpectedIs(t: Texts, indent: string, newline: string, command: string)
    requires Named(t)
    ensures Expected(t, indent, newline, command) == FiveLines(indent, newline, command)
  {
    assert t.filter + " {" == "imap_filter {";
    assert indent + ("    " + command) == indent + "    " + command;
  }

  /** The configuration with the filter: its five lines before the closing line of the block, in
      the block's indentation and four spaces more, and a blank line first where text stands
      directly before them. */
  ghost predicate Added(lines: seq<string>, b: Block, newline: string, command: string, built: string) {
    && b.start < b.end < |lines|
    && var gap := if b.end > b.start + 1 && !AllSpace(lines[b.end - 1]) then [newline] else [];
    var five := FiveLines(Leading(lines[b.start]) + "    ", newline, command);
    built == Join(lines[..b.end] + (gap + five) + lines[b.end..])
  }

  lemma {:induction false} BuiltIs(t: Texts, text: string, command: string, b: Block)
    requires BuildManaged(t, text, command).Some? && StorageBlock(t, Split(text)) == Some(b)
    ensures b.start < b.end < |Split(text)|
    ensures var lines := Split(text);
      BuildManaged(t, text, command).value ==
        Join(lines[..b.end] + Insertion(t, lines, b, Newline(text), command) + lines[b.end..])
  {
  }

  lemma {:induction false} InsertionIs(t: Texts, lines: seq<string>, b: Block, newline: string, command: string)
    requires Named(t) && b.start < b.end < |lines|
    ensures Added(lines, b, newline, command,
                  Join(lines[..b.end] + Insertion(t, lines, b, newline, command) + lines[b.end..]))
  {
    BlankIsSpace(lines[b.end - 1]);
    ExpectedIs(t, Leading(lines[b.start]) + "    ", newline, command);
  }

  lemma {:induction false} AddsExactly(t: Texts, text: string, command: string)
    requires ProperWords(t) && ProperCommand(t, command) && Named(t)
    ensures BuildManaged(t, text, command).Some? <==> exists b :: Addable(t, Split(text), b)
    ensures forall b :: Addable(t, Split(text), b) && BuildManaged(t, text, command).Some? ==>
      Added(Split(text), b, Newline(text), command, BuildManaged(t, text, command).value)
  {
    EditableExactly(t, Split(text));
    BuildsExactly(t, text, command);
    forall b | Addable(t, Split(text), b) && BuildManaged(t, text, command).Some?
      ensures Added(Split(text), b, Newline(text), command, BuildManaged(t, text, command).value)
    {
      BuiltIs(t, text, command, b);
      InsertionIs(t, Split(text), b, Newline(text), command);
    }
  }

  lemma {:induction false} BuildsExactly(t: Texts, text: string, command: string)
    requires ProperWords(t) && ProperCommand(t, command)
    ensures BuildManaged(t, text, command).Some? <==> Editable(t, Split(text))
  {
    if Editable(t, Split(text)) {
      BuildThenRemove(t, text, command);
    }
  }

  /** The script adds its filter exactly to the configurations that are balanced, have one storage
      block with no filter in it, and no marker; and it adds exactly its five lines there. */
  lemma {:induction false} ScriptAddsExactly(text: string, mode: Mode)
    ensures BuildManaged(TEXTS, text, Command(mode)).Some? <==> exists b :: Addable(TEXTS, Split(text), b)
    ensures forall b :: Addable(TEXTS, Split(text), b) && BuildManaged(TEXTS, text, Command(mode)).Some? ==>
      Added(Split(text), b, Newline(text), Command(mode), BuildManaged(TEXTS, text, Command(mode)).value)
  {
    CommandsAreProper(mode);
    AddsExactly(TEXTS, text, Command(mode));
  }
}
