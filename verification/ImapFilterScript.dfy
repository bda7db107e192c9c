/**
 The script that manages Maddy's delivery filter, with its own words and its two commands: what
 ImapFilterConfig proves of the editor holds of it, for every configuration it accepts.
 */
module ImapFilterScript {
  import opened Options
  import opened ConfigScan
  import opened ImapFilterConfig

  datatype Mode = Native | Docker

  const NATIVE := "command /opt/maddyweb/" + "current/bin/python " + "-I -m " + "maddyweb." + "filter_client "
      + "{account_name}"
  const DOCKER := "command /data/" + "maddyweb-filter/" + "maddyweb-" + "filter-client " + "{account_name}"

  function Command(mode: Mode): string {
    if mode == Native then NATIVE else DOCKER
  }

  predicate Quiet(c: char) {
    !(c == '"' || c == '\'' || c == '#' || c == '\n' || c == '{' || c == '}')
  }

  predicate AllQuiet(s: string) {
    forall i :: 0 <= i < |s| ==> Quiet(s[i])
  }

  lemma {:induction false} QuietCount(s: string)
    requires AllQuiet(s)
    ensures Count(s, '{') == 0 && Count(s, '}') == 0
  {
    CountNone(s, '{');
    CountNone(s, '}');
  }

  /** A command of quiet words that ends with one word in braces. */
  lemma {:induction false} BracedCommand(t: Texts, words: string, name: string)
    requires ProperWords(t) && AllQuiet(words) && AllQuiet(name) && words != "" && !IsSpace(words[0])
        && words[0] != t.filter[0]
    ensures ProperCommand(t, words + ("{" + name + "}"))
  {
    var braced := "{" + name + "}";
    QuietCount(words);
    QuietCount(name);
    CountConcat(words, braced, '{');
    CountConcat(words, braced, '}');
    CountConcat("{" + name, "}", '{');
    CountConcat("{" + name, "}", '}');
    CountConcat("{", name, '{');
    CountConcat("{", name, '}');
    assert "{"[1..] == "" && "}"[1..] == "";
    assert forall i :: 0 <= i < |words + braced| ==>
        Quiet((words + braced)[i]) || (words + braced)[i] == '{' || (words + braced)[i] == '}';
  }

  lemma {:induction false} NativeWords()
    ensures AllQuiet("command /opt/maddyweb/" + "current/bin/python " + "-I -m " + "maddyweb." + "filter_client ")
  {
    assert AllQuiet("command /opt/maddyweb/") && AllQuiet("current/bin/python ") && AllQuiet("-I -m ");
    assert AllQuiet("maddyweb.") && AllQuiet("filter_client ");
  }

  lemma {:induction false} DockerWords()
    ensures AllQuiet("command /data/" + "maddyweb-filter/" + "maddyweb-" + "filter-client ")
  {
    assert AllQuiet("command /data/") && AllQuiet("maddyweb-filter/") && AllQuiet("maddyweb-")
        && AllQuiet("filter-client ");
  }

  lemma {:induction false} NativeIsProper(t: Texts)
    requires ProperWords(t) && t.filter[0] != 'c'
    ensures ProperCommand(t, NATIVE)
  {
    var words := "command /opt/maddyweb/" + "current/bin/python " + "-I -m " + "maddyweb." + "filter_client ";
    NativeWords();
    assert words[0] == 'c' && AllQuiet("account_name");
    assert "{account_name}" == "{" + "account_name" + "}";
    BracedCommand(t, words, "account_name");
  }

  lemma {:induction false} DockerIsProper(t: Texts)
    requires ProperWords(t) && t.filter[0] != 'c'
    ensures ProperCommand(t, DOCKER)
  {
    var words := "command /data/" + "maddyweb-filter/" + "maddyweb-" + "filter-client ";
    DockerWords();
    assert words[0] == 'c' && AllQuiet("account_name");
    assert "{account_name}" == "{" + "account_name" + "}";
    BracedCommand(t, words, "account_name");
  }

  /** Both commands of the script are commands as the proofs assume them. */
  lemma {:induction false} CommandsAreProper(mode: Mode)
    ensures ProperWords(TEXTS) && ProperCommand(TEXTS, Command(mode))
  {
    TextsAreProper();
    assert TEXTS.filter[0] == 'i';
    if mode == Native {
      NativeIsProper(TEXTS);
    } else {
      DockerIsProper(TEXTS);
    }
  }

  /** For every configuration to which the script adds its filter, removing it gives the text
      back if and only if the line before the storage block's closing line is not blank, and
      otherwise the text without that line. */
  lemma {:induction false} ScriptRoundTrip(text: string, mode: Mode, built: string)
    requires BuildManaged(TEXTS, text, Command(mode)) == Some(built)
    ensures Editable(TEXTS, Split(text))
    ensures RoundTrips(TEXTS, text, Command(mode), built)
  {
    CommandsAreProper(mode);
    EditorRoundTrip(TEXTS, text, Command(mode), built);
  }

  ghost predicate RoundTrips(t: Texts, text: string, command: string, built: string)
    requires Editable(t, Split(text))
  {
    var lines, end := Split(text), StorageBlock(t, Split(text)).value.end;
    && (RemoveManaged(t, built, command) == Some(text) <==> Strip(lines[end - 1]) != "")
    && (Strip(lines[end - 1]) == "" ==> RemoveManaged(t, built, command) == Some(Join(lines[..end - 1] + lines[end..])))
  }

  lemma {:induction false} EditorRoundTrip(t: Texts, text: string, command: string, built: string)
    requires ProperWords(t) && ProperCommand(t, command) && BuildManaged(t, text, command) == Some(built)
    ensures Editable(t, Split(text)) && RoundTrips(t, text, command, built)
  {
    BuildThenRemove(t, text, command);
    RoundTripExact(t, text, command, built);
  }

  /** A configuration that the script accepts and does not give back. */
  lemma {:induction false} ScriptLosesBlank(mode: Mode, text: string)
    requires text == Join([HeaderLine(TEXTS) + "\n", "\n", "}\n"])
    ensures BuildManaged(TEXTS, text, Command(mode)).Some?
    ensures var removed := RemoveManaged(TEXTS, BuildManaged(TEXTS, text, Command(mode)).value, Command(mode));
      removed.Some? && removed != Some(text)
  {
    CommandsAreProper(mode);
    BlankLineIsLost(TEXTS, [HeaderLine(TEXTS) + "\n", "\n", "}\n"], text, Command(mode));
  }
}
