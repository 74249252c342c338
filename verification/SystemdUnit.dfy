/** Writing a service's command line into a systemd unit, and reading it back by systemd's own
    quoting rules. */
module SystemdUnit {
  import opened Bytes
  import opened Text

  // ----- escaping ----------------------------------------------------------------------------

  predicate Safe(c: char) {
    || 'a' <= c <= 'z' || 'A' <= c <= 'Z' || '0' <= c <= '9'
    || c == '/' || c == '-' || c == '_' || c == '.' || c == '=' || c == ':'
  }

  predicate NeedsUnitQuoting(s: string) {
    exists i :: 0 <= i < |s| && !Safe(s[i])
  }

  /** Every `c` replaced, from left to right. */
  function ReplaceAll(s: string, c: char, with: string): string {
    if s == "" then "" else (if s[0] == c then with else [s[0]]) + ReplaceAll(s[1..], c, with)
  }

  function EscapeForUnit(s: string): string {
    if s == "" then "\"\""
    else if !NeedsUnitQuoting(s) then s
    else "\"" + ReplaceAll(ReplaceAll(s, '\\', "\\\\"), '"', "\\\"") + "\""
  }

  function EscapeAll(args: seq<string>): (escaped: seq<string>)
    ensures |escaped| == |args|
  {
    if args == [] then [] else [EscapeForUnit(args[0])] + EscapeAll(args[1..])
  }

  /** One escape per character. */
  function EscapeChar(c: char): string {
    if c == '\\' || c == '"' then ['\\', c] else [c]
  }

  function EscapeEach(s: string): string {
    if s == "" then "" else EscapeChar(s[0]) + EscapeEach(s[1..])
  }

  lemma {:induction false} ReplaceAllAppend(a: string, b: string, c: char, with: string)
    ensures ReplaceAll(a + b, c, with) == ReplaceAll(a, c, with) + ReplaceAll(b, c, with)
  {
    if a == "" {
      assert a + b == b;
    } else {
      assert (a + b)[0] == a[0] && (a + b)[1..] == a[1..] + b;
      ReplaceAllAppend(a[1..], b, c, with);
    }
  }

  lemma QuoteReplaced(c: char)
    ensures ReplaceAll(if c == '\\' then "\\\\" else [c], '"', "\\\"") == EscapeChar(c)
  {
    var none: string := [c][1..];
    assert none == "" && ReplaceAll(none, '"', "\\\"") == "";
    if c == '\\' {
      var one := "\\\\"[1..];
      assert one == "\\" && ReplaceAll(one, '"', "\\\"") == "\\" + ReplaceAll(one[1..], '"', "\\\"");
      assert one[1..] == "";
    }
  }

  /** Backslashes first, then quotes: together one escape per character, none of them escaped
      twice. */
  lemma {:induction false} TwoPassesAreOneEscape(s: string)
    ensures ReplaceAll(ReplaceAll(s, '\\', "\\\\"), '"', "\\\"") == EscapeEach(s)
  {
    if s != "" {
      var head := if s[0] == '\\' then "\\\\" else [s[0]];
      ReplaceAllAppend(head, ReplaceAll(s[1..], '\\', "\\\\"), '"', "\\\"");
      QuoteReplaced(s[0]);
      TwoPassesAreOneEscape(s[1..]);
    }
  }

  // ----- reading a command line --------------------------------------------------------------

  predicate Blank(c: char) {
    c == ' ' || c == '\t' || c == '\n' || c == '\r'
  }

  /** The one-character escapes; numeric ones, which never occur here, are left to be errors. */
  function Unescape(c: char): Option<char> {
    match c
    case '\\' => Some('\\')
    case '"' => Some('"')
    case '\'' => Some('\'')
    case 's' => Some(' ')
    case 'n' => Some('\n')
    case 't' => Some('\t')
    case 'r' => Some('\r')
    case _ => None
  }

  datatype Word = Word(text: string, rest: string)

  /** The inside of a quotation up to its closing quote, which blank space or the end must follow. */
  function ReadQuoted(s: string, quote: char): (w: Option<Word>)
    ensures w.Some? ==> |w.value.rest| <= |s|
    decreases |s|
  {
    if s == "" then None
    else if s[0] == quote then
      if |s| == 1 || Blank(s[1]) then Some(Word("", s[1..])) else None
    else if s[0] == '\\' then
      if |s| == 1 || Unescape(s[1]).None? then None
      else match ReadQuoted(s[2..], quote)
        case None => None
        case Some(w) => Some(Word([Unescape(s[1]).value] + w.text, w.rest))
    else match ReadQuoted(s[1..], quote)
      case None => None
      case Some(w) => Some(Word([s[0]] + w.text, w.rest))
  }

  /** A word without quotes ends at blank space. */
  function ReadBare(s: string): (w: Option<Word>)
    ensures w.Some? ==> |w.value.rest| <= |s| && (s != "" && !Blank(s[0]) ==> |w.value.rest| < |s|)
    decreases |s|
  {
    if s == "" || Blank(s[0]) then Some(Word("", s))
    else if s[0] == '\\' then
      if |s| == 1 || Unescape(s[1]).None? then None
      else match ReadBare(s[2..])
        case None => None
        case Some(w) => Some(Word([Unescape(s[1]).value] + w.text, w.rest))
    else match ReadBare(s[1..])
      case None => None
      case Some(w) => Some(Word([s[0]] + w.text, w.rest))
  }

  function ReadWord(s: string): (w: Option<Word>)
    requires s != "" && !Blank(s[0])
    ensures w.Some? ==> |w.value.rest| < |s|
  {
    if s[0] == '"' || s[0] == '\'' then ReadQuoted(s[1..], s[0]) else ReadBare(s)
  }

  /** All the words of a command line, or `None` for an unfinished quotation or escape. */
  function ReadCommand(s: string): Option<seq<string>>
    decreases |s|
  {
    if s == "" then Some([])
    else if Blank(s[0]) then ReadCommand(s[1..])
    else match ReadWord(s)
      case None => None
      case Some(w) => match ReadCommand(w.rest)
        case None => None
        case Some(words) => Some([w.text] + words)
  }

  // ----- the round trip ----------------------------------------------------------------------

  predicate Ends(rest: string) {
    rest == "" || rest[0] == ' '
  }

  lemma {:induction false} QuotedReadsBack(s: string, rest: string)
    requires Ends(rest)
    ensures ReadQuoted(EscapeEach(s) + "\"" + rest, '"') == Some(Word(s, rest))
    decreases |s|
  {
    var text := EscapeEach(s) + "\"" + rest;
    if s == "" {
      assert text == "\"" + rest && text[1..] == rest;
    } else {
      QuotedReadsBack(s[1..], rest);
      var more := EscapeEach(s[1..]) + "\"" + rest;
      assert text == EscapeChar(s[0]) + more;
      assert s == [s[0]] + s[1..];
      if s[0] == '\\' || s[0] == '"' {
        assert text[0] == '\\' && text[1] == s[0] && text[2..] == more;
      } else {
        assert text[0] == s[0] && text[1..] == more;
      }
    }
  }

  lemma {:induction false} BareReadsBack(s: string, rest: string)
    requires Ends(rest) && !NeedsUnitQuoting(s)
    ensures ReadBare(s + rest) == Some(Word(s, rest))
    decreases |s|
  {
    if s == "" {
      assert s + rest == rest;
    } else {
      assert Safe(s[0]);
      BareReadsBack(s[1..], rest);
      assert (s + rest)[0] == s[0] && (s + rest)[1..] == s[1..] + rest;
      assert s == [s[0]] + s[1..];
    }
  }

  lemma QuotedWord(s: string, rest: string)
    requires Ends(rest)
    ensures var text := "\"" + EscapeEach(s) + "\"" + rest;
            text[0] == '"' && ReadWord(text) == Some(Word(s, rest))
  {
    QuotedReadsBack(s, rest);
    OpeningQuote(EscapeEach(s) + "\"" + rest);
    Regroup("\"", EscapeEach(s), "\"", rest);
  }

  lemma Regroup(a: string, b: string, c: string, d: string)
    ensures a + (b + c + d) == a + b + c + d
  {
  }

  lemma OpeningQuote(inner: string)
    ensures var text := "\"" + inner;
            text[0] == '"' && ReadWord(text) == ReadQuoted(inner, '"')
  {
    assert ("\"" + inner)[1..] == inner;
  }

  lemma BareWord(s: string, rest: string)
    requires Ends(rest) && s != "" && !NeedsUnitQuoting(s)
    ensures var text := s + rest;
            !Blank(text[0]) && ReadWord(text) == Some(Word(s, rest))
  {
    assert Safe(s[0]) && (s + rest)[0] == s[0];
    BareReadsBack(s, rest);
  }

  lemma WordReadsBack(arg: string, rest: string)
    requires Ends(rest)
    ensures var text := EscapeForUnit(arg) + rest;
            text != "" && !Blank(text[0]) && ReadWord(text) == Some(Word(arg, rest))
  {
    if arg == "" {
      assert "\"" + EscapeEach("") + "\"" == "\"\"";
      QuotedWord("", rest);
    } else if NeedsUnitQuoting(arg) {
      TwoPassesAreOneEscape(arg);
      QuotedWord(arg, rest);
    } else {
      BareWord(arg, rest);
    }
  }

  /** Reading the joined command line gives back the arguments, empty ones, blanks, quotes and
      backslashes included. */
  lemma {:induction false} CommandReadsBack(args: seq<string>)
    ensures ReadCommand(Join(EscapeAll(args), " ")) == Some(args)
    decreases |args|
  {
    if args != [] {
      var more := Join(EscapeAll(args[1..]), " ");
      var rest := if |args| == 1 then "" else " " + more;
      CommandReadsBack(args[1..]);
      WordReadsBack(args[0], rest);
      BlankSkipped(more);
      assert |args| == 1 ==> args[1..] == [];
      JoinCons(EscapeForUnit(args[0]), EscapeAll(args[1..]));
      NextWord(EscapeForUnit(args[0]) + rest, Word(args[0], rest), args[1..]);
      assert args == [args[0]] + args[1..];
    }
  }

  lemma BlankSkipped(s: string)
    ensures ReadCommand(" " + s) == ReadCommand(s)
  {
    assert (" " + s)[1..] == s;
  }

  lemma JoinCons(head: string, tail: seq<string>)
    ensures Join([head] + tail, " ") == head + if tail == [] then "" else " " + Join(tail, " ")
  {
    assert ([head] + tail)[1..] == tail;
    if tail != [] {
      assert head + " " + Join(tail, " ") == head + (" " + Join(tail, " "));
    }
  }

  lemma NextWord(text: string, w: Word, words: seq<string>)
    requires text != "" && !Blank(text[0]) && ReadWord(text) == Some(w) && ReadCommand(w.rest) == Some(words)
    ensures ReadCommand(text) == Some([w.text] + words)
  {
  }

  // ----- the unit ----------------------------------------------------------------------------

  const EXEC: string := "ExecStart="

  function UnitLines(name: string, command: string): seq<string> {
    ["[Unit]", "Description=Bitrise Build Cache \U{2014} " + name, "After=default.target", "",
     "[Service]", "Type=simple", EXEC + command, "Restart=on-failure", "RestartSec=5", "",
     "[Install]", "WantedBy=default.target", ""]
  }

  function Unit(name: string, args: seq<string>): string {
    Join(UnitLines(name, Join(EscapeAll(args), " ")), "\n")
  }

  /** The command of a unit file: what follows the first line that sets it. */
  function CommandOf(lines: seq<string>): Option<string> {
    if lines == [] then None
    else if EXEC <= lines[0] then Some(lines[0][|EXEC|..])
    else CommandOf(lines[1..])
  }

  predicate OneLine(s: string) {
    '\n' !in s
  }

  lemma {:induction false} EscapedIsOneLine(s: string)
    requires OneLine(s)
    ensures OneLine(EscapeEach(s))
  {
    if s != "" {
      EscapedIsOneLine(s[1..]);
    }
  }

  lemma {:induction false} CommandIsOneLine(args: seq<string>)
    requires forall i :: 0 <= i < |args| ==> OneLine(args[i])
    ensures OneLine(Join(EscapeAll(args), " "))
    decreases |args|
  {
    if args != [] {
      TwoPassesAreOneEscape(args[0]);
      EscapedIsOneLine(args[0]);
      CommandIsOneLine(args[1..]);
      assert EscapeAll(args)[0] == EscapeForUnit(args[0]) && EscapeAll(args)[1..] == EscapeAll(args[1..]);
    }
  }

  lemma {:induction false} CommandFound(lines: seq<string>, k: nat)
    requires k < |lines| && EXEC <= lines[k] && forall i :: 0 <= i < k ==> !(EXEC <= lines[i])
    ensures CommandOf(lines) == Some(lines[k][|EXEC|..])
    decreases k
  {
    if k > 0 {
      CommandFound(lines[1..], k - 1);
    }
  }

  /** The unit file, cut into lines and read by systemd's rules, runs exactly the executable and
      the arguments the service was given, none of them holding a line break. */
  lemma UnitRunsTheCommand(name: string, args: seq<string>)
    requires OneLine(name) && forall i :: 0 <= i < |args| ==> OneLine(args[i])
    ensures var command := CommandOf(Split(Unit(name, args), '\n'));
            command.Some? && ReadCommand(command.value) == Some(args)
  {
    var command := Join(EscapeAll(args), " ");
    var lines := UnitLines(name, command);
    CommandIsOneLine(args);
    CommandLineFound(name, command);
    LinesAreLines(name, command);
    SplitJoin(lines, '\n');
    CommandReadsBack(args);
  }

  lemma LinesAreLines(name: string, command: string)
    ensures OneLine(name) && OneLine(command) ==> AllFree(UnitLines(name, command), '\n')
  {
  }

  lemma CommandLineFound(name: string, command: string)
    ensures CommandOf(UnitLines(name, command)) == Some(command)
  {
    var lines := UnitLines(name, command);
    assert lines[1][0] == 'D' && lines[2][0] == 'A' && lines[4][0] == '[' && lines[5][0] == 'T' && lines[0][0] == '[';
    assert EXEC[0] == 'E';
    assert lines[6][|EXEC|..] == command && EXEC <= lines[6];
    CommandFound(lines, 6);
  }

  method GenerateUnit(name: string, svcArgs: seq<string>, executable: string) returns (unit: Option<string>)
    ensures unit == if executable == "" then None else Some(Unit(name, [executable] + svcArgs))
  {
    if executable == "" {
      return None;
    }
    var args := [executable] + svcArgs;
    var escaped := [];
    for i := 0 to |args|
      invariant EscapeAll(args) == escaped + EscapeAll(args[i..])
    {
      assert args[i..][0] == args[i] && args[i..][1..] == args[i + 1..];
      assert EscapeAll(args[i..]) == [EscapeForUnit(args[i])] + EscapeAll(args[i + 1..]);
      escaped := escaped + [EscapeForUnit(args[i])];
    }
    assert EscapeAll(args[|args|..]) == [] && escaped + [] == escaped;
    return Some(Join(UnitLines(name, Join(escaped, " ")), "\n"));
  }
}
