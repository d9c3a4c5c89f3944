/**
 The shell-word lexer that accepts one literal command, against the quoting the repository uses to print arguments.
 Strings are sequences of code points; the length limit counts UTF-8 bytes.
 */
module ShellWords {
  import opened Common

  /** The lexer's state: finished words, the word being read, the open quote, and its flags. */
  datatype State = State(out: seq<string>, word: string, quote: Option<char>, active: bool, escape: bool, literalName: bool)

  const REFUSED: string := "\U{0000}\r\n$`;|&<>()"
  const GLOB: string := "#~*?[]{}"
  const NEEDS_QUOTES: string := " \t\n\r'\"\\$`;&|<>()*?[]{}!#~"

  function Utf8Width(c: int): nat
  {
    if c < 0x80 then 1 else if c < 0x800 then 2 else if c < 0x1_0000 then 3 else 4
  }

  function Utf8Length(s: string): nat
  {
    if s == "" then 0 else Utf8Length(s[..|s| - 1]) + Utf8Width(s[|s| - 1] as int)
  }

  predicate NameChar(c: char, first: bool)
  {
    c == '_' || 'a' <= c <= 'z' || 'A' <= c <= 'Z' || (!first && '0' <= c <= '9')
  }

  predicate AssignmentName(name: string)
  {
    name != "" && forall i :: 0 <= i < |name| ==> NameChar(name[i], i == 0)
  }

  predicate ContainsAny(s: string, chars: string)
  {
    exists i :: 0 <= i < |s| && s[i] in chars
  }

  function Begin(out: seq<string>): State
  {
    State(out, "", None, false, false, true)
  }

  /** Reading one character; None when the command is refused. */
  function Step(st: State, c: char): Option<State>
  {
    if st.escape then
      if c == '=' && AssignmentName(st.word) then None
      else
        var kept := if st.quote == Some('"') && c != '"' && c != '\\' then "\\" else "";
        Some(st.(word := st.word + kept + [c], active := true, escape := false))
    else if c == '=' && !st.literalName && AssignmentName(st.word) then None
    else if c == '\\' && st.quote != Some('\'') then
      Some(st.(literalName := st.literalName && '=' in st.word, escape := true, active := true))
    else if st.quote.Some? then
      if Some(c) == st.quote then Some(st.(quote := None)) else Some(st.(word := st.word + [c]))
    else if c == '\'' || c == '"' then
      Some(st.(literalName := st.literalName && '=' in st.word, quote := Some(c), active := true))
    else if c in GLOB then None
    else if c == ' ' || c == '\t' then
      if st.active then Some(Begin(st.out + [st.word])) else Some(st)
    else Some(st.(word := st.word + [c], active := true))
  }

  function Run(st: State, s: string): Option<State>
    decreases |s|
  {
    if s == "" then Some(st)
    else match Step(st, s[0]) case None => None case Some(next) => Run(next, s[1..])
  }

  function Finish(st: State): Option<seq<string>>
  {
    if st.quote.Some? || st.escape then None
    else
      var out := if st.active then st.out + [st.word] else st.out;
      if out == [] then None else Some(out)
  }

  /** words: the words of a literal command within the limit. */
  function Lexed(command: string, limit: int): Option<seq<string>>
  {
    if Utf8Length(command) > limit || ContainsAny(command, REFUSED) then None
    else match Run(Begin([]), command) case None => None case Some(st) => Finish(st)
  }

  method IsAssignmentName(name: string) returns (r: bool)
    ensures r == AssignmentName(name)
  {
    if name == "" { return false; }
    for i := 0 to |name|
      invariant forall k :: 0 <= k < i ==> NameChar(name[k], k == 0)
    {
      if !NameChar(name[i], i == 0) { return false; }
    }
    return true;
  }

  method Words(command: string, limit: int) returns (r: Option<seq<string>>)
    ensures r == Lexed(command, limit)
  {
    if Utf8Length(command) > limit || ContainsAny(command, REFUSED) { return None; }
    var out: seq<string> := [];
    var word := "";
    var quote: Option<char> := None;
    var active, escape, literalName := false, false, true;
    assert command[0..] == command;
    for i := 0 to |command|
      invariant Run(Begin([]), command) == Run(State(out, word, quote, active, escape, literalName), command[i..])
    {
      var c := command[i];
      assert command[i..][0] == c && command[i..][1..] == command[i + 1..];
      ghost var next := Step(State(out, word, quote, active, escape, literalName), c);
      assert Run(Begin([]), command) == match next case None => None case Some(st) => Run(st, command[i + 1..]);
      var name := IsAssignmentName(word);
      if escape {
        assert word + "" == word;
        if c == '=' && name { return None; }
        if quote == Some('"') && c != '"' && c != '\\' { word := word + "\\"; }
        word := word + [c];
        active := true;
        escape := false;
        assert next == Some(State(out, word, quote, active, escape, literalName));
        continue;
      }
      if c == '=' && !literalName && name { return None; }
      if c == '\\' && quote != Some('\'') {
        if '=' !in word { literalName := false; }
        escape := true;
        active := true;
        assert next == Some(State(out, word, quote, active, escape, literalName));
        continue;
      }
      if quote.Some? {
        if Some(c) == quote { quote := None; } else { word := word + [c]; }
        assert next == Some(State(out, word, quote, active, escape, literalName));
        continue;
      }
      if c == '\'' || c == '"' {
        if '=' !in word { literalName := false; }
        quote := Some(c);
        active := true;
        assert next == Some(State(out, word, quote, active, escape, literalName));
        continue;
      }
      if c in GLOB { return None; }
      if c == ' ' || c == '\t' {
        if active {
          out := out + [word];
          word := "";
          active := false;
          literalName := true;
        }
        continue;
      }
      word := word + [c];
      active := true;
    }
    if quote.Some? || escape { return None; }
    if active { out := out + [word]; }
    if out == [] { return None; }
    return Some(out);
  }

  // ---------------------------------------------------------------------------------------------
  // Quoting

  /** The text with each single quote closed, double-quoted and reopened. */
  function Escaped(value: string): string
  {
    if value == "" then ""
    else (if value[0] == '\'' then "'\"'\"'" else [value[0]]) + Escaped(value[1..])
  }

  predicate Plain(value: string)
  {
    value != "" && !ContainsAny(value, NEEDS_QUOTES)
  }

  function Quoted(value: string): string
  {
    if Plain(value) then value else "'" + Escaped(value) + "'"
  }

  /** The quoted arguments separated by spaces. */
  function Command(args: seq<string>): string
  {
    if args == [] then ""
    else if |args| == 1 then Quoted(args[0])
    else Quoted(args[0]) + " " + Command(args[1..])
  }

  /** An argument that starts with a variable name and "=". */
  ghost predicate Assigns(value: string)
  {
    exists i :: 0 <= i < |value| && value[i] == '=' && AssignmentName(value[..i])
  }

  lemma {:induction false} RunAppends(st: State, a: string, b: string)
    ensures Run(st, a + b) == match Run(st, a) case None => None case Some(next) => Run(next, b)
    decreases |a|
  {
    if a == "" {
      assert a + b == b;
    } else {
      assert (a + b)[0] == a[0] && (a + b)[1..] == a[1..] + b;
      if Step(st, a[0]).Some? { RunAppends(Step(st, a[0]).value, a[1..], b); }
    }
  }

  /** Inside single quotes, with part of the word read. */
  function Inside(out: seq<string>, word: string): State
  {
    State(out, word, Some('\''), true, false, false)
  }

  /** An "=" in text completes an assignment begun by the word. */
  ghost predicate Completes(word: string, text: string)
  {
    exists i :: 0 <= i < |text| && text[i] == '=' && AssignmentName(word + text[..i])
  }

  lemma {:induction false} CompletesStep(word: string, text: string)
    requires text != ""
    ensures Completes(word, text) <==> (text[0] == '=' && AssignmentName(word)) || Completes(word + [text[0]], text[1..])
  {
    assert word + text[..0] == word;
    forall i | 0 < i < |text| ensures word + text[..i] == word + [text[0]] + text[1..][..i - 1] && text[i] == text[1..][i - 1] {
      assert text[..i] == [text[0]] + text[1..][..i - 1];
    }
    if Completes(word, text) {
      var i :| 0 <= i < |text| && text[i] == '=' && AssignmentName(word + text[..i]);
      if i > 0 { assert text[1..][i - 1] == '=' && AssignmentName(word + [text[0]] + text[1..][..i - 1]); }
    }
    if Completes(word + [text[0]], text[1..]) {
      var i :| 0 <= i < |text[1..]| && text[1..][i] == '=' && AssignmentName(word + [text[0]] + text[1..][..i]);
      assert text[i + 1] == '=' && AssignmentName(word + text[..i + 1]);
    }
    if text[0] == '=' && AssignmentName(word) { assert AssignmentName(word + text[..0]); }
  }

  /** The five characters that stand for a single quote add one to the word. */
  lemma {:induction false} QuoteInQuotes(out: seq<string>, word: string)
    ensures Run(Inside(out, word), "'\"'\"'") == Some(Inside(out, word + "'"))
  {
    var s := "'\"'\"'";
    var s1 := Inside(out, word).(quote := None);
    var s2 := s1.(quote := Some('"'));
    var s3 := s2.(word := word + "'");
    var s4 := s3.(quote := None);
    assert Step(Inside(out, word), '\'') == Some(s1) && s[0] == '\'' && s[1..] == "\"'\"'";
    assert Step(s1, '"') == Some(s2) && s[1..][1..] == "'\"'";
    assert Step(s2, '\'') == Some(s3) && s[1..][1..][1..] == "\"'";
    assert Step(s3, '"') == Some(s4) && s[1..][1..][1..][1..] == "'";
    assert Step(s4, '\'') == Some(Inside(out, word + "'")) && s[1..][1..][1..][1..][1..] == "";
    assert Run(s4, "'") == Some(Inside(out, word + "'"));
    assert Run(s3, "\"'") == Run(s4, "'");
    assert Run(s2, "'\"'") == Run(s3, "\"'");
    assert Run(s1, "\"'\"'") == Run(s2, "'\"'");
  }

  /** Reading escaped text inside single quotes adds the text, unless it completes an assignment. */
  lemma {:induction false} EscapedRuns(out: seq<string>, word: string, text: string)
    ensures Run(Inside(out, word), Escaped(text)) == if Completes(word, text) then None else Some(Inside(out, word + text))
    decreases |text|
  {
    if text == "" {
      assert word + text == word;
    } else {
      var c := text[0];
      var here := if c == '\'' then "'\"'\"'" else [c];
      CompletesStep(word, text);
      RunAppends(Inside(out, word), here, Escaped(text[1..]));
      EscapedRuns(out, word + [c], text[1..]);
      assert word + text == word + [c] + text[1..];
      if c == '\'' {
        QuoteInQuotes(out, word);
      } else {
        assert here[1..] == "";
        assert Run(Inside(out, word), here) == Step(Inside(out, word), c);
      }
    }
  }

  lemma {:induction false} PlainRuns(out: seq<string>, word: string, text: string)
    requires !ContainsAny(text, NEEDS_QUOTES)
    ensures Run(State(out, word, None, word != "", false, true), text) == Some(State(out, word + text, None, word + text != "", false, true))
    decreases |text|
  {
    if text == "" {
      assert word + text == word;
    } else {
      PlainStep(out, word, text[0]) by { assert text[0] !in NEEDS_QUOTES; }
      assert forall i :: 0 <= i < |text[1..]| ==> text[1..][i] == text[i + 1];
      PlainRuns(out, word + [text[0]], text[1..]);
      assert word + text == word + [text[0]] + text[1..];
    }
  }

  lemma {:induction false} PlainStep(out: seq<string>, word: string, c: char)
    requires c !in NEEDS_QUOTES
    ensures Step(State(out, word, None, word != "", false, true), c) == Some(State(out, word + [c], None, true, false, true))
  {
    forall g | g in GLOB ensures g in NEEDS_QUOTES {
      GlobNeedsQuotes(g);
    }
  }

  lemma {:induction false} GlobNeedsQuotes(c: char)
    requires c in GLOB || c == ' ' || c == '\t' || c == '\'' || c == '"' || c == '\\'
    ensures c in NEEDS_QUOTES
  {
  }

  /** Reading one quoted argument. */
  lemma {:induction false} QuotedRuns(out: seq<string>, arg: string)
    ensures Run(Begin(out), Quoted(arg)) ==
      if Plain(arg) then Some(State(out, arg, None, true, false, true))
      else if Assigns(arg) then None
      else Some(State(out, arg, None, true, false, false))
  {
    if Plain(arg) {
      PlainRuns(out, "", arg);
      assert "" + arg == arg;
    } else {
      var s := "'" + Escaped(arg) + "'";
      assert s == "'" + (Escaped(arg) + "'") && s[1..] == Escaped(arg) + "'";
      assert Step(Begin(out), '\'') == Some(Inside(out, ""));
      RunAppends(Inside(out, ""), Escaped(arg), "'");
      EscapedRuns(out, "", arg);
      assert "" + arg == arg;
      assert Completes("", arg) <==> Assigns(arg) by {
        forall i | 0 <= i < |arg| ensures "" + arg[..i] == arg[..i] {}
      }
      Closes(out, arg);
    }
  }

  lemma {:induction false} Closes(out: seq<string>, word: string)
    ensures Run(Inside(out, word), "'") == Some(State(out, word, None, true, false, false))
  {
    assert "'"[1..] == "";
    assert Step(Inside(out, word), '\'') == Some(State(out, word, None, true, false, false));
  }

  /**
   What a double-quoted text stands for: a backslash goes away before a double quote or another backslash, and stays before
   anything else. None when the text ends the quotes or leaves a backslash dangling.
   */
  function InDoubleQuotes(text: string): Option<string>
    decreases |text|
  {
    if text == "" then Some("")
    else if text[0] == '"' || text == "\\" then None
    else match InDoubleQuotes(text[HeadLength(text)..]) case None => None case Some(rest) => Some(Head(text) + rest)
  }

  /** How many characters of the text stand for something together. */
  function HeadLength(text: string): (n: nat)
    requires text != "" && text != "\\"
    ensures 0 < n <= |text|
  {
    if text[0] == '\\' then 2 else 1
  }

  function Head(text: string): string
    requires text != "" && text != "\\"
  {
    if text[0] == '\\' && (text[1] == '"' || text[1] == '\\') then [text[1]] else text[..HeadLength(text)]
  }

  function InDouble(out: seq<string>, word: string): State
  {
    State(out, word, Some('"'), true, false, false)
  }

  lemma {:induction false} BackslashRuns(out: seq<string>, word: string, c: char)
    requires c != '='
    ensures Run(InDouble(out, word), "\\" + [c]) ==
      Some(InDouble(out, word + if c == '"' || c == '\\' then [c] else "\\" + [c]))
  {
    var s := "\\" + [c];
    var mid := InDouble(out, word).(escape := true);
    assert s[0] == '\\' && s[1..] == [c] && s[1..][1..] == "";
    assert Step(InDouble(out, word), '\\') == Some(mid);
    assert word + "" + [c] == word + [c] && word + "\\" + [c] == word + ("\\" + [c]);
    assert Run(mid, [c]) == match Step(mid, c) case None => None case Some(next) => Run(next, "");
  }

  lemma {:induction false} OneRuns(out: seq<string>, word: string, c: char)
    requires c != '=' && c != '"' && c != '\\'
    ensures Run(InDouble(out, word), [c]) == Some(InDouble(out, word + [c]))
  {
    assert [c][1..] == "";
    assert Step(InDouble(out, word), c) == Some(InDouble(out, word + [c]));
  }

  lemma {:induction false} HeadRuns(out: seq<string>, word: string, text: string)
    requires text != "" && text != "\\" && text[0] != '"' && '=' !in text
    ensures Run(InDouble(out, word), text[..HeadLength(text)]) == Some(InDouble(out, word + Head(text)))
  {
    hide Step, Run;
    if text[0] == '\\' {
      assert text[..2] == "\\" + [text[1]];
      BackslashRuns(out, word, text[1]);
    } else {
      assert text[..1] == [text[0]];
      OneRuns(out, word, text[0]);
    }
  }

  /** Reading double-quoted text without "=" adds what it stands for. */
  lemma {:induction false} DoubleQuotedRuns(out: seq<string>, word: string, text: string)
    requires InDoubleQuotes(text).Some? && '=' !in text
    ensures Run(InDouble(out, word), text) == Some(InDouble(out, word + InDoubleQuotes(text).value))
    decreases |text|
  {
    hide Step, Head, HeadLength;
    if text == "" {
      assert word + "" == word;
    } else {
      var n, here := HeadLength(text), Head(text);
      var rest := InDoubleQuotes(text[n..]).value;
      assert text == text[..n] + text[n..];
      HeadRuns(out, word, text);
      RunAppends(InDouble(out, word), text[..n], text[n..]);
      DoubleQuotedRuns(out, word + here, text[n..]);
      assert word + (here + rest) == word + here + rest;
    }
  }

  /** A whole double-quoted word. */
  lemma {:induction false} DoubleQuotedWord(out: seq<string>, text: string)
    requires InDoubleQuotes(text).Some? && '=' !in text
    ensures Run(Begin(out), "\"" + text + "\"") == Some(State(out, InDoubleQuotes(text).value, None, true, false, false))
  {
    var s := "\"" + text + "\"";
    assert s[0] == '"' && s[1..] == text + "\"";
    assert Step(Begin(out), '"') == Some(InDouble(out, ""));
    RunAppends(InDouble(out, ""), text, "\"");
    DoubleQuotedRuns(out, "", text);
    var word := InDoubleQuotes(text).value;
    assert "" + word == word && "\""[1..] == "";
    assert Step(InDouble(out, word), '"') == Some(State(out, word, None, true, false, false));
  }

  /** An argument that the lexer reads back from its quoted form. */
  ghost predicate Readable(arg: string)
  {
    Plain(arg) || !Assigns(arg)
  }

  lemma {:induction false} SpaceEnds(st: State)
    requires st.quote.None? && st.active && !st.escape
    ensures Step(st, ' ') == Some(Begin(st.out + [st.word]))
  {
  }

  ghost predicate AllReadable(args: seq<string>)
  {
    forall i :: 0 <= i < |args| ==> Readable(args[i])
  }

  lemma {:induction false} AllReadableFirst(args: seq<string>)
    requires args != []
    ensures AllReadable(args) <==> Readable(args[0]) && AllReadable(args[1..])
  {
    forall i | 0 < i < |args| ensures args[i] == args[1..][i - 1] {}
  }

  /** Reading the first of several quoted arguments and the space after it. */
  lemma {:induction false} FirstRuns(out: seq<string>, arg: string, rest: string)
    ensures Run(Begin(out), Quoted(arg) + " " + rest) == if Readable(arg) then Run(Begin(out + [arg]), rest) else None
  {
    hide Step, Plain, Assigns;
    QuotedRuns(out, arg);
    assert Quoted(arg) + " " + rest == Quoted(arg) + (" " + rest);
    RunAppends(Begin(out), Quoted(arg), " " + rest);
    if Run(Begin(out), Quoted(arg)).Some? {
      SpaceEnds(Run(Begin(out), Quoted(arg)).value);
      assert (" " + rest)[0] == ' ' && (" " + rest)[1..] == rest;
    }
  }

  /** Reading a whole command. */
  lemma {:induction false} CommandRuns(out: seq<string>, args: seq<string>)
    requires args != []
    ensures var r := Run(Begin(out), Command(args));
      if AllReadable(args) then r.Some? && Finish(r.value) == Some(out + args) else r.None?
    decreases |args|
  {
    hide *;
    if |args| == 1 {
      LastRuns(out, args);
    } else {
      CommandRuns(out + [args[0]], args[1..]);
      MoreRuns(out, args);
    }
  }

  lemma {:induction false} LastRuns(out: seq<string>, args: seq<string>)
    requires |args| == 1
    ensures var r := Run(Begin(out), Command(args));
      if AllReadable(args) then r.Some? && Finish(r.value) == Some(out + args) else r.None?
  {
    hide Step, Plain, Assigns, Run, Quoted;
    assert args == [args[0]];
    QuotedRuns(out, args[0]);
    assert AllReadable(args) <==> Readable(args[0]);
  }

  lemma {:induction false} MoreRuns(out: seq<string>, args: seq<string>)
    requires |args| > 1
    requires var r := Run(Begin(out + [args[0]]), Command(args[1..]));
      if AllReadable(args[1..]) then r.Some? && Finish(r.value) == Some(out + [args[0]] + args[1..]) else r.None?
    ensures var r := Run(Begin(out), Command(args));
      if AllReadable(args) then r.Some? && Finish(r.value) == Some(out + args) else r.None?
  {
    hide Step, Plain, Assigns, Run, AllReadable, Readable, Quoted, Finish;
    AllReadableFirst(args);
    FirstRuns(out, args[0], Command(args[1..]));
    assert out + [args[0]] + args[1..] == out + args;
  }

  lemma {:induction false} EscapedRefused(value: string)
    ensures ContainsAny(Escaped(value), REFUSED) <==> ContainsAny(value, REFUSED)
  {
    if value != "" {
      EscapedRefused(value[1..]);
      var here := if value[0] == '\'' then "'\"'\"'" else [value[0]];
      ContainsAppends(here, Escaped(value[1..]), REFUSED);
      ContainsAppends([value[0]], value[1..], REFUSED);
      assert value == [value[0]] + value[1..];
      OneChar(value[0]);
      QuotesAreAllowed();
    }
  }

  lemma {:induction false} OneChar(c: char)
    ensures ContainsAny([c], REFUSED) <==> c in REFUSED
  {
    assert [c][0] == c;
  }

  lemma {:induction false} QuotesAreAllowed()
    ensures '\'' !in REFUSED && '"' !in REFUSED && ' ' !in REFUSED
    ensures !ContainsAny("'\"'\"'", REFUSED) && !ContainsAny("'", REFUSED) && !ContainsAny(" ", REFUSED)
  {
  }

  lemma {:induction false} ContainsAppends(a: string, b: string, chars: string)
    ensures ContainsAny(a + b, chars) <==> ContainsAny(a, chars) || ContainsAny(b, chars)
  {
    if ContainsAny(a, chars) {
      var i :| 0 <= i < |a| && a[i] in chars;
      assert (a + b)[i] in chars;
    }
    if ContainsAny(b, chars) {
      var i :| 0 <= i < |b| && b[i] in chars;
      assert (a + b)[|a| + i] in chars;
    }
  }

  lemma {:induction false} QuotedRefused(value: string)
    ensures ContainsAny(Quoted(value), REFUSED) <==> ContainsAny(value, REFUSED)
  {
    if !Plain(value) {
      EscapedRefused(value);
      ContainsAppends("'", Escaped(value), REFUSED);
      ContainsAppends("'" + Escaped(value), "'", REFUSED);
      QuotesAreAllowed();
    }
  }

  /** Quoting adds and removes no refused character. */
  lemma {:induction false} CommandRefused(args: seq<string>)
    ensures ContainsAny(Command(args), REFUSED) <==> exists i :: 0 <= i < |args| && ContainsAny(args[i], REFUSED)
  {
    if args != [] {
      QuotedRefused(args[0]);
      if |args| > 1 {
        CommandRefused(args[1..]);
        ContainsAppends(Quoted(args[0]), " ", REFUSED);
        ContainsAppends(Quoted(args[0]) + " ", Command(args[1..]), REFUSED);
        QuotesAreAllowed();
        forall i | 0 < i < |args| ensures args[i] == args[1..][i - 1] {}
        if i :| 0 <= i < |args[1..]| && ContainsAny(args[1..][i], REFUSED) {
          assert ContainsAny(args[i + 1], REFUSED);
        }
      }
    }
  }

  /**
   Lexing undoes quoting exactly for a non-empty list of arguments without refused characters, within the length limit, in
   which no argument that needs quotes starts with a variable name and "=".
   */
  lemma {:induction false} WordsUndoQuotes(args: seq<string>, limit: int)
    ensures Lexed(Command(args), limit) == Some(args) <==>
      && args != [] && Utf8Length(Command(args)) <= limit
      && (forall i :: 0 <= i < |args| ==> !ContainsAny(args[i], "\U{0000}\r\n$`;|&<>()"))
      && AllReadable(args)
  {
    hide Utf8Length, Plain, Assigns, AllReadable;
    CommandRefused(args);
    if args != [] { CommandRuns([], args); }
    assert [] + args == args;
  }

  /** Nothing else is ever read: the lexer refuses the command rather than return other words. */
  lemma {:induction false} QuotedNeverMisread(args: seq<string>, limit: int)
    ensures Lexed(Command(args), limit).Some? ==> Lexed(Command(args), limit) == Some(args)
  {
    hide Utf8Length, Plain, Assigns, AllReadable;
    if args != [] { CommandRuns([], args); }
    assert [] + args == args;
  }

  // ---------------------------------------------------------------------------------------------
  // Commands without quotes

  /** The runs of other characters between blanks, when the first goes on after a word. */
  function Fields(word: string, text: string): seq<string>
    decreases |text|
  {
    if text == "" then if word == "" then [] else [word]
    else if text[0] == ' ' || text[0] == '\t' then (if word == "" then [] else [word]) + Fields("", text[1..])
    else Fields(word + [text[0]], text[1..])
  }

  lemma {:induction false} UnquotedRuns(out: seq<string>, word: string, text: string)
    requires !ContainsAny(text, "'\"\\")
    ensures var r := Run(State(out, word, None, word != "", false, true), text); var all := out + Fields(word, text);
      if ContainsAny(text, "#~*?[]{}") then r.None? else r.Some? && Finish(r.value) == if all == [] then None else Some(all)
    decreases |text|
  {
    if text == "" {
      assert word == "" ==> out + [] == out;
    } else {
      var c, rest := text[0], text[1..];
      assert c !in "'\"\\";
      assert forall i :: 0 <= i < |rest| ==> rest[i] == text[i + 1];
      assert ContainsAny(text, "#~*?[]{}") <==> c in "#~*?[]{}" || ContainsAny(rest, "#~*?[]{}") by {
        assert text == [c] + rest && [c][0] == c;
        ContainsAppends([c], rest, "#~*?[]{}");
      }
      if c == ' ' || c == '\t' {
        var more := if word == "" then out else out + [word];
        UnquotedRuns(more, "", rest);
        assert more + Fields("", rest) == out + Fields(word, text);
      } else {
        UnquotedRuns(out, word + [c], rest);
      }
    }
  }

  /** A command without quotes and backslashes is read exactly when it has no character with a meaning, as what is between blanks. */
  lemma {:induction false} UnquotedWords(command: string, limit: int)
    requires !ContainsAny(command, "'\"\\")
    ensures var words := Fields("", command);
      Lexed(command, limit) ==
        if Utf8Length(command) > limit || ContainsAny(command, "\U{0000}\r\n$`;|&<>()") || ContainsAny(command, "#~*?[]{}") || words == [] then None
        else Some(words)
  {
    hide Step, Run, Fields, Utf8Length;
    UnquotedRuns([], "", command);
    assert [] + Fields("", command) == Fields("", command);
  }
}
