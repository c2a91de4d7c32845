/** The command line of a hook, and the POSIX shell's reading of it. */
module ShellQuoting {
  import opened Common

  /** `str::replace` of one character by a text. */
  function ReplaceAll(s: string, c: char, sub: string): string {
    if s == "" then "" else (if s[0] == c then sub else [s[0]]) + ReplaceAll(s[1..], c, sub)
  }

  function QuotePosix(value: string): string {
    "'" + ReplaceAll(value, '\'', "'\"'\"'") + "'"
  }

  function QuoteWindows(value: string): string {
    "\"" + ReplaceAll(value, '\"', "\"\"") + "\""
  }

  function Quote(value: string, windows: bool): string {
    if windows then QuoteWindows(value) else QuotePosix(value)
  }

  /** Quoted values, each preceded by a space. */
  function SpacedTail(values: seq<string>, windows: bool): string {
    if values == [] then "" else " " + Quote(values[0], windows) + SpacedTail(values[1..], windows)
  }

  function ShellCommand(executable: string, arguments: seq<string>, windows: bool): string {
    (if windows then "& " else "") + Quote(executable, windows) + SpacedTail(arguments, windows)
  }

  // POSIX.1-2017 Shell Command Language, sections 2.2.2, 2.2.3 and 2.3, for input that uses
  // quotes and blanks only

  datatype Mode = Between | InWord | InSingle | InDouble

  /** Characters that must be quoted to stand for themselves, or may need to be (section 2.2),
      other than quotes and blanks; this reader refuses them unquoted. */
  predicate Special(c: char) {
    c in "|&;<>()$`\\\n*?[#~=%"
  }

  /** The words of a simple command: `word` is the one being read, `done` the finished ones. */
  function Scan(mode: Mode, word: string, done: seq<string>, input: string): Option<seq<string>>
    decreases |input|
  {
    if input == "" then
      match mode
      case Between => Some(done)
      case InWord => Some(done + [word])
      case InSingle => None
      case InDouble => None
    else
      var c, rest := input[0], input[1..];
      if c == '\0' then None
      else
        match mode
        case InSingle => if c == '\'' then Scan(InWord, word, done, rest) else Scan(InSingle, word + [c], done, rest)
        case InDouble =>
          if c == '\"' then Scan(InWord, word, done, rest)
          else if c in "$`\\" then None
          else Scan(InDouble, word + [c], done, rest)
        case Between =>
          if c == ' ' || c == '\t' then Scan(Between, "", done, rest)
          else if c == '\'' then Scan(InSingle, "", done, rest)
          else if c == '\"' then Scan(InDouble, "", done, rest)
          else if Special(c) then None
          else Scan(InWord, [c], done, rest)
        case InWord =>
          if c == ' ' || c == '\t' then Scan(Between, "", done + [word], rest)
          else if c == '\'' then Scan(InSingle, word, done, rest)
          else if c == '\"' then Scan(InDouble, word, done, rest)
          else if Special(c) then None
          else Scan(InWord, word + [c], done, rest)
  }

  function SplitWords(input: string): Option<seq<string>> {
    Scan(Between, "", [], input)
  }

  predicate NulFree(s: string) {
    '\0' !in s
  }

  /** A quote inside a quoted value: leave the single quotes, read it in double quotes, come back. */
  lemma ScanEscapedQuote(word: string, done: seq<string>, tail: string)
    ensures Scan(InSingle, word, done, "'\"'\"'" + tail) == Scan(InSingle, word + ['\''], done, tail)
  {
    var t4 := "'" + tail;
    var t3 := "\"" + t4;
    var t2 := "'" + t3;
    var t1 := "\"" + t2;
    assert "'\"'\"'" + tail == "'" + t1;
    assert ("'" + t1)[1..] == t1 && t1[1..] == t2 && t2[1..] == t3 && t3[1..] == t4 && t4[1..] == tail;
    var next := word + ['\''];
    assert Scan(InWord, word, done, t1) == Scan(InDouble, word, done, t2);
    assert Scan(InDouble, word, done, t2) == Scan(InDouble, next, done, t3);
    assert Scan(InDouble, next, done, t3) == Scan(InWord, next, done, t4);
    assert Scan(InWord, next, done, t4) == Scan(InSingle, next, done, tail);
  }

  lemma ScanSingle(c: char, word: string, done: seq<string>, tail: string)
    ensures Scan(InSingle, word, done, [c] + tail)
            == if c == '\0' then None
               else if c == '\'' then Scan(InWord, word, done, tail)
               else Scan(InSingle, word + [c], done, tail)
  {
    assert ([c] + tail)[1..] == tail;
  }

  lemma {:induction false} ScanQuoted(value: string, word: string, done: seq<string>, rest: string)
    ensures Scan(InSingle, word, done, ReplaceAll(value, '\'', "'\"'\"'") + "'" + rest)
            == if NulFree(value) then Scan(InWord, word + value, done, rest) else None
  {
    hide Scan;
    var body := ReplaceAll(value, '\'', "'\"'\"'");
    if value == "" {
      assert body + "'" + rest == "'" + rest;
      ScanSingle('\'', word, done, rest);
      assert word + value == word;
    } else {
      var c := value[0];
      var after := ReplaceAll(value[1..], '\'', "'\"'\"'");
      assert body == (if c == '\'' then "'\"'\"'" else [c]) + after;
      hide ReplaceAll;
      var tail := after + "'" + rest;
      assert value == [c] + value[1..];
      assert word + value == word + [c] + value[1..];
      ScanQuoted(value[1..], word + [c], done, rest);
      if c == '\'' {
        assert body + "'" + rest == "'\"'\"'" + tail;
        ScanEscapedQuote(word, done, tail);
      } else {
        assert body + "'" + rest == [c] + tail;
        ScanSingle(c, word, done, tail);
      }
    }
  }

  predicate AllNulFree(values: seq<string>) {
    forall i :: 0 <= i < |values| ==> NulFree(values[i])
  }

  lemma {:induction false} ScanTail(values: seq<string>, word: string, done: seq<string>)
    ensures Scan(InWord, word, done, SpacedTail(values, false))
            == if AllNulFree(values) then Some(done + [word] + values) else None
  {
    if values == [] {
      assert done + [word] + values == done + [word];
    } else {
      var quoted := ReplaceAll(values[0], '\'', "'\"'\"'") + "'";
      var rest := SpacedTail(values[1..], false);
      var fromQuote := "'" + (quoted + rest);
      assert SpacedTail(values, false) == " " + fromQuote;
      assert (" " + fromQuote)[1..] == fromQuote && fromQuote[1..] == quoted + rest;
      ScanQuoted(values[0], "", done + [word], rest);
      assert "" + values[0] == values[0];
      ScanTail(values[1..], values[0], done + [word]);
      assert done + [word] + [values[0]] + values[1..] == done + [word] + values;
      assert AllNulFree(values) <==> NulFree(values[0]) && AllNulFree(values[1..]) by {
        assert values == [values[0]] + values[1..];
      }
    }
  }

  /** The shell reads back exactly the executable and the arguments, for all texts that a
      command line can carry at all. */
  lemma ShellReadsBack(executable: string, arguments: seq<string>)
    ensures SplitWords(ShellCommand(executable, arguments, false))
            == if AllNulFree([executable] + arguments) then Some([executable] + arguments) else None
  {
    var quoted := ReplaceAll(executable, '\'', "'\"'\"'") + "'";
    var rest := SpacedTail(arguments, false);
    assert ShellCommand(executable, arguments, false) == "'" + (quoted + rest);
    assert ("'" + (quoted + rest))[1..] == quoted + rest;
    ScanQuoted(executable, "", [], rest);
    assert "" + executable == executable;
    ScanTail(arguments, executable, []);
    assert [] + [executable] + arguments == [executable] + arguments;
    assert AllNulFree([executable] + arguments) <==> NulFree(executable) && AllNulFree(arguments) by {
      var all := [executable] + arguments;
      if AllNulFree(all) {
        assert NulFree(all[0]);
        forall i | 0 <= i < |arguments| ensures NulFree(arguments[i]) { assert all[i + 1] == arguments[i]; }
      }
    }
  }
}
