/** Shell escaping, and a reader of shell words to compare it with. */
module ShellQuote {
  import opened Common

  // ----- Escape -----

  /** The characters a bare argument may start with: letters, digits and _-@%+:,./ */
  predicate LeadingSafe(c: char) {
    '0' <= c <= '9' || 'A' <= c <= 'Z' || 'a' <= c <= 'z' ||
    c == '_' || c == '-' || c == '@' || c == '%' || c == '+' || c == ':' || c == ',' || c == '.' || c == '/'
  }

  predicate TrailingSafe(c: char) { LeadingSafe(c) || c == '=' }

  /** Whether the argument matches safeRE. */
  predicate Safe(s: string) {
    s != "" && LeadingSafe(s[0]) && forall i :: 1 <= i < |s| ==> TrailingSafe(s[i])
  }

  /** Every single quote becomes: close the quotes, a single quote in double quotes, open the quotes again. */
  function ReplaceQuotes(s: string): string {
    if s == "" then "" else (if s[0] == '\'' then "'\"'\"'" else [s[0]]) + ReplaceQuotes(s[1..])
  }

  function Escape(s: string): string {
    if Safe(s) then s else "'" + ReplaceQuotes(s) + "'"
  }

  function EscapeSlice(args: seq<string>): string {
    if args == [] then ""
    else if |args| == 1 then Escape(args[0])
    else Escape(args[0]) + " " + EscapeSlice(args[1..])
  }

  // ----- Reading words, after sections 2.2.2, 2.2.3 and 2.3 of the POSIX Shell Command Language -----

  /** Characters that outside quotes end the word, start an expansion, an operator, a pattern or a
      comment, or form a reserved word (sections 2.2 and 2.4). */
  predicate Special(c: char) { c in "|&;<>()$`\\\n*?[#~!{}" }

  predicate Blank(c: char) { c == ' ' || c == '\t' }

  datatype Mode = Between | Bare | InSingle | InDouble

  /** Reads the rest s of a command line; word is the word being read, words are the ones before it.  The
      result is None if the line is not plain words: something special is not quoted, or a quote is open. */
  function ReadFrom(s: string, mode: Mode, word: string, words: seq<string>): Option<seq<string>>
    decreases |s|, if mode == Between then 1 else 0
  {
    if s == "" then
      match mode case Between => Some(words) case Bare => Some(words + [word]) case _ => None
    else
      match mode
      case Between => if Blank(s[0]) then ReadFrom(s[1..], Between, "", words) else ReadFrom(s, Bare, "", words)
      case Bare =>
        if Blank(s[0]) then ReadFrom(s[1..], Between, "", words + [word])
        else if s[0] == '\'' then ReadFrom(s[1..], InSingle, word, words)
        else if s[0] == '"' then ReadFrom(s[1..], InDouble, word, words)
        else if Special(s[0]) || (s[0] == '=' && word == "") then None
        else ReadFrom(s[1..], Bare, word + [s[0]], words)
      case InSingle =>
        if s[0] == '\'' then ReadFrom(s[1..], Bare, word, words) else ReadFrom(s[1..], InSingle, word + [s[0]], words)
      case InDouble =>
        if s[0] == '"' then ReadFrom(s[1..], Bare, word, words)
        else if s[0] in "$`\\" then None
        else ReadFrom(s[1..], InDouble, word + [s[0]], words)
  }

  function ReadWords(line: string): Option<seq<string>> { ReadFrom(line, Between, "", []) }

  // ----- Round trip -----

  lemma StepBlank(s: string, words: seq<string>, word: string)
    requires s != "" && s[0] == ' '
    ensures ReadFrom(s, Bare, word, words) == ReadFrom(s[1..], Between, "", words + [word])
  {
  }

  lemma StepBegin(s: string, words: seq<string>)
    requires s != "" && (LeadingSafe(s[0]) || s[0] == '\'')
    ensures ReadFrom(s, Between, "", words) == ReadFrom(s, Bare, "", words)
    ensures s[0] == '\'' ==> ReadFrom(s, Bare, "", words) == ReadFrom(s[1..], InSingle, "", words)
  {
  }

  lemma StepBare(s: string, word: string, words: seq<string>)
    requires s != "" && TrailingSafe(s[0]) && (word == "" ==> LeadingSafe(s[0]))
    ensures ReadFrom(s, Bare, word, words) == ReadFrom(s[1..], Bare, word + [s[0]], words)
  {
    assert !Special(s[0]);
  }

  lemma {:induction false} ReadsSafe(s: string, rest: string, word: string, words: seq<string>)
    requires forall i :: 0 <= i < |s| ==> TrailingSafe(s[i])
    requires s != "" && word == "" ==> LeadingSafe(s[0])
    ensures ReadFrom(s + rest, Bare, word, words) == ReadFrom(rest, Bare, word + s, words)
  {
    hide ReadFrom, LeadingSafe;
    if s == "" {
      assert s + rest == rest && word + s == word;
    } else {
      StepBare(s + rest, word, words);
      assert (s + rest)[1..] == s[1..] + rest;
      ReadsSafe(s[1..], rest, word + [s[0]], words);
      assert word + [s[0]] + s[1..] == word + s;
    }
  }

  /** The five characters that stand for a single quote read as one. */
  lemma ReadsQuote(rest: string, word: string, words: seq<string>)
    ensures ReadFrom("'\"'\"'" + rest, InSingle, word, words) == ReadFrom(rest, InSingle, word + "'", words)
  {
    var s := "'\"'\"'" + rest;
    assert s[1..] == "\"'\"'" + rest;
    assert s[1..][1..] == "'\"'" + rest;
    assert s[1..][1..][1..] == "\"'" + rest;
    assert s[1..][1..][1..][1..] == "'" + rest;
    assert s[1..][1..][1..][1..][1..] == rest;
    assert ReadFrom(s, InSingle, word, words) == ReadFrom(s[1..], Bare, word, words);
    assert ReadFrom(s[1..], Bare, word, words) == ReadFrom(s[1..][1..], InDouble, word, words);
    assert ReadFrom(s[1..][1..], InDouble, word, words) == ReadFrom(s[1..][1..][1..], InDouble, word + "'", words);
    assert ReadFrom(s[1..][1..][1..], InDouble, word + "'", words) == ReadFrom("'" + rest, Bare, word + "'", words);
  }

  lemma StepInQuotes(c: char, rest: string, word: string, words: seq<string>)
    ensures ReadFrom([c] + rest, InSingle, word, words) ==
      if c == '\'' then ReadFrom(rest, Bare, word, words) else ReadFrom(rest, InSingle, word + [c], words)
  {
    assert ([c] + rest)[1..] == rest;
  }

  lemma {:induction false} ReadsQuoted(s: string, rest: string, word: string, words: seq<string>)
    ensures ReadFrom(ReplaceQuotes(s) + "'" + rest, InSingle, word, words) == ReadFrom(rest, Bare, word + s, words)
  {
    hide ReadFrom;
    if s == "" {
      assert ReplaceQuotes(s) + "'" + rest == "'" + rest && word + s == word;
      StepInQuotes('\'', rest, word, words);
    } else {
      var tail := ReplaceQuotes(s[1..]) + "'" + rest;
      assert word + [s[0]] + s[1..] == word + s;
      ReadsQuoted(s[1..], rest, word + [s[0]], words);
      if s[0] == '\'' {
        assert ReplaceQuotes(s) + "'" + rest == "'\"'\"'" + tail;
        ReadsQuote(tail, word, words);
      } else {
        assert ReplaceQuotes(s) + "'" + rest == [s[0]] + tail;
        StepInQuotes(s[0], tail, word, words);
      }
    }
  }

  /** An escaped argument reads as the argument. */
  lemma ReadsEscaped(arg: string, rest: string, words: seq<string>)
    ensures ReadFrom(Escape(arg) + rest, Between, "", words) == ReadFrom(rest, Bare, arg, words)
  {
    hide ReadFrom, LeadingSafe, ReplaceQuotes;
    var s := Escape(arg) + rest;
    StepBegin(s, words);
    assert "" + arg == arg;
    if Safe(arg) {
      ReadsSafe(arg, rest, "", words);
    } else {
      assert s == "'" + (ReplaceQuotes(arg) + "'" + rest);
      assert s[1..] == ReplaceQuotes(arg) + "'" + rest;
      ReadsQuoted(arg, rest, "", words);
    }
  }

  lemma {:induction false} ReadsSlice(args: seq<string>, words: seq<string>)
    ensures ReadFrom(EscapeSlice(args), Between, "", words) == Some(words + args)
  {
    hide LeadingSafe, ReplaceQuotes, Escape, Special;
    if args == [] {
      assert words + args == words;
    } else if |args| == 1 {
      ReadsEscaped(args[0], "", words);
      assert Escape(args[0]) + "" == Escape(args[0]);
      assert words + args == words + [args[0]];
    } else {
      var rest := " " + EscapeSlice(args[1..]);
      assert EscapeSlice(args) == Escape(args[0]) + rest;
      ReadsEscaped(args[0], rest, words);
      StepBlank(rest, words, args[0]);
      assert rest[1..] == EscapeSlice(args[1..]);
      ReadsSlice(args[1..], words + [args[0]]);
      assert words + [args[0]] + args[1..] == words + args;
    }
  }

  /** Reading what EscapeSlice prints gives back the arguments, whatever they are. */
  lemma RoundTrip(args: seq<string>)
    ensures ReadWords(EscapeSlice(args)) == Some(args)
  {
    ReadsSlice(args, []);
    assert [] + args == args;
  }

  /** So different argument lists never print the same. */
  lemma EscapeSliceInjective(a: seq<string>, b: seq<string>)
    requires EscapeSlice(a) == EscapeSlice(b)
    ensures a == b
  {
    RoundTrip(a);
    RoundTrip(b);
  }
}
