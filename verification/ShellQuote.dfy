/** Shell quoting against the quoting rules of the POSIX.1-2017 Shell Command Language. */
module ShellQuote {

  const QUOTE := '\''
  const BACKSLASH := '\\'

  /** Every quote is closed, escaped and reopened. */
  function Escaped(s: string): string {
    if |s| == 0 then ""
    else if s[0] == QUOTE then [QUOTE, BACKSLASH, QUOTE, QUOTE] + Escaped(s[1..])
    else [s[0]] + Escaped(s[1..])
  }

  function Quote(s: string): string {
    [QUOTE] + Escaped(s) + [QUOTE]
  }

  // ---- word splitting: sections 2.2.1 (escape character) and 2.2.2 (single-quotes) ----

  datatype Mode = Between | Word | Quoted
  datatype Lexed = Words(words: seq<string>) | Unsupported | Unterminated

  /** Characters with a meaning of their own outside quotes. */
  predicate Special(c: char) {
    c in "|&;<>()$`\"*?[#~=%!{}\n\0"
  }

  predicate Blank(c: char) {
    c == ' ' || c == '\t'
  }

  /** Splits text into words; `word` is the word read so far. Anything but quoting,
      blanks and plain characters is rejected. */
  function Lex(text: string, mode: Mode, word: string, words: seq<string>): Lexed
    decreases |text|
  {
    if |text| == 0 then
      match mode
      case Between => Words(words)
      case Word => Words(words + [word])
      case Quoted => Unterminated
    else
      var c, rest := text[0], text[1..];
      if mode == Quoted then
        if c == QUOTE then Lex(rest, Word, word, words)
        else if c == '\0' then Unsupported
        else Lex(rest, Quoted, word + [c], words)
      else if c == QUOTE then Lex(rest, Quoted, word, words)
      else if c == BACKSLASH then
        if |rest| == 0 then Unterminated
        else if rest[0] == '\n' then Lex(rest[1..], mode, word, words)
        else Lex(rest[1..], Word, word + [rest[0]], words)
      else if Blank(c) then
        if mode == Word then Lex(rest, Between, "", words + [word]) else Lex(rest, Between, "", words)
      else if Special(c) then Unsupported
      else Lex(rest, Word, word + [c], words)
  }

  /** An argument list as a command line: quoted words separated by blanks. */
  function CommandLine(args: seq<string>): string {
    if |args| == 0 then "" else Quote(args[0]) + (if |args| == 1 then "" else " " + CommandLine(args[1..]))
  }

  lemma CloseQuote(t: string, word: string, words: seq<string>)
    ensures Lex([QUOTE] + t, Quoted, word, words) == Lex(t, Word, word, words)
  {
    hide Special, Blank;
    assert ([QUOTE] + t)[1..] == t;
  }

  lemma OpenQuote(t: string, mode: Mode, word: string, words: seq<string>)
    requires mode != Quoted
    ensures Lex([QUOTE] + t, mode, word, words) == Lex(t, Quoted, word, words)
  {
    hide Special, Blank;
    assert ([QUOTE] + t)[1..] == t;
  }

  lemma EscapeQuote(t: string, word: string, words: seq<string>)
    ensures Lex([BACKSLASH, QUOTE] + t, Word, word, words) == Lex(t, Word, word + [QUOTE], words)
  {
    hide Special, Blank;
    var text := [BACKSLASH, QUOTE] + t;
    assert text[1..] == [QUOTE] + t && text[1..][1..] == t;
  }

  lemma KeepQuoted(c: char, t: string, word: string, words: seq<string>)
    requires c != QUOTE && c != '\0'
    ensures Lex([c] + t, Quoted, word, words) == Lex(t, Quoted, word + [c], words)
  {
    hide Special, Blank;
    assert ([c] + t)[1..] == t;
  }

  lemma {:induction false} EscapedLexes(s: string, tail: string, word: string, words: seq<string>)
    requires '\0' !in s
    ensures Lex(Escaped(s) + tail, Quoted, word, words) == Lex(tail, Quoted, word + s, words)
  {
    hide Lex;
    if |s| == 0 {
      assert Escaped(s) + tail == tail && word + s == word;
    } else {
      var more, w := Escaped(s[1..]) + tail, word + [s[0]];
      EscapedLexes(s[1..], tail, w, words);
      assert w + s[1..] == word + s;
      if s[0] == QUOTE {
        assert Escaped(s) + tail == [QUOTE] + ([BACKSLASH, QUOTE] + ([QUOTE] + more));
        CloseQuote([BACKSLASH, QUOTE] + ([QUOTE] + more), word, words);
        EscapeQuote([QUOTE] + more, word, words);
        OpenQuote(more, Word, w, words);
      } else {
        assert Escaped(s) + tail == [s[0]] + more;
        assert s[0] in s;
        KeepQuoted(s[0], more, word, words);
      }
    }
  }

  /** Quoted text is read as part of one word, whatever follows. */
  lemma QuoteLexes(s: string, tail: string, words: seq<string>)
    requires '\0' !in s
    ensures Lex(Quote(s) + tail, Between, "", words) == Lex(tail, Word, s, words)
  {
    hide Lex, Escaped;
    assert Quote(s) + tail == [QUOTE] + (Escaped(s) + ([QUOTE] + tail));
    OpenQuote(Escaped(s) + ([QUOTE] + tail), Between, "", words);
    EscapedLexes(s, [QUOTE] + tail, "", words);
    assert "" + s == s;
    CloseQuote(tail, s, words);
  }

  /** A quoted string is read as exactly one word, equal to the original. */
  lemma QuoteRoundTrips(s: string)
    requires '\0' !in s
    ensures Lex(Quote(s), Between, "", []) == Words([s])
  {
    QuoteLexes(s, "", []);
    assert Quote(s) + "" == Quote(s);
  }

  /** A whole argument list survives quoting, also with empty arguments. */
  lemma {:induction false} CommandLineRoundTrips(args: seq<string>, words: seq<string>)
    requires forall s :: s in args ==> '\0' !in s
    ensures Lex(CommandLine(args), Between, "", words) == Words(words + args)
  {
    if |args| == 0 {
      assert words + args == words;
    } else {
      var s, rest := args[0], if |args| == 1 then "" else " " + CommandLine(args[1..]);
      QuoteLexes(s, rest, words);
      if |args| > 1 {
        assert rest[1..] == CommandLine(args[1..]);
        CommandLineRoundTrips(args[1..], words + [s]);
        assert words + [s] + args[1..] == words + args;
      } else {
        assert args == [s];
      }
    }
  }
}
