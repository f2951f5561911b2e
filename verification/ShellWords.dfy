/** Shell quoting (`shellQuote`) and the quote-aware statement lexer (`copilotSplitStatements`). */
module ShellWords {
  import opened Basics

  /** The bytes that make `shellQuote` reach for quotes. */
  predicate NeedsQuotes(c: char) {
    c in {' ', '\t', '\n', 11 as char, '\r', '"', '\'', '\\', '$', '`', '&', ';', '|', '<', '>', '(', ')',
          '*', '?', '[', ']', '{', '}', '!', '#', '~', '^'}
  }

  predicate Metacharacter(c: char) {
    c in {'|', '&', '<', '>', '(', ')', '`', '$'}
  }

  /** Every quote closed, escaped and reopened. */
  function Escape(s: string): string {
    if s == [] then [] else (if s[0] == '\'' then "'\\''" else [s[0]]) + Escape(s[1..])
  }

  function Quote(s: string): string {
    if s != [] && forall c :: c in s ==> !NeedsQuotes(c) then s else "'" + Escape(s) + "'"
  }

  /** Words separated by spaces. */
  function Line(words: seq<string>): string {
    if words == [] then [] else Quote(words[0]) + (if |words| == 1 then [] else " " + Line(words[1..]))
  }

  /** Statements separated by "; ". */
  function Script(statements: seq<seq<string>>): string {
    if statements == [] then []
    else Line(statements[0]) + (if |statements| == 1 then [] else "; " + Script(statements[1..]))
  }

  // ----- the lexer -----

  datatype Lexer = Lexer(statements: seq<seq<string>>, words: seq<string>, word: string, haveWord: bool)

  function FlushWord(l: Lexer): Lexer {
    if l.haveWord then l.(words := l.words + [l.word], word := "", haveWord := false) else l
  }

  function FlushStatement(l: Lexer): Lexer {
    var f := FlushWord(l);
    if |f.words| > 0 then f.(statements := f.statements + [f.words], words := []) else f
  }

  function Put(l: Lexer, c: char): Lexer {
    l.(word := l.word + [c], haveWord := true)
  }

  /** Lexing the rest of a command line from state `l`. */
  function Lex(cmd: string, l: Lexer, inQuote: bool): Result<seq<seq<string>>> {
    if cmd == [] then
      if inQuote then Err else Ok(FlushStatement(l).statements)
    else
      var c, rest := cmd[0], cmd[1..];
      if inQuote then
        if c == '\'' then Lex(rest, l, false) else Lex(rest, Put(l, c), true)
      else if c == '\'' then Lex(rest, l.(haveWord := true), true)
      else if c == '\\' then
        if rest == [] then Err else Lex(rest[1..], Put(l, rest[0]), false)
      else if c == ' ' || c == '\t' then Lex(rest, FlushWord(l), false)
      else if c == ';' then Lex(rest, FlushStatement(l), false)
      else if Metacharacter(c) then Err
      else Lex(rest, Put(l, c), false)
  }

  const START := Lexer([], [], "", false)

  method SplitStatements(cmd: string) returns (r: Result<seq<seq<string>>>)
    ensures r == Lex(cmd, START, false)
  {
    var l, inQuote, i := START, false, 0;
    while i < |cmd|
      invariant 0 <= i <= |cmd|
      invariant Lex(cmd[i..], l, inQuote) == Lex(cmd, START, false)
    {
      var c := cmd[i];
      assert cmd[i..] == [c] + cmd[i + 1..];
      if inQuote {
        if c == '\'' { inQuote := false; } else { l := Put(l, c); }
      } else if c == '\'' {
        inQuote, l := true, l.(haveWord := true);
      } else if c == '\\' {
        if i + 1 >= |cmd| { return Err; }
        i := i + 1;
        l := Put(l, cmd[i]);
        assert cmd[i..] == [cmd[i]] + cmd[i + 1..];
      } else if c == ' ' || c == '\t' {
        l := FlushWord(l);
      } else if c == ';' {
        l := FlushStatement(l);
      } else if Metacharacter(c) {
        return Err;
      } else {
        l := Put(l, c);
      }
      i := i + 1;
    }
    if inQuote { return Err; }
    r := Ok(FlushStatement(l).statements);
  }

  // ----- refusals -----

  /** Outside quotes, what a shell would act on is refused, whatever stands before and behind it. */
  lemma ActiveRefused(s: string, c: char, rest: string, l: Lexer)
    requires forall x :: x in s ==> !NeedsQuotes(x)
    requires c == '|' || c == '&' || c == '<' || c == '>' || c == '(' || c == ')' || c == '`' || c == '$'
    ensures Lex(s + [c] + rest, l, false).Err?
  {
    assert s + [c] + rest == s + ([c] + rest);
    LexBare(s, [c] + rest, l);
  }

  /** A quote that is not closed, and a backslash with nothing behind it, are refused. */
  lemma {:induction false} UnfinishedRefused(s: string, l: Lexer)
    requires '\'' !in s
    ensures Lex(s, l, true).Err? && Lex("'" + s, l, false).Err? && Lex("\\", l, false).Err?
  {
    if s != [] { UnfinishedRefused(s[1..], Put(l, s[0])); }
    StillOpen(s, l.(haveWord := true));
    assert ("'" + s)[1..] == s;
  }

  lemma {:induction false} StillOpen(s: string, l: Lexer)
    requires '\'' !in s
    ensures Lex(s, l, true).Err?
  {
    if s != [] { StillOpen(s[1..], Put(l, s[0])); }
  }

  /** What a shell treats specially is never left bare. */
  lemma BareIsPlain(s: string, c: char)
    requires c in s && c in [' ', '\t', '\n', '\r', '"', '\'', '\\', '$', '`', '&', ';', '|', '<', '>', '(', ')', '*', '?', '[', ']', '{', '}', '!', '#', '~', '^']
    ensures Quote(s) == "'" + Escape(s) + "'"
  {
    SpecialNeedsQuotes(c);
    hide NeedsQuotes;
  }

  lemma SpecialNeedsQuotes(c: char)
    requires c in [' ', '\t', '\n', '\r', '"', '\'', '\\', '$', '`', '&', ';', '|', '<', '>', '(', ')', '*', '?', '[', ']', '{', '}', '!', '#', '~', '^']
    ensures NeedsQuotes(c)
  {
  }

  // ----- the round trip -----

  /** A word that needs no quotes is copied. */
  lemma {:induction false} LexBare(s: string, rest: string, l: Lexer)
    requires forall c :: c in s ==> !NeedsQuotes(c)
    ensures Lex(s + rest, l, false) == Lex(rest, if s == [] then l else l.(word := l.word + s, haveWord := true), false)
  {
    if s == [] {
      assert s + rest == rest;
    } else {
      assert (s + rest)[1..] == s[1..] + rest;
      assert s[0] in s;
      LexBare(s[1..], rest, Put(l, s[0]));
      assert l.word + s == l.word + [s[0]] + s[1..];
      assert s[1..] == [] ==> l.word + s == Put(l, s[0]).word;
    }
  }

  /** A quote is written by leaving the quotes, escaping it and entering them again. */
  lemma LexEscapedQuote(tail: string, l: Lexer)
    requires l.haveWord
    ensures Lex("'\\''" + tail, l, true) == Lex(tail, Put(l, '\''), true)
  {
    var text := "'\\''" + tail;
    assert text[1..] == "\\''" + tail;
    assert text[1..][1..] == "''" + tail;
    assert text[1..][1..][1..] == "'" + tail && ("'" + tail)[1..] == tail;
    assert Lex(text, l, true) == Lex("'" + tail, Put(l, '\''), false);
    assert Put(l, '\'').(haveWord := true) == Put(l, '\'');
  }

  /** Inside quotes everything is copied, and an escaped quote comes back as one. */
  lemma {:induction false} LexEscaped(s: string, rest: string, l: Lexer)
    requires l.haveWord
    ensures Lex(Escape(s) + "'" + rest, l, true) == Lex(rest, l.(word := l.word + s), false)
  {
    var text := Escape(s) + "'" + rest;
    if s == [] {
      assert text == "'" + rest;
      assert l.word + s == l.word;
    } else {
      var tail := Escape(s[1..]) + "'" + rest;
      LexEscaped(s[1..], rest, Put(l, s[0]));
      assert l.word + s == l.word + [s[0]] + s[1..];
      if s[0] == '\'' {
        assert text == "'\\''" + tail;
        LexEscapedQuote(tail, l);
      } else {
        assert text == [s[0]] + tail;
      }
    }
  }

  lemma LexQuoted(s: string, rest: string, l: Lexer)
    ensures Lex(Quote(s) + rest, l, false) == Lex(rest, l.(word := l.word + s, haveWord := true), false)
  {
    hide Lex, NeedsQuotes, Escape;
    if s != [] && forall c :: c in s ==> !NeedsQuotes(c) {
      LexBare(s, rest, l);
    } else {
      OpensQuote(Escape(s) + "'" + rest, l);
      assert Quote(s) + rest == "'" + (Escape(s) + "'" + rest);
      LexEscaped(s, rest, l.(haveWord := true));
    }
  }

  lemma OpensQuote(text: string, l: Lexer)
    ensures Lex("'" + text, l, false) == Lex(text, l.(haveWord := true), true)
  {
    assert ("'" + text)[1..] == text;
  }

  lemma LexWord(w: string, tail: string, l: Lexer)
    requires !l.haveWord && l.word == ""
    ensures Lex(Quote(w) + (" " + tail), l, false) == Lex(tail, Lexer(l.statements, l.words + [w], "", false), false)
  {
    LexQuoted(w, " " + tail, l);
    assert l.word + w == w && (" " + tail)[1..] == tail;
  }

  lemma Regroup(a: string, b: string, c: string, d: string)
    ensures a + (b + c) + d == a + (b + (c + d))
  {
  }

  lemma {:induction false} LexLine(words: seq<string>, rest: string, l: Lexer)
    requires words != [] && !l.haveWord && l.word == ""
    ensures Lex(Line(words) + rest, l, false)
         == Lex(rest, Lexer(l.statements, l.words + words[..|words| - 1], words[|words| - 1], true), false)
  {
    hide Lex, Quote;
    var w := words[0];
    if |words| == 1 {
      LexQuoted(w, rest, l);
      assert Quote(w) + [] == Quote(w);
      assert l.words + words[..0] == l.words && l.word + w == w;
    } else {
      var tail := Line(words[1..]) + rest;
      Regroup(Quote(w), " ", Line(words[1..]), rest);
      LexWord(w, tail, l);
      LexLine(words[1..], rest, Lexer(l.statements, l.words + [w], "", false));
      assert l.words + [w] + words[1..][..|words| - 2] == l.words + words[..|words| - 1];
    }
  }

  lemma {:induction false} LexScript(statements: seq<seq<string>>, done: seq<seq<string>>)
    requires forall i :: 0 <= i < |statements| ==> statements[i] != []
    ensures Lex(Script(statements), Lexer(done, [], "", false), false) == Ok(done + statements)
  {
    hide Line, Quote;
    var l := Lexer(done, [], "", false);
    if statements == [] {
      assert done + statements == done;
    } else {
      var ws := statements[0];
      var rest := if |statements| == 1 then [] else "; " + Script(statements[1..]);
      LexLine(ws, rest, l);
      var l' := Lexer(done, [] + ws[..|ws| - 1], ws[|ws| - 1], true);
      assert l'.words + [l'.word] == ws;
      var next := FlushStatement(l');
      assert next == Lexer(done + [ws], [], "", false);
      if |statements| == 1 {
        assert statements == [ws];
      } else {
        assert rest[1..] == " " + Script(statements[1..]) && rest[1..][1..] == Script(statements[1..]);
        LexScript(statements[1..], done + [ws]);
        assert done + [ws] + statements[1..] == done + statements;
      }
    }
  }

  /** Quoting, joining and lexing gives back exactly the original words. */
  lemma QuoteLexRoundTrip(statements: seq<seq<string>>)
    requires forall i :: 0 <= i < |statements| ==> statements[i] != []
    ensures Lex(Script(statements), START, false) == Ok(statements)
  {
    LexScript(statements, []);
    assert [] + statements == statements;
  }
}
