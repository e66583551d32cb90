/**
 * How `saveLrcFile` quotes the lyrics, and what the shells make of the quoting.
 * The lyrics are escaped for a single-quoted `echo` argument, and the whole
 * remote command is wrapped in double quotes on the local `exec` command line:
 *
 *   ssh <user>@<host> "echo '<escaped lyrics>' > '<path>'"
 *
 * so the local `/bin/sh` parses the quotes first and the remote shell parses
 * what is left. The quote states of a POSIX shell are modelled for text without
 * backslashes, `$` and backquotes, the characters that start escapes and
 * substitutions.
 */
module ShellQuoting {

  const Quote: char := '\''
  /** What each single quote of the lyrics becomes inside the single-quoted `echo` argument. */
  const EscapedQuote: string := "'\"'\"'"

  /** `content.replace(/'/g, "'\"'\"'")`. */
  function EscapeQuotes(content: string): string
  {
    if content == [] then []
    else (if content[0] == Quote then EscapedQuote else [content[0]]) + EscapeQuotes(content[1..])
  }

  /** Each quote grows by four characters; every other character is copied once. */
  lemma {:induction false} EscapeLength(content: string)
    ensures |EscapeQuotes(content)| == |content| + 4 * multiset(content)[Quote]
  {
    if content != [] {
      EscapeLength(content[1..]);
      assert content == [content[0]] + content[1..];
    }
  }

  /** Escaping works character by character, from the left. */
  lemma EscapeCons(c: char, rest: string)
    ensures EscapeQuotes([c] + rest) == (if c == Quote then EscapedQuote else [c]) + EscapeQuotes(rest)
  {
    assert ([c] + rest)[1..] == rest;
  }

  /** "it's" is sent as `it'"'"'s`. */
  lemma EscapeExample()
    ensures EscapeQuotes("it's") == "it'\"'\"'s"
  {
    EscapeCons('s', []);
    EscapeCons(Quote, "s");
    EscapeCons('t', "'s");
    EscapeCons('i', "t's");
    assert "it's" == ['i'] + "t's";
  }

  /** Lyrics without a single quote are sent as they are. */
  lemma {:induction false} EscapeQuoteFree(content: string)
    requires Quote !in content
    ensures EscapeQuotes(content) == content
  {
    if content != [] {
      assert content[0] != Quote;
      EscapeQuoteFree(content[1..]);
      assert content == [content[0]] + content[1..];
    }
  }

  /** Characters that start an escape or a substitution in a shell. */
  predicate Special(ch: char) {
    ch == '\\' || ch == '$' || ch == '`'
  }

  /** Text whose quoting the quote states below capture exactly. */
  predicate Plain(s: string) {
    forall ch :: ch in s ==> !Special(ch)
  }

  /** Text no shell and no `echo` changes when it sits inside quotes: no quote, no special character, no NUL. */
  predicate Literal(s: string) {
    forall ch :: ch in s ==> !Special(ch) && ch != Quote && ch != '"' && ch != '\0'
  }

  /** An `echo` argument printed as it is: literal, and not read as an option. */
  predicate EchoesAsIs(s: string) {
    Literal(s) && (s == [] || s[0] != '-')
  }

  /** Outside quotes, inside single quotes, or inside double quotes. */
  datatype QuoteMode = Bare | InSingle | InDouble

  /** The quote state after one more character. */
  function Step(m: QuoteMode, ch: char): QuoteMode
  {
    match m
    case Bare => if ch == Quote then InSingle else if ch == '"' then InDouble else Bare
    case InSingle => if ch == Quote then Bare else InSingle
    case InDouble => if ch == '"' then Bare else InDouble
  }

  /** The text a parse keeps (quote removal done, word splitting not modelled) and the state it ends in. */
  datatype Parse = Parse(word: string, mode: QuoteMode)

  /**
   * Quote removal from state `m`: a character that opens or closes a quoted
   * part is dropped, every other character is kept.
   */
  function Unquote(m: QuoteMode, s: string): Parse
    decreases |s|
  {
    if s == [] then Parse([], m)
    else
      var next := Step(m, s[0]);
      var rest := Unquote(next, s[1..]);
      Parse((if next == m then [s[0]] else []) + rest.word, rest.mode)
  }

  /** Parsing is left to right: a concatenation is parsed piece after piece. */
  lemma {:induction false} UnquoteAppend(m: QuoteMode, a: string, b: string)
    ensures var first := Unquote(m, a);
            var second := Unquote(first.mode, b);
            Unquote(m, a + b) == Parse(first.word + second.word, second.mode)
    decreases |a|
  {
    if a == [] {
      assert a + b == b;
    } else {
      assert (a + b)[0] == a[0];
      assert (a + b)[1..] == a[1..] + b;
      UnquoteAppend(Step(m, a[0]), a[1..], b);
    }
  }

  /** Text without quotes is kept as it is, in whatever state. */
  lemma {:induction false} UnquoteQuoteFree(m: QuoteMode, s: string)
    requires Quote !in s && '"' !in s
    ensures Unquote(m, s) == Parse(s, m)
    decreases |s|
  {
    if s != [] {
      var c, rest := s[0], s[1..];
      assert c in s;
      assert Step(m, c) == m;
      assert Quote !in rest && '"' !in rest by {
        assert forall ch :: ch in rest ==> ch in s;
      }
      UnquoteQuoteFree(m, rest);
      assert s == [c] + rest;
    }
  }

  /**
   * What the escaping is for: a shell that parses `'<escaped lyrics>'` once
   * gets the lyrics back exactly, whatever they hold.
   */
  lemma SingleQuotedRoundTrip(content: string)
    ensures Unquote(Bare, [Quote] + EscapeQuotes(content) + [Quote]) == Parse(content, Bare)
  {
    UnquoteAppend(Bare, [Quote], EscapeQuotes(content) + [Quote]);
    UnquoteAppend(InSingle, EscapeQuotes(content), [Quote]);
    UnquoteEscaped(content);
    assert [Quote] + EscapeQuotes(content) + [Quote] == [Quote] + (EscapeQuotes(content) + [Quote]);
  }

  lemma {:induction false} UnquoteEscaped(content: string)
    ensures Unquote(InSingle, EscapeQuotes(content)) == Parse(content, InSingle)
    decreases |content|
  {
    if content != [] {
      var head := if content[0] == Quote then EscapedQuote else [content[0]];
      UnquoteAppend(InSingle, head, EscapeQuotes(content[1..]));
      UnquoteEscaped(content[1..]);
      assert Unquote(InSingle, head) == Parse([content[0]], InSingle);
      assert content == [content[0]] + content[1..];
    }
  }

  /** The state flip one escaped quote causes between the unquoted and the double-quoted state. */
  function Flip(m: QuoteMode): QuoteMode
  {
    match m
    case Bare => InDouble
    case InDouble => Bare
    case InSingle => InSingle
  }

  /**
   * Inside double quotes, `'"'"'` does not read as an escaped quote: its first
   * `"` closes the double quotes. Each escaped quote therefore moves the parse
   * between the double-quoted and the unquoted state.
   */
  lemma {:induction false} EscapedQuotesToggle(m: QuoteMode, content: string)
    requires m != InSingle && '"' !in content
    ensures Unquote(m, EscapeQuotes(content)).mode == if multiset(content)[Quote] % 2 == 0 then m else Flip(m)
    decreases |content|
  {
    if content != [] {
      var rest := content[1..];
      var m1 := if content[0] == Quote then Flip(m) else m;
      var head := if content[0] == Quote then EscapedQuote else [content[0]];
      assert EscapeQuotes(content) == head + EscapeQuotes(rest);
      EscapeHeadMode(m, content[0], EscapeQuotes(rest));
      assert '"' !in rest by {
        assert forall ch :: ch in rest ==> ch in content;
      }
      EscapedQuotesToggle(m1, rest);
      QuoteCountCons(content);
      assert Unquote(m, EscapeQuotes(content)).mode == Unquote(m1, EscapeQuotes(rest)).mode;
    }
  }

  /** One escaped character moves the state as `Flip` says, or not at all. */
  lemma EscapeHeadMode(m: QuoteMode, c0: char, tail: string)
    requires m != InSingle && c0 != '"'
    ensures var head := if c0 == Quote then EscapedQuote else [c0];
            Unquote(m, head + tail).mode == Unquote(if c0 == Quote then Flip(m) else m, tail).mode
  {
    var head := if c0 == Quote then EscapedQuote else [c0];
    UnquoteAppend(m, head, tail);
  }

  lemma QuoteCountCons(content: string)
    requires content != []
    ensures multiset(content)[Quote] == multiset(content[1..])[Quote] + if content[0] == Quote then 1 else 0
  {
    assert content == [content[0]] + content[1..];
  }

  /** The double-quoted argument of the local `ssh` command line, quotes included. */
  function EchoArgument(path: string, payload: string): string
  {
    "\"echo '" + payload + "' > '" + path + "'\""
  }

  /**
   * The local shell's quotes close exactly when the lyrics hold an even number
   * of single quotes (for lyrics without double quotes and a path without
   * quotes). With an odd number the command line ends inside a quote and
   * `/bin/sh` rejects it.
   */
  lemma LocalQuotesClose(content: string, path: string)
    requires '"' !in content && Quote !in path && '"' !in path
    ensures Unquote(Bare, EchoArgument(path, EscapeQuotes(content))).mode == Bare
            <==> multiset(content)[Quote] % 2 == 0
  {
    var pre, post := "\"echo '", "' > '" + path + "'\"";
    var e := EscapeQuotes(content);
    assert EchoArgument(path, e) == pre + (e + post);
    UnquoteAppend(Bare, pre, e + post);
    assert Unquote(Bare, pre).mode == InDouble;
    UnquoteAppend(InDouble, e, post);
    EscapedQuotesToggle(InDouble, content);
    PostFromDouble(path);
    PostFromBare(path);
  }

  lemma PostFromDouble(path: string)
    requires Quote !in path && '"' !in path
    ensures Unquote(InDouble, "' > '" + path + "'\"").mode == Bare
  {
    UnquoteAppend(InDouble, "' > '", path + "'\"");
    UnquoteAppend(InDouble, path, "'\"");
    UnquoteQuoteFree(InDouble, path);
    assert "' > '" + path + "'\"" == "' > '" + (path + "'\"");
  }

  lemma PostFromBare(path: string)
    requires Quote !in path && '"' !in path
    ensures Unquote(Bare, "' > '" + path + "'\"").mode == InSingle
  {
    UnquoteAppend(Bare, "' > '", path + "'\"");
    UnquoteAppend(Bare, path, "'\"");
    UnquoteQuoteFree(Bare, path);
    assert "' > '" + path + "'\"" == "' > '" + (path + "'\"");
  }

  /** Escaping adds only quotes, so it keeps text plain. */
  lemma {:induction false} EscapeKeepsPlain(content: string)
    requires Plain(content)
    ensures Plain(EscapeQuotes(content))
    decreases |content|
  {
    if content != [] {
      assert forall ch :: ch in content[1..] ==> ch in content;
      EscapeKeepsPlain(content[1..]);
      assert content[0] in content;
    }
  }
}
