/** Quoting of command-line arguments for a shell (run_steps.go), read back by the shell's own rules. */
module ShellQuoting {
  import opened Outcomes
  import opened Text

  // ---------------------------------------------------------------------------------------
  // Writing
  // ---------------------------------------------------------------------------------------

  const QUOTE: char := '\''

  /** Every single quote becomes: close the quotes, a backslash and a quote, open the quotes again. */
  function Escaped(s: string): string {
    if s == "" then ""
    else (if s[0] == QUOTE then "'\\''" else [s[0]]) + Escaped(s[1..])
  }

  function SingleQuote(s: string): string {
    "'" + Escaped(s) + "'"
  }

  function Joined(args: seq<string>): string {
    if args == [] then ""
    else if |args| == 1 then SingleQuote(args[0])
    else SingleQuote(args[0]) + " " + Joined(args[1..])
  }

  method JoinArgs(args: seq<string>) returns (line: string)
    ensures line == Joined(args)
  {
    if |args| == 0 {
      return "";
    }
    line := SingleQuote(args[0]);
    var i := 1;
    while i < |args|
      invariant 1 <= i <= |args| && line == Joined(args[..i])
    {
      JoinedSnoc(args[..i], args[i]);
      assert args[..i + 1] == args[..i] + [args[i]];
      line := line + " " + SingleQuote(args[i]);
      i := i + 1;
    }
    assert args[..i] == args;
  }

  lemma {:induction false} JoinedSnoc(args: seq<string>, last: string)
    requires args != []
    ensures Joined(args + [last]) == Joined(args) + " " + SingleQuote(last)
  {
    if |args| == 1 {
      assert (args + [last])[1..] == [last];
    } else {
      JoinedSnoc(args[1..], last);
      assert (args + [last])[1..] == args[1..] + [last];
      Regroup(SingleQuote(args[0]), Joined(args[1..]), SingleQuote(last));
    }
  }

  lemma Regroup(a: string, b: string, c: string)
    ensures a + " " + (b + " " + c) == a + " " + b + " " + c
  {
  }

  // ---------------------------------------------------------------------------------------
  // Reading, by sections 2.2.1, 2.2.2 and 2.3 of the Shell Command Language (POSIX.1-2017, XCU chapter 2)
  // ---------------------------------------------------------------------------------------

  datatype Token = Word(text: string) | Newline

  /** Characters with a meaning of their own outside quotes, which this reader does not go into. */
  predicate IsSpecial(c: char) {
    c in "|&;<>()$`\"*?[#~=%!{}"
  }

  predicate IsBlank(c: char) {
    c == ' ' || c == '\t'
  }

  function TextOf(word: Option<string>): string {
    if word.Some? then word.value else ""
  }

  function Flush(word: Option<string>): seq<Token> {
    if word.Some? then [Word(word.value)] else []
  }

  function Prepend(front: seq<Token>, back: Option<seq<Token>>): Option<seq<Token>> {
    if back.Some? then Some(front + back.value) else None
  }

  /**
   The tokens of `s`, with quotes removed; `word` is the token being formed. None stands for an unfinished
   quote, and for text outside the three sections.
   */
  function Tokens(s: string, word: Option<string>): Option<seq<Token>>
    decreases |s|
  {
    if s == "" then Some(Flush(word))
    else if s[0] == '\\' then
      if |s| == 1 then None
      else if s[1] == '\n' then Tokens(s[2..], word)
      else Tokens(s[2..], Some(TextOf(word) + [s[1]]))
    else if s[0] == QUOTE then
      var end := IndexOf(s[1..], QUOTE);
      if end.None? then None else Tokens(s[end.value + 2..], Some(TextOf(word) + s[1..end.value + 1]))
    else if IsBlank(s[0]) then Prepend(Flush(word), Tokens(s[1..], None))
    else if s[0] == '\n' then Prepend(Flush(word) + [Newline], Tokens(s[1..], None))
    else if IsSpecial(s[0]) then None
    else Tokens(s[1..], Some(TextOf(word) + [s[0]]))
  }

  // ---------------------------------------------------------------------------------------
  // Round trip
  // ---------------------------------------------------------------------------------------

  lemma ReadQuoted(body: string, rest: string, word: Option<string>)
    requires QUOTE !in body
    ensures Tokens("'" + body + "'" + rest, word) == Tokens(rest, Some(TextOf(word) + body))
  {
    var s := "'" + body + "'" + rest;
    assert s[1..] == body + [QUOTE] + rest;
    IndexOfFirst(body, QUOTE, rest);
    assert s[1..|body| + 1] == body && s[|body| + 2..] == rest;
  }

  lemma ReadEscapedQuote(rest: string, word: Option<string>)
    ensures Tokens("\\'" + rest, word) == Tokens(rest, Some(TextOf(word) + "'"))
  {
    var s := "\\'" + rest;
    assert s[2..] == rest && s[1] == QUOTE;
  }

  lemma {:induction false} EscapedPlain(s: string)
    requires QUOTE !in s
    ensures Escaped(s) == s
  {
    if s != "" { EscapedPlain(s[1..]); }
  }

  lemma {:induction false} EscapedSplit(a: string, b: string)
    requires QUOTE !in a
    ensures Escaped(a + "'" + b) == a + "'\\''" + Escaped(b)
  {
    var s := a + "'" + b;
    if a == "" {
      assert s[1..] == b;
    } else {
      EscapedSplit(a[1..], b);
      assert s[1..] == a[1..] + "'" + b;
    }
  }

  lemma QuoteSplit(a: string, b: string, rest: string)
    requires QUOTE !in a
    ensures SingleQuote(a + "'" + b) + rest == "'" + a + "'" + ("\\'" + (SingleQuote(b) + rest))
  {
    EscapedSplit(a, b);
  }

  lemma ReadUpToQuote(a: string, tail: string, word: Option<string>)
    requires QUOTE !in a
    ensures Tokens("'" + a + "'" + ("\\'" + tail), word) == Tokens(tail, Some(TextOf(word) + a + "'"))
  {
    ReadQuoted(a, "\\'" + tail, word);
    ReadEscapedQuote(tail, Some(TextOf(word) + a));
  }

  lemma ReadPlain(arg: string, rest: string, word: Option<string>)
    requires QUOTE !in arg
    ensures Tokens(SingleQuote(arg) + rest, word) == Tokens(rest, Some(TextOf(word) + arg))
  {
    EscapedPlain(arg);
    ReadQuoted(arg, rest, word);
  }

  /** Reading goes past the first quote of an argument, and on to the quoted rest. */
  lemma ReadFirstQuote(a: string, b: string, rest: string, word: Option<string>)
    requires QUOTE !in a
    ensures Tokens(SingleQuote(a + "'" + b) + rest, word) == Tokens(SingleQuote(b) + rest, Some(TextOf(word) + a + "'"))
  {
    QuoteSplit(a, b, rest);
    ReadUpToQuote(a, SingleQuote(b) + rest, word);
  }

  /** A quoted argument is read as that argument, at the end of whatever word it stands in. */
  lemma {:induction false} ReadSingleQuote(arg: string, rest: string, word: Option<string>)
    ensures Tokens(SingleQuote(arg) + rest, word) == Tokens(rest, Some(TextOf(word) + arg))
    decreases |arg|
  {
    var at := IndexOf(arg, QUOTE);
    if at.None? {
      ReadPlain(arg, rest, word);
    } else {
      var a, b := arg[..at.value], arg[at.value + 1..];
      var word' := Some(TextOf(word) + a + "'");
      assert arg == a + "'" + b;
      ReadFirstQuote(a, b, rest, word);
      ReadSingleQuote(b, rest, word');
      assert TextOf(word') + b == TextOf(word) + arg;
    }
  }

  function Words(args: seq<string>): seq<Token> {
    seq(|args|, i requires 0 <= i < |args| => Word(args[i]))
  }

  /** Reading the joined arguments gives back exactly the arguments, whatever they contain. */
  lemma {:induction false} RoundTrip(args: seq<string>)
    ensures Tokens(Joined(args), None) == Some(Words(args))
    decreases |args|
  {
    if |args| == 1 {
      assert SingleQuote(args[0]) + "" == SingleQuote(args[0]);
      ReadSingleQuote(args[0], "", None);
      assert TextOf(None) + args[0] == args[0];
      assert Words(args) == [Word(args[0])];
    } else if |args| > 1 {
      var rest := " " + Joined(args[1..]);
      assert Joined(args) == SingleQuote(args[0]) + rest;
      ReadSingleQuote(args[0], rest, None);
      assert "" + args[0] == args[0] && rest[1..] == Joined(args[1..]);
      RoundTrip(args[1..]);
      assert Words(args) == [Word(args[0])] + Words(args[1..]);
    }
  }

  /** Different argument lists never give the same line. */
  lemma JoinedInjective(args: seq<string>, args': seq<string>)
    requires Joined(args) == Joined(args')
    ensures args == args'
  {
    RoundTrip(args);
    RoundTrip(args');
    assert forall i :: 0 <= i < |args| ==> Words(args)[i].text == args[i];
    assert forall i :: 0 <= i < |args'| ==> Words(args')[i].text == args'[i];
    assert |Words(args)| == |args| && |Words(args')| == |args'|;
  }
}
