/**
 Serialising an argv array into the one string an SSH exec request carries
 (section 6.5 of RFC 4254), and the reading a POSIX shell gives that string.

 `Words` is a lexer for the part of the Shell Command Language the string can
 use: token recognition (section 2.3), the backslash (section 2.2.1) and single
 quotes (section 2.2.2). Every other unquoted character that could mean
 something to a shell makes it answer `Refused`, so `Words(s) == Split(w)` says
 both that the words are `w` and that nothing was left for the shell to expand.
 */
module ShellQuote {

  // ----- what the host writes -------------------------------------------------

  /** strings.ReplaceAll(s, "'", `'\''`). */
  function EscapeQuotes(s: string): string {
    if s == [] then []
    else (if s[0] == '\'' then "'\\''" else [s[0]]) + EscapeQuotes(s[1..])
  }

  function QuoteOne(s: string): string {
    "'" + EscapeQuotes(s) + "'"
  }

  /** strings.Join(parts, " "). */
  function JoinBlank(parts: seq<string>): string {
    if parts == [] then []
    else if |parts| == 1 then parts[0]
    else parts[0] + " " + JoinBlank(parts[1..])
  }

  // ----- what the shell reads -------------------------------------------------

  datatype Lexed = Refused | Split(words: seq<string>)

  datatype Current = NoWord | Word(text: string)

  function Extend(current: Current, c: char): Current {
    match current
    case NoWord => Word([c])
    case Word(text) => Word(text + [c])
  }

  function Open(current: Current): Current {
    match current
    case NoWord => Word([])
    case Word(_) => current
  }

  function Finish(current: Current, done: seq<string>): seq<string> {
    match current
    case NoWord => done
    case Word(text) => done + [text]
  }

  /** Characters section 2.2 says must be quoted to stand for themselves. */
  predicate Special(c: char) {
    c in "|&;<>()$`\"*?[]#~=%{}!\n\r"
  }

  function Unquoted(s: string, current: Current, done: seq<string>): Lexed
    decreases |s|
  {
    if s == [] then Split(Finish(current, done))
    else if s[0] == ' ' || s[0] == '\t' then Unquoted(s[1..], NoWord, Finish(current, done))
    else if s[0] == '\'' then Quoted(s[1..], Open(current), done)
    else if s[0] == '\\' then
      if |s| == 1 then Refused
      else if s[1] == '\n' then Unquoted(s[2..], current, done)
      else Unquoted(s[2..], Extend(current, s[1]), done)
    else if Special(s[0]) then Refused
    else Unquoted(s[1..], Extend(current, s[0]), done)
  }

  function Quoted(s: string, current: Current, done: seq<string>): Lexed
    decreases |s|
  {
    if s == [] then Refused
    else if s[0] == '\'' then Unquoted(s[1..], current, done)
    else Quoted(s[1..], Extend(current, s[0]), done)
  }

  function Words(s: string): Lexed {
    Unquoted(s, NoWord, [])
  }

  // ----- the round trip -------------------------------------------------------

  /** A quote is left, escaped outside, and entered again. */
  lemma EscapedQuoteReads(tail: string, text: string, done: seq<string>)
    ensures Quoted("'\\''" + tail, Word(text), done) == Quoted(tail, Word(text + ['\'']), done)
  {
    var s := "'\\''" + tail;
    assert s[1..] == "\\''" + tail;
    var t := "\\''" + tail;
    assert t[2..] == "'" + tail;
    assert Quoted(s, Word(text), done) == Unquoted(t, Word(text), done);
    var longer := Word(text + ['\'']);
    assert Unquoted(t, Word(text), done) == Unquoted("'" + tail, longer, done);
    assert ("'" + tail)[1..] == tail;
    assert Unquoted("'" + tail, longer, done) == Quoted(tail, longer, done);
  }

  lemma PlainReads(c: char, tail: string, text: string, done: seq<string>)
    requires c != '\''
    ensures Quoted([c] + tail, Word(text), done) == Quoted(tail, Word(text + [c]), done)
  {
    assert ([c] + tail)[1..] == tail;
  }

  /** Inside single quotes the escaped text reads back as itself, whatever it holds. */
  lemma {:induction false} QuotedReadsBack(a: string, rest: string, text: string, done: seq<string>)
    ensures Quoted(EscapeQuotes(a) + "'" + rest, Word(text), done) == Unquoted(rest, Word(text + a), done)
    decreases |a|
  {
    if a == [] {
      assert EscapeQuotes(a) + "'" + rest == ['\''] + rest;
      assert (['\''] + rest)[1..] == rest;
      assert text + a == text;
    } else {
      var tail := EscapeQuotes(a[1..]) + "'" + rest;
      QuotedReadsBack(a[1..], rest, text + [a[0]], done);
      assert text + a == text + [a[0]] + a[1..];
      if a[0] == '\'' {
        assert EscapeQuotes(a) + "'" + rest == "'\\''" + tail;
        EscapedQuoteReads(tail, text, done);
      } else {
        assert EscapeQuotes(a) + "'" + rest == [a[0]] + tail;
        PlainReads(a[0], tail, text, done);
      }
    }
  }

  lemma OneWord(a: string, rest: string, done: seq<string>)
    ensures Unquoted(QuoteOne(a) + rest, NoWord, done) == Unquoted(rest, Word(a), done)
  {
    var s := QuoteOne(a) + rest;
    assert s[1..] == EscapeQuotes(a) + "'" + rest;
    QuotedReadsBack(a, rest, [], done);
    assert [] + a == a;
  }

  function QuoteAll(argv: seq<string>): (quoted: seq<string>)
    ensures |quoted| == |argv|
    ensures forall i :: 0 <= i < |argv| ==> quoted[i] == QuoteOne(argv[i])
  {
    seq(|argv|, i requires 0 <= i < |argv| => QuoteOne(argv[i]))
  }

  lemma {:induction false} JoinedReadsBack(argv: seq<string>, done: seq<string>)
    ensures Unquoted(JoinBlank(QuoteAll(argv)), NoWord, done) == Split(done + argv)
    decreases |argv|
  {
    var quoted := QuoteAll(argv);
    if argv == [] {
      assert done + argv == done;
    } else if |argv| == 1 {
      OneWord(argv[0], [], done);
      assert QuoteOne(argv[0]) + [] == quoted[0];
      assert done + argv == done + [argv[0]];
    } else {
      assert quoted[1..] == QuoteAll(argv[1..]);
      var rest := JoinBlank(quoted[1..]);
      assert JoinBlank(quoted) == QuoteOne(argv[0]) + (" " + rest);
      OneWord(argv[0], " " + rest, done);
      assert (" " + rest)[1..] == rest;
      JoinedReadsBack(argv[1..], done + [argv[0]]);
      assert done + argv == done + [argv[0]] + argv[1..];
    }
  }

  /** The command string the host sends is read by the shell as exactly argv. */
  method ShellQuoteArgv(argv: seq<string>) returns (command: string)
    ensures command == JoinBlank(QuoteAll(argv))
    ensures Words(command) == Split(argv)
  {
    var quoted := [];
    for i := 0 to |argv|
      invariant quoted == QuoteAll(argv[..i])
    {
      quoted := quoted + [QuoteOne(argv[i])];
    }
    assert argv[..|argv|] == argv;
    command := JoinBlank(quoted);
    JoinedReadsBack(argv, []);
    assert [] + argv == argv;
  }

  /** So two different argv arrays never share a command string. */
  lemma QuotingIsInjective(a: seq<string>, b: seq<string>)
    ensures JoinBlank(QuoteAll(a)) == JoinBlank(QuoteAll(b)) <==> a == b
  {
    JoinedReadsBack(a, []);
    JoinedReadsBack(b, []);
    assert [] + a == a && [] + b == b;
  }
}
