/** The command line sent to a remote shell: installer/internal/preloader/remote/client.go, and
    the shell's own reading of it, sections 2.2.1, 2.2.2 and 2.3 of the POSIX.1-2017 Shell
    Command Language. */
module ShellQuote {
  import opened Wrappers

  // ----- the program -----

  /** strings.ReplaceAll(s, "'", `'\''`) */
  function Escape(s: string): string {
    if s == "" then ""
    else (if s[0] == '\'' then ['\'', '\\', '\'', '\''] else [s[0]]) + Escape(s[1..])
  }

  function Quote(s: string): string {
    ['\''] + Escape(s) + ['\'']
  }

  function Join(parts: seq<string>): string {
    if parts == [] then ""
    else if |parts| == 1 then parts[0]
    else parts[0] + " " + Join(parts[1..])
  }

  function Quoted(parts: seq<string>): seq<string> {
    if parts == [] then [] else [Quote(parts[0])] + Quoted(parts[1..])
  }

  datatype Command = Command(program: string, args: seq<string>)

  /** Command.String */
  method CommandString(c: Command) returns (line: string)
    ensures Words(line, Between) == Some([c.program] + c.args)
  {
    var parts := [c.program] + c.args;
    var quoted: seq<string> := [];
    for i := 0 to |parts|
      invariant quoted + Quoted(parts[i..]) == Quoted(parts)
    {
      assert parts[i..][1..] == parts[i + 1..];
      quoted := quoted + [Quote(parts[i])];
    }
    assert parts[|parts|..] == [] && quoted + [] == quoted;
    line := Join(quoted);
    SplitsBack(parts);
  }

  // ----- the shell -----

  /** Between tokens, in a token with the characters so far, or in single quotes within one. */
  datatype Mode = Between | InWord(word: string) | InQuotes(word: string)

  /** Characters that mean something else unquoted: operators, expansions, patterns, comments and
      double quotes. */
  predicate Special(c: char) {
    c in {'\n', '|', '&', ';', '<', '>', '(', ')', '$', '`', '"', '*', '?', '[', '#', '~', '=', '%', '{', '}', '!'}
  }

  predicate Blank(c: char) {
    c == ' ' || c == '\t'
  }

  /** The words of a simple command; None when it is not one, or a quote is left open. */
  function Words(s: string, mode: Mode): Option<seq<string>>
    decreases |s|, if mode.Between? then 1 else 0
  {
    match mode
    case Between =>
      if s == "" then Some([])
      else if Blank(s[0]) then Words(s[1..], Between)
      else if s[0] == '\\' && |s| > 1 && s[1] == '\n' then Words(s[2..], Between)
      else Words(s, InWord(""))
    case InWord(word) =>
      if s == "" then Some([word])
      else if Blank(s[0]) then And(word, Words(s[1..], Between))
      else if s[0] == '\'' then Words(s[1..], InQuotes(word))
      else if s[0] == '\\' then
        if |s| == 1 then None
        else if s[1] == '\n' then Words(s[2..], InWord(word))
        else Words(s[2..], InWord(word + [s[1]]))
      else if Special(s[0]) then None
      else Words(s[1..], InWord(word + [s[0]]))
    case InQuotes(word) =>
      if s == "" then None
      else if s[0] == '\'' then Words(s[1..], InWord(word))
      else Words(s[1..], InQuotes(word + [s[0]]))
  }

  function And(word: string, rest: Option<seq<string>>): Option<seq<string>> {
    if rest.None? then None else Some([word] + rest.value)
  }

  // ----- one undoes the other -----

  /** A quote leaves the quotes, is escaped, and enters them again. */
  lemma OverQuote(tail: string, word: string)
    ensures Words(['\'', '\\', '\'', '\''] + tail, InQuotes(word)) == Words(tail, InQuotes(word + ['\'']))
  {
    var a := ['\'', '\\', '\'', '\''] + tail;
    var b := ['\\', '\'', '\''] + tail;
    var c := ['\''] + tail;
    assert a[1..] == b && b[2..] == c && c[1..] == tail;
    assert Words(a, InQuotes(word)) == Words(b, InWord(word));
    assert Words(b, InWord(word)) == Words(c, InWord(word + ['\'']));
  }

  lemma OverPlain(c: char, tail: string, word: string)
    requires c != '\''
    ensures Words([c] + tail, InQuotes(word)) == Words(tail, InQuotes(word + [c]))
  {
    assert ([c] + tail)[1..] == tail;
  }

  /** Inside the quotes the shell reads back the string, whatever follows. */
  lemma {:induction false} EscapeReadsBack(s: string, word: string, rest: string)
    ensures Words(Escape(s) + (['\''] + rest), InQuotes(word)) == Words(rest, InWord(word + s))
    decreases |s|
  {
    var close := ['\''] + rest;
    if s == "" {
      assert Escape(s) + close == close && close[1..] == rest;
      assert word + s == word;
    } else {
      var tail := Escape(s[1..]) + close;
      EscapeReadsBack(s[1..], word + [s[0]], rest);
      assert word + [s[0]] + s[1..] == word + s;
      if s[0] == '\'' {
        OverQuote(tail, word);
        assert Escape(s) + close == ['\'', '\\', '\'', '\''] + tail;
      } else {
        OverPlain(s[0], tail, word);
        assert Escape(s) + close == [s[0]] + tail;
      }
    }
  }

  lemma QuoteReadsBack(s: string, rest: string)
    ensures Words(Quote(s) + rest, Between) == Words(rest, InWord(s))
  {
    var inside := Escape(s) + (['\''] + rest);
    assert Quote(s) + rest == ['\''] + inside;
    assert (['\''] + inside)[1..] == inside;
    EscapeReadsBack(s, "", rest);
    assert "" + s == s;
  }

  /** Splitting the joined, quoted parts gives back exactly the parts: empty ones, quotes, blanks
      and newlines included. */
  lemma {:induction false} SplitsBack(parts: seq<string>)
    ensures Words(Join(Quoted(parts)), Between) == Some(parts)
    decreases |parts|
  {
    if |parts| == 1 {
      assert parts == [parts[0]] && parts[1..] == [];
      assert Quoted(parts) == [Quote(parts[0])];
      QuoteReadsBack(parts[0], "");
      assert Quote(parts[0]) + "" == Quote(parts[0]);
    } else if |parts| > 1 {
      var rest := Join(Quoted(parts[1..]));
      SplitsBack(parts[1..]);
      assert Quoted(parts)[1..] == Quoted(parts[1..]);
      assert Join(Quoted(parts)) == Quote(parts[0]) + (" " + rest);
      QuoteReadsBack(parts[0], " " + rest);
      assert (" " + rest)[1..] == rest;
      assert parts == [parts[0]] + parts[1..];
    }
  }
}
