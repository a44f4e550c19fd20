/**
  Quoting of operation commands, against a reader of shell words that follows POSIX.1-2017, Shell
  Command Language: section 2.2.1 (escape character), 2.2.2 (single quotes), 2.2.3 (double quotes)
  and the blank-separated words of section 2.3.
*/
module ShellQuote {
  import opened Common

  // ---------------------------------------------------------------------
  // Reading words
  // ---------------------------------------------------------------------

  /** A character of a word, and whether quoting takes its special meaning away. */
  datatype Piece = Piece(c: char, quoted: bool)

  /** A word still to be expanded, or one character of an operator. */
  datatype Token = Word(pieces: seq<Piece>) | Operator(c: char)

  datatype Mode =
    | Between
    | InWord
    | Escaped(word: bool)
    | SingleQuoted
    | DoubleQuoted
    | EscapedInDouble
    | Dollar(double: bool)
    | Comment

  /** Finished tokens and the word being read. */
  datatype Reader = Reader(mode: Mode, tokens: seq<Token>, current: seq<Piece>)

  const START := Reader(Between, [], [])

  predicate IsBlank(c: char) { c == ' ' || c == '\t' }

  predicate IsOperator(c: char) {
    c == '|' || c == '&' || c == ';' || c == '<' || c == '>' || c == '(' || c == ')' || c == '\n'
  }

  function Taken(r: Reader, mode: Mode, c: char, quoted: bool): Option<Reader> {
    Some(Reader(mode, r.tokens, r.current + [Piece(c, quoted)]))
  }

  /** A word is being read that may end here. */
  predicate OpenWord(r: Reader) { r.mode == InWord || r.mode == Dollar(false) }

  /** The tokens once the word being read, if there is one, is complete. */
  function Delimited(r: Reader): seq<Token> {
    if OpenWord(r) then r.tokens + [Word(r.current)] else r.tokens
  }

  function ReadDoubleQuoted(r: Reader, c: char): Option<Reader> {
    if c == '\"' then Some(r.(mode := InWord))
    else if c == '\\' then Some(r.(mode := EscapedInDouble))
    else if c == '`' then None
    else if c == '$' then Taken(r, Dollar(true), c, false)
    else Taken(r, DoubleQuoted, c, true)
  }

  function ReadUnquoted(r: Reader, c: char): Option<Reader> {
    if c == '\'' then Some(r.(mode := SingleQuoted))
    else if c == '\"' then Some(r.(mode := DoubleQuoted))
    else if c == '\\' then Some(r.(mode := Escaped(OpenWord(r))))
    else if IsBlank(c) then Some(Reader(Between, Delimited(r), []))
    else if IsOperator(c) then Some(Reader(Between, Delimited(r) + [Operator(c)], []))
    else if c == '`' then None
    else if c == '$' then Taken(r, Dollar(false), c, false)
    else if c == '#' && r.mode.Between? then Some(r.(mode := Comment))
    else Taken(r, InWord, c, false)
  }

  /** One character; None where a braced or command substitution begins, which nests other shell text. */
  function Read(r: Reader, c: char): Option<Reader> {
    match r.mode
    case SingleQuoted => if c == '\'' then Some(r.(mode := InWord)) else Taken(r, SingleQuoted, c, true)
    case DoubleQuoted => ReadDoubleQuoted(r, c)
    case EscapedInDouble =>
      if c == '\n' then Some(r.(mode := DoubleQuoted))
      else if c == '$' || c == '`' || c == '\"' || c == '\\' then Taken(r, DoubleQuoted, c, true)
      else Some(Reader(DoubleQuoted, r.tokens, r.current + [Piece('\\', true), Piece(c, true)]))
    case Escaped(word) =>
      if c == '\n' then Some(r.(mode := if word then InWord else Between)) else Taken(r, InWord, c, true)
    case Dollar(double) =>
      if c == '(' || c == '{' then None else if double then ReadDoubleQuoted(r, c) else ReadUnquoted(r, c)
    case Comment => if c == '\n' then Some(r.(mode := Between, tokens := r.tokens + [Operator(c)])) else Some(r)
    case _ => ReadUnquoted(r, c)
  }

  function ReadAll(r: Reader, s: string): Option<Reader>
    decreases |s|
  {
    if |s| == 0 then Some(r)
    else
      match Read(r, s[0])
      case None => None
      case Some(next) => ReadAll(next, s[1..])
  }

  /** The line may end here: no quote is open and nothing is escaped. */
  predicate Closed(r: Reader) { r.mode == Between || OpenWord(r) || r.mode == Comment }

  /** The tokens of a command line; None for an open quote, a dangling backslash, or a nested substitution. */
  function Tokens(s: string): Option<seq<Token>> {
    match ReadAll(START, s)
    case None => None
    case Some(r) => if Closed(r) then Some(Delimited(r)) else None
  }

  /** The line ends inside a comment. */
  predicate EndsInComment(s: string) {
    var r := ReadAll(START, s);
    r.Some? && r.value.mode == Comment
  }

  /** A word that is exactly the text v, no character of which is special. */
  function Verbatim(v: string): seq<Piece> { seq(|v|, i requires 0 <= i < |v| => Piece(v[i], true)) }

  // ---------------------------------------------------------------------
  // Writing words
  // ---------------------------------------------------------------------

  /** Each single quote becomes: close, a double-quoted single quote, open. */
  function ReplaceQuotes(v: string): string
    decreases |v|
  {
    if |v| == 0 then "" else (if v[0] == '\'' then "'\"'\"'" else [v[0]]) + ReplaceQuotes(v[1..])
  }

  function ShellQuoted(v: string): string {
    if |v| == 0 then "''" else ['\''] + ReplaceQuotes(v) + ['\'']
  }

  predicate IsSpace(c: char) {
    var n := c as int;
    || 0x9 <= n <= 0xd || n == 0x20 || n == 0x85 || n == 0xa0 || n == 0x1680
    || 0x2000 <= n <= 0x200a || n == 0x2028 || n == 0x2029 || n == 0x202f || n == 0x205f || n == 0x3000
  }

  function TrimSpace(s: string): string
    decreases |s|
  {
    if |s| > 0 && IsSpace(s[0]) then TrimSpace(s[1..])
    else if |s| > 0 && IsSpace(s[|s| - 1]) then TrimSpace(s[..|s| - 1])
    else s
  }

  predicate AllSpaces(s: string) { forall i :: 0 <= i < |s| ==> IsSpace(s[i]) }

  /** Blanks and line ends are spaces; no visible ASCII character is. */
  lemma SpacesAreInvisible(c: char)
    ensures c == ' ' || c == '\t' || c == '\n' || c == '\r' ==> IsSpace(c)
    ensures '!' <= c <= '~' ==> !IsSpace(c)
  {
  }

  /** Trimming takes away the spaces at both ends and nothing else. */
  lemma {:induction false} TrimIsMiddle(s: string) returns (from: nat, to: nat)
    ensures from <= to <= |s| && TrimSpace(s) == s[from..to]
    ensures AllSpaces(s[..from]) && AllSpaces(s[to..])
    ensures from < to ==> !IsSpace(s[from]) && !IsSpace(s[to - 1])
    decreases |s|
  {
    from, to := 0, |s|;
    if |s| > 0 && IsSpace(s[0]) {
      var i, j := TrimIsMiddle(s[1..]);
      from, to := i + 1, j + 1;
      OneMoreInFront(s, i, j);
    } else if |s| > 0 && IsSpace(s[|s| - 1]) {
      from, to := TrimIsMiddle(s[..|s| - 1]);
      OneMoreBehind(s, from, to);
    }
  }

  lemma OneMoreInFront(s: string, i: nat, j: nat)
    requires |s| > 0 && IsSpace(s[0]) && i <= j < |s|
    ensures s[i + 1..j + 1] == s[1..][i..j]
    ensures AllSpaces(s[1..][..i]) ==> AllSpaces(s[..i + 1])
    ensures s[j + 1..] == s[1..][j..]
  {
    assert s[..i + 1] == [s[0]] + s[1..][..i];
  }

  lemma OneMoreBehind(s: string, i: nat, j: nat)
    requires |s| > 0 && IsSpace(s[|s| - 1]) && i <= j < |s|
    ensures s[i..j] == s[..|s| - 1][i..j]
    ensures s[..i] == s[..|s| - 1][..i]
    ensures AllSpaces(s[..|s| - 1][j..]) ==> AllSpaces(s[j..])
  {
    assert s[j..] == s[..|s| - 1][j..] + [s[|s| - 1]];
  }

  function WorkerOperationCommand(baseCommand: string, target: string): string {
    if |target| == 0 then TrimSpace(baseCommand) else TrimSpace(baseCommand) + ([' '] + ShellQuoted(target))
  }

  // ---------------------------------------------------------------------
  // Reading back what was written
  // ---------------------------------------------------------------------

  lemma {:induction false} ReadConcat(r: Reader, a: string, b: string)
    ensures ReadAll(r, a + b) == match ReadAll(r, a) case None => None case Some(t) => ReadAll(t, b)
    decreases |a|
  {
    if |a| == 0 {
      assert a + b == b;
    } else {
      assert (a + b)[1..] == a[1..] + b;
      match Read(r, a[0]) {
        case None =>
        case Some(next) => ReadConcat(next, a[1..], b);
      }
    }
  }

  lemma ReadOne(r: Reader, c: char, rest: string)
    requires Read(r, c).Some?
    ensures ReadAll(r, [c] + rest) == ReadAll(Read(r, c).value, rest)
  {
    assert ([c] + rest)[1..] == rest;
  }

  /** The five characters that stand for a single quote: closed, double-quoted, opened again. */
  lemma ReadReplacedQuote(tokens: seq<Token>, current: seq<Piece>, rest: string)
    ensures ReadAll(Reader(SingleQuoted, tokens, current), "'\"'\"'" + rest) ==
            ReadAll(Reader(SingleQuoted, tokens, current + [Piece('\'', true)]), rest)
  {
    var text := "'\"'\"'" + rest;
    var open, word := Reader(SingleQuoted, tokens, current), Reader(InWord, tokens, current);
    var inner := Reader(DoubleQuoted, tokens, current + [Piece('\'', true)]);
    assert text == ['\''] + (['\"'] + (['\''] + (['\"'] + (['\''] + rest))));
    ReadOne(open, '\'', ['\"'] + (['\''] + (['\"'] + (['\''] + rest))));
    ReadOne(word, '\"', ['\''] + (['\"'] + (['\''] + rest)));
    ReadOne(Reader(DoubleQuoted, tokens, current), '\'', ['\"'] + (['\''] + rest));
    ReadOne(inner, '\"', ['\''] + rest);
    ReadOne(inner.(mode := InWord), '\'', rest);
  }

  lemma {:induction false} ReadQuotedBody(tokens: seq<Token>, current: seq<Piece>, v: string)
    ensures ReadAll(Reader(SingleQuoted, tokens, current), ReplaceQuotes(v)) ==
            Some(Reader(SingleQuoted, tokens, current + Verbatim(v)))
    decreases |v|
  {
    if |v| == 0 {
      assert current + Verbatim(v) == current;
    } else {
      var rest, first := ReplaceQuotes(v[1..]), Piece(v[0], true);
      assert current + [first] + Verbatim(v[1..]) == current + Verbatim(v);
      if v[0] == '\'' {
        ReadReplacedQuote(tokens, current, rest);
      } else {
        ReadOne(Reader(SingleQuoted, tokens, current), v[0], rest);
      }
      ReadQuotedBody(tokens, current + [first], v[1..]);
    }
  }

  /** From between two words, a quoted value is read as one complete word, the value verbatim. */
  lemma ReadQuoted(tokens: seq<Token>, v: string)
    ensures ReadAll(Reader(Between, tokens, []), ShellQuoted(v)) == Some(Reader(InWord, tokens, Verbatim(v)))
  {
    var body := ReplaceQuotes(v);
    assert ShellQuoted(v) == ['\''] + (body + ['\'']);
    ReadOne(Reader(Between, tokens, []), '\'', body + ['\'']);
    ReadQuotedBody(tokens, [], v);
    assert [] + Verbatim(v) == Verbatim(v);
    ReadConcat(Reader(SingleQuoted, tokens, []), body, ['\'']);
    var closing := Reader(SingleQuoted, tokens, Verbatim(v));
    assert ['\''] == ['\''] + "";
    ReadOne(closing, '\'', "");
    assert ReadAll(Reader(Between, tokens, []), ShellQuoted(v)) ==
           ReadAll(Reader(SingleQuoted, tokens, []), body + ['\'']);
  }

  /** The quoting round trip, for every string. */
  lemma QuotingRoundTrip(v: string)
    ensures Tokens(ShellQuoted(v)) == Some([Word(Verbatim(v))])
  {
    ReadQuoted([], v);
    assert [] + [Word(Verbatim(v))] == [Word(Verbatim(v))];
  }

  /** Nothing has been read of a word that has not begun. */
  predicate Fresh(r: Reader) {
    r.mode == Between || r.mode == Escaped(false) || r.mode == Comment ==> r.current == []
  }

  lemma {:induction false} ReadKeepsFresh(r: Reader, s: string)
    requires Fresh(r) && ReadAll(r, s).Some?
    ensures Fresh(ReadAll(r, s).value)
    decreases |s|
  {
    if |s| > 0 {
      ReadKeepsFresh(Read(r, s[0]).value, s[1..]);
    }
  }

  /** What was read, a blank and a quoted value: the value becomes the next word. */
  lemma ReadNextQuoted(r: Reader, v: string)
    requires Fresh(r) && (r.mode == Between || OpenWord(r))
    ensures ReadAll(r, [' '] + ShellQuoted(v)) == Some(Reader(InWord, Delimited(r), Verbatim(v)))
  {
    ReadOne(r, ' ', ShellQuoted(v));
    ReadQuoted(Delimited(r), v);
  }

  lemma {:induction false} CommentGoesOn(r: Reader, s: string)
    requires r.mode == Comment && '\n' !in s
    ensures ReadAll(r, s) == Some(r)
    decreases |s|
  {
    if |s| > 0 {
      CommentGoesOn(r, s[1..]);
    }
  }

  lemma {:induction false} ReplacedHasNoNewline(v: string)
    requires '\n' !in v
    ensures '\n' !in ReplaceQuotes(v)
    decreases |v|
  {
    if |v| > 0 {
      ReplacedHasNoNewline(v[1..]);
    }
  }

  /**
    Whatever the target is called, the command is the tokens of the base command and then the target,
    as one word no character of which is special, unless the base command ends in a comment.
  */
  lemma CommandIsBaseThenTarget(baseCommand: string, target: string)
    requires Tokens(TrimSpace(baseCommand)).Some? && |target| > 0 && !EndsInComment(TrimSpace(baseCommand))
    ensures Tokens(WorkerOperationCommand(baseCommand, target)) ==
            Some(Tokens(TrimSpace(baseCommand)).value + [Word(Verbatim(target))])
  {
    var base := TrimSpace(baseCommand);
    ReadKeepsFresh(START, base);
    ReadConcat(START, base, [' '] + ShellQuoted(target));
    ReadNextQuoted(ReadAll(START, base).value, target);
  }

  /** Without a target the command is the base command. */
  lemma CommandWithoutTarget(baseCommand: string)
    ensures WorkerOperationCommand(baseCommand, "") == TrimSpace(baseCommand)
  {
  }

  /** If it does end in a comment, the comment swallows the target. */
  lemma CommentSwallowsTarget(baseCommand: string, target: string)
    requires EndsInComment(TrimSpace(baseCommand)) && '\n' !in target
    ensures Tokens(WorkerOperationCommand(baseCommand, target)) == Tokens(TrimSpace(baseCommand))
  {
    if |target| > 0 {
      var r := ReadAll(START, TrimSpace(baseCommand)).value;
      ReplacedHasNoNewline(target);
      ReadConcat(START, TrimSpace(baseCommand), [' '] + ShellQuoted(target));
      CommentGoesOn(r, [' '] + ShellQuoted(target));
    }
  }
}
