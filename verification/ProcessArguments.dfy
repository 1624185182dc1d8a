/**
 Windows process-argument quoting.

 `Quote` follows ConvertTo-AutoRunnerProcessArgument and `Join` follows
 Join-AutoRunnerProcessArguments. `SplitArguments` is an independent reading of the
 documented Microsoft C/C++ rules for splitting a command line after the program name.
 */
module ProcessArguments {
  import opened Prelude
  import opened Text

  const QUOTE := '\"'
  const SLASH := '\\'

  predicate NeedsQuotes(value: string) {
    exists i :: 0 <= i < |value| && (IsWhiteSpace(value[i]) || value[i] == QUOTE)
  }

  function Slashes(n: nat): (s: string)
    ensures |s| == n && forall i :: 0 <= i < n ==> s[i] == SLASH
  {
    seq(n, i => SLASH)
  }

  /** What is written between the quotes for `value` when `pending` backslashes are held back. */
  function Body(value: string, pending: nat): string {
    if value == [] then Slashes(2 * pending)
    else if value[0] == SLASH then Body(value[1..], pending + 1)
    else if value[0] == QUOTE then Slashes(2 * pending + 1) + [QUOTE] + Body(value[1..], 0)
    else Slashes(pending) + [value[0]] + Body(value[1..], 0)
  }

  function Quote(value: string): string {
    if value == [] then [QUOTE, QUOTE]
    else if !NeedsQuotes(value) then value
    else [QUOTE] + Body(value, 0) + [QUOTE]
  }

  /** The arguments quoted one by one and separated by one space. */
  function Join(arguments: seq<string>): string {
    if arguments == [] then []
    else if |arguments| == 1 then Quote(arguments[0])
    else Quote(arguments[0]) + " " + Join(arguments[1..])
  }

  /** The character loop of the source, with its string builder and backslash counter. */
  method ConvertToProcessArgument(value: Option<string>) returns (argument: string)
    ensures argument == Quote(value.GetOr(""))
  {
    if value.None? || |value.value| == 0 {
      return [QUOTE, QUOTE];
    }
    var text := value.value;
    if !NeedsQuotes(text) {
      return text;
    }
    var builder := [QUOTE];
    var backslashes := 0;
    for i := 0 to |text|
      invariant builder + Body(text[i..], backslashes) == [QUOTE] + Body(text, 0)
    {
      var character := text[i];
      assert text[i..][1..] == text[i + 1..];
      if character == SLASH {
        backslashes := backslashes + 1;
        continue;
      }
      if character == QUOTE {
        builder := builder + Slashes(backslashes * 2 + 1);
        builder := builder + [QUOTE];
        backslashes := 0;
        continue;
      }
      if backslashes > 0 {
        builder := builder + Slashes(backslashes);
        backslashes := 0;
      }
      builder := builder + [character];
    }
    assert text[|text|..] == [];
    if backslashes > 0 {
      builder := builder + Slashes(backslashes * 2);
    }
    argument := builder + [QUOTE];
  }

  // ----- The documented splitting rules -----

  /** One argument read from the front of a command line, and what follows it. */
  datatype Piece = Piece(text: string, rest: string)

  function Before(text: string, piece: Piece): Piece {
    piece.(text := text + piece.text)
  }

  /** The length of the run of backslashes that `s` starts with. */
  function LeadingSlashes(s: string): (n: nat)
    ensures n <= |s| && s[..n] == Slashes(n)
    ensures n < |s| ==> s[n] != SLASH
  {
    if s == [] || s[0] != SLASH then 0 else 1 + LeadingSlashes(s[1..])
  }

  /** Reads one argument; `quoted` says whether an opening quote is pending. */
  function ReadArgument(s: string, quoted: bool): (piece: Piece)
    ensures |piece.rest| <= |s|
    ensures s != [] && (quoted || !IsBlank(s[0])) ==> |piece.rest| < |s|
    decreases |s|
  {
    if s == [] then
      Piece([], [])
    else
      var n := LeadingSlashes(s);
      if n > 0 then
        if n == |s| || s[n] != QUOTE then
          Before(Slashes(n), ReadArgument(s[n..], quoted))        // backslashes stand for themselves
        else if n % 2 == 0 then
          Before(Slashes(n / 2), ReadArgument(s[n..], quoted))    // the quote is a delimiter
        else
          Before(Slashes(n / 2) + [QUOTE], ReadArgument(s[n + 1..], quoted))
      else if s[0] == QUOTE then
        if quoted && |s| > 1 && s[1] == QUOTE then
          Before([QUOTE], ReadArgument(s[2..], quoted))           // a doubled quote inside quotes
        else
          ReadArgument(s[1..], !quoted)
      else if !quoted && IsBlank(s[0]) then
        Piece([], s)
      else
        Before([s[0]], ReadArgument(s[1..], quoted))
  }

  function SplitArguments(s: string): seq<string>
    decreases |s|
  {
    var t := SkipBlanks(s);
    if t == [] then []
    else
      var piece := ReadArgument(t, false);
      [piece.text] + SplitArguments(piece.rest)
  }

  // ----- Splitting undoes joining -----

  predicate AtArgumentEnd(rest: string) {
    rest == [] || IsBlank(rest[0])
  }

  lemma {:induction false} LeadingSlashesOf(n: nat, tail: string)
    requires tail == [] || tail[0] != SLASH
    ensures LeadingSlashes(Slashes(n) + tail) == n
    decreases n
  {
    if n > 0 {
      LeadingSlashesOf(n - 1, tail);
      assert (Slashes(n) + tail)[1..] == Slashes(n - 1) + tail;
    }
  }

  lemma ReadEscapedQuote(n: nat, tail: string, quoted: bool)
    ensures ReadArgument(Slashes(2 * n + 1) + ([QUOTE] + tail), quoted)
         == Before(Slashes(n) + [QUOTE], ReadArgument(tail, quoted))
  {
    hide Before;
    var m := 2 * n + 1;
    var s := Slashes(m) + ([QUOTE] + tail);
    LeadingSlashesOf(m, [QUOTE] + tail);
    assert LeadingSlashes(s) == m && s[m] == QUOTE && s[m + 1..] == tail;
    assert m % 2 == 1 && m / 2 == n;
  }

  lemma ReadNothing(rest: string)
    requires AtArgumentEnd(rest)
    ensures ReadArgument(rest, false) == Piece([], rest)
  {
  }

  lemma ReadDelimiter(rest: string)
    requires AtArgumentEnd(rest)
    ensures ReadArgument([QUOTE] + rest, true) == Piece([], rest)
  {
    assert ([QUOTE] + rest)[1..] == rest;
    ReadNothing(rest);
  }

  lemma ReadClosingQuote(n: nat, rest: string)
    requires AtArgumentEnd(rest)
    ensures ReadArgument(Slashes(2 * n) + [QUOTE] + rest, true) == Piece(Slashes(n), rest)
  {
    var q := [QUOTE] + rest;
    ReadDelimiter(rest);
    var s := Slashes(2 * n) + [QUOTE] + rest;
    assert s == Slashes(2 * n) + q;
    if n == 0 {
      assert s == q && Slashes(0) == [];
    } else {
      LeadingSlashesOf(2 * n, q);
      assert s[2 * n..] == q && s[2 * n] == QUOTE;
      assert ReadArgument(s, true) == Before(Slashes(n), ReadArgument(q, true));
    }
  }

  lemma ReadCharacter(c: char, tail: string, quoted: bool)
    requires c != SLASH && c != QUOTE && (quoted || !IsBlank(c))
    ensures ReadArgument([c] + tail, quoted) == Before([c], ReadArgument(tail, quoted))
  {
    var s := [c] + tail;
    assert s[1..] == tail;
  }

  lemma ReadSlashes(n: nat, tail: string, quoted: bool)
    requires n > 0 && (tail == [] || (tail[0] != SLASH && tail[0] != QUOTE))
    ensures ReadArgument(Slashes(n) + tail, quoted) == Before(Slashes(n), ReadArgument(tail, quoted))
  {
    var s := Slashes(n) + tail;
    LeadingSlashesOf(n, tail);
    assert s[n..] == tail;
  }

  /** The text between the quotes reads back as the held-back backslashes and the value. */
  lemma {:induction false} BodyReadsBack(value: string, pending: nat, rest: string)
    requires AtArgumentEnd(rest)
    ensures ReadArgument(Body(value, pending) + [QUOTE] + rest, true) == Piece(Slashes(pending) + value, rest)
    decreases |value|
  {
    hide ReadArgument;
    if value == [] {
      ReadClosingQuote(pending, rest);
      assert Slashes(pending) + value == Slashes(pending);
    } else if value[0] == SLASH {
      BodyReadsBack(value[1..], pending + 1, rest);
      assert Slashes(pending + 1) + value[1..] == Slashes(pending) + value;
    } else {
      BodyReadsBack(value[1..], 0, rest);
      BodyReadsCharacter(value, pending, rest, Body(value[1..], 0) + [QUOTE] + rest);
    }
  }

  lemma BodyReadsCharacter(value: string, pending: nat, rest: string, inner: string)
    requires value != [] && value[0] != SLASH
    requires inner == Body(value[1..], 0) + [QUOTE] + rest
    requires ReadArgument(inner, true) == Piece(Slashes(0) + value[1..], rest)
    ensures ReadArgument(Body(value, pending) + [QUOTE] + rest, true) == Piece(Slashes(pending) + value, rest)
  {
    hide ReadArgument;
    var head := if value[0] == QUOTE then Slashes(2 * pending + 1) else Slashes(pending);
    assert Body(value, pending) + [QUOTE] + rest == head + ([value[0]] + inner) by {
      assert Body(value, pending) == head + [value[0]] + Body(value[1..], 0);
    }
    hide Body;
    if value[0] == QUOTE {
      ReadEscapedQuote(pending, inner, true);
    } else {
      ReadSlashesAndCharacter(pending, value[0], inner);
    }
    assert Slashes(pending) + [value[0]] + (Slashes(0) + value[1..]) == Slashes(pending) + value;
  }

  lemma ReadSlashesAndCharacter(n: nat, c: char, tail: string)
    requires c != SLASH && c != QUOTE
    ensures ReadArgument(Slashes(n) + ([c] + tail), true) == Before(Slashes(n) + [c], ReadArgument(tail, true))
  {
    hide ReadArgument;
    ReadCharacter(c, tail, true);
    if n > 0 {
      ReadSlashes(n, [c] + tail, true);
    } else {
      assert Slashes(n) + ([c] + tail) == [c] + tail && Slashes(n) + [c] == [c];
    }
    assert Slashes(n) + [c] + ReadArgument(tail, true).text == Slashes(n) + ([c] + ReadArgument(tail, true).text);
  }

  /** A value without quotes and blanks reads back as itself, backslashes included. */
  lemma {:induction false} PlainReadsBack(value: string, rest: string)
    requires AtArgumentEnd(rest)
    requires forall i :: 0 <= i < |value| ==> value[i] != QUOTE && !IsBlank(value[i])
    ensures ReadArgument(value + rest, false) == Piece(value, rest)
    decreases |value|
  {
    hide ReadArgument;
    if value == [] {
      ReadNothing(rest);
      assert value + rest == rest;
    } else {
      var n := LeadingSlashes(value);
      var tail := if n > 0 then value[n..] else value[1..];
      PlainReadsBack(tail, rest);
      if n > 0 {
        assert value + rest == Slashes(n) + (tail + rest);
        ReadSlashes(n, tail + rest, false);
        assert Slashes(n) + tail == value;
      } else {
        assert value + rest == [value[0]] + (tail + rest);
        ReadCharacter(value[0], tail + rest, false);
        assert [value[0]] + tail == value;
      }
    }
  }

  lemma OpeningQuote(tail: string)
    ensures ReadArgument([QUOTE] + tail, false) == ReadArgument(tail, true)
  {
    assert ([QUOTE] + tail)[1..] == tail;
  }

  lemma QuoteReadsBack(value: string, rest: string)
    requires AtArgumentEnd(rest)
    ensures Quote(value) != [] && !IsBlank(Quote(value)[0])
    ensures ReadArgument(Quote(value) + rest, false) == Piece(value, rest)
  {
    hide ReadArgument;
    if value == [] || NeedsQuotes(value) {
      var inner := Body(value, 0) + [QUOTE] + rest;
      assert Slashes(2 * 0) == [];
      assert Quote(value) + rest == [QUOTE] + inner;
      OpeningQuote(inner);
      BodyReadsBack(value, 0, rest);
      assert Slashes(0) + value == value;
    } else {
      PlainReadsBack(value, rest);
    }
  }

  lemma SplitFirst(first: string, rest: string)
    requires AtArgumentEnd(rest)
    ensures SplitArguments(Quote(first) + rest) == [first] + SplitArguments(rest)
  {
    QuoteReadsBack(first, rest);
    assert SkipBlanks(Quote(first) + rest) == Quote(first) + rest;
  }

  lemma SplitAfterBlank(s: string)
    ensures SplitArguments(" " + s) == SplitArguments(s)
  {
    assert (" " + s)[1..] == s;
    assert SkipBlanks(" " + s) == SkipBlanks(s);
  }

  lemma JoinFirst(arguments: seq<string>)
    requires arguments != []
    ensures Join(arguments) == Quote(arguments[0]) + if |arguments| == 1 then [] else " " + Join(arguments[1..])
  {
    hide Quote;
  }

  lemma {:induction false} SplitUndoesJoin(arguments: seq<string>)
    ensures SplitArguments(Join(arguments)) == arguments
  {
    if arguments != [] {
      JoinFirst(arguments);
      hide Join, SplitArguments, Quote;
      if |arguments| == 1 {
        SplitFirst(arguments[0], []);
        SplitNothing();
      } else {
        SplitFirst(arguments[0], " " + Join(arguments[1..]));
        SplitAfterBlank(Join(arguments[1..]));
        SplitUndoesJoin(arguments[1..]);
      }
      assert [arguments[0]] + arguments[1..] == arguments;
    }
  }

  lemma SplitNothing()
    ensures SplitArguments([]) == []
  {
  }

  // ----- The command line that Windows receives ends at the first NUL -----

  function UpToNul(s: string): (t: string)
    ensures NulFree(t)
    ensures NulFree(s) ==> t == s
  {
    if s == [] || s[0] == NUL then [] else [s[0]] + UpToNul(s[1..])
  }

  lemma {:induction false} BodyKeepsNulOut(value: string, pending: nat)
    requires NulFree(value)
    ensures NulFree(Body(value, pending))
    decreases |value|
  {
    if value == [] {
    } else if value[0] == SLASH {
      BodyKeepsNulOut(value[1..], pending + 1);
    } else {
      BodyKeepsNulOut(value[1..], 0);
    }
  }

  lemma {:induction false} JoinKeepsNulOut(arguments: seq<string>)
    requires forall i :: 0 <= i < |arguments| ==> NulFree(arguments[i])
    ensures NulFree(Join(arguments))
  {
    if arguments != [] {
      BodyKeepsNulOut(arguments[0], 0);
      JoinKeepsNulOut(arguments[1..]);
    }
  }

  /** One step of reading: some text is taken, and the reading goes on further to the right. */
  lemma ReadStep(s: string, quoted: bool) returns (prefix: string, k: nat, stillQuoted: bool)
    requires s != [] && NulFree(s) && (quoted || !IsBlank(s[0]))
    ensures 0 < k <= |s| && NulFree(prefix)
    ensures ReadArgument(s, quoted) == Before(prefix, ReadArgument(s[k..], stillQuoted))
  {
    var n := LeadingSlashes(s);
    stillQuoted := quoted;
    if n > 0 {
      if n == |s| || s[n] != QUOTE {
        prefix, k := Slashes(n), n;
      } else if n % 2 == 0 {
        prefix, k := Slashes(n / 2), n;
      } else {
        prefix, k := Slashes(n / 2) + [QUOTE], n + 1;
      }
    } else if s[0] == QUOTE {
      if quoted && |s| > 1 && s[1] == QUOTE {
        prefix, k := [QUOTE], 2;
      } else {
        prefix, k, stillQuoted := [], 1, !quoted;
        assert [] + ReadArgument(s[1..], !quoted).text == ReadArgument(s[1..], !quoted).text;
      }
    } else {
      prefix, k := [s[0]], 1;
    }
  }

  lemma {:induction false} ReadArgumentKeepsNulOut(s: string, quoted: bool)
    requires NulFree(s)
    ensures NulFree(ReadArgument(s, quoted).text) && NulFree(ReadArgument(s, quoted).rest)
    decreases |s|
  {
    if s != [] && (quoted || !IsBlank(s[0])) {
      var prefix, k, stillQuoted := ReadStep(s, quoted);
      hide ReadArgument;
      ReadArgumentKeepsNulOut(s[k..], stillQuoted);
    }
  }

  lemma SkipBlanksKeepsNulOut(s: string)
    requires NulFree(s)
    ensures NulFree(SkipBlanks(s))
  {
  }

  lemma {:induction false} SplitKeepsNulOut(s: string)
    requires NulFree(s)
    ensures forall i :: 0 <= i < |SplitArguments(s)| ==> NulFree(SplitArguments(s)[i])
    decreases |s|
  {
    SkipBlanksKeepsNulOut(s);
    var t := SkipBlanks(s);
    if t != [] {
      ReadArgumentKeepsNulOut(t, false);
      SplitKeepsNulOut(ReadArgument(t, false).rest);
    }
  }

  /**
   The main result: the child process sees exactly the given arguments (empty ones, embedded
   quotes and trailing backslashes included) if and only if none of them contains a NUL.
   */
  lemma {:induction false} ChildSeesArguments(arguments: seq<string>)
    ensures SplitArguments(UpToNul(Join(arguments))) == arguments
       <==> forall i :: 0 <= i < |arguments| ==> NulFree(arguments[i])
  {
    SplitKeepsNulOut(UpToNul(Join(arguments)));
    if forall i :: 0 <= i < |arguments| ==> NulFree(arguments[i]) {
      JoinKeepsNulOut(arguments);
      SplitUndoesJoin(arguments);
    }
  }

  // ----- What the command line looks like -----

  /** An argument is written as it is if and only if it is not empty and has no white space and no quote. */
  lemma {:induction false} PlainExactlyWithoutBlanks(value: string)
    ensures Quote(value) == value <==>
      value != [] && forall i :: 0 <= i < |value| ==> value[i] as int !in SPACES && value[i] != QUOTE
  {
    forall i | 0 <= i < |value| ensures IsWhiteSpace(value[i]) <==> value[i] as int in SPACES {
      WhiteSpaceIs(value[i]);
    }
    hide IsWhiteSpace;
    if value != [] && NeedsQuotes(value) {
      BodyIsLong(value, 0);
    }
  }

  lemma {:induction false} BodyIsLong(value: string, pending: nat)
    ensures |Body(value, pending)| >= |value| + pending
    decreases |value|
  {
    if value != [] {
      BodyIsLong(value[1..], if value[0] == SLASH then pending + 1 else 0);
    }
  }

  /** Every argument that is not plain stands between quotes. */
  lemma {:induction false} OthersStandInQuotes(value: string)
    ensures Quote(value) != value ==>
      |Quote(value)| >= 2 && Quote(value)[0] == Quote(value)[|Quote(value)| - 1] == QUOTE
  {
  }

  /** Arguments are one space apart. */
  lemma {:induction false} ArgumentsStandApart(first: seq<string>, second: seq<string>)
    requires first != [] && second != []
    ensures Join(first + second) == Join(first) + " " + Join(second)
    ensures |first| == 1 ==> Join(first) == Quote(first[0])
    decreases |first|
  {
    var all := first + second;
    assert all[0] == first[0] && all[1..] == first[1..] + second;
    if |first| > 1 {
      ArgumentsStandApart(first[1..], second);
    }
  }
}
