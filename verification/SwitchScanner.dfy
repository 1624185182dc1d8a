/**
 The fixed-buffer switch scanner of the installer stub and of the MSI bridge
 (`has_exact_arg`, with a buffer of 128 and of 256 characters).
 */
module SwitchScanner {
  import opened Text

  // ----- What the switches of a command line are -----

  /** A token and the rest of the command line. Quotes group blanks and are not part of a token. */
  datatype Token = Token(text: string, rest: string)

  function ReadToken(s: string, quoted: bool): (token: Token)
    ensures |token.rest| <= |s|
    ensures s != [] && !IsBlank(s[0]) ==> |token.rest| < |s|
  {
    if s == [] then
      Token([], [])
    else if s[0] == '\"' then
      ReadToken(s[1..], !quoted)
    else if !quoted && IsBlank(s[0]) then
      Token([], s)
    else
      var tail := ReadToken(s[1..], quoted);
      Token([s[0]] + tail.text, tail.rest)
  }

  function Tokens(s: string): seq<string>
    decreases |s|
  {
    var t := SkipBlanks(s);
    if t == [] then []
    else
      var token := ReadToken(t, false);
      [token.text] + Tokens(token.rest)
  }

  predicate EqualIgnoringCase(a: string, b: string) {
    |a| == |b| && forall i :: 0 <= i < |a| ==> LowerAscii(a[i]) == LowerAscii(b[i])
  }

  /** Some token after the program name equals the wanted switch up to ASCII case. */
  predicate HasSwitch(command: string, wanted: string) {
    exists k :: 1 <= k < |Tokens(command)| && EqualIgnoringCase(Tokens(command)[k], wanted)
  }

  // ----- What the scanner decides -----

  function Kept(token: string, capacity: nat): string
    requires capacity > 0
  {
    if |token| < capacity then token else token[..capacity - 1]
  }

  predicate Matches(tokens: seq<string>, wanted: string, capacity: nat)
    requires capacity > 0
  {
    exists k :: 0 <= k < |tokens| && EqualIgnoringCase(Kept(tokens[k], capacity), wanted)
  }

  /** The decision of the scanner: the first token is never looked at, the others are cut to the buffer. */
  predicate Scanned(command: string, wanted: string, capacity: nat)
    requires capacity > 0
  {
    Tokens(command) != [] && Matches(Tokens(command)[1..], wanted, capacity)
  }

  /**
   Compares the buffer, which holds `text` and then a NUL, with the wanted switch.
   Neither string is read past its terminator.
   */
  method EqualsSwitch(token: array<char>, wanted: string, ghost text: string) returns (equal: bool)
    requires |text| < token.Length && token[..|text|] == text && token[|text|] == NUL
    requires NulFree(text) && NulFree(wanted)
    ensures equal == EqualIgnoringCase(text, wanted)
  {
    var i := 0;
    while token[i] != NUL && i < |wanted|
      invariant i <= |text| && i <= |wanted|
      invariant forall j :: 0 <= j < i ==> LowerAscii(text[j]) == LowerAscii(wanted[j])
      decreases |wanted| - i
    {
      assert token[..|text|][i] == text[i];
      if LowerAscii(token[i]) != LowerAscii(wanted[i]) {
        return false;
      }
      i := i + 1;
    }
    if i < |text| {
      assert token[..|text|][i] == text[i];
    }
    equal := token[i] == NUL && i == |wanted|;
  }

  lemma ReadTokenFrom(command: string, p: nat, quoted: bool)
    requires p <= |command|
    ensures p == |command| || (!quoted && IsBlank(command[p])) ==>
      ReadToken(command[p..], quoted) == Token([], command[p..])
    ensures p < |command| && command[p] == '\"' ==>
      ReadToken(command[p..], quoted) == ReadToken(command[p + 1..], !quoted)
    ensures p < |command| && command[p] != '\"' && (quoted || !IsBlank(command[p])) ==>
      && ReadToken(command[p..], quoted).text == [command[p]] + ReadToken(command[p + 1..], quoted).text
      && ReadToken(command[p..], quoted).rest == ReadToken(command[p + 1..], quoted).rest
  {
    if p < |command| {
      assert command[p..][1..] == command[p + 1..];
    }
  }

  /** Copies one token into the buffer, cut to its capacity, and returns the position after it. */
  method CopyToken(command: string, start: nat, token: array<char>) returns (p: nat, t: nat)
    requires start <= |command| && token.Length > 0
    requires NulFree(command)
    modifies token
    ensures start <= p <= |command| && t < token.Length
    ensures var read := ReadToken(command[start..], false);
      && read.rest == command[p..]
      && token[..t] == Kept(read.text, token.Length)
    ensures token[t] == NUL && NulFree(token[..t])
  {
    hide ReadToken;
    ghost var whole := ReadToken(command[start..], false);
    ghost var seen := 0;
    p, t := start, 0;
    var quoted := false;
    while p < |command|
      invariant start <= p <= |command| && t < token.Length
      invariant seen <= |whole.text| && whole.text[seen..] == ReadToken(command[p..], quoted).text
      invariant whole.rest == ReadToken(command[p..], quoted).rest
      invariant t == (if seen < token.Length then seen else token.Length - 1)
      invariant forall i :: 0 <= i < t ==> token[i] == whole.text[i] != NUL
    {
      ReadTokenFrom(command, p, quoted);
      assert whole.text[seen..] != [] ==>
        whole.text[seen..][0] == whole.text[seen] && whole.text[seen..][1..] == whole.text[seen + 1..];
      if command[p] == '\"' {
        quoted := !quoted;
        p := p + 1;
        continue;
      }
      if !quoted && IsBlank(command[p]) {
        break;
      }
      if t + 1 < token.Length {
        token[t] := command[p];
        t := t + 1;
      }
      seen := seen + 1;
      p := p + 1;
    }
    ReadTokenFrom(command, p, quoted);
    assert seen == |whole.text|;
    assert token[..t] == Kept(whole.text, token.Length);
    token[t] := NUL;
  }

  method SkipBlanksFrom(command: string, start: nat) returns (p: nat)
    requires start <= |command|
    ensures start <= p <= |command| && command[p..] == SkipBlanks(command[start..])
  {
    p := start;
    while p < |command| && IsBlank(command[p])
      invariant start <= p <= |command|
      invariant SkipBlanks(command[p..]) == SkipBlanks(command[start..])
    {
      assert command[p..][1..] == command[p + 1..];
      p := p + 1;
    }
  }

  method HasExactArgument(command: string, wanted: string, capacity: nat) returns (found: bool)
    requires capacity > 0
    requires NulFree(command) && NulFree(wanted)
    ensures found == Scanned(command, wanted, capacity)
  {
    var token := new char[capacity];
    var first := true;
    var p := 0;
    assert command[0..] == command;
    while p < |command|
      invariant p <= |command|
      invariant first ==> p == 0
      invariant !first ==> Scanned(command, wanted, capacity) == Matches(Tokens(command[p..]), wanted, capacity)
      decreases |command| - p
    {
      ghost var from := p;
      p := SkipBlanksFrom(command, p);
      if p == |command| {
        assert Tokens(command[from..]) == [];
        break;
      }
      ghost var start := p;
      var t: nat;
      p, t := CopyToken(command, p, token);
      ghost var rest := Tokens(command[p..]);
      assert Tokens(command[from..]) == [ReadToken(command[start..], false).text] + rest;
      if !first {
        var equal := EqualsSwitch(token, wanted, token[..t]);
        MatchesHead(Tokens(command[from..]), wanted, capacity);
        assert Tokens(command[from..])[1..] == rest;
        if equal {
          return true;
        }
      } else {
        assert Tokens(command)[1..] == rest;
      }
      first := false;
      ghost var blank := p;
      p := SkipBlanksFrom(command, p);
      assert SkipBlanks(command[p..]) == command[p..];
      assert Tokens(command[blank..]) == Tokens(command[p..]);
    }
    assert p < |command| || command[p..] == [];
    found := false;
  }

  lemma MatchesHead(tokens: seq<string>, wanted: string, capacity: nat)
    requires capacity > 0 && tokens != []
    ensures Matches(tokens, wanted, capacity)
       <==> EqualIgnoringCase(Kept(tokens[0], capacity), wanted) || Matches(tokens[1..], wanted, capacity)
  {
    if Matches(tokens, wanted, capacity) {
      var k :| 0 <= k < |tokens| && EqualIgnoringCase(Kept(tokens[k], capacity), wanted);
      if k > 0 {
        assert tokens[1..][k - 1] == tokens[k];
      }
    }
    if Matches(tokens[1..], wanted, capacity) {
      var k :| 0 <= k < |tokens[1..]| && EqualIgnoringCase(Kept(tokens[1..][k], capacity), wanted);
      assert tokens[k + 1] == tokens[1..][k];
    }
  }

  // ----- When the bounded buffer decides like an unbounded one -----

  lemma KeptDecidesAlike(token: string, wanted: string, capacity: nat)
    requires |wanted| + 1 < capacity
    ensures EqualIgnoringCase(Kept(token, capacity), wanted) <==> EqualIgnoringCase(token, wanted)
  {
  }

  lemma {:induction false} ShortSwitchesAreExact(command: string, wanted: string, capacity: nat)
    requires |wanted| + 1 < capacity
    ensures Scanned(command, wanted, capacity) <==> HasSwitch(command, wanted)
  {
    var tokens := Tokens(command);
    forall k | 0 <= k < |tokens|
      ensures EqualIgnoringCase(Kept(tokens[k], capacity), wanted) <==> EqualIgnoringCase(tokens[k], wanted)
    {
      KeptDecidesAlike(tokens[k], wanted, capacity);
    }
    if HasSwitch(command, wanted) {
      var k :| 1 <= k < |tokens| && EqualIgnoringCase(tokens[k], wanted);
      assert tokens[1..][k - 1] == tokens[k];
    }
    if Scanned(command, wanted, capacity) {
      var k :| 0 <= k < |tokens[1..]| && EqualIgnoringCase(Kept(tokens[1..][k], capacity), wanted);
      assert tokens[k + 1] == tokens[1..][k];
    }
  }

  /** The switches that the installer asks for, and the one of the MSI bridge. */
  const SETUP_SWITCHES: seq<string> :=
    ["/uninstall", "/repair", "/silent", "/desktop", "/nolaunch", "/purgedata", "/deferred", "/notutorial"]
  const BRIDGE_SWITCH: string := "PRESERVEDATA=1"

  /** Both programs read their own switches exactly, on every command line. */
  lemma {:induction false} ProgramSwitchesAreExact(command: string)
    ensures forall i :: 0 <= i < |SETUP_SWITCHES| ==>
      Scanned(command, SETUP_SWITCHES[i], 128) == HasSwitch(command, SETUP_SWITCHES[i])
    ensures Scanned(command, BRIDGE_SWITCH, 256) == HasSwitch(command, BRIDGE_SWITCH)
  {
    hide Scanned, HasSwitch;
    forall i | 0 <= i < |SETUP_SWITCHES|
      ensures Scanned(command, SETUP_SWITCHES[i], 128) == HasSwitch(command, SETUP_SWITCHES[i])
    {
      ShortSwitchesAreExact(command, SETUP_SWITCHES[i], 128);
    }
    ShortSwitchesAreExact(command, BRIDGE_SWITCH, 256);
  }

  lemma {:induction false} ReadTokenHasNoQuote(s: string, quoted: bool)
    ensures '\"' !in ReadToken(s, quoted).text
    decreases |s|
  {
    if s != [] {
      ReadTokenHasNoQuote(s[1..], quoted);
      ReadTokenHasNoQuote(s[1..], !quoted);
    }
  }

  lemma {:induction false} TokensHaveNoQuote(s: string)
    ensures forall k :: 0 <= k < |Tokens(s)| ==> '\"' !in Tokens(s)[k]
    decreases |s|
  {
    var t := SkipBlanks(s);
    if t != [] {
      ReadTokenHasNoQuote(t, false);
      TokensHaveNoQuote(ReadToken(t, false).rest);
    }
  }

  lemma QuoteInSwitchNeverMatches(text: string, wanted: string)
    requires '\"' in wanted && '\"' !in text
    ensures !EqualIgnoringCase(text, wanted)
  {
    var i :| 0 <= i < |wanted| && wanted[i] == '\"';
    if |text| == |wanted| {
      assert text[i] in text;
      assert LowerAscii(text[i]) != LowerAscii(wanted[i]);
    }
  }

  lemma {:induction false} ReadQuotedToken(text: string)
    requires '\"' !in text
    ensures ReadToken(text, true) == Token(text, [])
  {
    if text != [] {
      ReadQuotedToken(text[1..]);
    }
  }

  /** A command line whose only argument is the given text. */
  function CommandWith(text: string): string {
    "x " + (['\"'] + text)
  }

  lemma TokensStart(s: string, token: Token)
    requires SkipBlanks(s) != [] && ReadToken(SkipBlanks(s), false) == token
    ensures Tokens(s) == [token.text] + Tokens(token.rest)
  {
  }

  lemma ArgumentIsToken(text: string)
    requires '\"' !in text
    ensures Tokens(" " + (['\"'] + text)) == [text]
  {
    var argument := ['\"'] + text;
    var blank := " " + argument;
    assert argument[1..] == text && blank[1..] == argument;
    ReadQuotedToken(text);
    assert ReadToken(argument, false) == Token(text, []);
    assert SkipBlanks(blank) == argument;
    hide ReadToken, SkipBlanks;
    TokensStart(blank, Token(text, []));
  }

  lemma TokensOfCommandWith(text: string)
    requires '\"' !in text
    ensures Tokens(CommandWith(text)) == ["x", text]
  {
    var blank := " " + (['\"'] + text);
    var command := CommandWith(text);
    assert command == ['x'] + blank && command[1..] == blank;
    assert ReadToken(blank, false) == Token([], blank);
    assert ReadToken(command, false) == Token("x", blank);
    assert SkipBlanks(command) == command;
    hide ReadToken, SkipBlanks, CommandWith;
    TokensStart(command, Token("x", blank));
    ArgumentIsToken(text);
  }

  /**
   The main result. The bounded scanner decides like an unbounded one on every command line
   if and only if the wanted switch leaves room for one more character and the terminator
   (or holds a quote, which no token can).
   */
  lemma {:induction false} ExactExactlyForShortSwitches(wanted: string, capacity: nat)
    requires capacity > 0 && NulFree(wanted)
    ensures (forall command :: NulFree(command) ==> Scanned(command, wanted, capacity) == HasSwitch(command, wanted))
       <==> |wanted| + 1 < capacity || '\"' in wanted
  {
    if |wanted| + 1 < capacity {
      forall command ensures Scanned(command, wanted, capacity) == HasSwitch(command, wanted) {
        ShortSwitchesAreExact(command, wanted, capacity);
      }
    } else if '\"' in wanted {
      forall command ensures Scanned(command, wanted, capacity) == HasSwitch(command, wanted) {
        QuotedSwitchNeverFound(command, wanted, capacity);
      }
    } else {
      LongSwitchIsMisread(wanted, capacity);
    }
  }

  lemma QuotedSwitchNeverFound(command: string, wanted: string, capacity: nat)
    requires capacity > 0 && '\"' in wanted
    ensures !Scanned(command, wanted, capacity) && !HasSwitch(command, wanted)
  {
    var tokens := Tokens(command);
    TokensHaveNoQuote(command);
    forall k | 0 <= k < |tokens|
      ensures !EqualIgnoringCase(tokens[k], wanted) && !EqualIgnoringCase(Kept(tokens[k], capacity), wanted)
    {
      QuoteInSwitchNeverMatches(tokens[k], wanted);
      QuoteInSwitchNeverMatches(Kept(tokens[k], capacity), wanted);
    }
  }

  /** A switch as long as the buffer is found in a longer token; a still longer one is never found. */
  lemma {:induction false} LongSwitchIsMisread(wanted: string, capacity: nat)
    requires capacity > 0 && NulFree(wanted) && '\"' !in wanted && |wanted| + 1 >= capacity
    ensures exists command :: NulFree(command) && Scanned(command, wanted, capacity) != HasSwitch(command, wanted)
  {
    var text := if |wanted| + 1 == capacity then wanted + "y" else wanted;
    var command := CommandWith(text);
    TokensOfCommandWith(text);
    assert Tokens(command)[1..] == [text];
    if |wanted| + 1 == capacity {
      assert Kept(text, capacity) == wanted;
      assert EqualIgnoringCase(Kept([text][0], capacity), wanted);
      assert !HasSwitch(command, wanted);
    } else {
      assert EqualIgnoringCase(Tokens(command)[1], wanted);
      assert |Kept(text, capacity)| < |wanted|;
    }
    assert NulFree(command);
  }
}
