/** Character classes and string helpers shared by the Windows-side modules. */
module Text {

  const NUL := '\0'

  /** The white space of .NET: the regular expression class \s and the characters that Trim removes. */
  predicate IsWhiteSpace(c: char) {
    || '\t' <= c <= '\r' || c == ' '
    || c == '\U{0085}' || c == '\U{00A0}' || c == '\U{1680}'
    || '\U{2000}' <= c <= '\U{200A}' || '\U{2028}' <= c <= '\U{2029}'
    || c == '\U{202F}' || c == '\U{205F}' || c == '\U{3000}'
  }

  /** A string that a NUL-terminated copy represents in full. */
  predicate NulFree(s: string) {
    forall i :: 0 <= i < |s| ==> s[i] != NUL
  }

  /** The blanks that separate arguments on a Windows command line. */
  predicate IsBlank(c: char) {
    c == ' ' || c == '\t'
  }

  function SkipBlanks(s: string): (rest: string)
    ensures |rest| <= |s| && (rest != [] ==> !IsBlank(rest[0]))
  {
    if s != [] && IsBlank(s[0]) then SkipBlanks(s[1..]) else s
  }

  function LowerAscii(c: char): char {
    if 'A' <= c <= 'Z' then (c as int + 32) as char else c
  }

  const UPPER_CASE: string := "ABCDEFGHIJKLMNOPQRSTUVWXYZ"
  const LOWER_CASE: string := "abcdefghijklmnopqrstuvwxyz"

  /** Exactly the 26 capital letters of ASCII change, each to its small letter. */
  lemma {:induction false} LowerAsciiLetters(c: char)
    ensures forall i :: 0 <= i < 26 ==> LowerAscii(UPPER_CASE[i]) == LOWER_CASE[i]
    ensures c !in UPPER_CASE ==> LowerAscii(c) == c
  {
    if 'A' <= c <= 'Z' {
      assert UPPER_CASE[c as int - 65] == c;
    }
  }

  function LowerText(s: string): string {
    seq(|s|, i requires 0 <= i < |s| => LowerAscii(s[i]))
  }

  function TrimStart(s: string): string {
    if s != [] && IsWhiteSpace(s[0]) then TrimStart(s[1..]) else s
  }

  function TrimEnd(s: string): string {
    if s != [] && IsWhiteSpace(s[|s| - 1]) then TrimEnd(s[..|s| - 1]) else s
  }

  function Trim(s: string): string {
    TrimEnd(TrimStart(s))
  }

  /** The code points of the white space. */
  const SPACES: set<int> := {
    0x9, 0xA, 0xB, 0xC, 0xD, 0x20, 0x85, 0xA0, 0x1680, 0x2000, 0x2001, 0x2002, 0x2003, 0x2004, 0x2005, 0x2006, 0x2007,
    0x2008, 0x2009, 0x200A, 0x2028, 0x2029, 0x202F, 0x205F, 0x3000}

  lemma {:induction false} WhiteSpaceIs(c: char)
    ensures IsWhiteSpace(c) <==> c as int in SPACES
    ensures IsBlank(c) <==> c as int == 0x20 || c as int == 0x9
    ensures NUL as int == 0
  {
  }

  /** Lower case changes one character at a time. */
  lemma {:induction false} LowerTextIs(s: string)
    ensures |LowerText(s)| == |s| && forall i :: 0 <= i < |s| ==> LowerText(s)[i] == LowerAscii(s[i])
  {
  }

  lemma {:induction false} TrimStartIs(s: string) returns (i: nat)
    ensures i <= |s| && TrimStart(s) == s[i..]
    ensures forall k :: 0 <= k < i ==> IsWhiteSpace(s[k])
    ensures i < |s| ==> !IsWhiteSpace(s[i])
  {
    hide IsWhiteSpace;
    i := 0;
    if s != [] && IsWhiteSpace(s[0]) {
      i := TrimStartIs(s[1..]);
      i := i + 1;
    }
  }

  lemma {:induction false} TrimEndIs(s: string) returns (j: nat)
    ensures j <= |s| && TrimEnd(s) == s[..j]
    ensures forall k :: j <= k < |s| ==> IsWhiteSpace(s[k])
    ensures j > 0 ==> !IsWhiteSpace(s[j - 1])
  {
    hide IsWhiteSpace;
    j := |s|;
    if s != [] && IsWhiteSpace(s[|s| - 1]) {
      j := TrimEndIs(s[..|s| - 1]);
    } else {
      assert s[..|s|] == s;
    }
  }

  /** Trimming leaves the text between its first and its last character that is not white space. */
  lemma {:induction false} TrimIsMiddle(s: string) returns (i: nat, j: nat)
    ensures i <= j <= |s| && Trim(s) == s[i..j]
    ensures forall k :: 0 <= k < |s| && (k < i || k >= j) ==> IsWhiteSpace(s[k])
    ensures i < j ==> !IsWhiteSpace(s[i]) && !IsWhiteSpace(s[j - 1])
  {
    hide IsWhiteSpace, TrimStart, TrimEnd;
    i := TrimStartIs(s);
    var n := TrimEndIs(s[i..]);
    j := i + n;
    assert s[i..][..n] == s[i..j];
    assert forall k :: i <= k < |s| ==> s[k] == s[i..][k - i];
  }
}
