/** The PHP string built-ins the modelled code relies on, over ASCII text. */
module Text {

  /** `strtoupper` on one character: ASCII lower-case letters only. */
  function UpperChar(c: char): char {
    if 'a' <= c <= 'z' then (c as int - 32) as char else c
  }

  /** `strtoupper`, character by character. */
  function Upper(s: string): string {
    if s == [] then [] else [UpperChar(s[0])] + Upper(s[1..])
  }

  /** Upper-casing keeps the length and maps every character on its own. */
  lemma {:induction false} UpperAt(s: string)
    ensures |Upper(s)| == |s|
    ensures forall i :: 0 <= i < |s| ==> Upper(s)[i] == UpperChar(s[i])
  {
    if s != [] {
      UpperAt(s[1..]);
    }
  }

  /** Upper-casing leaves no lower-case letter behind, so doing it twice changes nothing. */
  lemma UpperIdempotent(s: string)
    ensures forall i :: 0 <= i < |Upper(s)| ==> !('a' <= Upper(s)[i] <= 'z')
    ensures Upper(Upper(s)) == Upper(s)
  {
    UpperAt(s);
    UpperAt(Upper(s));
  }

  function DigitChar(d: nat): char
    requires d < 10
  {
    ('0' as int + d) as char
  }

  /** Decimal digits of a natural number, most significant first, no leading zero. */
  function NatToString(n: nat): (s: string)
    ensures |s| >= 1 && (|s| > 1 ==> s[0] != '0')
    ensures forall i :: 0 <= i < |s| ==> '0' <= s[i] <= '9'
    decreases n
  {
    if n < 10 then [DigitChar(n)] else NatToString(n / 10) + [DigitChar(n % 10)]
  }

  /** Zero is written "0"; any other number starts with a non-zero digit. */
  lemma {:induction false} NatToStringLead(n: nat)
    ensures n == 0 ==> NatToString(n) == "0"
    ensures n > 0 ==> '1' <= NatToString(n)[0] <= '9'
    decreases n
  {
    if n >= 10 {
      NatToStringLead(n / 10);
      assert NatToString(n)[0] == NatToString(n / 10)[0];
    }
  }

  /** How PHP writes an int inside a string: decimal, with a leading '-' when negative. */
  function IntToString(n: int): string {
    if n < 0 then "-" + NatToString(-n) else NatToString(n)
  }

  /** The number a string of decimal digits denotes. */
  function DigitsValue(s: string): nat
    requires forall i :: 0 <= i < |s| ==> '0' <= s[i] <= '9'
  {
    if s == [] then 0 else DigitsValue(s[..|s| - 1]) * 10 + (s[|s| - 1] as int - '0' as int)
  }

  /** Reading the digits back gives the number: the conversion loses nothing. */
  lemma {:induction false} NatToStringRoundTrip(n: nat)
    ensures DigitsValue(NatToString(n)) == n
    decreases n
  {
    var s := NatToString(n);
    if n >= 10 {
      var front := NatToString(n / 10);
      NatToStringRoundTrip(n / 10);
      assert s == front + [DigitChar(n % 10)];
      assert s[..|s| - 1] == front;
      assert DigitsValue(s) == DigitsValue(front) * 10 + n % 10;
    } else {
      assert s == [DigitChar(n)];
      assert DigitsValue(s) == DigitsValue([]) * 10 + n;
    }
  }

  /** `ltrim($s, ' ')`: drop every leading space. */
  function TrimLeadingSpaces(s: string): (t: string)
    ensures |t| > 0 ==> t[0] != ' '
    ensures exists k :: 0 <= k <= |s| && t == s[k..] && forall i :: 0 <= i < k ==> s[i] == ' '
  {
    if s != [] && s[0] == ' ' then
      var t := TrimLeadingSpaces(s[1..]);
      var k :| 0 <= k <= |s[1..]| && t == s[1..][k..] && forall i :: 0 <= i < k ==> s[1..][i] == ' ';
      assert t == s[k + 1..];
      t
    else
      assert s == s[0..];
      s
  }

  /** `implode($glue, $pieces)`. */
  function Implode(glue: string, pieces: seq<string>): string {
    if |pieces| == 0 then ""
    else if |pieces| == 1 then pieces[0]
    else pieces[0] + glue + Implode(glue, pieces[1..])
  }

  /** `pattern` starts at position `i` of `s`. */
  predicate OccursAt(s: string, pattern: string, i: nat) {
    i + |pattern| <= |s| && s[i..i + |pattern|] == pattern
  }

  /** `pattern` occurs nowhere in `s`. */
  predicate Free(s: string, pattern: string) {
    forall i: nat :: i <= |s| ==> !OccursAt(s, pattern, i)
  }

  /**
   * `str_replace($pattern, $replacement, $s)`: every occurrence of `pattern`,
   * found left to right without overlap, is replaced.
   */
  function ReplaceAll(s: string, pattern: string, replacement: string): string
    requires pattern != []
    decreases |s|
  {
    if |s| < |pattern| then s
    else if s[..|pattern|] == pattern then replacement + ReplaceAll(s[|pattern|..], pattern, replacement)
    else [s[0]] + ReplaceAll(s[1..], pattern, replacement)
  }

  /**
   * The pieces of `s` between the occurrences of `pattern` that a left-to-right
   * scan finds (an independent description of the same scan).
   */
  function Split(s: string, pattern: string): (parts: seq<string>)
    requires pattern != []
    ensures |parts| >= 1 && parts[0] <= s
    ensures forall k :: 0 <= k < |parts| ==> Free(parts[k], pattern)
    decreases |s|
  {
    if |s| < |pattern| then [s]
    else if s[..|pattern|] == pattern then [""] + Split(s[|pattern|..], pattern)
    else
      var rest := Split(s[1..], pattern);
      var head := [s[0]] + rest[0];
      assert Free(head, pattern) by {
        forall i: nat | i <= |head| ensures !OccursAt(head, pattern, i) {
          if i == 0 {
            if |pattern| <= |head| {
              assert head[..|pattern|] == s[..|pattern|];
            }
          } else if OccursAt(head, pattern, i) {
            assert head[i..i + |pattern|] == rest[0][i - 1..i - 1 + |pattern|];
            assert OccursAt(rest[0], pattern, i - 1);
            assert false;
          }
        }
      }
      [head] + rest[1..]
  }

  lemma ImplodeConsHead(glue: string, c: char, parts: seq<string>)
    requires |parts| >= 1
    ensures Implode(glue, [[c] + parts[0]] + parts[1..]) == [c] + Implode(glue, parts)
  {
    var ps := [[c] + parts[0]] + parts[1..];
    if |parts| > 1 {
      assert ps[1..] == parts[1..];
    }
  }

  /** Replacing every occurrence is joining the pieces between them with the replacement. */
  lemma {:induction false} ReplaceAllIsImplodeOfSplit(s: string, pattern: string, replacement: string)
    requires pattern != []
    ensures ReplaceAll(s, pattern, replacement) == Implode(replacement, Split(s, pattern))
    decreases |s|
  {
    if |s| < |pattern| {
    } else if s[..|pattern|] == pattern {
      ReplaceAllIsImplodeOfSplit(s[|pattern|..], pattern, replacement);
      var rest := Split(s[|pattern|..], pattern);
      assert ([""] + rest)[1..] == rest;
    } else {
      ReplaceAllIsImplodeOfSplit(s[1..], pattern, replacement);
      ImplodeConsHead(replacement, s[0], Split(s[1..], pattern));
    }
  }

  /** Replacing a pattern by itself gives the string back. */
  lemma {:induction false} ReplaceAllSelf(s: string, pattern: string)
    requires pattern != []
    ensures ReplaceAll(s, pattern, pattern) == s
    decreases |s|
  {
    if |s| < |pattern| {
    } else if s[..|pattern|] == pattern {
      ReplaceAllSelf(s[|pattern|..], pattern);
      assert s == pattern + s[|pattern|..];
    } else {
      ReplaceAllSelf(s[1..], pattern);
      assert s == [s[0]] + s[1..];
    }
  }

  /** A string without the pattern's first character is left alone by `str_replace`. */
  lemma {:induction false} ReplaceAllWithoutLead(s: string, pattern: string, replacement: string)
    requires pattern != []
    requires forall i :: 0 <= i < |s| ==> s[i] != pattern[0]
    ensures ReplaceAll(s, pattern, replacement) == s
    decreases |s|
  {
    if |s| >= |pattern| {
      assert s[..|pattern|][0] != pattern[0];
      ReplaceAllWithoutLead(s[1..], pattern, replacement);
      assert s == [s[0]] + s[1..];
    }
  }

  /** Splitting at a pattern and joining with it again gives the string back. */
  lemma SplitRoundTrip(s: string, pattern: string)
    requires pattern != []
    ensures Implode(pattern, Split(s, pattern)) == s
  {
    ReplaceAllIsImplodeOfSplit(s, pattern, pattern);
    ReplaceAllSelf(s, pattern);
  }

  /** Where the pattern does not occur, `str_replace` changes nothing. */
  lemma ReplaceAllAbsent(s: string, pattern: string, replacement: string)
    requires pattern != [] && Free(s, pattern)
    ensures ReplaceAll(s, pattern, replacement) == s
  {
    var parts := Split(s, pattern);
    ReplaceAllIsImplodeOfSplit(s, pattern, replacement);
    SplitRoundTrip(s, pattern);
    if |parts| > 1 {
      SplitBoundary(s, pattern);
      assert false;
    }
  }

  /** Between the first two pieces of a split the pattern itself stands in the string. */
  lemma SplitBoundary(s: string, pattern: string)
    requires pattern != [] && |Split(s, pattern)| > 1
    ensures OccursAt(s, pattern, |Split(s, pattern)[0]|)
  {
    var parts := Split(s, pattern);
    SplitRoundTrip(s, pattern);
    var n := |parts[0]|;
    assert s == parts[0] + pattern + Implode(pattern, parts[1..]);
    assert s[n..n + |pattern|] == pattern;
  }
}
