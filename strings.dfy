/** The .NET string operations the rules engine relies on: `Split` on one
    character, `Trim`, `IndexOf` and the decimal rendering of an `int` in
    string interpolation. Each comes with its inverse or a characterisation. */
module Strings {

  /** The white-space characters of the ASCII and Latin-1 ranges. */
  const WhiteSpace: set<char> := {' ', '\t', '\n', '\U{B}', '\U{C}', '\r', '\U{85}', '\U{A0}'}

  /** `Char.IsWhiteSpace`, restricted to the ASCII and Latin-1 separators. */
  predicate IsWhiteSpace(c: char) {
    c in WhiteSpace
  }

  // ---------------------------------------------------------------------------
  // Split and Join
  // ---------------------------------------------------------------------------

  /** `s.Split(sep)`: the pieces between the separators, empty pieces kept. */
  function Split(s: string, sep: char): (parts: seq<string>)
    ensures |parts| >= 1
    ensures forall k :: 0 <= k < |parts| ==> sep !in parts[k]
    ensures |parts| == 1 <==> sep !in s
    ensures sep !in s ==> parts == [s]
    decreases |s|
  {
    if |s| == 0 then [""]
    else
      var rest := Split(s[1..], sep);
      if s[0] == sep then [""] + rest
      else
        assert [s[0]] + s[1..] == s;
        [[s[0]] + rest[0]] + rest[1..]
  }

  /** `string.Join(sep, parts)`. */
  function Join(parts: seq<string>, sep: char): string
  {
    if |parts| == 0 then ""
    else if |parts| == 1 then parts[0]
    else parts[0] + [sep] + Join(parts[1..], sep)
  }

  /** Joining the pieces of a split gives the original text back. */
  lemma {:induction false} JoinSplit(s: string, sep: char)
    ensures Join(Split(s, sep), sep) == s
    decreases |s|
  {
    if |s| > 0 {
      var rest := Split(s[1..], sep);
      JoinSplit(s[1..], sep);
      if s[0] == sep {
        assert Split(s, sep) == [""] + rest;
        assert ([""] + rest)[1..] == rest;
      } else {
        var head := [s[0]] + rest[0];
        assert Split(s, sep) == [head] + rest[1..];
        if |rest| == 1 {
          assert Join(rest, sep) == rest[0];
        } else {
          assert ([head] + rest[1..])[1..] == rest[1..];
          assert Join(rest, sep) == rest[0] + [sep] + Join(rest[1..], sep);
        }
      }
    }
  }

  lemma {:induction false} SplitPrefix(a: string, b: string, sep: char)
    requires sep !in a
    ensures Split(a + [sep] + b, sep) == [a] + Split(b, sep)
    decreases |a|
  {
    if |a| == 0 {
      assert a + [sep] + b == [sep] + b;
      assert ([sep] + b)[1..] == b;
    } else {
      var s := a + [sep] + b;
      assert s[1..] == a[1..] + [sep] + b;
      SplitPrefix(a[1..], b, sep);
      assert [s[0]] + a[1..] == a;
    }
  }

  /** Splitting the join of separator-free pieces gives the pieces back. */
  lemma {:induction false} SplitJoin(parts: seq<string>, sep: char)
    requires |parts| >= 1
    requires forall k :: 0 <= k < |parts| ==> sep !in parts[k]
    ensures Split(Join(parts, sep), sep) == parts
    decreases |parts|
  {
    if |parts| > 1 {
      SplitJoin(parts[1..], sep);
      SplitPrefix(parts[0], Join(parts[1..], sep), sep);
      assert [parts[0]] + parts[1..] == parts;
    }
  }

  // ---------------------------------------------------------------------------
  // Trim
  // ---------------------------------------------------------------------------

  /** How many white-space characters `s` starts with. */
  function LeadingWhiteSpace(s: string): (n: nat)
    ensures n <= |s|
    ensures forall i :: 0 <= i < n ==> IsWhiteSpace(s[i])
    ensures n == |s| || !IsWhiteSpace(s[n])
  {
    if |s| > 0 && IsWhiteSpace(s[0]) then 1 + LeadingWhiteSpace(s[1..]) else 0
  }

  /** How many white-space characters `s` ends with. */
  function TrailingWhiteSpace(s: string): (n: nat)
    ensures n <= |s|
    ensures forall i :: |s| - n <= i < |s| ==> IsWhiteSpace(s[i])
    ensures n == |s| || !IsWhiteSpace(s[|s| - n - 1])
  {
    if |s| > 0 && IsWhiteSpace(s[|s| - 1]) then 1 + TrailingWhiteSpace(s[..|s| - 1]) else 0
  }

  /** `s.Trim()`: the middle slice of `s` with no white space at either end,
      everything cut off on both sides being white space. */
  function Trim(s: string): (r: string)
    ensures var lo := LeadingWhiteSpace(s);
            lo + |r| <= |s| && r == s[lo..lo + |r|]
            && (forall i :: 0 <= i < lo ==> IsWhiteSpace(s[i]))
            && (forall i :: lo + |r| <= i < |s| ==> IsWhiteSpace(s[i]))
    ensures r == [] || (!IsWhiteSpace(r[0]) && !IsWhiteSpace(r[|r| - 1]))
  {
    var lo := LeadingWhiteSpace(s);
    var t := s[lo..];
    var hi := |t| - TrailingWhiteSpace(t);
    assert forall i :: lo + hi <= i < |s| ==> IsWhiteSpace(s[i]) by {
      forall i | lo + hi <= i < |s|
        ensures IsWhiteSpace(s[i])
      {
        assert s[i] == t[i - lo];
      }
    }
    s[lo..lo + hi]
  }

  /** Every part trimmed, in order (`Select(x => x.Trim())`). */
  function TrimEach(parts: seq<string>): (items: seq<string>)
    ensures |items| == |parts|
  {
    if |parts| == 0 then [] else [Trim(parts[0])] + TrimEach(parts[1..])
  }

  /** `s.Split(sep).Select(x => x.Trim())`. */
  function SplitTrim(s: string, sep: char): (items: seq<string>)
    ensures |items| == |Split(s, sep)|
  {
    TrimEach(Split(s, sep))
  }

  /** Item `k` of the trimmed list is part `k` of the split, trimmed. */
  lemma {:induction false} TrimEachAt(parts: seq<string>)
    ensures forall k :: 0 <= k < |parts| ==> TrimEach(parts)[k] == Trim(parts[k])
  {
    if |parts| > 0 {
      TrimEachAt(parts[1..]);
      assert forall k :: 1 <= k < |parts| ==> parts[1..][k - 1] == parts[k];
    }
  }

  lemma SplitTrimItems(s: string, sep: char)
    ensures forall k :: 0 <= k < |SplitTrim(s, sep)| ==> SplitTrim(s, sep)[k] == Trim(Split(s, sep)[k])
  {
    TrimEachAt(Split(s, sep));
  }

  // ---------------------------------------------------------------------------
  // IndexOf
  // ---------------------------------------------------------------------------

  /** `s.IndexOf(c)` for a character known to occur: its first position. */
  function IndexOf(s: string, c: char): (i: nat)
    requires c in s
    ensures i < |s| && s[i] == c && c !in s[..i]
  {
    if s[0] == c then 0
    else
      assert c in s[1..];
      var j := IndexOf(s[1..], c);
      assert s[..j + 1] == [s[0]] + s[1..][..j];
      j + 1
  }

  // ---------------------------------------------------------------------------
  // Decimal rendering of integers
  // ---------------------------------------------------------------------------

  predicate IsDigit(c: char) {
    '0' <= c <= '9'
  }

  predicate AllDigits(s: string) {
    forall i :: 0 <= i < |s| ==> IsDigit(s[i])
  }

  function DigitValue(c: char): nat
    requires IsDigit(c)
  {
    c as int - '0' as int
  }

  function DigitChar(d: nat): (c: char)
    requires d < 10
    ensures IsDigit(c) && DigitValue(c) == d
  {
    ('0' as int + d) as char
  }

  /** The decimal digits of `n`, without leading zeros. */
  function NatToString(n: nat): (s: string)
    ensures |s| >= 1 && AllDigits(s)
    ensures |s| > 1 ==> s[0] != '0'
    ensures n < 10 <==> |s| == 1
  {
    if n < 10 then [DigitChar(n)]
    else
      var front := NatToString(n / 10);
      front + [DigitChar(n % 10)]
  }

  /** The value of a string of decimal digits. */
  function ParseNat(s: string): nat
    requires AllDigits(s)
  {
    if |s| == 0 then 0
    else 10 * ParseNat(s[..|s| - 1]) + DigitValue(s[|s| - 1])
  }

  lemma {:induction false} ParseNatToString(n: nat)
    ensures ParseNat(NatToString(n)) == n
  {
    if n >= 10 {
      var s := NatToString(n);
      ParseNatToString(n / 10);
      assert s[..|s| - 1] == NatToString(n / 10);
    }
  }

  /** `$"{i}"` for an `int`: an optional minus sign, then the digits. */
  function IntToString(i: int): (s: string)
  {
    if i < 0 then "-" + NatToString(-i) else NatToString(i)
  }

  /** Reads back what `IntToString` writes. */
  function ParseInt(s: string): (r: int)
    requires (|s| >= 2 && s[0] == '-' && AllDigits(s[1..])) || AllDigits(s)
  {
    if |s| >= 1 && s[0] == '-' then 0 - ParseNat(s[1..]) else ParseNat(s)
  }

  /** The rendering of an `int` is well formed and reads back to the same number. */
  lemma IntToStringRoundTrip(i: int)
    ensures var s := IntToString(i);
            |s| >= 1 && (i < 0 <==> s[0] == '-') && (i >= 0 ==> AllDigits(s))
            && (i < 0 ==> |s| >= 2 && AllDigits(s[1..]))
            && ParseInt(s) == i
  {
    if i < 0 {
      ParseNatToString(-i);
      assert IntToString(i)[1..] == NatToString(-i);
    } else {
      ParseNatToString(i);
    }
  }
}
