/**
 * The C string handling the scheduler relies on, over NUL-free character
 * sequences: bounded copies (strncpy into a fixed buffer, strncat),
 * the single-space join of the client's trailing arguments, splitting
 * a text on a separator, and decimal formatting (%d, %ld) with its
 * inverse, atol/atoi.
 */
module CStrings {

  /** What survives of `s` after strncpy(dst, s, n) into a buffer whose
      byte n is forced to NUL: the first n characters at most. */
  function Truncate(s: string, n: nat): (r: string)
    ensures |r| == if |s| <= n then |s| else n
    ensures r <= s
  {
    if |s| <= n then s else s[..n]
  }

  lemma TruncateIdempotent(s: string, n: nat)
    ensures Truncate(Truncate(s, n), n) == Truncate(s, n)
  {
  }

  /** strncat(dst, src, n): appends at most n characters of src. */
  function StrNCat(dst: string, src: string, n: nat): (r: string)
    ensures r == dst + Truncate(src, n)
  {
    if |src| <= n then dst + src else dst + src[..n]
  }

  /** Appending with strncat into a buffer of capacity cap + 1 (room for the
      NUL) keeps the buffer equal to the truncation of everything appended. */
  lemma StrNCatTruncates(x: string, y: string, cap: nat)
    ensures StrNCat(Truncate(x, cap), y, cap - |Truncate(x, cap)|) == Truncate(x + y, cap)
  {
    var t := Truncate(x, cap);
    var r := StrNCat(t, y, cap - |t|);
    if |x| <= cap {
      assert t == x;
      assert r == (x + y)[..|r|];
    } else {
      assert r == t == x[..cap] == (x + y)[..cap];
    }
  }

  /** The client's argument string: tokens separated by single spaces. */
  function Join(tokens: seq<string>): (r: string)
    decreases |tokens|
  {
    if |tokens| == 0 then ""
    else if |tokens| == 1 then tokens[0]
    else tokens[0] + " " + Join(tokens[1..])
  }

  lemma {:induction false} JoinSnoc(tokens: seq<string>, t: string)
    requires |tokens| > 0
    ensures Join(tokens + [t]) == Join(tokens) + " " + t
  {
    if |tokens| == 1 {
      assert (tokens + [t])[1..] == [t];
    } else {
      assert (tokens + [t])[1..] == tokens[1..] + [t];
      JoinSnoc(tokens[1..], t);
    }
  }

  /** Index of the first occurrence of c in s, or |s| when there is none. */
  function IndexOf(s: string, c: char): (k: nat)
    ensures k <= |s|
    ensures k < |s| ==> s[k] == c
    ensures forall j :: 0 <= j < k ==> s[j] != c
    decreases |s|
  {
    if |s| == 0 then 0
    else if s[0] == c then 0
    else 1 + IndexOf(s[1..], c)
  }

  /** The pieces of s between occurrences of the separator c. */
  function SplitOn(s: string, c: char): (r: seq<string>)
    ensures |r| > 0
    decreases |s|
  {
    var k := IndexOf(s, c);
    if k == |s| then [s] else [s[..k]] + SplitOn(s[k + 1..], c)
  }

  lemma SplitOnNone(s: string, c: char)
    requires c !in s
    ensures SplitOn(s, c) == [s]
  {
    assert IndexOf(s, c) == |s|;
  }

  lemma SplitOnFirst(a: string, c: char, b: string)
    requires c !in a
    ensures SplitOn(a + [c] + b, c) == [a] + SplitOn(b, c)
  {
    var s := a + [c] + b;
    var k := IndexOf(s, c);
    assert s[|a|] == c;
    assert forall j :: 0 <= j < |a| ==> s[j] == a[j];
    assert k == |a|;
    assert s[..k] == a;
    assert s[k + 1..] == b;
  }

  /** Joining with single spaces and splitting on spaces are inverse
      whenever no token contains a space. */
  lemma {:induction false} SplitJoin(tokens: seq<string>)
    requires |tokens| > 0
    requires forall i :: 0 <= i < |tokens| ==> ' ' !in tokens[i]
    ensures SplitOn(Join(tokens), ' ') == tokens
  {
    if |tokens| == 1 {
      SplitOnNone(tokens[0], ' ');
    } else {
      SplitJoin(tokens[1..]);
      assert tokens[0] + " " + Join(tokens[1..]) == tokens[0] + [' '] + Join(tokens[1..]);
      SplitOnFirst(tokens[0], ' ', Join(tokens[1..]));
      assert tokens == [tokens[0]] + tokens[1..];
    }
  }

  // ---------------------------------------------------------------------
  // Decimal numbers
  // ---------------------------------------------------------------------

  predicate IsDigit(c: char) {
    '0' <= c <= '9'
  }

  predicate AllDigits(s: string) {
    forall i :: 0 <= i < |s| ==> IsDigit(s[i])
  }

  /** isspace in the C locale. */
  predicate IsSpace(c: char) {
    c == ' ' || c == '\t' || c == '\n' || c == '\r' || c as int == 11 || c as int == 12
  }

  function DigitChar(d: nat): (c: char)
    requires d < 10
    ensures IsDigit(c) && c as int - '0' as int == d
  {
    ('0' as int + d) as char
  }

  /** %u-style decimal text of a natural number, without leading zeros. */
  function NatToDec(n: nat): (r: string)
    ensures |r| > 0 && AllDigits(r)
    decreases n
  {
    if n < 10 then [DigitChar(n)] else NatToDec(n / 10) + [DigitChar(n % 10)]
  }

  /** %d / %ld: decimal text, with a leading '-' for negative values. */
  function IntToDec(n: int): (r: string)
    ensures |r| > 0 && (IsDigit(r[0]) || r[0] == '-')
    ensures '\n' !in r && ' ' !in r
  {
    if n < 0 then "-" + NatToDec(-n) else NatToDec(n)
  }

  /** Value of a run of decimal digits. */
  function DecValue(d: string): nat
    requires AllDigits(d)
    decreases |d|
  {
    if |d| == 0 then 0
    else DecValue(d[..|d| - 1]) * 10 + (d[|d| - 1] as int - '0' as int)
  }

  /** The longest prefix of s made of digits. */
  function LeadingDigits(s: string): (r: string)
    ensures r <= s && AllDigits(r)
    ensures |r| < |s| ==> !IsDigit(s[|r|])
    decreases |s|
  {
    if |s| > 0 && IsDigit(s[0]) then [s[0]] + LeadingDigits(s[1..]) else []
  }

  function SkipSpace(s: string): (r: string)
    ensures |r| <= |s|
    ensures |r| > 0 ==> !IsSpace(r[0])
    decreases |s|
  {
    if |s| > 0 && IsSpace(s[0]) then SkipSpace(s[1..]) else s
  }

  /** atol / atoi: leading white space, an optional sign, then as many
      digits as follow; no digits reads as 0. */
  function Atol(s: string): int
  {
    var t := SkipSpace(s);
    if |t| > 0 && t[0] == '-' then -(DecValue(LeadingDigits(t[1..])) as int)
    else if |t| > 0 && t[0] == '+' then DecValue(LeadingDigits(t[1..]))
    else DecValue(LeadingDigits(t))
  }

  lemma {:induction false} DecValueOfNatToDec(n: nat)
    ensures DecValue(NatToDec(n)) == n
    decreases n
  {
    var d := NatToDec(n);
    if n >= 10 {
      DecValueOfNatToDec(n / 10);
      assert d[..|d| - 1] == NatToDec(n / 10);
    }
  }

  lemma {:induction false} LeadingDigitsOfDigits(d: string, rest: string)
    requires AllDigits(d)
    requires |rest| == 0 || !IsDigit(rest[0])
    ensures LeadingDigits(d + rest) == d
    decreases |d|
  {
    if |d| > 0 {
      assert (d + rest)[1..] == d[1..] + rest;
      LeadingDigitsOfDigits(d[1..], rest);
    } else {
      assert d + rest == rest;
    }
  }

  /** atol of a text starting with '-' and of one starting with a digit. */
  lemma AtolSigned(s: string)
    requires |s| > 0 && s[0] == '-'
    ensures Atol(s) == -(DecValue(LeadingDigits(s[1..])) as int)
  {
    assert SkipSpace(s) == s;
  }

  lemma AtolUnsigned(s: string)
    requires |s| > 0 && IsDigit(s[0])
    ensures Atol(s) == DecValue(LeadingDigits(s))
  {
    var c := s[0];
    assert c != '-' && c != '+' && !IsSpace(c);
    assert SkipSpace(s) == s;
  }

  /** Reading back what %d wrote: atol recovers the number from its decimal
      text, whatever non-digit text follows it. */
  lemma AtolOfIntToDec(n: int, rest: string)
    requires |rest| == 0 || !IsDigit(rest[0])
    ensures Atol(IntToDec(n) + rest) == n
  {
    if n < 0 {
      AtolOfNegative(-n, rest);
    } else {
      AtolOfNatToDec(n, rest);
    }
  }

  lemma AtolOfNatToDec(n: nat, rest: string)
    requires |rest| == 0 || !IsDigit(rest[0])
    ensures Atol(NatToDec(n) + rest) == n
  {
    var d := NatToDec(n);
    AtolUnsigned(d + rest);
    LeadingDigitsOfDigits(d, rest);
    DecValueOfNatToDec(n);
  }

  lemma AtolOfNegative(m: nat, rest: string)
    requires m > 0
    requires |rest| == 0 || !IsDigit(rest[0])
    ensures Atol("-" + NatToDec(m) + rest) == -(m as int)
  {
    var d := NatToDec(m);
    var s := "-" + d + rest;
    assert s[1..] == d + rest;
    AtolSigned(s);
    LeadingDigitsOfDigits(d, rest);
    DecValueOfNatToDec(m);
  }
}
