/** Character and string helpers standing in for the JavaScript string operations the model uses:
    decimal digits (`Number`, template literals), ASCII lower-casing (`toLowerCase`), `indexOf`
    and single-character `replace`. */
module Text {
  import opened Wrappers

  predicate IsDigit(c: char) { '0' <= c <= '9' }

  predicate AllDigits(s: string) { forall i :: 0 <= i < |s| ==> IsDigit(s[i]) }

  function DigitValue(c: char): (d: nat)
    requires IsDigit(c)
    ensures d < 10
  {
    c as int - '0' as int
  }

  function DigitChar(d: nat): (c: char)
    requires d < 10
    ensures IsDigit(c) && DigitValue(c) == d
  {
    ('0' as int + d) as char
  }

  /** The value `Number(s)` gives a run of decimal digits; `Number("")` is 0. */
  function DigitsValue(s: string): nat
    requires AllDigits(s)
  {
    if s == [] then 0 else 10 * DigitsValue(s[..|s| - 1]) + DigitValue(s[|s| - 1])
  }

  /** The decimal text of a natural number, as a template literal renders it. */
  function NatStr(n: nat): (s: string)
    ensures 1 <= |s| && AllDigits(s)
  {
    if n < 10 then [DigitChar(n)] else NatStr(n / 10) + [DigitChar(n % 10)]
  }

  /** Two-digit, zero-padded text of a number below 100 ("07"). */
  function Pad2(n: nat): (s: string)
    requires n < 100
    ensures |s| == 2 && AllDigits(s) && DigitsValue(s) == n
  {
    var s := [DigitChar(n / 10), DigitChar(n % 10)];
    assert s[..1] == [DigitChar(n / 10)];
    assert s[..1][..0] == [];
    assert DigitsValue(s[..1]) == n / 10;
    s
  }

  /** The decimal text of an integer, with a leading '-' when it is negative. */
  function IntStr(i: int): string {
    if i < 0 then "-" + NatStr(-i) else NatStr(i)
  }

  /** Reading back the text of a number gives the number. */
  lemma {:induction false} NatStrRoundTrip(n: nat)
    ensures DigitsValue(NatStr(n)) == n
  {
    if n >= 10 {
      NatStrRoundTrip(n / 10);
      var s := NatStr(n);
      assert s[..|s| - 1] == NatStr(n / 10);
    }
  }

  /** A run of digits followed by text that does not start with a digit is split in one way only. */
  lemma DigitPrefixUnique(a: string, x: string, b: string, y: string)
    requires AllDigits(a) && AllDigits(b) && a + x == b + y
    requires x == [] || !IsDigit(x[0])
    requires y == [] || !IsDigit(y[0])
    ensures a == b && x == y
  {
    assert x != [] ==> !IsDigit((a + x)[|a|]);
    assert y != [] ==> !IsDigit((b + y)[|b|]);
    assert forall i :: 0 <= i < |a| ==> IsDigit((a + x)[i]);
    assert forall i :: 0 <= i < |b| ==> IsDigit((b + y)[i]);
    assert a == (a + x)[..|a|] && b == (b + y)[..|b|];
    assert x == (a + x)[|a|..] && y == (b + y)[|b|..];
  }

  /** The text of a number followed by non-digit text determines the number. */
  lemma NatStrPrefixUnique(m: nat, x: string, n: nat, y: string)
    requires NatStr(m) + x == NatStr(n) + y
    requires x == [] || !IsDigit(x[0])
    requires y == [] || !IsDigit(y[0])
    ensures m == n && x == y
  {
    DigitPrefixUnique(NatStr(m), x, NatStr(n), y);
    NatStrRoundTrip(m);
    NatStrRoundTrip(n);
  }

  /** The length of the run of decimal digits that starts `s`. */
  function DigitRun(s: string): (n: nat)
    ensures n <= |s| && AllDigits(s[..n])
    ensures n < |s| ==> !IsDigit(s[n])
  {
    if s == [] || !IsDigit(s[0]) then 0 else 1 + DigitRun(s[1..])
  }

  lemma {:induction false} DigitRunOfDigits(a: string, rest: string)
    requires AllDigits(a)
    requires rest == [] || !IsDigit(rest[0])
    ensures DigitRun(a + rest) == |a|
  {
    if a != [] {
      assert (a + rest)[1..] == a[1..] + rest;
      DigitRunOfDigits(a[1..], rest);
    }
  }

  /** The ASCII white space `parseInt` skips: space, tab, line feed, vertical tab, form feed and
      carriage return (the other Unicode spaces are not modelled). */
  predicate IsSpace(c: char) {
    c == ' ' || c == '\t' || c == '\n' || c == '\U{0B}' || c == '\U{0C}' || c == '\r'
  }

  function SkipSpaces(s: string): (r: string)
    ensures |r| <= |s| && r == s[|s| - |r|..]
    ensures r == [] || !IsSpace(r[0])
  {
    if s != [] && IsSpace(s[0]) then SkipSpaces(s[1..]) else s
  }

  /** `parseInt(s)` on decimal text: white space, an optional sign, then the longest run of
      digits; None (NaN) when no digit follows. A `0x` prefix, which `parseInt` without a radix
      reads as hexadecimal, is read here as the number 0. */
  function ParseIntPrefix(s: string): (r: Option<int>)
  {
    ParseSigned(SkipSpaces(s))
  }

  /** An optional sign, then the digits. */
  function ParseSigned(t: string): Option<int> {
    if t != [] && t[0] == '-' then
      match ParseUnsigned(t[1..])
      case Some(v) => Some(-(v as int))
      case None => None
    else if t != [] && t[0] == '+' then
      match ParseUnsigned(t[1..])
      case Some(v) => Some(v as int)
      case None => None
    else
      match ParseUnsigned(t)
      case Some(v) => Some(v as int)
      case None => None
  }

  /** The longest leading run of digits; None when there is none. */
  function ParseUnsigned(u: string): Option<nat> {
    var n := DigitRun(u);
    if n == 0 then None else Some(DigitsValue(u[..n]))
  }

  /** The text of a number, followed by anything that is not a digit, starts with a digit and its
      leading digit run reads as the number. */
  lemma {:induction false} LeadingNumber(n: nat, rest: string)
    requires rest == [] || !IsDigit(rest[0])
    ensures var s := NatStr(n) + rest; IsDigit(s[0]) && ParseUnsigned(s) == Some(n)
  {
    var s := NatStr(n) + rest;
    assert s[0] == NatStr(n)[0];
    DigitRunOfDigits(NatStr(n), rest);
    assert s[..|NatStr(n)|] == NatStr(n);
    NatStrRoundTrip(n);
  }

  /** A text that starts with a digit is read as its leading run of digits. */
  lemma ParseIntPrefixOfDigits(t: string, v: nat)
    requires t != [] && IsDigit(t[0]) && ParseUnsigned(t) == Some(v)
    ensures ParseIntPrefix(t) == Some(v as int)
  {
    assert SkipSpaces(t) == t;
  }

  /** A minus sign negates the digit run after it. */
  lemma ParseIntPrefixOfSigned(t: string, v: nat)
    requires |t| >= 2 && t[0] == '-' && ParseUnsigned(t[1..]) == Some(v)
    ensures ParseIntPrefix(t) == Some(-(v as int))
  {
    assert SkipSpaces(t) == t;
  }

  /** `parseInt` reads back a number's text, whatever non-digit text follows it. */
  lemma ParseIntPrefixOfNatStr(n: nat, rest: string)
    requires rest == [] || !IsDigit(rest[0])
    ensures ParseIntPrefix(NatStr(n) + rest) == Some(n)
  {
    LeadingNumber(n, rest);
    ParseIntPrefixOfDigits(NatStr(n) + rest, n);
  }

  /** And a minus sign before it negates it. */
  lemma ParseIntPrefixOfNegated(n: nat, rest: string)
    requires rest == [] || !IsDigit(rest[0])
    ensures ParseIntPrefix("-" + NatStr(n) + rest) == Some(-(n as int))
  {
    var t := "-" + NatStr(n) + rest;
    assert t[1..] == NatStr(n) + rest;
    LeadingNumber(n, rest);
    ParseIntPrefixOfSigned(t, n);
  }

  /** No digits, no number. */
  lemma ParseIntPrefixOfEmpty()
    ensures ParseIntPrefix("") == None && ParseIntPrefix(" ") == None && ParseIntPrefix("-") == None
  {
    assert ParseUnsigned([]) == None;
    assert " "[1..] == [];
    assert SkipSpaces(" ") == [];
    assert "-"[1..] == [];
    assert SkipSpaces("-") == "-";
  }

  /** Position of the first `c` in `s`, or |s| when there is none (`indexOf`, with -1 read as |s|). */
  function IndexOf(s: string, c: char): (i: nat)
    ensures i <= |s|
    ensures i < |s| ==> s[i] == c
    ensures forall j :: 0 <= j < i ==> s[j] != c
  {
    if s == [] then 0 else if s[0] == c then 0 else 1 + IndexOf(s[1..], c)
  }

  lemma IndexOfAfter(a: string, c: char, rest: string)
    requires forall j :: 0 <= j < |a| ==> a[j] != c
    ensures IndexOf(a + [c] + rest, c) == |a|
  {
    var s := a + [c] + rest;
    assert s[|a|] == c;
    assert forall j :: 0 <= j < |a| ==> s[j] == a[j];
  }

  /** `toLowerCase` on one character; only the ASCII letters are modelled. */
  function LowerChar(c: char): char {
    if 'A' <= c <= 'Z' then (c as int + 32) as char else c
  }

  function Lower(s: string): (r: string)
    ensures |r| == |s|
    ensures forall i :: 0 <= i < |s| ==> r[i] == LowerChar(s[i])
  {
    if s == [] then [] else [LowerChar(s[0])] + Lower(s[1..])
  }

  /** `s.replace(c, rep)` for a one-character pattern: only the first occurrence is replaced. */
  function ReplaceFirst(s: string, c: char, rep: string): (r: string)
  {
    if s == [] then [] else if s[0] == c then rep + s[1..] else [s[0]] + ReplaceFirst(s[1..], c, rep)
  }

  /** `replace` leaves a text without `c` unchanged. */
  lemma {:induction false} ReplaceAbsent(s: string, c: char, rep: string)
    requires c !in s
    ensures ReplaceFirst(s, c, rep) == s
  {
    if s != [] {
      assert c !in s[1..];
      ReplaceAbsent(s[1..], c, rep);
    }
  }

  /** `replace` where the first `c` follows the text `a`. */
  lemma {:induction false} ReplaceAfter(a: string, c: char, rest: string, rep: string)
    requires c !in a
    ensures ReplaceFirst(a + [c] + rest, c, rep) == a + rep + rest
  {
    var s := a + [c] + rest;
    if a == [] {
      assert s == [c] + rest;
    } else {
      assert s[0] == a[0];
      assert s[1..] == a[1..] + [c] + rest;
      assert c !in a[1..];
      ReplaceAfter(a[1..], c, rest, rep);
      assert [a[0]] + (a[1..] + rep + rest) == a + rep + rest;
    }
  }

  /** Partner of ReplaceFirst: it splices `rep` in at the first occurrence, and is the identity when there is none. */
  lemma ReplaceFirstAt(s: string, c: char, rep: string)
    ensures IndexOf(s, c) == |s| ==> ReplaceFirst(s, c, rep) == s
    ensures IndexOf(s, c) < |s| ==> ReplaceFirst(s, c, rep) == s[..IndexOf(s, c)] + rep + s[IndexOf(s, c) + 1..]
  {
    var i := IndexOf(s, c);
    if i == |s| {
      ReplaceAbsent(s, c, rep);
    } else {
      assert s == s[..i] + [c] + s[i + 1..];
      assert c !in s[..i];
      ReplaceAfter(s[..i], c, s[i + 1..], rep);
    }
  }
}
