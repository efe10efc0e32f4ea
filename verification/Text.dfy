/** C text: NUL-free strings, `%d`/`%u` printing, `%d` and `%[^c]` scanning (ISO/IEC 9899:2011,
    sections 7.21.6.1 and 7.21.6.2). A C string is the sequence of its characters before the NUL. */
module Text {

  const NUL: char := '\0'
  const BAR: char := '|'
  const NEWLINE: char := '\n'

  datatype Option<+T> = None | Some(value: T)

  /** The first `n` characters, as `snprintf(dst, n + 1, "%s", s)` and `%.*s` keep them. */
  function Take(s: string, n: nat): string {
    if |s| <= n then s else s[..n]
  }

  predicate IsDigit(c: char) {
    '0' <= c <= '9'
  }

  predicate IsSpace(c: char) {
    c == ' ' || '\t' <= c <= '\r'
  }

  predicate AllDigits(s: string) {
    forall i | 0 <= i < |s| :: IsDigit(s[i])
  }

  function DigitChar(d: nat): char
    requires d < 10
  {
    '0' + d as char
  }

  function DigitOf(c: char): nat
    requires IsDigit(c)
  {
    (c - '0') as nat
  }

  /** `%u` */
  function PrintNat(n: nat): (s: string)
    ensures s != "" && AllDigits(s)
  {
    if n < 10 then [DigitChar(n)] else PrintNat(n / 10) + [DigitChar(n % 10)]
  }

  /** `%d` */
  function PrintInt(i: int): (s: string)
    ensures s != ""
  {
    if i < 0 then "-" + PrintNat(-i) else PrintNat(i)
  }

  function NatValue(s: string): nat
    requires AllDigits(s)
  {
    if s == "" then 0 else 10 * NatValue(s[..|s| - 1]) + DigitOf(s[|s| - 1])
  }

  function SkipSpace(s: string): string {
    if s != "" && IsSpace(s[0]) then SkipSpace(s[1..]) else s
  }

  /** The length of the longest prefix of digits. */
  function DigitRun(s: string): (n: nat)
    ensures n <= |s| && AllDigits(s[..n])
    ensures n < |s| ==> !IsDigit(s[n])
  {
    if s != "" && IsDigit(s[0]) then 1 + DigitRun(s[1..]) else 0
  }

  datatype Scanned = NoMatch | Matched(value: int, rest: string)

  /** The `%d` and `%u` conversions: optional white space, optional sign, digits. */
  function ScanDecimal(s: string): Scanned {
    var t := SkipSpace(s);
    var signed := t != "" && (t[0] == '-' || t[0] == '+');
    var u := if signed then t[1..] else t;
    var n := DigitRun(u);
    var magnitude: int := NatValue(u[..n]);
    if n == 0 then NoMatch else Matched(if signed && t[0] == '-' then -magnitude else magnitude, u[n..])
  }

  /** `atoi` */
  function Atoi(s: string): int {
    match ScanDecimal(s)
    case NoMatch => 0
    case Matched(v, _) => v
  }

  /** The `%<width>[^stop]` conversion: how many characters it takes. It fails when that is 0. */
  function ScanSet(s: string, stop: char, width: nat): (n: nat)
    ensures n <= |s| && n <= width
    ensures forall i | 0 <= i < n :: s[i] != stop && s[i] != NUL
    ensures n < |s| && n < width ==> s[n] == stop || s[n] == NUL
  {
    if width > 0 && s != "" && s[0] != stop && s[0] != NUL then 1 + ScanSet(s[1..], stop, width - 1) else 0
  }

  lemma {:induction false} DigitRunOfPrefix(a: string, rest: string)
    requires AllDigits(a) && (rest == "" || !IsDigit(rest[0]))
    ensures DigitRun(a + rest) == |a|
  {
    if a == "" {
      assert a + rest == rest;
    } else {
      assert (a + rest)[1..] == a[1..] + rest;
      DigitRunOfPrefix(a[1..], rest);
    }
  }

  lemma {:induction false} NatValueOfPrintNat(n: nat)
    ensures NatValue(PrintNat(n)) == n
  {
    if n >= 10 {
      NatValueOfPrintNat(n / 10);
      var s := PrintNat(n);
      assert s[..|s| - 1] == PrintNat(n / 10);
    }
  }

  lemma DigitsScan(digits: string, rest: string)
    requires AllDigits(digits) && (rest == "" || !IsDigit(rest[0]))
    ensures var s := digits + rest;
            DigitRun(s) == |digits| && s[..|digits|] == digits && s[|digits|..] == rest
  {
    DigitRunOfPrefix(digits, rest);
  }

  lemma {:induction false} PrintNatScans(n: nat, rest: string)
    requires rest == "" || !IsDigit(rest[0])
    ensures ScanDecimal(PrintNat(n) + rest) == Matched(n, rest)
  {
    NatValueOfPrintNat(n);
    DigitsScan(PrintNat(n), rest);
    var s := PrintNat(n) + rest;
    assert IsDigit(s[0]) && SkipSpace(s) == s;
  }

  lemma {:induction false} ScanMinus(u: string)
    requires u != "" && IsDigit(u[0])
    ensures ScanDecimal("-" + u) == Matched(-(NatValue(u[..DigitRun(u)]) as int), u[DigitRun(u)..])
  {
    var s := "-" + u;
    assert SkipSpace(s) == s && s[1..] == u;
  }

  lemma {:induction false} PrintNegativeScans(i: int, rest: string)
    requires i < 0 && (rest == "" || !IsDigit(rest[0]))
    ensures ScanDecimal("-" + PrintNat(-i) + rest) == Matched(i, rest)
  {
    NatValueOfPrintNat(-i);
    var u := PrintNat(-i) + rest;
    DigitsScan(PrintNat(-i), rest);
    ScanMinus(u);
    assert "-" + PrintNat(-i) + rest == "-" + u;
  }

  /** `%d` scanning undoes `%d` printing, whatever non-digit follows. */
  lemma PrintIntScans(i: int, rest: string)
    requires rest == "" || !IsDigit(rest[0])
    ensures ScanDecimal(PrintInt(i) + rest) == Matched(i, rest)
  {
    if i < 0 {
      PrintNegativeScans(i, rest);
    } else {
      PrintNatScans(i, rest);
    }
  }

  lemma PrintIntInjective(i: int, j: int)
    requires PrintInt(i) == PrintInt(j)
    ensures i == j
  {
    PrintIntScans(i, "");
    PrintIntScans(j, "");
    assert PrintInt(i) + "" == PrintInt(i) && PrintInt(j) + "" == PrintInt(j);
  }

  /** The decimal digits, the leading one first. */
  lemma {:induction false} FourDigits(n: nat, text: string)
    requires 1000 <= n < 10000 && |text| == 4 && AllDigits(text)
    requires DigitOf(text[0]) == n / 1000 && DigitOf(text[1]) == n / 100 % 10
    requires DigitOf(text[2]) == n / 10 % 10 && DigitOf(text[3]) == n % 10
    ensures PrintInt(n) == text
  {
    assert PrintNat(n / 1000) == [text[0]];
    assert PrintNat(n / 100) == PrintNat(n / 1000) + [text[1]];
    assert PrintNat(n / 10) == PrintNat(n / 100) + [text[2]];
  }

  lemma AtoiOfPrintInt(i: int)
    ensures Atoi(PrintInt(i)) == i
  {
    PrintIntScans(i, "");
    assert PrintInt(i) + "" == PrintInt(i);
  }

  function Pow10(k: nat): nat {
    if k == 0 then 1 else 10 * Pow10(k - 1)
  }

  lemma {:induction false} PrintNatLength(n: nat, k: nat)
    requires 1 <= k && n < Pow10(k)
    ensures |PrintNat(n)| <= k
  {
    if n >= 10 {
      PrintNatLength(n / 10, k - 1);
    }
  }

  /** An int32 prints in at most 11 characters, a uint32 in at most 10. */
  lemma PrintWidths(i: int)
    requires -0x8000_0000 <= i < 0x1_0000_0000
    ensures |PrintInt(i)| <= 11
    ensures 0 <= i ==> |PrintInt(i)| <= 10
    ensures forall k | 0 <= k < |PrintInt(i)| :: PrintInt(i)[k] == '-' || IsDigit(PrintInt(i)[k])
  {
    assert Pow10(10) == 1_00000_00000;
    PrintNatLength(if i < 0 then -i else i, 10);
  }

  /** `%[^stop]` takes exactly a stop-free field that a stop character follows. */
  lemma {:induction false} ScanSetOfField(a: string, rest: string, stop: char, width: nat)
    requires |a| <= width && stop !in a && NUL !in a
    requires rest == "" || rest[0] == stop || rest[0] == NUL || |a| == width
    ensures ScanSet(a + rest, stop, width) == |a|
  {
    if a == "" {
      assert a + rest == rest;
    } else {
      assert (a + rest)[1..] == a[1..] + rest;
      ScanSetOfField(a[1..], rest, stop, width - 1);
    }
  }
}
