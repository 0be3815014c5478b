/** The pieces of the JavaScript runtime the application leans on when it turns
    numbers into text and back: decimal rendering of integers (template
    literals and `+ "px"`), `Number.prototype.toString(16)`, `parseInt(s, 16)`,
    `String.prototype.startsWith` and `Array.prototype.join` with its inverse,
    splitting on the separator. */
module Strings {
  import opened Wrappers

  // ---------------------------------------------------------------------------
  // Decimal digits

  predicate IsDigit(c: char) {
    '0' <= c <= '9'
  }

  predicate AllDigits(s: string) {
    forall i :: 0 <= i < |s| ==> IsDigit(s[i])
  }

  function DigitChar(d: nat): (c: char)
    requires d < 10
    ensures IsDigit(c)
  {
    ('0' as int + d) as char
  }

  function DigitValue(c: char): (d: nat)
    requires IsDigit(c)
    ensures d < 10 && DigitChar(d) == c
  {
    c as int - '0' as int
  }

  /** The decimal text of `n`, without leading zeros, as JavaScript prints a
      non-negative integer. */
  function NatToString(n: nat): (r: string)
    ensures |r| >= 1 && AllDigits(r)
    ensures r[0] == '0' ==> n == 0
    decreases n
  {
    if n < 10 then [DigitChar(n)] else NatToString(n / 10) + [DigitChar(n % 10)]
  }

  /** The decimal text of a possibly negative integer. */
  function IntToString(i: int): (r: string)
    ensures |r| >= 1
    ensures r[0] == '-' <==> i < 0
    ensures i >= 0 ==> r == NatToString(i)
  {
    if i < 0 then "-" + NatToString(-i) else NatToString(i)
  }

  /** The number a non-empty string of decimal digits denotes. */
  function DigitsValue(s: string): nat
    requires AllDigits(s)
  {
    if s == [] then 0 else DigitsValue(s[..|s| - 1]) * 10 + DigitValue(s[|s| - 1])
  }

  /** Reads a decimal natural number; `None` unless `s` is one or more digits. */
  function ParseNat(s: string): (r: Option<nat>)
    ensures r.Some? <==> |s| > 0 && AllDigits(s)
  {
    if |s| > 0 && AllDigits(s) then Some(DigitsValue(s)) else None
  }

  lemma {:induction false} DigitsValueOfNatToString(n: nat)
    ensures DigitsValue(NatToString(n)) == n
    decreases n
  {
    var s := NatToString(n);
    if n >= 10 {
      assert s[..|s| - 1] == NatToString(n / 10);
      DigitsValueOfNatToString(n / 10);
    }
  }

  /** Printing a number and reading it back gives the number. */
  lemma NatToStringRoundTrip(n: nat)
    ensures ParseNat(NatToString(n)) == Some(n)
  {
    DigitsValueOfNatToString(n);
  }

  /** Distinct numbers print differently. */
  lemma NatToStringInjective(a: nat, b: nat)
    requires NatToString(a) == NatToString(b)
    ensures a == b
  {
    NatToStringRoundTrip(a);
    NatToStringRoundTrip(b);
  }

  /** Reads a decimal integer with an optional leading minus sign. */
  function ParseInt(s: string): Option<int>
  {
    if |s| > 0 && s[0] == '-' then
      match ParseNat(s[1..])
      case Some(n) => Some(0 - n as int)
      case None => None
    else
      match ParseNat(s)
      case Some(n) => Some(n)
      case None => None
  }

  /** Printing an integer and reading it back gives the integer. */
  lemma IntToStringRoundTrip(i: int)
    ensures ParseInt(IntToString(i)) == Some(i)
  {
    var s := IntToString(i);
    if i < 0 {
      assert s[1..] == NatToString(-i);
      NatToStringRoundTrip(-i);
    } else {
      NatToStringRoundTrip(i);
    }
  }

  /** The decimal text of an integer holds only digits and a minus sign. */
  lemma IntToStringChars(i: int)
    ensures forall k :: 0 <= k < |IntToString(i)| ==> IsDigit(IntToString(i)[k]) || IntToString(i)[k] == '-'
  {
    var s := IntToString(i);
    if i < 0 {
      assert forall k :: 1 <= k < |s| ==> s[k] == NatToString(-i)[k - 1];
    }
  }

  // ---------------------------------------------------------------------------
  // Hexadecimal digits

  predicate IsHexDigit(c: char) {
    '0' <= c <= '9' || 'a' <= c <= 'f' || 'A' <= c <= 'F'
  }

  predicate IsLowerHexDigit(c: char) {
    '0' <= c <= '9' || 'a' <= c <= 'f'
  }

  predicate AllHexDigits(s: string) {
    forall i :: 0 <= i < |s| ==> IsHexDigit(s[i])
  }

  function HexDigitValue(c: char): (d: nat)
    requires IsHexDigit(c)
    ensures d < 16
  {
    if '0' <= c <= '9' then c as int - '0' as int
    else if 'a' <= c <= 'f' then c as int - 'a' as int + 10
    else c as int - 'A' as int + 10
  }

  /** The lower-case digit `toString(16)` writes for `d`. */
  function HexChar(d: nat): (c: char)
    requires d < 16
    ensures IsLowerHexDigit(c) && HexDigitValue(c) == d
  {
    if d < 10 then DigitChar(d) else ('a' as int + d - 10) as char
  }

  lemma HexCharOfValue(c: char)
    requires IsLowerHexDigit(c)
    ensures HexChar(HexDigitValue(c)) == c
  {
  }

  /** `n.toString(16)`: lower-case hexadecimal without leading zeros and
      without padding. */
  function HexString(n: nat): (r: string)
    ensures |r| >= 1 && AllHexDigits(r)
    ensures forall i :: 0 <= i < |r| ==> IsLowerHexDigit(r[i])
    ensures r[0] == '0' ==> n == 0
    ensures |r| == 1 <==> n < 16
    ensures n < 256 ==> |r| <= 2
    decreases n
  {
    if n < 16 then [HexChar(n)] else HexString(n / 16) + [HexChar(n % 16)]
  }

  function HexValue(s: string): nat
    requires AllHexDigits(s)
  {
    if s == [] then 0 else HexValue(s[..|s| - 1]) * 16 + HexDigitValue(s[|s| - 1])
  }

  /** Length of the longest prefix of `s` made of hexadecimal digits. */
  function HexPrefixLength(s: string): (k: nat)
    ensures k <= |s| && AllHexDigits(s[..k])
    ensures k < |s| ==> !IsHexDigit(s[k])
  {
    if s == [] || !IsHexDigit(s[0]) then 0
    else
      var k := 1 + HexPrefixLength(s[1..]);
      assert s[..k] == [s[0]] + s[1..][..k - 1];
      k
  }

  /** `parseInt(s, 16)`: an optional sign, an optional `0x`/`0X`, then the
      longest run of hexadecimal digits; `None` stands for `NaN`, the result
      when that run is empty. */
  function ParseIntHex(s: string): (r: Option<int>)
  {
    var negative := |s| > 0 && s[0] == '-';
    var unsigned := if |s| > 0 && (s[0] == '-' || s[0] == '+') then s[1..] else s;
    var digits := if |unsigned| >= 2 && unsigned[0] == '0' && (unsigned[1] == 'x' || unsigned[1] == 'X')
                  then unsigned[2..] else unsigned;
    var k := HexPrefixLength(digits);
    var magnitude: int := if k == 0 then 0 else HexValue(digits[..k]);
    if k == 0 then None
    else if negative then Some(-magnitude)
    else Some(magnitude)
  }

  lemma {:induction false} HexValueOfHexString(n: nat)
    ensures HexValue(HexString(n)) == n
    decreases n
  {
    var s := HexString(n);
    if n >= 16 {
      assert s[..|s| - 1] == HexString(n / 16);
      HexValueOfHexString(n / 16);
    }
  }

  lemma {:induction false} HexPrefixOfHexDigits(s: string)
    requires AllHexDigits(s)
    ensures HexPrefixLength(s) == |s|
  {
    if s != [] {
      HexPrefixOfHexDigits(s[1..]);
    }
  }

  /** `parseInt(n.toString(16), 16) === n` for every non-negative integer. */
  lemma HexStringRoundTrip(n: nat)
    ensures ParseIntHex(HexString(n)) == Some(n)
  {
    var s := HexString(n);
    HexValueOfHexString(n);
    HexPrefixOfHexDigits(s);
    assert s[..|s|] == s;
  }

  /** Two hexadecimal digits are read as one byte value. */
  lemma ParseTwoHexDigits(c1: char, c2: char)
    requires IsHexDigit(c1) && IsHexDigit(c2)
    ensures ParseIntHex([c1, c2]) == Some(16 * HexDigitValue(c1) + HexDigitValue(c2))
  {
    var s := [c1, c2];
    assert s[0] != '-' && s[0] != '+';
    assert !(s[1] == 'x' || s[1] == 'X');
    HexPrefixOfHexDigits(s);
    assert s[..2] == s;
    assert s[..1] == [c1];
    assert [c1][..0] == [];
    assert HexValue([c1]) == HexDigitValue(c1);
    assert HexValue(s) == 16 * HexDigitValue(c1) + HexDigitValue(c2);
  }

  /** `toString(16)` writes a value of 16 or more that came from two
      lower-case digits back as those same two digits. */
  lemma HexStringOfTwoDigits(c1: char, c2: char)
    requires IsLowerHexDigit(c1) && IsLowerHexDigit(c2) && c1 != '0'
    ensures HexString(16 * HexDigitValue(c1) + HexDigitValue(c2)) == [c1, c2]
  {
    var d1, d2 := HexDigitValue(c1), HexDigitValue(c2);
    var n := 16 * d1 + d2;
    assert n / 16 == d1 && n % 16 == d2;
    HexCharOfValue(c1);
    HexCharOfValue(c2);
  }

  // ---------------------------------------------------------------------------
  // Prefixes, joining and splitting

  /** `s.startsWith(prefix)`. */
  predicate StartsWith(s: string, prefix: string) {
    |prefix| <= |s| && s[..|prefix|] == prefix
  }

  /** `parts.join(sep)` for a one-character separator. */
  function Join(parts: seq<string>, sep: char): string
  {
    if parts == [] then ""
    else if |parts| == 1 then parts[0]
    else parts[0] + [sep] + Join(parts[1..], sep)
  }

  /** Index of the first occurrence of `c` in `s`. */
  function IndexOf(s: string, c: char): (i: nat)
    requires c in s
    ensures i < |s| && s[i] == c
    ensures forall j :: 0 <= j < i ==> s[j] != c
  {
    if s[0] == c then 0 else 1 + IndexOf(s[1..], c)
  }

  /** The first `c` of `d + rest` is where `rest` starts, when `d` has none
      and `rest` starts with one. */
  lemma IndexOfAfterPrefix(d: string, rest: string, c: char)
    requires c !in d && |rest| > 0 && rest[0] == c
    ensures c in d + rest && IndexOf(d + rest, c) == |d|
  {
    var s := d + rest;
    assert s[|d|] == c;
    assert forall j :: 0 <= j < |d| ==> s[j] == d[j];
  }

  /** `s.split(sep)` for a one-character separator. */
  function Split(s: string, sep: char): (r: seq<string>)
    ensures |r| >= 1
    decreases |s|
  {
    if sep !in s then [s]
    else
      var i := IndexOf(s, sep);
      [s[..i]] + Split(s[i + 1..], sep)
  }

  /** Splitting undoes joining when no part contains the separator. */
  lemma {:induction false} SplitJoin(parts: seq<string>, sep: char)
    requires |parts| >= 1
    requires forall k :: 0 <= k < |parts| ==> sep !in parts[k]
    ensures Split(Join(parts, sep), sep) == parts
    decreases |parts|
  {
    if |parts| > 1 {
      var p := parts[0];
      var rest := Join(parts[1..], sep);
      var s := p + [sep] + rest;
      assert s[|p|] == sep;
      assert forall j :: 0 <= j < |p| ==> s[j] == p[j];
      assert IndexOf(s, sep) == |p|;
      assert s[..|p|] == p;
      assert s[|p| + 1..] == rest;
      SplitJoin(parts[1..], sep);
    }
  }
}
