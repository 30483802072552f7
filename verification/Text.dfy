/** Cutting text at a separator. */
module Strings {

  predicate Without(c: char, s: string) {
    forall i :: 0 <= i < |s| ==> s[i] != c
  }

  /** The first separator ends the first part. */
  lemma SplitFirst(c: char, a: string, b: string, x: string, y: string)
    requires Without(c, a) && Without(c, b) && a + ([c] + x) == b + ([c] + y)
    ensures a == b && x == y
  {
    var s := a + ([c] + x);
    assert s[|a|] == c && s[|b|] == c;
    assert forall i :: 0 <= i < |a| ==> s[i] == a[i];
    assert forall i :: 0 <= i < |b| ==> s[i] == b[i];
    assert s[..|a|] == a && s[..|b|] == b;
    assert s[|a| + 1..] == x && s[|b| + 1..] == y;
  }

  /** The last separator starts the last part. */
  lemma SplitLast(c: char, a: string, b: string, x: string, y: string)
    requires Without(c, a) && Without(c, b) && x + [c] + a == y + [c] + b
    ensures a == b && x == y
  {
    var s := x + [c] + a;
    assert s[|x|] == c && s[|y|] == c && |s| == |x| + 1 + |a| == |y| + 1 + |b|;
    assert forall i :: |x| < i < |s| ==> s[i] == a[i - |x| - 1];
    assert forall i :: |y| < i < |s| ==> s[i] == b[i - |y| - 1];
    assert s[..|x|] == x && s[..|y|] == y;
    assert s[|x| + 1..] == a && s[|y| + 1..] == b;
  }

  lemma DropLabel(tag: string, a: string, b: string)
    requires tag + a == tag + b
    ensures a == b
  {
    assert (tag + a)[|tag|..] == a && (tag + b)[|tag|..] == b;
  }
}

/** Base-10 text as written by strconv.FormatUint and read by strconv.ParseUint. */
module Decimal {
  import opened Numbers
  import opened Wrappers

  predicate IsDigit(c: char) {
    '0' <= c <= '9'
  }

  predicate AllDigits(s: string) {
    forall i :: 0 <= i < |s| ==> IsDigit(s[i])
  }

  function Format(n: nat): string {
    if n < 10 then [('0' as int + n) as char]
    else Format(n / 10) + [('0' as int + n % 10) as char]
  }

  function Value(s: string): nat
    requires AllDigits(s)
  {
    if s == "" then 0
    else 10 * Value(s[..|s| - 1]) + (s[|s| - 1] as int - '0' as int)
  }

  function ParseUint(s: string): Option<uint64> {
    if s != "" && AllDigits(s) && Value(s) < TWO64 then Some(Value(s)) else None
  }

  lemma {:induction false} FormatDigits(n: nat)
    ensures Format(n) != "" && AllDigits(Format(n)) && Value(Format(n)) == n
  {
    if n >= 10 {
      FormatDigits(n / 10);
      assert Format(n)[..|Format(n)| - 1] == Format(n / 10);
    }
  }

  /** Reading back what was written gives the same number, for every uint64. */
  lemma ParseFormat(n: uint64)
    ensures ParseUint(Format(n)) == Some(n)
  {
    FormatDigits(n);
  }

  lemma FormatInjective(m: nat, n: nat)
    requires Format(m) == Format(n)
    ensures m == n
  {
    FormatDigits(m);
    FormatDigits(n);
  }
}

/** Hexadecimal text: encoding is lower case, decoding accepts both cases. */
module Hex {
  import opened Numbers
  import opened Wrappers

  function Digit(d: int): char
    requires 0 <= d < 16
  {
    if d < 10 then ('0' as int + d) as char else ('a' as int + d - 10) as char
  }

  predicate IsHexChar(c: char) {
    '0' <= c <= '9' || 'a' <= c <= 'f' || 'A' <= c <= 'F'
  }

  function DigitValue(c: char): (d: int)
    requires IsHexChar(c)
    ensures 0 <= d < 16
  {
    if c <= '9' then c as int - '0' as int
    else if c <= 'F' then c as int - 'A' as int + 10
    else c as int - 'a' as int + 10
  }

  predicate IsHex(s: string) {
    forall i :: 0 <= i < |s| ==> IsHexChar(s[i])
  }

  function Encode(b: seq<byte>): string {
    if b == [] then "" else [Digit(b[0] / 16), Digit(b[0] % 16)] + Encode(b[1..])
  }

  function Decode(s: string): Option<seq<byte>> {
    if s == "" then Some([])
    else if |s| == 1 || !IsHexChar(s[0]) || !IsHexChar(s[1]) then None
    else
      match Decode(s[2..])
      case None => None
      case Some(rest) => Some([16 * DigitValue(s[0]) + DigitValue(s[1])] + rest)
  }

  /** Decoding undoes encoding, and the text has two hex characters a byte. */
  lemma {:induction false} DecodeEncode(b: seq<byte>)
    ensures Decode(Encode(b)) == Some(b) && |Encode(b)| == 2 * |b| && IsHex(Encode(b))
  {
    if b != [] {
      DecodeEncode(b[1..]);
      assert Encode(b)[2..] == Encode(b[1..]);
      assert b == [b[0]] + b[1..];
    }
  }

  lemma EncodeInjective(a: seq<byte>, b: seq<byte>)
    requires Encode(a) == Encode(b)
    ensures a == b
  {
    DecodeEncode(a);
    DecodeEncode(b);
  }

  lemma {:induction false} DecodableIsHex(s: string)
    requires Decode(s).Some?
    ensures IsHex(s) && |s| == 2 * |Decode(s).value|
  {
    if s != "" {
      DecodableIsHex(s[2..]);
      forall i | 0 <= i < |s| ensures IsHexChar(s[i]) {
        if i >= 2 {
          assert s[i] == s[2..][i - 2];
        }
      }
    }
  }

  /** Upper-case digits in lower case. */
  function Lower(s: string): string {
    seq(|s|, i requires 0 <= i < |s| => if 'A' <= s[i] <= 'F' then (s[i] as int + 32) as char else s[i])
  }

  lemma DigitOfValue(c: char)
    requires IsHexChar(c)
    ensures Digit(DigitValue(c)) == if 'A' <= c <= 'F' then (c as int + 32) as char else c
  {
  }

  /** Encoding what was decoded gives the text in lower case. */
  lemma {:induction false} EncodeDecode(s: string)
    requires Decode(s).Some?
    ensures Encode(Decode(s).value) == Lower(s)
  {
    if s != "" {
      EncodeDecode(s[2..]);
      DigitOfValue(s[0]);
      DigitOfValue(s[1]);
      var bytes := Decode(s).value;
      assert bytes[1..] == Decode(s[2..]).value;
      assert bytes[0] / 16 == DigitValue(s[0]) && bytes[0] % 16 == DigitValue(s[1]);
      assert Lower(s) == [Lower(s)[0], Lower(s)[1]] + Lower(s[2..]);
    }
  }

  /** Two texts denote the same bytes exactly when they differ in case only. */
  lemma SameBytesIff(s: string, t: string)
    requires Decode(s).Some? && Decode(t).Some?
    ensures Decode(s) == Decode(t) <==> Lower(s) == Lower(t)
  {
    EncodeDecode(s);
    EncodeDecode(t);
    if Lower(s) == Lower(t) {
      EncodeInjective(Decode(s).value, Decode(t).value);
    }
  }
}
