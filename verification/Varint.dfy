/** Base 128 varints as the generated codec writes and reads them. */
module Varint {
  import opened Numbers
  import opened Wrappers
  import opened Arith

  datatype Error = IntOverflow | UnexpectedEOF | InvalidLength | EndGroup | IllegalTag | WrongWireType | IllegalWireType

  /** Low seven bits first; the high bit marks that more bytes follow. */
  function Encode(v: nat): seq<byte> {
    if v < 128 then [v] else [v % 128 + 128] + Encode(v / 128)
  }

  lemma EncodeUnfold(v: nat)
    ensures |Encode(v)| >= 1
    ensures v < 128 ==> Encode(v) == [v]
    ensures v >= 128 ==> Encode(v)[0] == v % 128 + 128 && Encode(v)[1..] == Encode(v / 128)
  {
  }

  function BitLen(x: nat): nat {
    if x == 0 then 0 else 1 + BitLen(x / 2)
  }

  /** The size formula of the generated code: (Len64(x|1) + 6) / 7. */
  function Size(x: nat): nat {
    (BitLen(if x % 2 == 0 then x + 1 else x) + 6) / 7
  }

  /** Seven halvings drop seven bits. */
  lemma BitLenSeven(x: nat)
    requires x >= 128
    ensures BitLen(x) == 7 + BitLen(x / 128)
  {
    var a := x / 2;
    var b := a / 2;
    var c := b / 2;
    var d := c / 2;
    var e := d / 2;
    var f := e / 2;
    var g := f / 2;
    assert 128 * g <= x < 128 * g + 128;
    assert g == x / 128;
    assert BitLen(x) == 1 + BitLen(a) && BitLen(a) == 1 + BitLen(b) && BitLen(b) == 1 + BitLen(c);
    assert BitLen(c) == 1 + BitLen(d) && BitLen(d) == 1 + BitLen(e) && BitLen(e) == 1 + BitLen(f);
    assert BitLen(f) == 1 + BitLen(g);
  }

  lemma {:induction false} BitLenBound(x: nat, k: nat)
    requires x < Pow2(k)
    ensures BitLen(x) <= k
    decreases k
  {
    if x > 0 {
      BitLenBound(x / 2, k - 1);
    }
  }

  lemma BitLenPositive(x: nat)
    requires x > 0
    ensures 1 <= BitLen(x)
    ensures x < 128 ==> BitLen(x) <= 7
    ensures x >= 128 ==> BitLen(x) == 7 + BitLen(x / 128)
  {
    Pow2Seven(0);
    if x < 128 {
      BitLenBound(x, 7);
    } else {
      BitLenSeven(x);
    }
  }

  /** The size formula counts exactly the bytes that are written. */
  lemma {:induction false} SizeIsLength(v: nat)
    ensures Size(v) == |Encode(v)|
    decreases v
  {
    var odd := if v % 2 == 0 then v + 1 else v;
    BitLenPositive(odd);
    if v >= 128 {
      SizeIsLength(v / 128);
      assert odd / 128 == v / 128;
      BitLenOdd(v / 128);
    }
  }

  lemma BitLenOdd(x: nat)
    requires x > 0
    ensures BitLen(if x % 2 == 0 then x + 1 else x) == BitLen(x)
  {
  }

  function Pow2(n: nat): (p: nat)
    ensures p >= 1
  {
    if n == 0 then 1 else 2 * Pow2(n - 1)
  }

  lemma {:induction false} Pow2Monotone(a: nat, b: nat)
    requires a <= b
    ensures Pow2(a) <= Pow2(b)
  {
    if a < b {
      Pow2Monotone(a, b - 1);
    }
  }

  lemma Pow2Seven(n: nat)
    ensures Pow2(n + 7) == 128 * Pow2(n)
  {
    assert Pow2(n + 7) == 2 * Pow2(n + 6) == 4 * Pow2(n + 5);
    assert Pow2(n + 5) == 2 * Pow2(n + 4) == 4 * Pow2(n + 3);
    assert Pow2(n + 3) == 2 * Pow2(n + 2) == 4 * Pow2(n + 1) == 8 * Pow2(n);
  }

  lemma Pow2Of64()
    ensures Pow2(64) == TWO64
  {
    assert Pow2(8) == 256;
    Pow2Seven(1); Pow2Seven(8); Pow2Seven(15); Pow2Seven(22); Pow2Seven(29);
    Pow2Seven(36); Pow2Seven(43); Pow2Seven(50); Pow2Seven(57);
    assert Pow2(1) == 2;
  }

  /**
   * The read loop: a tenth continuation is an overflow, missing bytes end the input, and bits
   * above the 64th are dropped.  The groups of seven bits are disjoint, so or-ing them is adding.
   */
  function Read(d: seq<byte>, i: nat, shift: nat, acc: uint64): (r: Result<(uint64, nat), Error>)
    ensures r.Success? ==> i < r.value.1 <= |d|
    decreases |d| - i
  {
    if shift >= 64 then Failure(IntOverflow)
    else if i >= |d| then Failure(UnexpectedEOF)
    else
      var acc' := Wrap(acc + d[i] % 128 * Pow2(shift));
      if d[i] < 128 then Success((acc', i + 1)) else Read(d, i + 1, shift + 7, acc')
  }

  /** `e` stands at position `i` of `d`. */
  predicate At(d: seq<byte>, i: nat, e: seq<byte>) {
    i + |e| <= |d| && d[i..i + |e|] == e
  }

  lemma AtConcat(d: seq<byte>, i: nat, a: seq<byte>, b: seq<byte>)
    ensures At(d, i, a + b) <==> At(d, i, a) && At(d, i + |a|, b)
  {
    if i + |a| + |b| <= |d| {
      var w := d[i..i + |a| + |b|];
      assert w[..|a|] == d[i..i + |a|] && w[|a|..] == d[i + |a|..i + |a| + |b|];
      assert w == w[..|a|] + w[|a|..];
      assert (a + b)[..|a|] == a && (a + b)[|a|..] == b;
    }
  }

  lemma AtHead(d: seq<byte>, i: nat, e: seq<byte>)
    requires At(d, i, e) && e != []
    ensures i < |d| && d[i] == e[0]
  {
    assert d[i..i + |e|][0] == d[i];
  }

  /** The shift stays below 64 as long as bits remain to be read. */
  lemma NextShift(v: nat, shift: nat)
    requires v >= 128 && v * Pow2(shift) < TWO64
    ensures shift + 7 < 64
    ensures v % 128 * Pow2(shift) + v / 128 * Pow2(shift + 7) == v * Pow2(shift)
    ensures 0 <= v % 128 * Pow2(shift) <= v * Pow2(shift)
  {
    var p := Pow2(shift);
    Pow2Seven(shift);
    assert v == v / 128 * 128 + v % 128;
    assert v % 128 * p + v / 128 * (128 * p) == (v % 128 + v / 128 * 128) * p;
    MulMonotone(128, v, p);
    MulMonotone(0, v / 128, 128 * p);
    Pow2Of64();
    if shift + 7 >= 64 {
      Pow2Monotone(64, shift + 7);
    }
  }

  lemma {:induction false} ReadEncodedFrom(d: seq<byte>, i: nat, v: nat, shift: nat, acc: uint64)
    requires At(d, i, Encode(v)) && shift < 64 && acc + v * Pow2(shift) < TWO64
    ensures Read(d, i, shift, acc) == Success((acc + v * Pow2(shift), i + |Encode(v)|))
    decreases v
  {
    hide Pow2, At, Encode;
    EncodeUnfold(v);
    AtHead(d, i, Encode(v));
    if v >= 128 {
      NextShift(v, shift);
      assert Encode(v) == [v % 128 + 128] + Encode(v / 128);
      AtConcat(d, i, [v % 128 + 128], Encode(v / 128));
      assert d[i] % 128 == v % 128;
      ReadEncodedFrom(d, i + 1, v / 128, shift + 7, acc + v % 128 * Pow2(shift));
    }
  }

  /** Reading a written uint64 gives it back and stops right behind it. */
  lemma ReadEncoded(d: seq<byte>, i: nat, v: uint64)
    requires At(d, i, Encode(v))
    ensures Read(d, i, 0, 0) == Success((v, i + |Encode(v)|))
  {
    ReadEncodedFrom(d, i, v, 0, 0);
  }

  lemma {:induction false} EncodeBounded(v: nat, n: nat)
    requires n >= 1 && v < Pow2(7 * n)
    ensures |Encode(v)| <= n
    decreases n
  {
    if v >= 128 {
      if n == 1 {
        Pow2Seven(0);
      } else {
        Pow2Seven(7 * n - 7);
        EncodeBounded(v / 128, n - 1);
      }
    }
  }

  /** A uint64 takes at most ten bytes. */
  lemma EncodeShort(v: uint64)
    ensures 1 <= |Encode(v)| <= 10
  {
    Pow2Of64();
    Pow2Monotone(64, 70);
    EncodeBounded(v, 10);
  }

  /** From position i on, the code is the encoding of what is left. */
  ghost predicate Remaining(code: seq<byte>, i: int, rest: int) {
    0 <= i < |code| && 0 <= rest && code[i..] == Encode(rest)
  }

  /** The low seven bits with the continuation bit set, and the bits above them. */
  function LowBits(v: nat): byte {
    v % 128 + 128
  }

  function HighBits(v: nat): nat {
    v / 128
  }

  lemma RemainingStep(code: seq<byte>, i: int, rest: int)
    requires Remaining(code, i, rest)
    ensures 0 <= i < |code| && 0 <= rest
    ensures rest >= 128 ==> code[i] == LowBits(rest) && Remaining(code, i + 1, HighBits(rest)) && HighBits(rest) < rest
    ensures rest < 128 ==> code[i] == rest && i + 1 == |code|
  {
    EncodeUnfold(rest);
    EncodeUnfold(rest / 128);
    assert code[i] == code[i..][0] && code[i..][1..] == code[i + 1..];
  }

  /** The first i bytes of the code stand at `base`; every other byte is as it was. */
  ghost predicate Written(was: seq<byte>, now: seq<byte>, base: int, code: seq<byte>, i: int) {
    && |now| == |was| && 0 <= base && 0 <= i <= |code| && base + |code| <= |was|
    && (forall k :: 0 <= k < |was| && !(base <= k < base + |code|) ==> now[k] == was[k])
    && (forall k :: 0 <= k < i ==> now[base + k] == code[k])
  }

  lemma WriteNext(was: seq<byte>, now: seq<byte>, base: int, code: seq<byte>, i: int)
    requires Written(was, now, base, code, i) && i < |code|
    ensures 0 <= base + i < |now| && Written(was, now[base + i := code[i]], base, code, i + 1)
  {
  }

  lemma WrittenAll(was: seq<byte>, now: seq<byte>, base: int, code: seq<byte>)
    requires Written(was, now, base, code, |code|)
    ensures |now| == |was| && now[base..base + |code|] == code
    ensures forall k :: (0 <= k < base || base + |code| <= k < |was|) ==> now[k] == was[k]
  {
  }

  /** Fills reserved bytes forward, seven bits at a time. */
  method FillVarint(buf: array<byte>, base: nat, v: uint64, ghost code: seq<byte>)
    requires Remaining(code, 0, v) && Written(buf[..], buf[..], base, code, 0)
    modifies buf
    ensures Written(old(buf[..]), buf[..], base, code, |code|)
  {
    hide *;
    var at, rest: int := base, v;
    ghost var was, i := buf[..], 0;
    while rest >= 128
      invariant at == base + i && Remaining(code, i, rest) && Written(was, buf[..], base, code, i)
      decreases rest
    {
      RemainingStep(code, i, rest);
      WriteNext(was, buf[..], base, code, i);
      ghost var next := buf[..][at := code[i]];
      buf[at] := LowBits(rest);
      assert buf[..] == next;
      rest := HighBits(rest);
      at, i := at + 1, i + 1;
    }
    RemainingStep(code, i, rest);
    WriteNext(was, buf[..], base, code, i);
    ghost var next := buf[..][at := code[i]];
    buf[at] := rest;
    assert buf[..] == next;
  }

  /** encodeVarint: reserves the bytes before `offset`, then fills them. */
  method EncodeVarint(buf: array<byte>, offset: nat, v: uint64) returns (base: nat)
    requires |Encode(v)| <= offset <= buf.Length
    modifies buf
    ensures base == offset - |Encode(v)|
    ensures forall k :: (0 <= k < base || offset <= k < buf.Length) ==> buf[k] == old(buf[k])
    ensures buf[base..offset] == Encode(v)
  {
    SizeIsLength(v);
    EncodeUnfold(v);
    base := offset - Size(v);
    ghost var was := buf[..];
    FillVarint(buf, base, v, Encode(v));
    hide Written, Size, Encode;
    WrittenAll(was, buf[..], base, Encode(v));
    assert forall k :: 0 <= k < buf.Length ==> was[k] == old(buf[k]) && buf[..][k] == buf[k];
  }

  method ReadVarint(d: seq<byte>, start: nat) returns (r: Result<(uint64, nat), Error>)
    ensures r == Read(d, start, 0, 0)
  {
    var i, shift, acc := start, 0, 0 as uint64;
    while true
      invariant Read(d, start, 0, 0) == Read(d, i, shift, acc)
      decreases |d| - i
    {
      if shift >= 64 {
        return Failure(IntOverflow);
      }
      if i >= |d| {
        return Failure(UnexpectedEOF);
      }
      var b := d[i];
      i := i + 1;
      acc := Wrap(acc as int + b % 128 * Pow2(shift));
      if b < 128 {
        return Success((acc, i));
      }
      shift := shift + 7;
    }
  }
}
