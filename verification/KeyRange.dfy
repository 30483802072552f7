/** Turning a key prefix into a half-open range of the store's byte order. */
module KeyRange {
  import opened Numbers
  import opened Wrappers
  import Lex

  type Key = seq<byte>

  /** prefixEndBytes: the prefix plus one as a big-endian number, carries leaving zeros; None is unbounded. */
  function End(p: Key): Option<Key> {
    if p == [] then None
    else if p[|p| - 1] < 255 then Some(p[..|p| - 1] + [p[|p| - 1] + 1])
    else
      match End(p[..|p| - 1])
      case None => None
      case Some(e) => Some(e + [0])
  }

  /** A store iterator over [start, end) visits k. */
  predicate InRange(k: Key, start: Key, end: Option<Key>) {
    Lex.Le(start, k) && (end.Some? ==> !Lex.Le(end.value, k))
  }

  ghost predicate ExactScan(p: Key) {
    forall k: Key :: InRange(k, p, End(p)) <==> p <= k
  }

  predicate AllOnes(p: Key) {
    forall i :: 0 <= i < |p| ==> p[i] == 255
  }

  lemma {:induction false} LePrefix(p: Key, k: Key)
    requires p <= k
    ensures Lex.Le(p, k)
  {
    if p != [] {
      LePrefix(p[1..], k[1..]);
    }
  }

  /** With a last byte below 0xFF, exactly the keys starting with the prefix lie in the range. */
  lemma {:induction false} ScanOf(head: Key, b: byte, k: Key)
    requires b < 255
    ensures Lex.Le(head + [b], k) && !Lex.Le(head + [b + 1], k) <==> head + [b] <= k
    decreases head
  {
    if head == [] {
      assert [b][1..] == [] && [b + 1][1..] == [] && head + [b] == [b] && head + [b + 1] == [b + 1];
      if k != [] && k[0] == b {
        assert k == [b] + k[1..];
      }
    } else {
      assert (head + [b])[1..] == head[1..] + [b] && (head + [b + 1])[1..] == head[1..] + [b + 1];
      if k != [] {
        ScanOf(head[1..], b, k[1..]);
        assert k == [k[0]] + k[1..];
        assert head + [b] == [head[0]] + (head[1..] + [b]);
      }
    }
  }

  lemma {:induction false} AllOnesIsLast(p: Key, k: Key)
    requires AllOnes(p) && Lex.Le(p, k)
    ensures p <= k
  {
    if p != [] {
      AllOnesIsLast(p[1..], k[1..]);
      assert p == [p[0]] + p[1..] && k == [k[0]] + k[1..];
    }
  }

  lemma {:induction false} EndOfAllOnes(p: Key)
    ensures End(p).None? <==> AllOnes(p)
  {
    if p != [] {
      EndOfAllOnes(p[..|p| - 1]);
    }
  }

  /** The end bound without its last byte, when that byte is a carried zero, is a key above the prefix. */
  lemma {:induction false} CarriedEnd(p: Key)
    requires End(p).Some?
    ensures Lex.Le(p, End(p).value) && |End(p).value| == |p| && End(p).value != p
    ensures p[|p| - 1] == 255 ==> Lex.Le(p, End(p[..|p| - 1]).value)
    ensures p[|p| - 1] == 255 ==> !(p <= End(p[..|p| - 1]).value)
  {
    var head := p[..|p| - 1];
    assert p == head + [p[|p| - 1]];
    if p[|p| - 1] < 255 {
      LeWithin(head, [p[|p| - 1]], [p[|p| - 1] + 1]);
    } else {
      CarriedEnd(head);
      LeExtendRight(head, End(head).value, [255], []);
      LeExtendRight(head, End(head).value, [255], [0]);
      assert End(head).value + [] == End(head).value;
    }
  }

  lemma {:induction false} LeWithin(head: Key, a: Key, b: Key)
    requires Lex.Le(a, b)
    ensures Lex.Le(head + a, head + b)
  {
    if head == [] {
      assert head + a == a && head + b == b;
    } else {
      LeWithin(head[1..], a, b);
      assert (head + a)[1..] == head[1..] + a && (head + b)[1..] == head[1..] + b;
    }
  }

  /** Two different keys of one length keep their order whatever is appended to either. */
  lemma {:induction false} LeExtendRight(a: Key, b: Key, x: Key, y: Key)
    requires Lex.Le(a, b) && |a| == |b| && a != b
    ensures Lex.Le(a + x, b + y)
    decreases a
  {
    if a[0] == b[0] {
      assert a == [a[0]] + a[1..] && b == [b[0]] + b[1..];
      LeExtendRight(a[1..], b[1..], x, y);
    }
    assert (a + x)[1..] == a[1..] + x && (b + y)[1..] == b[1..] + y;
  }

  lemma {:induction false} LeAppendZero(e: Key)
    ensures !Lex.Le(e + [0], e)
  {
    if e != [] {
      LeAppendZero(e[1..]);
      assert (e + [0])[1..] == e[1..] + [0];
    }
  }

  /**
   * The range scanned for a prefix is exactly the keys that start with it if and only if the prefix is
   * empty, does not end in 0xFF, or is 0xFF throughout: a carry leaves zero bytes in the end bound,
   * and the shorter key without them slips into the range.
   */
  lemma ExactScanIff(p: Key)
    ensures ExactScan(p) <==> p == [] || p[|p| - 1] != 255 || AllOnes(p)
  {
    EndOfAllOnes(p);
    if p == [] {
    } else if p[|p| - 1] != 255 {
      forall k: Key ensures InRange(k, p, End(p)) <==> p <= k {
        ScanOf(p[..|p| - 1], p[|p| - 1], k);
        assert p == p[..|p| - 1] + [p[|p| - 1]];
      }
    } else if AllOnes(p) {
      forall k: Key ensures InRange(k, p, End(p)) <==> p <= k {
        if p <= k {
          LePrefix(p, k);
        } else if Lex.Le(p, k) {
          AllOnesIsLast(p, k);
        }
      }
    } else {
      CarriedEnd(p);
      var stray := End(p[..|p| - 1]).value;
      LeAppendZero(stray);
      assert InRange(stray, p, End(p)) && !(p <= stray);
    }
  }

  /** The bytes up to i are the prefix's, the rest were carried to zero. */
  ghost predicate Carrying(prefix: Key, i: int, zeros: Key) {
    && -1 <= i < |prefix|
    && End(prefix) == match End(prefix[..i + 1]) case None => None case Some(e) => Some(e + zeros)
  }

  lemma CarryStart(prefix: Key)
    requires prefix != []
    ensures Carrying(prefix, |prefix| - 1, [])
    ensures prefix[..|prefix|] + [] == prefix
  {
    assert prefix[..|prefix|] == prefix;
    assert End(prefix).Some? ==> End(prefix).value + [] == End(prefix).value;
  }

  /** Incrementing byte i either ends the carry or turns one more byte to zero. */
  lemma CarryStep(prefix: Key, i: int, zeros: Key)
    requires Carrying(prefix, i, zeros) && i >= 0
    ensures var buf, b := prefix[..i + 1] + zeros, (prefix[i] as int + 1) % 256;
            && buf[i] == prefix[i]
            && (b != 0 ==> End(prefix) == Some(buf[i := b]))
            && (b == 0 ==> Carrying(prefix, i - 1, [0] + zeros) && buf[i := b] == prefix[..i] + ([0] + zeros))
  {
    var p, buf := prefix[..i + 1], prefix[..i + 1] + zeros;
    assert p[..|p| - 1] == prefix[..i];
    if prefix[i] == 255 {
      var carried := End(prefix[..i]);
      assert carried.Some? ==> carried.value + [0] + zeros == carried.value + ([0] + zeros);
      assert buf[i := 0] == prefix[..i] + ([0] + zeros);
    } else {
      assert buf[i := prefix[i] + 1] == prefix[..i] + [prefix[i] + 1] + zeros;
    }
  }

  /** The carry loop over a copied byte slice. */
  method PrefixEndBytes(prefix: seq<byte>) returns (end: Option<Key>)
    ensures end == End(prefix)
  {
    if |prefix| == 0 {
      return None;
    }
    var buf := new byte[|prefix|](i requires 0 <= i < |prefix| => prefix[i]);
    var i := |prefix| - 1;
    ghost var zeros: Key := [];
    CarryStart(prefix);
    assert buf[..] == prefix;
    while i >= 0
      invariant Carrying(prefix, i, zeros) && buf[..] == prefix[..i + 1] + zeros
      decreases i
    {
      CarryStep(prefix, i, zeros);
      ghost var before := buf[..];
      buf[i] := (buf[i] as int + 1) % 256;
      assert buf[..] == before[i := buf[i]];
      if buf[i] != 0 {
        return Some(buf[..]);
      }
      zeros := [0] + zeros;
      i := i - 1;
    }
    assert prefix[..0] == [];
    return None;
  }
}
