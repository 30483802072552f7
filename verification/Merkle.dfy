/** The per-epoch digest over content hashes: sorted, concatenated, hashed. */
module Merkle {
  import opened Numbers
  import opened Wrappers
  import Lex

  type Hash = seq<byte>

  const CONTENT_HASH_LEN := 32

  function Order(h: Hash): seq<int> {
    h
  }

  function Concat(hs: seq<Hash>): seq<byte> {
    if hs == [] then [] else hs[0] + Concat(hs[1..])
  }

  function PreImage(hs: seq<Hash>): seq<byte> {
    Concat(Lex.Sort(Order, hs))
  }

  /** No hashes, no root. */
  function Root(sha256: seq<byte> -> seq<byte>, hs: seq<Hash>): Option<seq<byte>> {
    if hs == [] then None else Some(sha256(PreImage(hs)))
  }

  predicate FixedWidth(hs: seq<Hash>) {
    forall i :: 0 <= i < |hs| ==> |hs[i]| == CONTENT_HASH_LEN
  }

  /** The pre-image does not depend on the order of the hashes. */
  lemma PreImagePermutation(xs: seq<Hash>, ys: seq<Hash>)
    requires multiset(xs) == multiset(ys)
    ensures PreImage(xs) == PreImage(ys)
  {
    Lex.SortCorrect(Order, xs);
    Lex.SortCorrect(Order, ys);
    Lex.SortedUnique(Order, Lex.Sort(Order, xs), Lex.Sort(Order, ys));
  }

  lemma {:induction false} ConcatLength(hs: seq<Hash>)
    requires FixedWidth(hs)
    ensures |Concat(hs)| == CONTENT_HASH_LEN * |hs|
  {
    if hs != [] {
      ConcatLength(hs[1..]);
    }
  }

  /** Fixed-width chunks can be read back from their concatenation. */
  lemma {:induction false} ChunksUnique(xs: seq<Hash>, ys: seq<Hash>)
    requires FixedWidth(xs) && FixedWidth(ys) && Concat(xs) == Concat(ys)
    ensures xs == ys
  {
    ConcatLength(xs);
    ConcatLength(ys);
    if xs != [] {
      assert xs[0] == Concat(xs)[..CONTENT_HASH_LEN] == Concat(ys)[..CONTENT_HASH_LEN] == ys[0];
      assert Concat(xs[1..]) == Concat(xs)[CONTENT_HASH_LEN..] == Concat(ys)[CONTENT_HASH_LEN..] == Concat(ys[1..]);
      ChunksUnique(xs[1..], ys[1..]);
      assert xs == [xs[0]] + xs[1..] && ys == [ys[0]] + ys[1..];
    }
  }

  lemma SortKeepsWidth(hs: seq<Hash>)
    requires FixedWidth(hs)
    ensures FixedWidth(Lex.Sort(Order, hs))
  {
    var sorted := Lex.Sort(Order, hs);
    Lex.SortCorrect(Order, hs);
    forall i | 0 <= i < |sorted| ensures |sorted[i]| == CONTENT_HASH_LEN {
      assert sorted[i] in multiset(sorted);
      assert sorted[i] in hs;
    }
  }

  /** Two lists of content hashes have one pre-image exactly when they hold the same hashes equally often. */
  lemma PreImageCanonical(xs: seq<Hash>, ys: seq<Hash>)
    requires FixedWidth(xs) && FixedWidth(ys)
    ensures PreImage(xs) == PreImage(ys) <==> multiset(xs) == multiset(ys)
  {
    if multiset(xs) == multiset(ys) {
      PreImagePermutation(xs, ys);
    } else if PreImage(xs) == PreImage(ys) {
      SortKeepsWidth(xs);
      SortKeepsWidth(ys);
      ChunksUnique(Lex.Sort(Order, xs), Lex.Sort(Order, ys));
      Lex.SortCorrect(Order, xs);
      Lex.SortCorrect(Order, ys);
    }
  }

  /** Ascending byte by byte: at the first difference the earlier hash has the smaller byte. */
  predicate AscendsByBytes(hs: seq<Hash>) {
    forall i, j, k :: 0 <= i < j < |hs| && 0 <= k < |hs[i]| && k < |hs[j]| && hs[i][..k] == hs[j][..k] ==> hs[i][k] <= hs[j][k]
  }

  lemma {:induction false} BelowByBytes(a: Hash, b: Hash)
    requires |a| == |b| && forall k :: 0 <= k < |a| && a[..k] == b[..k] ==> a[k] <= b[k]
    ensures Lex.Le(a, b)
  {
    if a != [] {
      assert a[..0] == b[..0] == [];
      if a[0] == b[0] {
        forall k | 0 <= k < |a| - 1 && a[1..][..k] == b[1..][..k] ensures a[1..][k] <= b[1..][k] {
          assert a[..k + 1] == [a[0]] + a[1..][..k] && b[..k + 1] == [b[0]] + b[1..][..k];
        }
        BelowByBytes(a[1..], b[1..]);
      }
    }
  }

  lemma {:induction false} ChunkAt(hs: seq<Hash>, i: nat)
    requires FixedWidth(hs) && i < |hs|
    ensures 32 * i + 32 <= |Concat(hs)| && Concat(hs)[32 * i..32 * i + 32] == hs[i]
  {
    ConcatLength(hs);
    if i > 0 {
      ChunkAt(hs[1..], i - 1);
      assert Concat(hs)[32 * i..32 * i + 32] == Concat(hs[1..])[32 * (i - 1)..32 * (i - 1) + 32];
    }
  }

  /** The pre-image of hashes lists them, 32 bytes each, in ascending order. */
  lemma PreImageAscends(hs: seq<Hash>, t: seq<Hash>, i: nat)
    requires FixedWidth(hs) && multiset(t) == multiset(hs) && AscendsByBytes(t) && i < |hs|
    ensures |t| == |hs| && 32 * i + 32 <= |PreImage(hs)| && PreImage(hs)[32 * i..32 * i + 32] == t[i]
  {
    assert |t| == |multiset(t)| == |multiset(hs)| == |hs|;
    forall j | 0 <= j < |t| ensures |t[j]| == CONTENT_HASH_LEN {
      assert t[j] in multiset(t);
      assert t[j] in hs;
    }
    Lex.SortCorrect(Order, hs);
    forall j, k | 0 <= j < k < |t| ensures Lex.Le(Order(t[j]), Order(t[k])) {
      BelowByBytes(t[j], t[k]);
    }
    Lex.SortedUnique(Order, t, Lex.Sort(Order, hs));
    ChunkAt(t, i);
  }

  /** Equal roots of different contents are a collision of the hash function. */
  lemma RootCollision(sha256: seq<byte> -> seq<byte>, xs: seq<Hash>, ys: seq<Hash>)
    requires FixedWidth(xs) && FixedWidth(ys)
    ensures multiset(xs) == multiset(ys) ==> Root(sha256, xs) == Root(sha256, ys)
    ensures Root(sha256, xs) == Root(sha256, ys) && multiset(xs) != multiset(ys) ==>
              PreImage(xs) != PreImage(ys) && sha256(PreImage(xs)) == sha256(PreImage(ys))
  {
    PreImageCanonical(xs, ys);
    assert |xs| == |multiset(xs)| && |ys| == |multiset(ys)|;
  }

  /** Sorts the caller's slice in place, then concatenates and hashes it. */
  method ComputeMerkleRoot(sha256: seq<byte> -> seq<byte>, contentHashes: array<Hash>) returns (root: Option<seq<byte>>)
    modifies contentHashes
    ensures root == Root(sha256, old(contentHashes[..]))
    ensures contentHashes[..] == Lex.Sort(Order, old(contentHashes[..]))
  {
    if contentHashes.Length == 0 {
      return None;
    }
    SortSlice(contentHashes);
    ghost var sorted := contentHashes[..];
    var concatenated: seq<byte> := [];
    for i := 0 to contentHashes.Length
      invariant contentHashes[..] == sorted && concatenated + Concat(sorted[i..]) == Concat(sorted)
    {
      assert sorted[i..][0] == contentHashes[i] && sorted[i..][1..] == sorted[i + 1..];
      concatenated := concatenated + contentHashes[i];
    }
    assert sorted[|sorted|..] == [] && concatenated + [] == concatenated;
    return Some(sha256(concatenated));
  }

  /** What slices.SortFunc leaves in the slice; lexicographic order on bytes admits one result only. */
  method SortSlice(hs: array<Hash>)
    modifies hs
    ensures hs[..] == Lex.Sort(Order, old(hs[..]))
  {
    var sorted := Lex.Sort(Order, hs[..]);
    hide Lex.Sort, Lex.SortedBy;
    SortLength(hs[..]);
    forall i | 0 <= i < hs.Length {
      hs[i] := sorted[i];
    }
    assert hs[..] == sorted;
  }

  lemma SortLength(hs: seq<Hash>)
    ensures |Lex.Sort(Order, hs)| == |hs|
  {
    Lex.SortCorrect(Order, hs);
    assert |Lex.Sort(Order, hs)| == |multiset(Lex.Sort(Order, hs))| == |multiset(hs)|;
  }
}
