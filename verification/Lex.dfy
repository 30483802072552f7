/** Byte-wise lexicographic order and the sorted sequences it determines. */
module Lex {

  predicate Le(a: seq<int>, b: seq<int>) {
    a == [] || (b != [] && (a[0] < b[0] || (a[0] == b[0] && Le(a[1..], b[1..]))))
  }

  lemma {:induction false} LeTotal(a: seq<int>, b: seq<int>)
    ensures Le(a, b) || Le(b, a)
  {
    if a != [] && b != [] {
      LeTotal(a[1..], b[1..]);
    }
  }

  lemma {:induction false} LeAntisymmetric(a: seq<int>, b: seq<int>)
    requires Le(a, b) && Le(b, a)
    ensures a == b
  {
    if a != [] && b != [] {
      LeAntisymmetric(a[1..], b[1..]);
      assert a == [a[0]] + a[1..] && b == [b[0]] + b[1..];
    }
  }

  lemma {:induction false} LeTransitive(a: seq<int>, b: seq<int>, c: seq<int>)
    requires Le(a, b) && Le(b, c)
    ensures Le(a, c)
  {
    if a != [] && a[0] == b[0] == c[0] {
      LeTransitive(a[1..], b[1..], c[1..]);
    }
  }

  /** The character codes of a string: Go compares strings byte by byte. */
  function Codes(s: string): seq<int> {
    seq(|s|, i requires 0 <= i < |s| => s[i] as int)
  }

  lemma CodesInjective(s: string, t: string)
    requires Codes(s) == Codes(t)
    ensures s == t
  {
    assert |s| == |Codes(s)| == |Codes(t)| == |t|;
    forall i | 0 <= i < |s| ensures s[i] == t[i] {
      assert Codes(s)[i] == Codes(t)[i];
    }
  }

  ghost predicate Injective<T(!new)>(key: T -> seq<int>) {
    forall x, y :: key(x) == key(y) ==> x == y
  }

  predicate SortedBy<T>(key: T -> seq<int>, xs: seq<T>) {
    forall i, j :: 0 <= i < j < |xs| ==> Le(key(xs[i]), key(xs[j]))
  }

  function Insert<T>(key: T -> seq<int>, x: T, xs: seq<T>): seq<T> {
    if xs == [] || Le(key(x), key(xs[0])) then [x] + xs
    else [xs[0]] + Insert(key, x, xs[1..])
  }

  function Sort<T>(key: T -> seq<int>, xs: seq<T>): seq<T> {
    if xs == [] then [] else Insert(key, xs[0], Sort(key, xs[1..]))
  }

  lemma {:induction false} InsertSorted<T>(key: T -> seq<int>, x: T, xs: seq<T>)
    requires SortedBy(key, xs)
    ensures SortedBy(key, Insert(key, x, xs))
    ensures multiset(Insert(key, x, xs)) == multiset{x} + multiset(xs)
  {
    if xs == [] {
    } else if Le(key(x), key(xs[0])) {
      forall j | 0 <= j < |xs| ensures Le(key(x), key(xs[j])) {
        if j > 0 {
          LeTransitive(key(x), key(xs[0]), key(xs[j]));
        }
      }
    } else {
      var rest := Insert(key, x, xs[1..]);
      InsertSorted(key, x, xs[1..]);
      assert xs == [xs[0]] + xs[1..];
      LeTotal(key(x), key(xs[0]));
      forall j | 0 <= j < |rest| ensures Le(key(xs[0]), key(rest[j])) {
        assert rest[j] in multiset(rest);
        assert rest[j] == x || rest[j] in xs[1..];
      }
    }
  }

  /** Sorting permutes its input into ascending order. */
  lemma {:induction false} SortCorrect<T>(key: T -> seq<int>, xs: seq<T>)
    ensures SortedBy(key, Sort(key, xs)) && multiset(Sort(key, xs)) == multiset(xs)
  {
    if xs != [] {
      SortCorrect(key, xs[1..]);
      InsertSorted(key, xs[0], Sort(key, xs[1..]));
      assert xs == [xs[0]] + xs[1..];
    }
  }

  lemma {:induction false} LeReflexive(a: seq<int>)
    ensures Le(a, a)
  {
    LeTotal(a, a);
  }

  /** The head of an ascending sequence is below every element. */
  lemma HeadBelow<T>(key: T -> seq<int>, xs: seq<T>, x: T)
    requires xs != [] && SortedBy(key, xs) && x in multiset(xs)
    ensures Le(key(xs[0]), key(x))
  {
    var i :| 0 <= i < |xs| && xs[i] == x;
    LeReflexive(key(xs[0]));
  }

  lemma TailMultiset<T>(xs: seq<T>)
    requires xs != []
    ensures multiset(xs[1..]) == multiset(xs) - multiset{xs[0]}
  {
    assert xs == [xs[0]] + xs[1..];
  }

  /** A multiset has at most one ascending arrangement. */
  lemma {:induction false} SortedUnique<T(!new)>(key: T -> seq<int>, xs: seq<T>, ys: seq<T>)
    requires Injective(key)
    requires SortedBy(key, xs) && SortedBy(key, ys) && multiset(xs) == multiset(ys)
    ensures xs == ys
  {
    assert |xs| == |multiset(xs)| == |multiset(ys)| == |ys|;
    if xs != [] {
      assert xs[0] in multiset(xs) && ys[0] in multiset(ys);
      HeadBelow(key, ys, xs[0]);
      HeadBelow(key, xs, ys[0]);
      LeAntisymmetric(key(xs[0]), key(ys[0]));
      TailMultiset(xs);
      TailMultiset(ys);
      SortedUnique(key, xs[1..], ys[1..]);
      assert xs == [xs[0]] + xs[1..] && ys == [ys[0]] + ys[1..];
    }
  }

  // ----- listing a set in order -----

  predicate Distinct<T(==)>(q: seq<T>) {
    forall i, j :: 0 <= i < j < |q| ==> q[i] != q[j]
  }

  /** Any listing of a set; Go's map iteration order. */
  ghost function Listing(s: set<string>): (q: seq<string>)
    ensures multiset(q) == multiset(s)
  {
    if s == {} then []
    else
      var a :| a in s;
      [a] + Listing(s - {a})
  }

  /** The elements of a set in ascending order, as a store iterator meets them. */
  ghost function Ordered(s: set<string>): seq<string> {
    Sort(Codes, Listing(s))
  }

  lemma ListingDistinct(s: set<string>, q: seq<string>)
    requires multiset(q) == multiset(s)
    ensures Distinct(q) && (forall a :: a in q <==> a in s) && |q| == |s|
  {
    assert |q| == |multiset(q)| == |multiset(s)| == |s|;
    forall i, j | 0 <= i < j < |q| ensures q[i] != q[j] {
      assert q == q[..j] + [q[j]] + q[j + 1..];
      assert q[i] in multiset(q[..j]);
      assert multiset(q)[q[j]] <= 1;
    }
    forall a ensures a in q <==> a in s {
      assert a in multiset(q) <==> a in multiset(s);
    }
  }

  /** Ordering a set lists each element once. */
  lemma OrderedLists(s: set<string>)
    ensures var q := Ordered(s);
            Distinct(q) && SortedBy(Codes, q) && |q| == |s| && forall a :: a in q <==> a in s
  {
    SortCorrect(Codes, Listing(s));
    ListingDistinct(s, Ordered(s));
  }

  /** Whatever order a set was listed in, sorting the listing yields the same sequence. */
  lemma OrderedUnique(s: set<string>, q: seq<string>)
    requires multiset(q) == multiset(s)
    ensures Sort(Codes, q) == Ordered(s)
  {
    SortCorrect(Codes, q);
    SortCorrect(Codes, Listing(s));
    forall x, y | Codes(x) == Codes(y) ensures x == y {
      CodesInjective(x, y);
    }
    SortedUnique(Codes, Sort(Codes, q), Ordered(s));
  }

  lemma DistinctListing(s: set<string>, q: seq<string>)
    requires Distinct(q) && forall a :: a in q <==> a in s
    ensures multiset(q) == multiset(s)
  {
    forall a ensures multiset(q)[a] == multiset(s)[a] {
      if a in q {
        var i :| 0 <= i < |q| && q[i] == a;
        assert q == q[..i] + [a] + q[i + 1..];
        assert a !in q[..i] && a !in q[i + 1..];
        assert multiset(q)[a] == multiset(q[..i])[a] + 1 + multiset(q[i + 1..])[a];
      } else {
        assert a !in multiset(q);
      }
    }
  }

  /** An ascending sequence without repetitions is the ordering of its elements. */
  lemma OrderedIs(s: set<string>, q: seq<string>)
    requires Distinct(q) && SortedBy(Codes, q) && forall a :: a in q <==> a in s
    ensures q == Ordered(s)
  {
    DistinctListing(s, q);
    SortCorrect(Codes, Listing(s));
    forall x, y | Codes(x) == Codes(y) ensures x == y {
      CodesInjective(x, y);
    }
    SortedUnique(Codes, q, Ordered(s));
  }
}
