/** The expiry sweep in closed form: what it does, when it gets stuck, and that repeating it does nothing. */
module Expiry {
  import opened Numbers
  import opened Wrappers
  import opened Memory
  import Lex

  /** Every record is stored under its own organisation and hash. */
  ghost predicate WellKeyed(s: State) {
    && (forall k :: k in s.approved ==> k == (s.approved[k].org, s.approved[k].hash))
    && (forall k :: k in s.pending ==> k == (s.pending[k].org, s.pending[k].hash))
  }

  /** One of the entries speaks of this memory. */
  ghost predicate Targeted(done: set<string>, entries: map<string, Validity>, k: Key) {
    exists e :: e in done && e in entries && DecodeCid(entries[e].cid).Some? && TargetOf(entries[e]) == k
  }

  /** The entries are gone and their memories archived; nothing else moved. */
  ghost function Swept(s: State, done: set<string>, entries: map<string, Validity>): State {
    s.(validity := s.validity - done,
       approved := map k | k in s.approved :: if Targeted(done, entries, k) then Archive(s.approved[k]) else s.approved[k])
  }

  lemma ArchiveTwice(c: Commitment)
    ensures Archive(Archive(c)) == Archive(c)
    ensures Archive(c).org == c.org && Archive(c).hash == c.hash
  {
  }

  lemma ExpireOneEffect(s: State, key: string, entries: map<string, Validity>)
    requires WellKeyed(s) && key in entries && Resolves(s, entries[key])
    ensures ExpireOne(s, key, entries[key]) == Swept(s, {key}, entries)
    ensures WellKeyed(Swept(s, {key}, entries))
  {
    var one, all := ExpireOne(s, key, entries[key]), Swept(s, {key}, entries);
    assert Targeted({key}, entries, TargetOf(entries[key]));
    assert one.approved == all.approved;
  }

  lemma TargetedUnion(first: set<string>, rest: set<string>, entries: map<string, Validity>, k: Key)
    ensures Targeted(first + rest, entries, k) <==> Targeted(first, entries, k) || Targeted(rest, entries, k)
  {
  }

  lemma SweptTwice(s: State, first: set<string>, rest: set<string>, entries: map<string, Validity>)
    ensures Swept(Swept(s, first, entries), rest, entries) == Swept(s, first + rest, entries)
  {
    hide Archive, Targeted;
    var twice, once := Swept(Swept(s, first, entries), rest, entries), Swept(s, first + rest, entries);
    assert twice.validity == once.validity;
    forall k | k in s.approved ensures twice.approved[k] == once.approved[k] {
      ArchiveTwice(s.approved[k]);
      TargetedUnion(first, rest, entries, k);
    }
    assert twice.approved == once.approved;
  }

  lemma SweptNone(s: State, entries: map<string, Validity>)
    ensures Swept(s, {}, entries) == s
  {
    assert Swept(s, {}, entries).approved == s.approved;
    assert s.validity - {} == s.validity;
  }

  lemma SweptResolves(s: State, done: set<string>, entries: map<string, Validity>, v: Validity)
    ensures Resolves(Swept(s, done, entries), v) <==> Resolves(s, v)
  {
  }

  function Elements(keys: seq<string>): set<string> {
    set k | k in keys
  }

  /** The fold handles a prefix of the entries, in any order, and stops exactly before the first unresolved one. */
  lemma {:induction false} ExpireAllEffect(s: State, keys: seq<string>, entries: map<string, Validity>) returns (n: nat)
    requires WellKeyed(s) && forall k :: k in keys ==> k in entries
    ensures n <= |keys| && (forall i :: 0 <= i < n ==> Resolves(s, entries[keys[i]]))
    ensures n < |keys| ==> !Resolves(s, entries[keys[n]])
    ensures ExpireAll(s, keys, entries) == (Swept(s, Elements(keys[..n]), entries), n == |keys|)
    decreases keys
  {
    hide Resolves, Swept, ExpireOne, WellKeyed;
    if keys == [] || !Resolves(s, entries[keys[0]]) {
      n := 0;
      assert Elements(keys[..0]) == {};
      SweptNone(s, entries);
    } else {
      ExpireOneEffect(s, keys[0], entries);
      var next := Swept(s, {keys[0]}, entries);
      var m := ExpireAllEffect(next, keys[1..], entries);
      n := m + 1;
      forall i | 0 < i < |keys|
        ensures keys[i] == keys[1..][i - 1] && (Resolves(next, entries[keys[i]]) <==> Resolves(s, entries[keys[i]]))
      {
        SweptResolves(s, {keys[0]}, entries, entries[keys[i]]);
      }
      SweptTwice(s, {keys[0]}, Elements(keys[1..][..m]), entries);
      assert keys[..n] == [keys[0]] + keys[1..][..m];
      assert Elements(keys[..n]) == {keys[0]} + Elements(keys[1..][..m]);
    }
  }

  lemma SweepEffect(s: State, epoch: uint64) returns (keys: seq<string>, n: nat)
    requires WellKeyed(s)
    ensures keys == Lex.Ordered(ExpiredKeys(s, epoch)) && n <= |keys| == |ExpiredKeys(s, epoch)|
    ensures Lex.Distinct(keys) && Lex.SortedBy(Lex.Codes, keys) && forall k :: k in keys <==> k in ExpiredKeys(s, epoch)
    ensures forall i :: 0 <= i < |keys| ==> keys[i] in s.validity
    ensures forall i :: 0 <= i < n ==> Resolves(s, s.validity[keys[i]])
    ensures n < |keys| ==> !Resolves(s, s.validity[keys[n]])
    ensures Sweep(s, epoch) == (Swept(s, Elements(keys[..n]), s.validity), n == |keys|)
  {
    keys := Lex.Ordered(ExpiredKeys(s, epoch));
    Lex.OrderedLists(ExpiredKeys(s, epoch));
    n := ExpireAllEffect(s, keys, s.validity);
  }

  /** The sweep succeeds exactly when every expired entry has its memory, and then handles them all. */
  lemma SweepSucceedsIff(s: State, epoch: uint64)
    requires WellKeyed(s)
    ensures Sweep(s, epoch).1 <==> forall k :: k in ExpiredKeys(s, epoch) ==> Resolves(s, s.validity[k])
    ensures Sweep(s, epoch).1 ==> Sweep(s, epoch).0 == Swept(s, ExpiredKeys(s, epoch), s.validity)
  {
    hide Swept, Sweep, Resolves, WellKeyed;
    var keys, n := SweepEffect(s, epoch);
    if n == |keys| {
      assert keys[..n] == keys;
      assert Elements(keys) == ExpiredKeys(s, epoch);
    } else {
      assert keys[n] in ExpiredKeys(s, epoch);
    }
  }

  /** A sweep that fails is stuck at the lowest expired entry without a memory; entries above it wait. */
  lemma SweepStopsAt(s: State, epoch: uint64) returns (stuck: string, done: set<string>)
    requires WellKeyed(s) && !Sweep(s, epoch).1
    ensures stuck in ExpiredKeys(s, epoch) && !Resolves(s, s.validity[stuck])
    ensures done == set k | k in ExpiredKeys(s, epoch) && k != stuck && Lex.Le(Lex.Codes(k), Lex.Codes(stuck))
    ensures forall k :: k in done ==> Resolves(s, s.validity[k])
    ensures Sweep(s, epoch).0 == Swept(s, done, s.validity)
  {
    hide Swept, Sweep, Resolves, WellKeyed;
    var keys, n := SweepEffect(s, epoch);
    stuck := keys[n];
    done := Elements(keys[..n]);
    forall k | k in ExpiredKeys(s, epoch)
      ensures k in done <==> k != stuck && Lex.Le(Lex.Codes(k), Lex.Codes(stuck))
    {
      var i :| 0 <= i < |keys| && keys[i] == k;
      if i > n && Lex.Le(Lex.Codes(k), Lex.Codes(stuck)) {
        Lex.LeAntisymmetric(Lex.Codes(k), Lex.Codes(stuck));
        Lex.CodesInjective(k, stuck);
      }
      assert i < n ==> keys[..n][i] == k;
    }
  }

  /** After a successful sweep nothing expired is left, its memories are archived unless denied, the rest is untouched. */
  lemma SweepRetires(s: State, epoch: uint64)
    requires WellKeyed(s) && Sweep(s, epoch).1
    ensures var after := Sweep(s, epoch).0;
            && (forall e :: e in after.validity <==> e in s.validity && !(0 < s.validity[e].until < epoch))
            && (forall e :: e in after.validity ==> after.validity[e] == s.validity[e])
            && (forall e :: e in s.validity && 0 < s.validity[e].until < epoch ==>
                  && Resolves(s, s.validity[e]) && Resolves(after, s.validity[e])
                  && var c := s.approved[TargetOf(s.validity[e])];
                     after.approved[TargetOf(s.validity[e])] == c.(state := if c.state == Denied then Denied else Archived))
            && after.approved.Keys == s.approved.Keys
            && (forall k :: k in s.approved && !Targeted(ExpiredKeys(s, epoch), s.validity, k) ==>
                  after.approved[k] == s.approved[k])
            && after == s.(validity := after.validity, approved := after.approved)
  {
    hide Sweep;
    SweepSucceedsIff(s, epoch);
    var after := Sweep(s, epoch).0;
    forall e | e in s.validity && Expired(s.validity[e], epoch)
      ensures Resolves(s, s.validity[e]) && Resolves(after, s.validity[e])
      ensures var c := s.approved[TargetOf(s.validity[e])];
              after.approved[TargetOf(s.validity[e])] == c.(state := if c.state == Denied then Denied else Archived)
    {
      assert e in ExpiredKeys(s, epoch);
      assert Targeted(ExpiredKeys(s, epoch), s.validity, TargetOf(s.validity[e]));
    }
  }

  /** An entry makes its memory valid exactly from `after` on and, unless it is 0, up to `until`. */
  lemma ValidityWindow(validity: map<string, Validity>, key: string, epoch: uint64)
    ensures ValidIn(validity, key, epoch) <==>
            key !in validity || (validity[key].after <= epoch && (validity[key].until == 0 || epoch <= validity[key].until))
  {
  }

  /**
   * Expiry does not make a memory invalid: sweeping an entry at an epoch turns its validity in that
   * epoch from false to true, and changes nobody else's in any epoch.
   */
  lemma SweepRevives(s: State, epoch: uint64, key: string, at: uint64)
    requires WellKeyed(s) && Sweep(s, epoch).1
    ensures var after := Sweep(s, epoch).0.validity;
            && (key in ExpiredKeys(s, epoch) ==> !ValidIn(s.validity, key, epoch) && ValidIn(after, key, at))
            && (key !in ExpiredKeys(s, epoch) ==> (ValidIn(after, key, at) <==> ValidIn(s.validity, key, at)))
  {
    hide Sweep, Resolves, Targeted;
    SweepRetires(s, epoch);
  }

  lemma SweptKeepsKeys(s: State, done: set<string>, entries: map<string, Validity>)
    requires WellKeyed(s)
    ensures WellKeyed(Swept(s, done, entries))
    ensures Swept(s, done, entries).validity == s.validity - done
  {
  }

  /** Repeating a sweep changes nothing, and a sweep that got stuck stays stuck. */
  lemma SweepAgain(s: State, epoch: uint64)
    requires WellKeyed(s)
    ensures Sweep(Sweep(s, epoch).0, epoch) == Sweep(s, epoch)
  {
    hide Swept, Sweep, WellKeyed, Resolves;
    var after := Sweep(s, epoch).0;
    if Sweep(s, epoch).1 {
      SweepSucceedsIff(s, epoch);
      SweptKeepsKeys(s, ExpiredKeys(s, epoch), s.validity);
      var keys, n := SweepEffect(after, epoch);
      assert ExpiredKeys(after, epoch) == {};
      assert |keys| == 0;
      assert Elements(keys[..n]) == {};
      SweptNone(after, after.validity);
    } else {
      var stuck, done := SweepStopsAt(s, epoch);
      SweptKeepsKeys(s, done, s.validity);
      var keys, n := SweepEffect(after, epoch);
      assert stuck in keys;
      Lex.HeadBelow(Lex.Codes, keys, stuck);
      assert keys[0] in ExpiredKeys(after, epoch);
      assert keys[0] in ExpiredKeys(s, epoch) && keys[0] !in done;
      assert keys[0] == stuck;
      SweptResolves(s, done, s.validity, s.validity[stuck]);
      assert Elements(keys[..n]) == {};
      SweptNone(after, after.validity);
    }
  }

  lemma NothingExpires(s: State, epoch: uint64)
    requires s.validity == map[]
    ensures EpochEnd(s, epoch) == s.(epoch := epoch)
  {
    Lex.OrderedLists(ExpiredKeys(s, epoch));
    assert ExpiredKeys(s.(epoch := epoch), epoch) == {} == ExpiredKeys(s, epoch);
    assert Lex.Ordered({}) == [];
  }
}
