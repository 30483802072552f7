/** What crediting does to the decimal-text ledger: amounts, totals, and when it can fail. */
module RewardLedger {
  import opened Numbers
  import opened Wrappers
  import opened Emissions
  import Arith
  import Decimal
  import Lex
  import Tally

  predicate Readable(entries: map<string, string>) {
    forall a :: a in entries ==> Decimal.ParseUint(entries[a]).Some?
  }

  predicate LedgerReadable(l: Ledger) {
    Readable(l.pending) && Readable(l.lifetime)
  }

  function Amounts(entries: map<string, string>): map<string, nat>
    requires Readable(entries)
  {
    map a | a in entries :: Decimal.ParseUint(entries[a]).value
  }

  function Amount(entries: map<string, string>, a: string): nat
    requires Readable(entries)
  {
    Tally.Lookup(Amounts(entries), a)
  }

  ghost function Sum(entries: map<string, string>): nat
    requires Readable(entries)
  {
    Tally.Total(Amounts(entries))
  }

  /** Writing an amount as text changes that one amount, and the sum accordingly. */
  lemma SetAmount(entries: map<string, string>, a: string, v: uint64)
    requires Readable(entries)
    ensures var after := entries[a := Decimal.Format(v)];
            && Readable(after)
            && Sum(after) + Amount(entries, a) == Sum(entries) + v
            && forall b :: Amount(after, b) == if b == a then v else Amount(entries, b)
  {
    Decimal.ParseFormat(v);
    assert Amounts(entries[a := Decimal.Format(v)]) == Amounts(entries)[a := v];
    Tally.TotalUpdate(Amounts(entries), a, v);
  }

  /** Adding to an entry of a readable ledger with room adds exactly that amount. */
  lemma AddTextAmount(entries: map<string, string>, a: string, v: uint64)
    requires Readable(entries) && Sum(entries) + v < TWO64
    ensures AddText(entries, a, v).Some?
    ensures var after := AddText(entries, a, v).value;
            && Readable(after)
            && Sum(after) == Sum(entries) + v
            && forall b :: Amount(after, b) == Amount(entries, b) + if b == a then v else 0
  {
    hide Tally.Total, Decimal.Format, Decimal.ParseUint;
    Tally.TotalAtLeast(Amounts(entries), a);
    SetAmount(entries, a, Amount(entries, a) + v);
  }

  ghost predicate RoomFor(l: Ledger, n: nat, share: uint64)
    requires LedgerReadable(l)
  {
    Sum(l.pending) + share * n < TWO64 && Sum(l.lifetime) + share * n < TWO64
  }

  /** One side of the ledger: the entry and the sum grow by the share, and room for n more shares is left. */
  lemma AddSide(entries: map<string, string>, p: string, share: uint64, n: nat, a: string)
    requires Readable(entries) && Sum(entries) + share * (n + 1) < TWO64
    ensures AddText(entries, p, share).Some?
    ensures var after := AddText(entries, p, share).value;
            && Readable(after) && Sum(after) == Sum(entries) + share && Sum(after) + share * n < TWO64
            && Amount(after, a) == Amount(entries, a) + (if a == p then share else 0)
  {
    hide AddText, Readable, Sum, Amount;
    Arith.MulStep(share, n);
    AddTextAmount(entries, p, share);
  }

  lemma AddRewardAmounts(l: Ledger, p: string, share: uint64, n: nat, a: string)
    requires LedgerReadable(l) && RoomFor(l, n + 1, share)
    ensures var (after, ok) := AddReward(l, p, share);
            && ok && LedgerReadable(after) && RoomFor(after, n, share)
            && Sum(after.pending) == Sum(l.pending) + share
            && Sum(after.lifetime) == Sum(l.lifetime) + share
            && Amount(after.pending, a) == Amount(l.pending, a) + (if a == p then share else 0)
            && Amount(after.lifetime, a) == Amount(l.lifetime, a) + (if a == p then share else 0)
  {
    hide AddText, Readable, Sum, Amount;
    AddSide(l.pending, p, share, n, a);
    AddSide(l.lifetime, p, share, n, a);
  }

  /** On a readable ledger with room crediting succeeds and adds one share a payee to both sums. */
  lemma {:induction false} CreditAllSums(l: Ledger, payees: seq<string>, share: uint64)
    requires LedgerReadable(l) && RoomFor(l, |payees|, share)
    ensures var (after, ok) := CreditAll(l, payees, share);
            && ok && LedgerReadable(after)
            && Sum(after.pending) == Sum(l.pending) + share * |payees|
            && Sum(after.lifetime) == Sum(l.lifetime) + share * |payees|
    decreases payees
  {
    if payees != [] && share != 0 {
      Arith.MulStep(share, |payees[1..]|);
      AddRewardAmounts(l, payees[0], share, |payees[1..]|, "");
      CreditAllSums(AddReward(l, payees[0], share).0, payees[1..], share);
    }
  }

  /** Every payee gains exactly one share, and nobody else anything. */
  lemma {:induction false} CreditAllAmounts(l: Ledger, payees: seq<string>, share: uint64, a: string)
    requires LedgerReadable(l) && Lex.Distinct(payees) && RoomFor(l, |payees|, share)
    ensures var after := CreditAll(l, payees, share).0;
            && LedgerReadable(after)
            && Amount(after.pending, a) == Amount(l.pending, a) + (if a in payees then share else 0)
            && Amount(after.lifetime, a) == Amount(l.lifetime, a) + (if a in payees then share else 0)
    decreases payees
  {
    if payees != [] && share != 0 {
      var p, rest := payees[0], payees[1..];
      AddRewardAmounts(l, p, share, |rest|, a);
      CreditAllAmounts(AddReward(l, p, share).0, rest, share, a);
      assert p !in rest;
      assert a in payees <==> a == p || a in rest;
    }
  }

  predicate EntryReadable(entries: map<string, string>, a: string) {
    a in entries ==> Decimal.ParseUint(entries[a]).Some?
  }

  /** Crediting fails exactly when some payee owns an entry that is not a decimal uint64. */
  lemma {:induction false} CreditAllFailsIff(l: Ledger, payees: seq<string>, share: uint64)
    ensures CreditAll(l, payees, share).1 <==>
            share == 0 || forall a :: a in payees ==> EntryReadable(l.pending, a) && EntryReadable(l.lifetime, a)
    decreases payees
  {
    if payees != [] && share != 0 {
      var a0 := payees[0];
      var (after, ok) := AddReward(l, a0, share);
      assert ok <==> EntryReadable(l.pending, a0) && EntryReadable(l.lifetime, a0);
      if ok {
        forall v: uint64 ensures Decimal.ParseUint(Decimal.Format(v)) == Some(v) {
          Decimal.ParseFormat(v);
        }
        assert forall a :: EntryReadable(after.pending, a) <==> EntryReadable(l.pending, a);
        assert forall a :: EntryReadable(after.lifetime, a) <==> EntryReadable(l.lifetime, a);
        CreditAllFailsIff(after, payees[1..], share);
      }
    }
  }

  /** The payees are the qualifying contributors, each once. */
  lemma PayeesAreQualifying(counts: map<string, uint64>, threshold: uint64)
    ensures var payees := Payees(counts, threshold);
            && Lex.Distinct(payees)
            && |payees| == |Qualifying(counts, threshold)|
            && forall a :: a in payees <==> a in Qualifying(counts, threshold)
  {
    Lex.OrderedLists(Qualifying(counts, threshold));
  }
}
