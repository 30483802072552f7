/**
 * What a mint and a claim move, in the terms of the messages and stores alone: who is paid, how much,
 * out of which pool, and into which account.
 */
module Payouts {
  import opened Numbers
  import opened Wrappers
  import opened Externals
  import opened Emissions
  import opened Economy
  import opened RewardLedger
  import Arith
  import Chain
  import Decimal
  import Identity
  import Org
  import Schedule
  import Tally

  // ----- mints -----

  lemma ShareOf(total: int, n: nat)
    requires total >= 0 && n > 0
    ensures 0 <= total / n * n <= total && total % n < n && total - total / n * n == total % n
  {
    Arith.MulMonotone(0, total / n, n);
  }

  lemma PlanAmounts(pool: EmissionPool, params: Params, counts: map<string, uint64>)
    requires pool.contributorPool + pool.rollover < TWO64
    ensures Planned(pool, PlanMint(pool, params, counts), |Reached(counts, params.threshold)|)
  {
    var plan := PlanMint(pool, params, counts);
    PlanConserves(pool, params, counts);
    PayeesAreQualifying(counts, params.threshold);
    assert Qualifying(counts, params.threshold) == Reached(counts, params.threshold);
    if plan.payees != [] {
      ShareOf(plan.budget + pool.rollover, |plan.payees|);
    }
  }

  /** What a payment of `total` among the contributors at or above the threshold adds for `a`. */
  ghost predicate Pays(s: State, after: State, counts: map<string, uint64>, threshold: uint64, a: string) {
    && s.pool.Some? && after.pool.Some? && LedgerReadable(s.ledger) && LedgerReadable(after.ledger)
    && var reached := set c | c in counts && c != "" && counts[c] >= threshold;
       var total := s.pool.value.contributorPool - after.pool.value.contributorPool + s.pool.value.rollover;
       var gain := if |reached| > 0 && a in reached then total / |reached| else 0;
       && Amount(after.ledger.pending, a) == Amount(s.ledger.pending, a) + gain
       && Amount(after.ledger.lifetime, a) == Amount(s.ledger.lifetime, a) + gain
       && after.pool.value.rollover == (if |reached| > 0 then total % |reached| else total)
       && (|reached| > 0 ==> after.pool.value.rollover < |reached|)
       && after.moduleBalance == s.moduleBalance + (total - after.pool.value.rollover)
  }

  /**
   * A mint pays every contributor who reached the threshold an equal share of what it took from the pool
   * and of the old rollover, and nobody else anything; less than one coin a payee is carried over.
   */
  lemma MintPays(s: State, locked: nat, epoch: uint64, counts: map<string, uint64>, a: string)
    requires Conserved(s, locked) && Solvent(s) && epoch > s.pool.value.epoch
    ensures Pays(s, Mint(s, epoch, counts).0, counts, if s.params.Some? then s.params.value.threshold else 1, a)
  {
    assert s.pool.Some?;
    hide Conserved, Solvent, Mint, PlanMint, CreditAll, Reached, Pays, Planned, PoolAdvanced;
    var plan := MintMoves(s, locked, epoch, counts);
    PayeeGains(s, locked, counts, a);
    PlanAmounts(s.pool.value, CurrentParams(s), counts);
    PaysPlanned(s, Mint(s, epoch, counts).0, epoch, counts, plan, CurrentParams(s).threshold, a);
  }

  /** A mint moved the pool, the ledger and the module account by the amounts of a plan. */
  ghost predicate Moved(s: State, after: State, epoch: uint64, plan: Plan) {
    && s.pool.Some? && after.pool.Some? && PoolAdvanced(s.pool.value, after.pool.value, epoch, plan)
    && s.pool.value.contributorPool + s.pool.value.rollover < TWO64
    && LedgerReadable(s.ledger) && LedgerReadable(after.ledger)
    && after.moduleBalance == s.moduleBalance + plan.distributed
    && epoch in after.daily && after.daily == s.daily[epoch := after.daily[epoch]]
    && after.daily[epoch] == DailyEmission(epoch, after.daily[epoch].totalEmitted, plan.validator)
    && after.daily[epoch].totalEmitted == plan.validator + plan.distributed
    && after.params == s.params && after.wallets == s.wallets && after.events == s.events
  }

  lemma MintMoves(s: State, locked: nat, epoch: uint64, counts: map<string, uint64>) returns (plan: Plan)
    requires Conserved(s, locked) && Solvent(s) && epoch > s.pool.value.epoch
    ensures plan == PlanMint(s.pool.value, CurrentParams(s), counts)
    ensures Moved(s, Mint(s, epoch, counts).0, epoch, plan) && Mint(s, epoch, counts).1.Success?
    ensures Mint(s, epoch, counts).0.ledger == CreditAll(s.ledger, plan.payees, plan.share).0
  {
    assert s.pool.Some?;
    hide Conserved, Solvent, Mint, PlanMint, CreditAll, PoolAdvanced, Reached;
    plan := PlanMint(s.pool.value, CurrentParams(s), counts);
    CreditsFit(s, locked, counts);
    LedgerOfSolvent(s);
    PoolOfConserved(s, locked);
    MintEffect(s, epoch, counts);
  }

  /** The contributors at or above the threshold. */
  function Reached(counts: map<string, uint64>, threshold: uint64): set<string> {
    set c | c in counts && c != "" && counts[c] >= threshold
  }

  ghost predicate Credited(s: State, after: State, counts: map<string, uint64>, threshold: uint64, share: uint64, a: string) {
    && LedgerReadable(s.ledger) && LedgerReadable(after.ledger)
    && var gain := if a != "" && a in counts && counts[a] >= threshold then share else 0;
       && Amount(after.ledger.pending, a) == Amount(s.ledger.pending, a) + gain
       && Amount(after.ledger.lifetime, a) == Amount(s.ledger.lifetime, a) + gain
  }

  /** The amounts of a plan for n payees. */
  ghost predicate Planned(pool: EmissionPool, plan: Plan, n: nat) {
    var total := plan.budget + pool.rollover;
    && plan.distributed + plan.rollover == total
    && (n == 0 ==> plan.rollover == total)
    && (n > 0 ==> plan.share == total / n && plan.rollover == total % n && plan.rollover < n)
  }

  lemma PaysPlanned(s: State, after: State, epoch: uint64, counts: map<string, uint64>, plan: Plan, threshold: uint64, a: string)
    requires Moved(s, after, epoch, plan) && Credited(s, after, counts, threshold, plan.share, a)
    requires Planned(s.pool.value, plan, |Reached(counts, threshold)|)
    ensures Pays(s, after, counts, threshold, a)
  {
    hide LedgerReadable, Amount;
    var reached := set c | c in counts && c != "" && counts[c] >= threshold;
    assert reached == Reached(counts, threshold);
    InhabitedIsPositive(reached, a);
  }

  lemma InhabitedIsPositive(xs: set<string>, a: string)
    ensures a in xs ==> |xs| > 0
  {
    if a in xs {
      assert xs == {a} + (xs - {a});
    }
  }

  lemma LedgerOfSolvent(s: State)
    requires Solvent(s)
    ensures LedgerReadable(s.ledger)
  {
  }

  ghost predicate PoolFits(s: State) {
    && s.pool.Some? && SharesValid(s.pool.value) && Locked(s.pool.value) < TWO64
    && s.pool.value.elapsed <= s.pool.value.epoch
  }

  lemma PoolOfConserved(s: State, locked: nat)
    requires Conserved(s, locked)
    ensures PoolFits(s)
  {
  }

  /** The credits of a mint: a share for a contributor at or above the threshold. */
  lemma PayeeGains(s: State, locked: nat, counts: map<string, uint64>, a: string)
    requires Conserved(s, locked) && Solvent(s)
    ensures var plan := PlanMint(s.pool.value, CurrentParams(s), counts);
            var after := CreditAll(s.ledger, plan.payees, plan.share).0;
            var gain := if a != "" && a in counts && counts[a] >= CurrentParams(s).threshold then plan.share else 0;
            && LedgerReadable(after)
            && Amount(after.pending, a) == Amount(s.ledger.pending, a) + gain
            && Amount(after.lifetime, a) == Amount(s.ledger.lifetime, a) + gain
  {
    var params := CurrentParams(s);
    var plan := PlanMint(s.pool.value, params, counts);
    PlanConserves(s.pool.value, params, counts);
    PayeesAreQualifying(counts, params.threshold);
    CreditAllAmounts(s.ledger, plan.payees, plan.share, a);
  }

  /** The contributor budget of an epoch in one formula: the even share, but no more than a 365th of a cap of at least 365. */
  lemma BudgetFormula(pool: uint64, epochs: uint64, annualCap: uint64)
    requires epochs >= 1
    ensures ContributorBudget(pool, epochs, annualCap)
         == if annualCap >= 365 then Min(pool / epochs, annualCap / 365) else pool / epochs
    ensures ValidatorEmission(pool, epochs) == pool / epochs
  {
    Schedule.EvenShareWithin(pool, epochs);
  }

  /** One even share is taken from each pool, the contributors' one capped, and recorded; nothing else about the pool moves. */
  ghost predicate Draws(s: State, after: State, epoch: uint64, duration: uint64, cap: uint64) {
    && s.pool.Some? && after.pool.Some? && epoch in after.daily
    && var (p, q, record) := (s.pool.value, after.pool.value, after.daily[epoch]);
       var left := if duration > p.elapsed then duration - p.elapsed else 1;
       var paid := after.moduleBalance - s.moduleBalance;
       && q.validatorPool == p.validatorPool - p.validatorPool / left
       && q.contributorPool == p.contributorPool
          - (if cap >= 365 then Min(p.contributorPool / left, cap / 365) else p.contributorPool / left)
       && q.epoch == epoch && q.elapsed == p.elapsed + 1
       && q.totalSupply == p.totalSupply + p.validatorPool / left + paid
       && q.startEpoch == (if p.startEpoch == 0 && p.elapsed == 0 then epoch else p.startEpoch)
       && q.dailyMint == p.dailyMint && q.operatorShare == p.operatorShare && q.validatorShare == p.validatorShare
       && record.epoch == epoch && record.validatorShare == p.validatorPool / left
       && record.totalEmitted == record.validatorShare + paid
       && after.daily == s.daily[epoch := record]
       && after.params == s.params && after.wallets == s.wallets && after.events == s.events
  }

  /** Where the coins of a mint come from, and the record and the pool it leaves behind. */
  lemma MintDraws(s: State, locked: nat, epoch: uint64, counts: map<string, uint64>)
    requires Conserved(s, locked) && Solvent(s) && epoch > s.pool.value.epoch
    ensures Draws(s, Mint(s, epoch, counts).0, epoch,
                  if s.params.Some? then s.params.value.duration else 11_680,
                  if s.params.Some? then s.params.value.annualCap else 10_000_000_000_000)
  {
    assert s.pool.Some?;
    hide Conserved, Solvent, Mint, PlanMint, Draws, Moved;
    var plan := MintMoves(s, locked, epoch, counts);
    PoolWritten(s, epoch, counts);
    PlanDraws(s.pool.value, CurrentParams(s), counts);
    DrawsPlanned(s, Mint(s, epoch, counts).0, epoch, plan, CurrentParams(s).duration, CurrentParams(s).annualCap);
  }

  lemma DrawsPlanned(s: State, after: State, epoch: uint64, plan: Plan, duration: uint64, cap: uint64)
    requires Moved(s, after, epoch, plan)
    requires Drawn(s.pool.value, plan, RemainingEpochs(duration, s.pool.value.elapsed), cap)
    requires KeptBy(s, after, epoch)
    ensures Draws(s, after, epoch, duration, cap)
  {
    hide LedgerReadable;
  }

  ghost predicate Drawn(pool: EmissionPool, plan: Plan, left: uint64, cap: uint64)
    requires left >= 1
  {
    && plan.validator == pool.validatorPool / left
    && plan.budget == if cap >= 365 then Min(pool.contributorPool / left, cap / 365) else pool.contributorPool / left
  }

  /** The start of the schedule and the unused daily amount. */
  ghost predicate KeptBy(s: State, after: State, epoch: uint64) {
    && s.pool.Some? && after.pool.Some? && after.pool.value.dailyMint == s.pool.value.dailyMint
    && after.pool.value.startEpoch
       == if s.pool.value.startEpoch == 0 && s.pool.value.elapsed == 0 then epoch else s.pool.value.startEpoch
  }

  lemma PlanDraws(pool: EmissionPool, params: Params, counts: map<string, uint64>)
    ensures Drawn(pool, PlanMint(pool, params, counts), RemainingEpochs(params.duration, pool.elapsed), params.annualCap)
  {
    var left := RemainingEpochs(params.duration, pool.elapsed);
    BudgetFormula(pool.contributorPool, left, params.annualCap);
    BudgetFormula(pool.validatorPool, left, params.annualCap);
  }

  lemma PoolWritten(s: State, epoch: uint64, counts: map<string, uint64>)
    requires s.pool.Some? && Mint(s, epoch, counts).1.Success?
    ensures KeptBy(s, Mint(s, epoch, counts).0, epoch)
  {
    hide PlanMint, CreditAll;
  }

  // ----- claims -----

  /** In a sound state a claim succeeds exactly for the wallet a passkey migrated to, with a reward pending and an account that may receive it. */
  lemma ClaimSucceedsIff(env: Env, w: World, locked: nat, signer: string, passkey: string)
    requires Sound(w, locked)
    ensures Claim(env, w.em, w.aliases, signer, passkey).Success? <==>
            && signer != "" && passkey != "" && passkey in w.aliases && w.aliases[passkey].migrated
            && w.aliases[passkey].wallet == signer && Amount(w.em.ledger.pending, passkey) > 0
            && env.validAddress(signer) && !env.blocked(signer)
  {
    hide Conserved, PaidToAlias, ClaimedBy, ClaimedInAll, ValidatorShares, Tally.Total, Decimal.Format, Decimal.ParseUint;
    Tally.TotalAtLeast(Amounts(w.em.ledger.pending), passkey);
  }

  /** What a successful claim writes, with the amount it parsed. */
  lemma ClaimWrites(env: Env, s: State, aliases: Identity.Aliases, signer: string, passkey: string) returns (paid: uint64)
    requires Claim(env, s, aliases, signer, passkey).Success?
    ensures passkey in s.ledger.pending && Decimal.ParseUint(s.ledger.pending[passkey]) == Some(paid) && paid <= s.moduleBalance
    ensures Claim(env, s, aliases, signer, passkey).value
         == s.(moduleBalance := s.moduleBalance - paid,
               wallets := s.wallets[signer := Tally.Lookup(s.wallets, signer) + paid],
               ledger := s.ledger.(pending := s.ledger.pending[passkey := Decimal.Format(0)]),
               events := s.events + [ClaimEvent(passkey, signer, paid)])
  {
    hide Decimal.Format, Decimal.ParseUint;
    paid := Decimal.ParseUint(s.ledger.pending[passkey]).value;
  }

  /** The whole pending reward leaves the module account for the signer's, and is no longer pending. */
  lemma ClaimPays(env: Env, w: World, locked: nat, signer: string, passkey: string, a: string)
    requires Sound(w, locked) && Claim(env, w.em, w.aliases, signer, passkey).Success?
    ensures var (s, after) := (w.em, Claim(env, w.em, w.aliases, signer, passkey).value);
            var paid := Amount(s.ledger.pending, passkey);
            && after.moduleBalance == s.moduleBalance - paid
            && Tally.Lookup(after.wallets, a) == Tally.Lookup(s.wallets, a) + (if a == signer then paid else 0)
            && Readable(after.ledger.pending)
            && Amount(after.ledger.pending, a) == (if a == passkey then 0 else Amount(s.ledger.pending, a))
            && after.ledger.lifetime == s.ledger.lifetime && after.pool == s.pool && after.daily == s.daily
            && after.params == s.params && after.events == s.events + [ClaimEvent(passkey, signer, paid)]
  {
    LedgerOfSolvent(w.em);
    hide Claim, Sound, Decimal.Format, Decimal.ParseUint;
    var paid := ClaimWrites(env, w.em, w.aliases, signer, passkey);
    SetAmount(w.em.ledger.pending, passkey, 0);
  }

  /** What the events paid to an account. */
  function PaidTo(events: seq<ClaimEvent>, a: string): nat {
    if events == [] then 0
    else
      var last := events[|events| - 1];
      PaidTo(events[..|events| - 1], a) + if last.wallet == a then last.amount else 0
  }

  lemma {:induction false} PaidToConcat(xs: seq<ClaimEvent>, ys: seq<ClaimEvent>, a: string)
    ensures PaidTo(xs + ys, a) == PaidTo(xs, a) + PaidTo(ys, a)
    ensures ClaimedInAll(xs + ys) == ClaimedInAll(xs) + ClaimedInAll(ys)
  {
    if ys == [] {
      assert xs + ys == xs;
    } else {
      PaidToConcat(xs, ys[..|ys| - 1], a);
      assert (xs + ys)[..|xs + ys| - 1] == xs + ys[..|ys| - 1];
    }
  }

  /** The account balances moved by exactly the payments between the two states. */
  ghost predicate PaidOut(s: State, after: State, a: string) {
    && s.events <= after.events
    && Tally.Lookup(after.wallets, a) + PaidTo(s.events, a) == Tally.Lookup(s.wallets, a) + PaidTo(after.events, a)
    && Tally.Total(after.wallets) + ClaimedInAll(s.events) == Tally.Total(s.wallets) + ClaimedInAll(after.events)
  }

  lemma MintPaysNoWallet(s: State, epoch: uint64, counts: map<string, uint64>)
    ensures var after := Mint(s, epoch, counts).0; after.wallets == s.wallets && after.events == s.events
  {
    hide PlanMint, CreditAll, SharesValid;
  }

  lemma ClaimPaysOut(env: Env, s: State, aliases: Identity.Aliases, signer: string, passkey: string, a: string)
    requires Claim(env, s, aliases, signer, passkey).Success?
    ensures PaidOut(s, Claim(env, s, aliases, signer, passkey).value, a)
  {
    hide Claim, Decimal.Format, Decimal.ParseUint, Tally.Total;
    var paid := ClaimWrites(env, s, aliases, signer, passkey);
    var e := ClaimEvent(passkey, signer, paid);
    assert (s.events + [e])[..|s.events + [e]| - 1] == s.events;
    Tally.TotalUpdate(s.wallets, signer, Tally.Lookup(s.wallets, signer) + paid);
  }

  lemma PaidOutStep(env: Env, gov: string, w: World, act: Action, a: string)
    ensures PaidOut(w.em, Step(env, gov, w, act).em, a)
  {
    hide Mint, Claim, PaidOut, ParamsValid, Identity.Migrate;
    Unmoved(w.em, w.em, a);
    match act
    case EpochEnd(epoch, counts) =>
      MintPaysNoWallet(w.em, epoch, counts);
      Unmoved(w.em, Mint(w.em, epoch, counts).0, a);
    case GovernanceMint(_, epoch, counts) =>
      MintPaysNoWallet(w.em, epoch, counts);
      Unmoved(w.em, Mint(w.em, epoch, counts).0, a);
    case UpdateParams(_, params) => Unmoved(w.em, w.em.(params := Some(params)), a);
    case ClaimReward(signer, passkey) =>
      if Claim(env, w.em, w.aliases, signer, passkey).Success? {
        ClaimPaysOut(env, w.em, w.aliases, signer, passkey, a);
      }
    case MigrateIdentity(_, _) =>
  }

  lemma Unmoved(s: State, after: State, a: string)
    requires after.wallets == s.wallets && after.events == s.events
    ensures PaidOut(s, after, a)
  {
  }

  lemma {:induction false} PaidOutRun(env: Env, gov: string, w: World, actions: seq<Action>, a: string)
    ensures PaidOut(w.em, Run(env, gov, w, actions).em, a)
  {
    hide Step;
    if actions != [] {
      var prefix := actions[..|actions| - 1];
      PaidOutRun(env, gov, w, prefix, a);
      PaidOutStep(env, gov, Run(env, gov, w, prefix), actions[|actions| - 1], a);
    }
  }

  /**
   * Over every run each account gains exactly the payments recorded for it, all accounts together what was
   * claimed, and every coin ever credited is in the module account or in a wallet.
   */
  lemma WalletLedger(env: Env, gov: string, w: World, locked: nat, actions: seq<Action>, a: string)
    requires Sound(w, locked)
    ensures Sound(Run(env, gov, w, actions), locked)
    ensures var s, after := w.em, Run(env, gov, w, actions).em;
            && |s.events| <= |after.events| && after.events[..|s.events|] == s.events
            && Tally.Lookup(after.wallets, a) == Tally.Lookup(s.wallets, a) + PaidTo(after.events[|s.events|..], a)
            && Tally.Total(after.wallets) == Tally.Total(s.wallets) + ClaimedInAll(after.events[|s.events|..])
            && Sum(after.ledger.lifetime) - Sum(s.ledger.lifetime)
               == (after.moduleBalance - s.moduleBalance) + (Tally.Total(after.wallets) - Tally.Total(s.wallets))
  {
    RunKeepsSound(env, gov, w, locked, actions);
    PaidOutRun(env, gov, w, actions, a);
    var s, after := w.em, Run(env, gov, w, actions).em;
    hide Run, Conserved, PaidToAlias, Tally.Total, PaidTo, ClaimedInAll, ClaimedBy;
    assert after.events == s.events + after.events[|s.events|..];
    PaidToConcat(s.events, after.events[|s.events|..], a);
  }

  /** The same over every run of the whole chain. */
  lemma WalletsOnChain(x: Org.Setting, w: Chain.World, locked: nat, actions: seq<Chain.Action>, a: string)
    requires Sound(w.econ, locked)
    ensures var s, after := w.econ.em, Chain.Run(x, w, actions).econ.em;
            && |s.events| <= |after.events| && after.events[..|s.events|] == s.events
            && Tally.Lookup(after.wallets, a) == Tally.Lookup(s.wallets, a) + PaidTo(after.events[|s.events|..], a)
  {
    hide Sound, Chain.Run, Run;
    var es := Chain.Projection(x, w, actions);
    WalletLedger(x.env, x.gov, w.econ, locked, es, a);
  }
}
