/**
 * Every run of the emissions and identity messages, with arbitrary approvals reported at each
 * mint: conservation, solvency, the absence of half-applied mints, and the per-passkey ledger.
 */
module Economy {
  import opened Numbers
  import opened Wrappers
  import opened Externals
  import opened Emissions
  import opened RewardLedger
  import Identity
  import Decimal
  import Lex
  import Tally

  datatype World = World(em: State, aliases: Identity.Aliases)

  datatype Action =
    | EpochEnd(epoch: uint64, counts: map<string, uint64>)
    | GovernanceMint(authority: string, epoch: uint64, counts: map<string, uint64>)
    | UpdateParams(authority: string, params: Params)
    | ClaimReward(signer: string, passkey: string)
    | MigrateIdentity(msg: Identity.MsgMigrate, height: uint64)

  /** A failed message is rolled back; the epoch hook keeps whatever a failed mint wrote. */
  ghost function Step(env: Env, gov: string, w: World, a: Action): World {
    match a
    case EpochEnd(epoch, counts) => w.(em := Mint(w.em, epoch, counts).0)
    case GovernanceMint(authority, epoch, counts) =>
      if authority == "" || epoch == 0 || authority != gov then w
      else
        var (em, r) := Mint(w.em, epoch, counts);
        if r.Success? then w.(em := em) else w
    case UpdateParams(authority, params) =>
      if authority == gov && ParamsValid(params) then w.(em := w.em.(params := Some(params))) else w
    case ClaimReward(signer, passkey) =>
      var r := Claim(env, w.em, w.aliases, signer, passkey);
      if r.Success? then w.(em := r.value) else w
    case MigrateIdentity(msg, height) =>
      var r := Identity.Migrate(env, w.aliases, msg, height);
      if r.Success? then w.(aliases := r.value) else w
  }

  ghost function Run(env: Env, gov: string, w: World, actions: seq<Action>): World {
    if actions == [] then w
    else Step(env, gov, Run(env, gov, w, actions[..|actions| - 1]), actions[|actions| - 1])
  }

  // ----- the invariant -----

  function Locked(pool: EmissionPool): nat {
    pool.validatorPool + pool.contributorPool + pool.rollover + pool.totalSupply
  }

  function Emitted(daily: map<uint64, DailyEmission>): map<uint64, nat> {
    map e | e in daily :: daily[e].totalEmitted
  }

  function ValidatorShares(daily: map<uint64, DailyEmission>): map<uint64, nat> {
    map e | e in daily :: daily[e].validatorShare
  }

  function ClaimedBy(events: seq<ClaimEvent>, passkey: string): nat {
    if events == [] then 0
    else
      var last := events[|events| - 1];
      ClaimedBy(events[..|events| - 1], passkey) + if last.passkey == passkey then last.amount else 0
  }

  function ClaimedInAll(events: seq<ClaimEvent>): nat {
    if events == [] then 0
    else ClaimedInAll(events[..|events| - 1]) + events[|events| - 1].amount
  }

  /** The pools, the supply and the daily records account for the same `locked` coins. */
  ghost predicate Conserved(s: State, locked: nat) {
    && s.pool.Some?
    && SharesValid(s.pool.value)
    && Locked(s.pool.value) == locked < TWO64
    && |s.daily| == s.pool.value.elapsed <= s.pool.value.epoch
    && (forall e :: e in s.daily ==> e <= s.pool.value.epoch && s.daily[e].epoch == e)
    && Tally.Total(Emitted(s.daily)) == s.pool.value.totalSupply
  }

  /** The module account backs exactly the pending rewards, and no reward was lost or invented. */
  ghost predicate Solvent(s: State) {
    && LedgerReadable(s.ledger)
    && s.moduleBalance == Sum(s.ledger.pending)
    && Sum(s.ledger.lifetime) == s.moduleBalance + ClaimedInAll(s.events)
    && (forall a :: Amount(s.ledger.lifetime, a) == Amount(s.ledger.pending, a) + ClaimedBy(s.events, a))
    && s.pool.Some?
    && Sum(s.ledger.lifetime) + Tally.Total(ValidatorShares(s.daily)) == s.pool.value.totalSupply
  }

  /** Every payment for a passkey went to the wallet its alias migrated to. */
  ghost predicate PaidToAlias(w: World) {
    forall i :: 0 <= i < |w.em.events| ==>
      var e := w.em.events[i];
      e.passkey in w.aliases && w.aliases[e.passkey].migrated && w.aliases[e.passkey].wallet == e.wallet
  }

  ghost predicate Sound(w: World, locked: nat) {
    Conserved(w.em, locked) && Solvent(w.em) && PaidToAlias(w)
  }

  // ----- one mint -----

  lemma EvenSplit(total: uint64, n: nat)
    requires n > 0
    ensures 0 <= total / n * n <= total && total / n * n + total % n == total
  {
  }

  lemma SplitConserves(validator: uint64, budget: uint64, rollover: uint64, payees: seq<string>)
    requires budget + rollover < TWO64
    ensures var plan := Split(validator, budget, rollover, payees);
            && plan.distributed == plan.share * |payees|
            && plan.distributed + plan.rollover == budget + rollover
  {
    if payees != [] {
      EvenSplit(budget + rollover, |payees|);
    }
  }

  /** What a mint takes from the budget and the rollover it either pays out or carries over. */
  lemma PlanConserves(pool: EmissionPool, params: Params, counts: map<string, uint64>)
    requires pool.contributorPool + pool.rollover < TWO64
    ensures var plan := PlanMint(pool, params, counts);
            && plan.distributed == plan.share * |plan.payees|
            && plan.distributed + plan.rollover == plan.budget + pool.rollover
            && plan.validator <= pool.validatorPool && plan.budget <= pool.contributorPool
            && Lex.Distinct(plan.payees)
  {
    var plan := PlanMint(pool, params, counts);
    PayeesAreQualifying(counts, params.threshold);
    SplitConserves(plan.validator, plan.budget, pool.rollover, plan.payees);
  }

  /** The pool after a mint, in exact arithmetic. */
  predicate PoolAdvanced(pool: EmissionPool, after: EmissionPool, epoch: uint64, plan: Plan) {
    && after.validatorPool == pool.validatorPool - plan.validator
    && after.contributorPool == pool.contributorPool - plan.budget
    && after.rollover == plan.rollover
    && after.epoch == epoch
    && after.elapsed == pool.elapsed + 1
    && after.totalSupply == pool.totalSupply + plan.validator + plan.distributed
    && after.operatorShare == pool.operatorShare && after.validatorShare == pool.validatorShare
  }

  lemma AdvanceExact(pool: EmissionPool, params: Params, epoch: uint64, counts: map<string, uint64>)
    requires Locked(pool) < TWO64 && pool.elapsed <= pool.epoch < epoch
    ensures var plan := PlanMint(pool, params, counts);
            && PoolAdvanced(pool, Advance(pool, epoch, plan), epoch, plan)
            && plan.validator + plan.distributed < TWO64
            && Locked(Advance(pool, epoch, plan)) == Locked(pool)
  {
    PlanConserves(pool, params, counts);
  }

  /** What a mint changes once every credit succeeded; none of its 64-bit additions wraps. */
  lemma MintEffect(s: State, epoch: uint64, counts: map<string, uint64>)
    requires s.pool.Some? && SharesValid(s.pool.value) && Locked(s.pool.value) < TWO64
    requires s.pool.value.elapsed <= s.pool.value.epoch < epoch
    requires var plan := PlanMint(s.pool.value, CurrentParams(s), counts);
             CreditAll(s.ledger, plan.payees, plan.share).1
    ensures var plan := PlanMint(s.pool.value, CurrentParams(s), counts);
            var (after, r) := Mint(s, epoch, counts);
            && r.Success? && r.value.epoch == epoch
            && r.value.totalEmitted == plan.validator + plan.distributed && r.value.validatorShare == plan.validator
            && after == s.(pool := after.pool, daily := s.daily[epoch := r.value],
                           ledger := CreditAll(s.ledger, plan.payees, plan.share).0,
                           moduleBalance := s.moduleBalance + plan.distributed)
            && after.pool.Some? && PoolAdvanced(s.pool.value, after.pool.value, epoch, plan)
            && Locked(after.pool.value) == Locked(s.pool.value)
  {
    AdvanceExact(s.pool.value, CurrentParams(s), epoch, counts);
  }

  /** The rewards of a mint always fit: the ledger stays readable and grows by what is distributed. */
  lemma CreditsFit(s: State, locked: nat, counts: map<string, uint64>)
    requires Conserved(s, locked) && Solvent(s)
    ensures var plan := PlanMint(s.pool.value, CurrentParams(s), counts);
            var (after, ok) := CreditAll(s.ledger, plan.payees, plan.share);
            && ok && LedgerReadable(after)
            && Sum(after.pending) == Sum(s.ledger.pending) + plan.distributed
            && Sum(after.lifetime) == Sum(s.ledger.lifetime) + plan.distributed
  {
    var plan := PlanMint(s.pool.value, CurrentParams(s), counts);
    PlanConserves(s.pool.value, CurrentParams(s), counts);
    CreditAllSums(s.ledger, plan.payees, plan.share);
  }

  /** A mint raises the pending and the lifetime reward of a passkey by the same amount. */
  lemma CreditsMatch(s: State, locked: nat, counts: map<string, uint64>, a: string) returns (gain: nat)
    requires Conserved(s, locked) && Solvent(s)
    ensures var plan := PlanMint(s.pool.value, CurrentParams(s), counts);
            var after := CreditAll(s.ledger, plan.payees, plan.share).0;
            && LedgerReadable(after)
            && Amount(after.pending, a) == Amount(s.ledger.pending, a) + gain
            && Amount(after.lifetime, a) == Amount(s.ledger.lifetime, a) + gain
  {
    var plan := PlanMint(s.pool.value, CurrentParams(s), counts);
    PlanConserves(s.pool.value, CurrentParams(s), counts);
    CreditAllAmounts(s.ledger, plan.payees, plan.share, a);
    gain := if a in plan.payees then plan.share else 0;
  }

  /** Past the epoch guard the mint of a sound state cannot stop half way. */
  lemma MintCompletes(s: State, locked: nat, epoch: uint64, counts: map<string, uint64>)
    requires Conserved(s, locked) && Solvent(s)
    ensures Mint(s, epoch, counts).1.Success? <==> epoch > s.pool.value.epoch
    ensures epoch <= s.pool.value.epoch ==> Mint(s, epoch, counts) == (s, Failure(StaleEpoch))
  {
    if epoch > s.pool.value.epoch {
      CreditsFit(s, locked, counts);
      MintEffect(s, epoch, counts);
    }
  }

  /** The record of a new epoch adds exactly its own amounts to the sums over all records. */
  lemma EmittedAdds(daily: map<uint64, DailyEmission>, record: DailyEmission)
    requires record.epoch !in daily
    ensures var after := daily[record.epoch := record];
            Tally.Total(Emitted(after)) == Tally.Total(Emitted(daily)) + record.totalEmitted
  {
    Tally.TotalUpdate(Emitted(daily), record.epoch, record.totalEmitted);
    assert Emitted(daily[record.epoch := record]) == Emitted(daily)[record.epoch := record.totalEmitted];
  }

  lemma ValidatorSharesAdd(daily: map<uint64, DailyEmission>, record: DailyEmission)
    requires record.epoch !in daily
    ensures var after := daily[record.epoch := record];
            Tally.Total(ValidatorShares(after)) == Tally.Total(ValidatorShares(daily)) + record.validatorShare
  {
    Tally.TotalUpdate(ValidatorShares(daily), record.epoch, record.validatorShare);
    assert ValidatorShares(daily[record.epoch := record]) == ValidatorShares(daily)[record.epoch := record.validatorShare];
  }

  lemma RecordKeepsConserved(s: State, after: State, locked: nat, plan: Plan, record: DailyEmission)
    requires Conserved(s, locked) && record.epoch > s.pool.value.epoch
    requires record.totalEmitted == plan.validator + plan.distributed
    requires after.daily == s.daily[record.epoch := record]
    requires after.pool.Some? && PoolAdvanced(s.pool.value, after.pool.value, record.epoch, plan)
    requires Locked(after.pool.value) == Locked(s.pool.value)
    ensures Conserved(after, locked)
  {
    hide Locked, Emitted, Tally.Total;
    assert record.epoch !in s.daily;
    EmittedAdds(s.daily, record);
    assert |after.daily| == |s.daily| + 1;
  }

  lemma MintKeepsConserved(s: State, locked: nat, epoch: uint64, counts: map<string, uint64>)
    requires Conserved(s, locked) && Solvent(s) && epoch > s.pool.value.epoch
    ensures Conserved(Mint(s, epoch, counts).0, locked)
  {
    CreditsFit(s, locked, counts);
    MintEffect(s, epoch, counts);
    var (after, r) := Mint(s, epoch, counts);
    RecordKeepsConserved(s, after, locked, PlanMint(s.pool.value, CurrentParams(s), counts), r.value);
  }

  lemma MintKeepsSolvent(s: State, locked: nat, epoch: uint64, counts: map<string, uint64>)
    requires Conserved(s, locked) && Solvent(s) && epoch > s.pool.value.epoch
    ensures Solvent(Mint(s, epoch, counts).0)
  {
    CreditsFit(s, locked, counts);
    MintEffect(s, epoch, counts);
    assert epoch !in s.daily;
    ValidatorSharesAdd(s.daily, Mint(s, epoch, counts).1.value);
    forall a
      ensures var l := Mint(s, epoch, counts).0.ledger; Amount(l.lifetime, a) == Amount(l.pending, a) + ClaimedBy(s.events, a)
    {
      var _ := CreditsMatch(s, locked, counts, a);
    }
  }

  lemma MintKeepsSound(w: World, locked: nat, epoch: uint64, counts: map<string, uint64>)
    requires Sound(w, locked)
    ensures Sound(w.(em := Mint(w.em, epoch, counts).0), locked)
  {
    MintCompletes(w.em, locked, epoch, counts);
    if epoch > w.em.pool.value.epoch {
      CreditsFit(w.em, locked, counts);
      MintEffect(w.em, epoch, counts);
      MintKeepsConserved(w.em, locked, epoch, counts);
      MintKeepsSolvent(w.em, locked, epoch, counts);
    }
  }

  // ----- claims and migrations -----

  /** In a sound state no claim ever lacks funds or meets an unreadable entry. */
  lemma ClaimIsFunded(env: Env, w: World, locked: nat, signer: string, passkey: string)
    requires Sound(w, locked)
    ensures Claim(env, w.em, w.aliases, signer, passkey) != Failure(InsufficientFunds)
    ensures Claim(env, w.em, w.aliases, signer, passkey) != Failure(CorruptLedger)
  {
    hide Conserved, PaidToAlias, ClaimedBy, ClaimedInAll, ValidatorShares;
    Tally.TotalAtLeast(Amounts(w.em.ledger.pending), passkey);
  }

  lemma ClaimedByAppend(events: seq<ClaimEvent>, e: ClaimEvent, a: string)
    ensures ClaimedBy(events + [e], a) == ClaimedBy(events, a) + (if e.passkey == a then e.amount else 0)
    ensures ClaimedInAll(events + [e]) == ClaimedInAll(events) + e.amount
  {
    assert (events + [e])[..|events + [e]| - 1] == events;
  }

  /** Paying out a pending amount keeps the ledger solvent. */
  lemma PayoutKeepsSolvent(s: State, after: State, e: ClaimEvent)
    requires Solvent(s) && Amount(s.ledger.pending, e.passkey) == e.amount <= s.moduleBalance
    requires after.ledger == Ledger(s.ledger.pending[e.passkey := Decimal.Format(0)], s.ledger.lifetime)
    requires after.moduleBalance == s.moduleBalance - e.amount
    requires after.events == s.events + [e]
    requires after.pool == s.pool && after.daily == s.daily
    ensures Solvent(after)
  {
    SetAmount(s.ledger.pending, e.passkey, 0);
    forall a
      ensures Amount(after.ledger.lifetime, a) == Amount(after.ledger.pending, a) + ClaimedBy(after.events, a)
    {
      ClaimedByAppend(s.events, e, a);
    }
    ClaimedByAppend(s.events, e, e.passkey);
  }

  lemma ClaimKeepsPaid(env: Env, w: World, signer: string, passkey: string)
    requires PaidToAlias(w) && Claim(env, w.em, w.aliases, signer, passkey).Success?
    ensures PaidToAlias(w.(em := Claim(env, w.em, w.aliases, signer, passkey).value))
  {
  }

  lemma ClaimKeepsSound(env: Env, w: World, locked: nat, signer: string, passkey: string)
    requires Sound(w, locked)
    requires Claim(env, w.em, w.aliases, signer, passkey).Success?
    ensures Sound(w.(em := Claim(env, w.em, w.aliases, signer, passkey).value), locked)
  {
    hide ClaimedBy, ClaimedInAll, Emitted, ValidatorShares, Tally.Total, Decimal.Format, PaidToAlias;
    var after := Claim(env, w.em, w.aliases, signer, passkey).value;
    PayoutKeepsSolvent(w.em, after, ClaimEvent(passkey, signer, Amount(w.em.ledger.pending, passkey)));
    ClaimKeepsPaid(env, w, signer, passkey);
  }

  lemma ExtensionKeepsSound(w: World, locked: nat, aliases: Identity.Aliases)
    requires Sound(w, locked) && Identity.Extends(w.aliases, aliases)
    ensures Sound(w.(aliases := aliases), locked)
  {
  }

  lemma StepKeepsSound(env: Env, gov: string, w: World, locked: nat, a: Action)
    requires Sound(w, locked)
    ensures Sound(Step(env, gov, w, a), locked)
  {
    match a
    case EpochEnd(epoch, counts) => MintKeepsSound(w, locked, epoch, counts);
    case GovernanceMint(_, epoch, counts) => MintKeepsSound(w, locked, epoch, counts);
    case UpdateParams(_, _) =>
    case ClaimReward(signer, passkey) =>
      if Claim(env, w.em, w.aliases, signer, passkey).Success? {
        ClaimKeepsSound(env, w, locked, signer, passkey);
      }
    case MigrateIdentity(msg, height) =>
      if Identity.Migrate(env, w.aliases, msg, height).Success? {
        Identity.MigrateExtends(env, w.aliases, msg, height);
        ExtensionKeepsSound(w, locked, Identity.Migrate(env, w.aliases, msg, height).value);
      }
  }

  // ----- theorems over whole runs -----

  /** Conservation and solvency hold after every run from every sound state. */
  lemma {:induction false} RunKeepsSound(env: Env, gov: string, w: World, locked: nat, actions: seq<Action>)
    requires Sound(w, locked)
    ensures Sound(Run(env, gov, w, actions), locked)
  {
    if actions != [] {
      var prefix := actions[..|actions| - 1];
      RunKeepsSound(env, gov, w, locked, prefix);
      StepKeepsSound(env, gov, Run(env, gov, w, prefix), locked, actions[|actions| - 1]);
    }
  }

  /** The default genesis locks 890,000,000,000,000 uvibe, for any registered aliases. */
  lemma GenesisIsSound(aliases: Identity.Aliases)
    ensures Sound(World(GENESIS, aliases), 890_000_000_000_000)
  {
    assert Emitted(GENESIS.daily) == map[] && ValidatorShares(GENESIS.daily) == map[];
    assert Amounts(GENESIS.ledger.pending) == map[] == Amounts(GENESIS.ledger.lifetime);
  }

  lemma MintRaisesLifetime(s: State, locked: nat, epoch: uint64, counts: map<string, uint64>, passkey: string)
    requires Conserved(s, locked) && Solvent(s)
    ensures var after := Mint(s, epoch, counts).0;
            LedgerReadable(after.ledger) && Amount(s.ledger.lifetime, passkey) <= Amount(after.ledger.lifetime, passkey)
  {
    MintCompletes(s, locked, epoch, counts);
    if epoch > s.pool.value.epoch {
      CreditsFit(s, locked, counts);
      MintEffect(s, epoch, counts);
      var _ := CreditsMatch(s, locked, counts, passkey);
    }
  }

  lemma OnlyMintsTouchLifetime(env: Env, gov: string, w: World, a: Action)
    requires !a.EpochEnd? && !a.GovernanceMint?
    ensures Step(env, gov, w, a).em.ledger.lifetime == w.em.ledger.lifetime
  {
  }

  lemma LifetimeStep(env: Env, gov: string, w: World, locked: nat, a: Action, passkey: string)
    requires Conserved(w.em, locked) && Solvent(w.em)
    ensures var after := Step(env, gov, w, a).em.ledger.lifetime;
            Readable(after) && Amount(w.em.ledger.lifetime, passkey) <= Amount(after, passkey)
  {
    if a.EpochEnd? || a.GovernanceMint? {
      MintRaisesLifetime(w.em, locked, a.epoch, a.counts, passkey);
    } else {
      OnlyMintsTouchLifetime(env, gov, w, a);
    }
  }

  /** A lifetime reward never decreases along a run. */
  lemma {:induction false} LifetimeNeverDecreases(
    env: Env, gov: string, w: World, locked: nat, actions: seq<Action>, passkey: string)
    requires Sound(w, locked)
    ensures Sound(Run(env, gov, w, actions), locked)
    ensures Amount(w.em.ledger.lifetime, passkey) <= Amount(Run(env, gov, w, actions).em.ledger.lifetime, passkey)
  {
    if actions != [] {
      var prefix, a := actions[..|actions| - 1], actions[|actions| - 1];
      var mid := Run(env, gov, w, prefix);
      LifetimeNeverDecreases(env, gov, w, locked, prefix, passkey);
      StepKeepsSound(env, gov, mid, locked, a);
      LifetimeStep(env, gov, mid, locked, a, passkey);
    }
  }

  /** All payments ever made for one passkey went to one wallet. */
  lemma OneWalletPerPasskey(env: Env, gov: string, w: World, locked: nat, actions: seq<Action>, i: nat, j: nat)
    requires Sound(w, locked)
    requires var events := Run(env, gov, w, actions).em.events;
             i < |events| && j < |events| && events[i].passkey == events[j].passkey
    ensures var events := Run(env, gov, w, actions).em.events; events[i].wallet == events[j].wallet
  {
    RunKeepsSound(env, gov, w, locked, actions);
  }

  // ----- when a mint can stop half way -----

  predicate Unreadable(l: Ledger, a: string) {
    !(EntryReadable(l.pending, a) && EntryReadable(l.lifetime, a))
  }

  /**
   * Past the epoch guard a mint fails, after having written rewards or coins, exactly when the
   * pool's shares do not make 100 or a payee's stored amount is not a decimal uint64.
   */
  lemma MintFailsIff(s: State, epoch: uint64, counts: map<string, uint64>)
    requires s.pool.Some? && epoch > s.pool.value.epoch
    ensures var plan := PlanMint(s.pool.value, CurrentParams(s), counts);
            Mint(s, epoch, counts).1.Failure? <==>
              || !SharesValid(s.pool.value)
              || (plan.share > 0 && exists a :: a in plan.payees && Unreadable(s.ledger, a))
  {
    var plan := PlanMint(s.pool.value, CurrentParams(s), counts);
    CreditAllFailsIff(s.ledger, plan.payees, plan.share);
  }

  /**
   * Not every pool is safe: with shares 0 + 0 the hook of epoch 1 credits and mints a reward, fails,
   * and leaves the pool as it was, so that the next hook pays from the same coins again.
   */
  lemma HalfAppliedMint(s: State)
    requires s == GENESIS.(pool := Some(DEFAULT_POOL.(operatorShare := 0, validatorShare := 0)))
    ensures var (after, r) := Mint(s, 1, map["contributor" := 1]);
            r == Failure(InvalidEmissionPool) && after.pool == s.pool && after.moduleBalance == 27_397_260_273
  {
    var counts := map["contributor" := 1 as uint64];
    PayeesAreQualifying(counts, 1);
    assert Qualifying(counts, 1) == {"contributor"};
    var payees := Payees(counts, 1);
    OnlyPayee(payees);
    FirstAmounts();
    CreditAllFailsIff(s.ledger, payees, 27_397_260_273);
    assert PlanMint(s.pool.value, CurrentParams(s), counts) == Split(48_801_369_863, 27_397_260_273, 0, payees);
  }

  lemma FirstAmounts()
    ensures ValidatorEmission(DEFAULT_POOL.validatorPool, 11_680) == 48_801_369_863
    ensures ContributorBudget(DEFAULT_POOL.contributorPool, 11_680, DEFAULT_PARAMS.annualCap) == 27_397_260_273
  {
  }

  lemma OnlyPayee(payees: seq<string>)
    requires |payees| == 1
    ensures Split(48_801_369_863, 27_397_260_273, 0, payees) ==
            Plan(48_801_369_863, 27_397_260_273, payees, 27_397_260_273, 27_397_260_273, 0)
  {
  }
}
