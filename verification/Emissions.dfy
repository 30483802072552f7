/**
 * x/emissions: the emission schedule and the contributor reward ledger as values.
 * `Mint` is the whole of MintDailyEmission, including what it leaves behind when it fails.
 */
module Emissions {
  import opened Numbers
  import opened Wrappers
  import opened Externals
  import Identity
  import Decimal
  import Lex

  datatype EmissionPool = EmissionPool(
    totalSupply: uint64, dailyMint: uint64, operatorShare: uint64, validatorShare: uint64, epoch: uint64,
    validatorPool: uint64, contributorPool: uint64, rollover: uint64, startEpoch: uint64, elapsed: uint64)

  datatype Params = Params(
    dailyMint: uint64, operatorShare: uint64, validatorShare: uint64, storageWeight: uint64, retrievalWeight: uint64,
    validatorEmissionPool: uint64, annualCap: uint64, duration: uint64, threshold: uint64)

  datatype DailyEmission = DailyEmission(epoch: uint64, totalEmitted: uint64, validatorShare: uint64)

  /** Pending and lifetime rewards, each amount kept as decimal text. */
  datatype Ledger = Ledger(pending: map<string, string>, lifetime: map<string, string>)

  datatype ClaimEvent = ClaimEvent(passkey: string, wallet: string, amount: uint64)

  datatype State = State(
    pool: Option<EmissionPool>, params: Option<Params>, daily: map<uint64, DailyEmission>, ledger: Ledger,
    moduleBalance: nat, wallets: map<string, nat>, events: seq<ClaimEvent>)

  datatype Error =
    | NoEmissionPool | StaleEpoch | CorruptLedger | InvalidEmissionPool | InvalidMessage | Unauthorized
    | InvalidParams | NotMigrated | UnauthorizedClaim | NothingToClaim | InvalidWallet | Blocked | InsufficientFunds

  const EPOCHS_PER_YEAR := 365

  const DEFAULT_PARAMS := Params(
    1_000_000_000, 80, 20, 30, 70, 570_000_000_000_000, 10_000_000_000_000, 11_680, 1)

  const DEFAULT_POOL := EmissionPool(
    0, DEFAULT_PARAMS.dailyMint, DEFAULT_PARAMS.operatorShare, DEFAULT_PARAMS.validatorShare, 0,
    DEFAULT_PARAMS.validatorEmissionPool,
    DEFAULT_PARAMS.annualCap * (DEFAULT_PARAMS.duration / EPOCHS_PER_YEAR), 0, 0, 0)

  const GENESIS := State(
    Some(DEFAULT_POOL), Some(DEFAULT_PARAMS), map[], Ledger(map[], map[]), 0, map[], [])

  function CurrentParams(s: State): Params {
    s.params.GetOr(DEFAULT_PARAMS)
  }

  /** EmissionPool.Validate: the two shares, added in 64 bits, make 100. */
  predicate SharesValid(pool: EmissionPool) {
    Wrap(pool.operatorShare + pool.validatorShare) == 100
  }

  function RemainingEpochs(duration: uint64, elapsed: uint64): (n: uint64)
    ensures n >= 1
  {
    if duration > elapsed then duration - elapsed else 1
  }

  function ValidatorEmission(pool: uint64, epochs: uint64): (e: uint64)
    requires epochs >= 1
    ensures e <= pool
  {
    if pool > 0 then Min(pool / epochs, pool) else 0
  }

  function ContributorBudget(pool: uint64, epochs: uint64, annualCap: uint64): (b: uint64)
    requires epochs >= 1
    ensures b <= pool
    ensures annualCap >= EPOCHS_PER_YEAR ==> b <= annualCap / EPOCHS_PER_YEAR
  {
    if pool == 0 then 0
    else
      var even := pool / epochs;
      var cap := annualCap / EPOCHS_PER_YEAR;
      var capped := if cap > 0 && even > cap then cap else even;
      Min(capped, pool)
  }

  function Qualifying(counts: map<string, uint64>, threshold: uint64): set<string> {
    set a | a in counts && a != "" && counts[a] >= threshold
  }

  ghost function Payees(counts: map<string, uint64>, threshold: uint64): seq<string> {
    Lex.Ordered(Qualifying(counts, threshold))
  }

  /** The amounts one mint moves. */
  datatype Plan = Plan(
    validator: uint64, budget: uint64, payees: seq<string>, share: uint64, distributed: uint64, rollover: uint64)

  /** Without payees the budget rolls over; otherwise budget and rollover are split evenly. */
  function Split(validator: uint64, budget: uint64, rollover: uint64, payees: seq<string>): (plan: Plan)
    ensures plan.validator == validator && plan.budget == budget && plan.payees == payees
  {
    if payees == [] then Plan(validator, budget, [], 0, 0, Wrap(rollover + budget))
    else
      var total := Wrap(budget + rollover);
      Plan(validator, budget, payees, total / |payees|, Wrap(total / |payees| * |payees|), total % |payees|)
  }

  ghost function PlanMint(pool: EmissionPool, params: Params, counts: map<string, uint64>): (plan: Plan)
    ensures plan.validator <= pool.validatorPool && plan.budget <= pool.contributorPool
  {
    var epochs := RemainingEpochs(params.duration, pool.elapsed);
    Split(ValidatorEmission(pool.validatorPool, epochs),
          ContributorBudget(pool.contributorPool, epochs, params.annualCap),
          pool.rollover, Payees(counts, params.threshold))
  }

  /** Adds to one decimal entry; a malformed entry stops the caller. */
  function AddText(entries: map<string, string>, addr: string, amount: uint64): Option<map<string, string>> {
    if addr !in entries then Some(entries[addr := Decimal.Format(amount)])
    else
      match Decimal.ParseUint(entries[addr])
      case None => None
      case Some(current) => Some(entries[addr := Decimal.Format(Wrap(current + amount))])
  }

  /** AddContributorReward: the ledger it leaves and whether it succeeded. */
  function AddReward(l: Ledger, addr: string, amount: uint64): (Ledger, bool) {
    match AddText(l.pending, addr, amount)
    case None => (l, false)
    case Some(pending) =>
      match AddText(l.lifetime, addr, amount)
      case None => (l.(pending := pending), false)
      case Some(lifetime) => (Ledger(pending, lifetime), true)
  }

  function CreditAll(l: Ledger, payees: seq<string>, share: uint64): (Ledger, bool)
    decreases payees
  {
    if payees == [] || share == 0 then (l, true)
    else
      var (l', ok) := AddReward(l, payees[0], share);
      if ok then CreditAll(l', payees[1..], share) else (l', false)
  }

  function Advance(pool: EmissionPool, epoch: uint64, plan: Plan): EmissionPool
    requires plan.validator <= pool.validatorPool && plan.budget <= pool.contributorPool
  {
    pool.(validatorPool := pool.validatorPool - plan.validator,
          contributorPool := pool.contributorPool - plan.budget,
          rollover := plan.rollover,
          startEpoch := if pool.startEpoch == 0 && pool.elapsed == 0 then epoch else pool.startEpoch,
          elapsed := Wrap(pool.elapsed + 1),
          epoch := epoch,
          totalSupply := Wrap(pool.totalSupply + Wrap(plan.validator + plan.distributed)))
  }

  /** The end of a mint, once the payees are credited: coins, daily record, and the pool if it is valid. */
  function Settle(s: State, pool: EmissionPool, epoch: uint64, plan: Plan): (State, Result<DailyEmission, Error>)
    requires plan.validator <= pool.validatorPool && plan.budget <= pool.contributorPool
  {
    var record := DailyEmission(epoch, Wrap(plan.validator + plan.distributed), plan.validator);
    var s1 := s.(moduleBalance := s.moduleBalance + plan.distributed, daily := s.daily[epoch := record]);
    if SharesValid(pool) then (s1.(pool := Some(Advance(pool, epoch, plan))), Success(record))
    else (s1, Failure(InvalidEmissionPool))
  }

  /** MintDailyEmission: the state it leaves, also when it stops half way, and its result. */
  ghost function Mint(s: State, epoch: uint64, counts: map<string, uint64>): (State, Result<DailyEmission, Error>) {
    if s.pool.None? then (s, Failure(NoEmissionPool))
    else if epoch <= s.pool.value.epoch then (s, Failure(StaleEpoch))
    else
      var plan := PlanMint(s.pool.value, CurrentParams(s), counts);
      var (ledger, ok) := CreditAll(s.ledger, plan.payees, plan.share);
      if ok then Settle(s.(ledger := ledger), s.pool.value, epoch, plan)
      else (s.(ledger := ledger), Failure(CorruptLedger))
  }

  predicate ParamsValid(p: Params) {
    Wrap(p.operatorShare + p.validatorShare) == 100 && Wrap(p.storageWeight + p.retrievalWeight) == 100
  }

  /** ClaimContributorReward, as one transaction: a failure changes nothing. */
  function Claim(env: Env, s: State, aliases: Identity.Aliases, signer: string, passkey: string): Result<State, Error> {
    var known := passkey in aliases && aliases[passkey].migrated;
    :- Need(signer != "" && passkey != "", InvalidMessage);
    :- Need(known, NotMigrated);
    :- Need(aliases[passkey].wallet == signer, UnauthorizedClaim);
    :- Need(passkey !in s.ledger.pending || Decimal.ParseUint(s.ledger.pending[passkey]).Some?, CorruptLedger);
    var balance := if passkey in s.ledger.pending then Decimal.ParseUint(s.ledger.pending[passkey]).value else 0;
    :- Need(balance > 0, NothingToClaim);
    :- Need(env.validAddress(signer), InvalidWallet);
    :- Need(!env.blocked(signer), Blocked);
    :- Need(balance <= s.moduleBalance, InsufficientFunds);
    Success(s.(moduleBalance := s.moduleBalance - balance,
               wallets := s.wallets[signer := (if signer in s.wallets then s.wallets[signer] else 0) + balance],
               ledger := s.ledger.(pending := s.ledger.pending[passkey := Decimal.Format(0)]),
               events := s.events + [ClaimEvent(passkey, signer, balance)]))
  }
}
