/** The emissions keeper as it runs: fields rewritten step by step, proved against `Emissions`. */
module EmissionsKeeper {
  import opened Numbers
  import opened Wrappers
  import opened Externals
  import opened Emissions
  import Identity
  import Decimal
  import Lex

  const EPOCH_IDENTIFIER := "wevibe_epoch"

  class Keeper {
    var pool: Option<EmissionPool>
    var params: Option<Params>
    var daily: map<uint64, DailyEmission>
    var pending: map<string, string>
    var lifetime: map<string, string>
    var moduleBalance: nat
    var wallets: map<string, nat>
    var events: seq<ClaimEvent>

    /** InitGenesis with the default state. */
    constructor ()
      ensures Value() == GENESIS
    {
      pool, params, daily := Some(DEFAULT_POOL), Some(DEFAULT_PARAMS), map[];
      pending, lifetime := map[], map[];
      moduleBalance, wallets, events := 0, map[], [];
    }

    ghost function Value(): State
      reads this
    {
      State(pool, params, daily, Ledger(pending, lifetime), moduleBalance, wallets, events)
    }

    method AddContributorReward(addr: string, amount: uint64) returns (ok: bool)
      modifies this`pending, this`lifetime
      ensures (Ledger(pending, lifetime), ok) == AddReward(old(Ledger(pending, lifetime)), addr, amount)
    {
      var current: uint64 := 0;
      if addr in pending {
        var parsed := Decimal.ParseUint(pending[addr]);
        if parsed.None? {
          return false;
        }
        current := parsed.value;
      }
      pending := pending[addr := Decimal.Format(Wrap(current + amount))];

      current := 0;
      if addr in lifetime {
        var parsed := Decimal.ParseUint(lifetime[addr]);
        if parsed.None? {
          return false;
        }
        current := parsed.value;
      }
      lifetime := lifetime[addr := Decimal.Format(Wrap(current + amount))];
      return true;
    }

    /** Iterates the approvals map in an unspecified order, filters and sorts. */
    method CollectPayees(counts: map<string, uint64>, threshold: uint64) returns (payees: seq<string>)
      ensures payees == Payees(counts, threshold)
    {
      var qualifying: seq<string> := [];
      var rest := counts.Keys;
      while rest != {}
        invariant rest <= counts.Keys
        invariant multiset(qualifying) == multiset(Qualifying(counts, threshold) - rest)
        decreases |rest|
      {
        var addr :| addr in rest;
        if addr != "" && counts[addr] >= threshold {
          assert Qualifying(counts, threshold) - (rest - {addr}) == Qualifying(counts, threshold) - rest + {addr};
          qualifying := qualifying + [addr];
        } else {
          assert Qualifying(counts, threshold) - (rest - {addr}) == Qualifying(counts, threshold) - rest;
        }
        rest := rest - {addr};
      }
      assert Qualifying(counts, threshold) - rest == Qualifying(counts, threshold);
      Lex.OrderedUnique(Qualifying(counts, threshold), qualifying);
      payees := Lex.Sort(Lex.Codes, qualifying);
    }

    method CreditPayees(payees: seq<string>, share: uint64) returns (ok: bool)
      modifies this`pending, this`lifetime
      ensures (Ledger(pending, lifetime), ok) == CreditAll(old(Ledger(pending, lifetime)), payees, share)
    {
      ghost var target := CreditAll(Ledger(pending, lifetime), payees, share);
      for i := 0 to |payees|
        invariant CreditAll(Ledger(pending, lifetime), payees[i..], share) == target
      {
        if share > 0 {
          assert payees[i..][0] == payees[i] && payees[i..][1..] == payees[i + 1..];
          ok := AddContributorReward(payees[i], share);
          if !ok {
            return;
          }
        }
      }
      return true;
    }

    /** The two pools' shares of this epoch: what is left divided by the epochs left, one of them capped. */
    method EpochAmounts(p: EmissionPool, current: Params) returns (validator: uint64, budget: uint64)
      ensures var epochs := RemainingEpochs(current.duration, p.elapsed);
              && validator == ValidatorEmission(p.validatorPool, epochs)
              && budget == ContributorBudget(p.contributorPool, epochs, current.annualCap)
      ensures validator <= p.validatorPool && budget <= p.contributorPool
    {
      var remaining: uint64 := 1;
      if current.duration > p.elapsed {
        remaining := current.duration - p.elapsed;
      }
      validator := 0;
      if p.validatorPool > 0 {
        validator := p.validatorPool / remaining;
        if validator > p.validatorPool {
          validator := p.validatorPool;
        }
      }
      budget := 0;
      if p.contributorPool > 0 {
        budget := p.contributorPool / remaining;
        var epochCap := current.annualCap / EPOCHS_PER_YEAR;
        if epochCap > 0 && budget > epochCap {
          budget := epochCap;
        }
        if budget > p.contributorPool {
          budget := p.contributorPool;
        }
      }
    }

    method Distribute(payees: seq<string>, ghost validator: uint64, budget: uint64, carried: uint64)
      returns (ok: bool, distributed: uint64, rollover: uint64)
      modifies this`pending, this`lifetime
      ensures var plan := Split(validator, budget, carried, payees);
              && (Ledger(pending, lifetime), ok) == CreditAll(old(Ledger(pending, lifetime)), payees, plan.share)
              && (ok ==> distributed == plan.distributed && rollover == plan.rollover)
    {
      if |payees| == 0 {
        return true, 0, Wrap(carried + budget);
      }
      var total := Wrap(budget + carried);
      var share := total / |payees|;
      ok := CreditPayees(payees, share);
      distributed := Wrap(share * |payees|);
      rollover := total % |payees|;
    }

    /**
     * Whatever order the approvals are iterated in, the outcome is the one `Mint` determines,
     * including the partial writes of a mint that stops half way.
     */
    method MintDailyEmission(epoch: uint64, counts: map<string, uint64>) returns (r: Result<DailyEmission, Error>)
      modifies this
      ensures (Value(), r) == Mint(old(Value()), epoch, counts)
    {
      if pool.None? {
        return Failure(NoEmissionPool);
      }
      var p := pool.value;
      if epoch <= p.epoch {
        return Failure(StaleEpoch);
      }
      var current := params.GetOr(DEFAULT_PARAMS);
      var validatorEmission, budget := EpochAmounts(p, current);
      var payees := CollectPayees(counts, current.threshold);
      ghost var plan := PlanMint(p, current, counts);
      assert plan == Split(validatorEmission, budget, p.rollover, payees);
      var ok, distributed, rollover := Distribute(payees, validatorEmission, budget, p.rollover);
      if !ok {
        return Failure(CorruptLedger);
      }
      r := SettleMint(p, epoch, validatorEmission, budget, distributed, rollover, plan);
    }

    method SettleMint(
      p: EmissionPool, epoch: uint64, validator: uint64, budget: uint64, distributed: uint64, rollover: uint64,
      ghost plan: Plan)
      returns (r: Result<DailyEmission, Error>)
      requires plan.validator == validator <= p.validatorPool && plan.budget == budget <= p.contributorPool
      requires plan.distributed == distributed && plan.rollover == rollover
      modifies this`moduleBalance, this`daily, this`pool
      ensures (Value(), r) == Settle(old(Value()), p, epoch, plan)
    {
      if distributed > 0 {
        moduleBalance := moduleBalance + distributed;
      }
      var record := DailyEmission(epoch, Wrap(validator as int + distributed), validator);
      daily := daily[epoch := record];
      var ok := SetEmissionPool(p.(
        validatorPool := p.validatorPool - validator,
        contributorPool := p.contributorPool - budget,
        rollover := rollover,
        startEpoch := if p.startEpoch == 0 && p.elapsed == 0 then epoch else p.startEpoch,
        elapsed := Wrap(p.elapsed + 1),
        epoch := epoch,
        totalSupply := Wrap(p.totalSupply + record.totalEmitted)));
      return if ok then Success(record) else Failure(InvalidEmissionPool);
    }

    method SetEmissionPool(p: EmissionPool) returns (ok: bool)
      modifies this`pool
      ensures ok == SharesValid(p)
      ensures pool == if ok then Some(p) else old(pool)
    {
      ok := Wrap(p.operatorShare + p.validatorShare) == 100;
      if ok {
        pool := Some(p);
      }
    }

    /** The epoch hook: foreign identifiers are ignored and a failed mint is swallowed. */
    method AfterEpochEnd(identifier: string, epoch: uint64, counts: map<string, uint64>)
      modifies this
      ensures identifier != EPOCH_IDENTIFIER ==> Value() == old(Value())
      ensures identifier == EPOCH_IDENTIFIER ==> Value() == Mint(old(Value()), epoch, counts).0
    {
      if identifier == EPOCH_IDENTIFIER {
        var _ := MintDailyEmission(epoch, counts);
      }
    }

    /** The governance message: a failed mint is rolled back. */
    method HandleMint(gov: string, authority: string, epoch: uint64, counts: map<string, uint64>)
      returns (r: Result<DailyEmission, Error>)
      modifies this
      ensures authority == "" || epoch == 0 ==> r == Failure(InvalidMessage)
      ensures authority != "" && epoch != 0 && authority != gov ==> r == Failure(Unauthorized)
      ensures authority != "" && epoch != 0 && authority == gov ==> r == Mint(old(Value()), epoch, counts).1
      ensures Value() == if r.Success? then Mint(old(Value()), epoch, counts).0 else old(Value())
    {
      hide Mint;
      if authority == "" || epoch == 0 {
        return Failure(InvalidMessage);
      }
      if authority != gov {
        return Failure(Unauthorized);
      }
      var saved := (pool, params, daily, pending, lifetime, moduleBalance, wallets, events);
      r := MintDailyEmission(epoch, counts);
      if r.Failure? {
        pool, params, daily, pending := saved.0, saved.1, saved.2, saved.3;
        lifetime, moduleBalance, wallets, events := saved.4, saved.5, saved.6, saved.7;
      }
    }

    method UpdateParams(gov: string, authority: string, p: Params) returns (r: Result<(), Error>)
      modifies this`params
      ensures r == (if authority != gov then Failure(Unauthorized)
                    else if !ParamsValid(p) then Failure(InvalidParams) else Success(()))
      ensures params == if r.Success? then Some(p) else old(params)
    {
      if authority != gov {
        return Failure(Unauthorized);
      }
      if Wrap(p.operatorShare + p.validatorShare) != 100 || Wrap(p.storageWeight + p.retrievalWeight) != 100 {
        return Failure(InvalidParams);
      }
      params := Some(p);
      return Success(());
    }

    method ClaimContributorReward(env: Env, identity: Identity.Keeper, signer: string, passkey: string)
      returns (r: Result<uint64, Error>)
      modifies this
      ensures r.Failure? ==> Value() == old(Value())
      ensures Claim(env, old(Value()), identity.aliases, signer, passkey) ==
              if r.Success? then Success(Value()) else Failure(r.error)
      ensures r.Success? ==> events == old(events) + [ClaimEvent(passkey, signer, r.value)]
    {
      if signer == "" || passkey == "" {
        return Failure(InvalidMessage);
      }
      var wallet, migrated, found := identity.ResolveIdentity(passkey);
      if !found || !migrated {
        return Failure(NotMigrated);
      }
      if wallet != signer {
        return Failure(UnauthorizedClaim);
      }
      var balance: uint64 := 0;
      if passkey in pending {
        var parsed := Decimal.ParseUint(pending[passkey]);
        if parsed.None? {
          return Failure(CorruptLedger);
        }
        balance := parsed.value;
      }
      if balance == 0 {
        return Failure(NothingToClaim);
      }
      if !env.validAddress(signer) {
        return Failure(InvalidWallet);
      }
      if env.blocked(signer) {
        return Failure(Blocked);
      }
      if balance > moduleBalance {
        return Failure(InsufficientFunds);
      }
      moduleBalance := moduleBalance - balance;
      wallets := wallets[signer := (if signer in wallets then wallets[signer] else 0) + balance];
      pending := pending[passkey := Decimal.Format(0)];
      events := events + [ClaimEvent(passkey, signer, balance)];
      return Success(balance);
    }
  }
}
