/**
 * The epoch protocol across modules.  The memory hook records an epoch only after the emissions hook
 * has minted it, approvals are stamped with the recorded epoch, and a mint counts the stamps of the
 * epoch it mints.  So the pool is never behind the recorded epoch, and no mint ever finds an approval.
 */
module EpochOrder {
  import opened Numbers
  import opened Wrappers
  import opened Externals
  import opened Emissions
  import opened Economy
  import opened RewardLedger
  import Chain
  import Custody
  import Decimal
  import Identity
  import Memory
  import Org

  // ----- increasing epochs -----

  /** The last epoch dispatched by a run, or the one it started from. */
  function LastEpoch(actions: seq<Chain.Action>, start: uint64): uint64 {
    if actions == [] then start
    else if actions[|actions| - 1].EpochEnd? then actions[|actions| - 1].epoch
    else LastEpoch(actions[..|actions| - 1], start)
  }

  /** Each dispatched epoch is later than the one before. */
  predicate Increasing(actions: seq<Chain.Action>, start: uint64) {
    actions == [] ||
    (var prefix, last := actions[..|actions| - 1], actions[|actions| - 1];
     Increasing(prefix, start) && (last.EpochEnd? ==> last.epoch > LastEpoch(prefix, start)))
  }

  // ----- the ordering invariant -----

  ghost predicate StampsUpTo(mem: Memory.State, epoch: uint64) {
    forall k :: k in mem.approved ==> mem.approved[k].approvedAt <= epoch
  }

  /** Minted epoch, recorded epoch, stamps: none is ahead of the one before. */
  ghost predicate Ordered(w: Chain.World) {
    && w.econ.em.pool.Some?
    && w.mem.epoch <= w.econ.em.pool.value.epoch
    && StampsUpTo(w.mem, w.mem.epoch)
  }

  /** No approval is stamped with an epoch that has not been recorded. */
  lemma NoApprovalsAhead(mem: Memory.State, epoch: uint64)
    requires StampsUpTo(mem, mem.epoch) && mem.epoch < epoch
    ensures Memory.Approvals(mem.approved, epoch) == map[]
  {
    assert Memory.Contributors(mem.approved, epoch) == {};
  }

  /** A mint without approvals pays the validators and carries the whole contributor budget over. */
  lemma IdleMint(s: State, locked: nat, epoch: uint64)
    requires Conserved(s, locked) && Solvent(s) && epoch > s.pool.value.epoch
    ensures var (after, r) := Mint(s, epoch, map[]);
            var (p, q) := (s.pool.value, after.pool);
            && r.Success? && r.value.totalEmitted == r.value.validatorShare
            && after == s.(pool := q, daily := after.daily)
            && q.Some? && q.value.epoch == epoch
            && q.value.rollover == p.rollover + (p.contributorPool - q.value.contributorPool)
  {
    hide Conserved, Solvent;
    CreditsFit(s, locked, map[]);
    assert s.pool.Some? && SharesValid(s.pool.value) && Locked(s.pool.value) < TWO64 && s.pool.value.elapsed <= s.pool.value.epoch by {
      ConservedPool(s, locked);
    }
    MintEffect(s, epoch, map[]);
    var plan := PlanMint(s.pool.value, CurrentParams(s), map[]);
    assert plan.payees == [] by {
      PayeesAreQualifying(map[], CurrentParams(s).threshold);
      assert |Qualifying(map[], CurrentParams(s).threshold)| == 0;
    }
    PlanConserves(s.pool.value, CurrentParams(s), map[]);
  }

  lemma ConservedPool(s: State, locked: nat)
    requires Conserved(s, locked)
    ensures s.pool.Some? && SharesValid(s.pool.value) && Locked(s.pool.value) < TWO64
    ensures s.pool.value.elapsed <= s.pool.value.epoch
  {
  }

  // ----- mints -----

  /** Any mint of an ordered chain, hook or message, either is stale or finds nobody to pay. */
  lemma MintOnChain(w: Chain.World, locked: nat, epoch: uint64)
    requires Ordered(w) && Sound(w.econ, locked)
    ensures var (after, r) := Mint(w.econ.em, epoch, Memory.Approvals(w.mem.approved, epoch));
            if epoch <= w.econ.em.pool.value.epoch then after == w.econ.em && r == Failure(StaleEpoch)
            else Memory.Approvals(w.mem.approved, epoch) == map[] && after == Mint(w.econ.em, epoch, map[]).0 && r.Success?
  {
    hide Sound, Conserved, Solvent;
    assert Conserved(w.econ.em, locked) && Solvent(w.econ.em) by { SoundParts(w.econ, locked); }
    MintCompletes(w.econ.em, locked, epoch, Memory.Approvals(w.mem.approved, epoch));
    if epoch > w.econ.em.pool.value.epoch {
      NoApprovalsAhead(w.mem, epoch);
    }
  }

  lemma SoundParts(w: World, locked: nat)
    requires Sound(w, locked)
    ensures Conserved(w.em, locked) && Solvent(w.em)
  {
  }

  /** The contributors' share of the pool that has not been paid out. */
  function Unpaid(p: EmissionPool): nat {
    p.contributorPool + p.rollover
  }

  /** Nobody is credited between the two states: lifetime rewards and the unpaid share stay, the minted epoch may advance. */
  ghost predicate NothingCredited(s: State, after: State) {
    && s.pool.Some? && after.pool.Some?
    && after.ledger.lifetime == s.ledger.lifetime
    && Unpaid(after.pool.value) == Unpaid(s.pool.value)
    && after.pool.value.epoch >= s.pool.value.epoch
  }

  lemma MintCreditsNobody(w: Chain.World, locked: nat, epoch: uint64)
    requires Ordered(w) && Sound(w.econ, locked)
    ensures var after := Mint(w.econ.em, epoch, Memory.Approvals(w.mem.approved, epoch)).0;
            && NothingCredited(w.econ.em, after) && after.ledger == w.econ.em.ledger
            && after.moduleBalance == w.econ.em.moduleBalance && after.events == w.econ.em.events
            && after.pool.value.epoch == if epoch > w.econ.em.pool.value.epoch then epoch else w.econ.em.pool.value.epoch
  {
    hide Sound, Conserved, Solvent, Mint;
    MintOnChain(w, locked, epoch);
    if epoch > w.econ.em.pool.value.epoch {
      SoundParts(w.econ, locked);
      IdleMint(w.econ.em, locked, epoch);
    }
  }

  /** With an empty ledger no claim succeeds. */
  lemma NoClaim(env: Env, s: State, aliases: Identity.Aliases, signer: string, passkey: string)
    requires s.ledger.pending == map[]
    ensures Claim(env, s, aliases, signer, passkey).Failure?
    ensures Claim(env, s, aliases, signer, passkey).error in {InvalidMessage, NotMigrated, UnauthorizedClaim, NothingToClaim}
  {
  }

  // ----- steps -----

  lemma ClaimCreditsNobody(env: Env, s: State, aliases: Identity.Aliases, signer: string, passkey: string)
    requires s.pool.Some? && Claim(env, s, aliases, signer, passkey).Success?
    ensures NothingCredited(s, Claim(env, s, aliases, signer, passkey).value)
  {
    hide Decimal.Format, Decimal.ParseUint;
  }

  lemma EconomyStepKeeps(x: Org.Setting, w: Chain.World, locked: nat, a: Chain.Action)
    requires Ordered(w) && Sound(w.econ, locked)
    ensures var after := Chain.EconomyStep(x, w, a).em;
            NothingCredited(w.econ.em, after) && (a.EpochEnd? ==> after.pool.value.epoch >= a.epoch)
  {
    hide Sound, Mint, Claim, Memory.Approvals, StampsUpTo, Identity.Migrate, ParamsValid;
    match a
    case EpochEnd(epoch) => MintCreditsNobody(w, locked, epoch);
    case GovernanceMint(_, epoch) => MintCreditsNobody(w, locked, epoch);
    case ClaimReward(signer, passkey) =>
      if Claim(x.env, w.econ.em, w.econ.aliases, signer, passkey).Success? {
        ClaimCreditsNobody(x.env, w.econ.em, w.econ.aliases, signer, passkey);
      }
    case _ =>
  }

  lemma EconomyStepSound(x: Org.Setting, w: Chain.World, locked: nat, a: Chain.Action)
    requires Sound(w.econ, locked)
    ensures Sound(Chain.EconomyStep(x, w, a), locked)
  {
    hide Sound, Step;
    match Chain.EconomyAction(w, a)
    case Some(e) => StepKeepsSound(x.env, x.gov, w.econ, locked, e);
    case None =>
  }

  /** Only the hook moves the recorded epoch, and new stamps carry it. */
  lemma StampsStep(x: Org.Setting, w: Chain.World, a: Chain.Action)
    requires Custody.InCustody(x.env, w.mem) && StampsUpTo(w.mem, w.mem.epoch)
    requires a.EpochEnd? ==> a.epoch >= w.mem.epoch
    ensures var mem := Chain.Step(x, w, a).mem;
            mem.epoch == (if a.EpochEnd? then a.epoch else w.mem.epoch) && StampsUpTo(mem, mem.epoch)
  {
    hide Custody.InCustody, Chain.EconomyStep, Memory.EpochEnd, Memory.Submit, Memory.Approve, Memory.FileReport, Org.Step;
    match a
    case EpochEnd(epoch) =>
      Custody.KeyedInCustody(x.env, w.mem);
      Custody.EpochEndEffect(w.mem, epoch);
    case SubmitCommitment(m) =>
      if Memory.Submit(w.mem, w.orgs, m).Success? {
        Custody.SubmitKeeps(x.env, w.mem, w.orgs, m);
      }
    case ApproveMemory(m, ok) =>
      if Memory.Approve(x.env, w.mem, w.orgs, m, ok).Success? {
        Custody.ApproveEffect(x.env, w.mem, w.orgs, m, ok);
      }
    case ReportMemory(m, ok) =>
      if Memory.FileReport(w.mem, w.orgs, m, ok).Success? {
        Custody.ReportKeeps(x.env, w.mem, w.orgs, m, ok);
      }
    case _ =>
  }

  // ----- runs -----

  /** Everything a run carries along. */
  ghost predicate InOrder(env: Env, w: Chain.World, locked: nat) {
    Ordered(w) && Sound(w.econ, locked) && Custody.InCustody(env, w.mem)
  }

  lemma StepKeepsOrder(x: Org.Setting, w: Chain.World, locked: nat, a: Chain.Action)
    requires InOrder(x.env, w, locked) && (a.EpochEnd? ==> a.epoch > w.mem.epoch)
    ensures InOrder(x.env, Chain.Step(x, w, a), locked) && NothingCredited(w.econ.em, Chain.Step(x, w, a).econ.em)
    ensures Chain.Step(x, w, a).mem.epoch == if a.EpochEnd? then a.epoch else w.mem.epoch
  {
    hide Sound, Custody.InCustody, Chain.EconomyStep, Chain.ContentStep, StampsUpTo;
    EconomyStepKeeps(x, w, locked, a);
    EconomyStepSound(x, w, locked, a);
    StampsStep(x, w, a);
    Custody.StepKeeps(x, w, a);
  }

  /** From any ordered chain the order holds after every run with increasing epochs, and nobody is credited again. */
  lemma {:induction false} RunKeepsOrder(x: Org.Setting, w: Chain.World, locked: nat, actions: seq<Chain.Action>)
    requires InOrder(x.env, w, locked) && Increasing(actions, w.mem.epoch)
    ensures InOrder(x.env, Chain.Run(x, w, actions), locked)
    ensures NothingCredited(w.econ.em, Chain.Run(x, w, actions).econ.em)
    ensures Chain.Run(x, w, actions).mem.epoch == LastEpoch(actions, w.mem.epoch)
  {
    assert w.econ.em.pool.Some?;
    hide InOrder, Chain.Step;
    if actions != [] {
      var prefix := actions[..|actions| - 1];
      RunKeepsOrder(x, w, locked, prefix);
      StepKeepsOrder(x, Chain.Run(x, w, prefix), locked, actions[|actions| - 1]);
    }
  }

  /** With nothing pending, no step touches the ledger, the module account or the payments. */
  lemma IdleStep(x: Org.Setting, w: Chain.World, locked: nat, a: Chain.Action)
    requires Ordered(w) && Sound(w.econ, locked) && w.econ.em.ledger.pending == map[]
    ensures var after := Chain.EconomyStep(x, w, a).em;
            && after.ledger == w.econ.em.ledger && after.moduleBalance == w.econ.em.moduleBalance
            && after.events == w.econ.em.events
  {
    hide Sound, Mint, Claim, Memory.Approvals, StampsUpTo, Identity.Migrate, ParamsValid;
    match a
    case EpochEnd(epoch) => MintCreditsNobody(w, locked, epoch);
    case GovernanceMint(_, epoch) => MintCreditsNobody(w, locked, epoch);
    case ClaimReward(signer, passkey) => NoClaim(x.env, w.econ.em, w.econ.aliases, signer, passkey);
    case _ =>
  }

  lemma {:induction false} IdleRun(x: Org.Setting, w: Chain.World, locked: nat, actions: seq<Chain.Action>)
    requires InOrder(x.env, w, locked) && Increasing(actions, w.mem.epoch) && w.econ.em.ledger.pending == map[]
    ensures var after := Chain.Run(x, w, actions).econ.em;
            && after.ledger == w.econ.em.ledger && after.moduleBalance == w.econ.em.moduleBalance
            && after.events == w.econ.em.events
  {
    hide Sound, Ordered, Custody.InCustody, Chain.EconomyStep, Chain.ContentStep;
    if actions != [] {
      var prefix := actions[..|actions| - 1];
      IdleRun(x, w, locked, prefix);
      RunKeepsOrder(x, w, locked, prefix);
      IdleStep(x, Chain.Run(x, w, prefix), locked, actions[|actions| - 1]);
    }
  }

  /** The default emission pool, a memory store with nothing but the marker, and any registry and aliases. */
  ghost function Genesis(orgs: Org.State, aliases: Identity.Aliases): Chain.World {
    Chain.World(World(GENESIS, aliases), orgs, Memory.STARTED)
  }

  lemma GenesisInOrder(env: Env, orgs: Org.State, aliases: Identity.Aliases)
    ensures InOrder(env, Genesis(orgs, aliases), 890_000_000_000_000)
    ensures Unpaid(GENESIS.pool.value) == 320_000_000_000_000
  {
    hide Sound, Custody.InCustody;
    GenesisIsSound(aliases);
    Custody.StartedInCustody(env);
  }

  /**
   * From genesis, whatever is approved: every mint finds no approvals, the ledger stays empty, the
   * contributors' 320,000,000,000,000 uvibe stay in the pool and the rollover, and no claim succeeds.
   */
  lemma NoRewardIsEverPaid(
    x: Org.Setting, orgs: Org.State, aliases: Identity.Aliases, actions: seq<Chain.Action>, epoch: uint64,
    signer: string, passkey: string)
    requires Increasing(actions, 0)
    ensures var w := Chain.Run(x, Genesis(orgs, aliases), actions);
            && Ordered(w)
            && (epoch > w.econ.em.pool.value.epoch ==> Memory.Approvals(w.mem.approved, epoch) == map[])
            && w.econ.em.ledger == Ledger(map[], map[]) && w.econ.em.moduleBalance == 0
            && Unpaid(w.econ.em.pool.value) == 320_000_000_000_000
            && Claim(x.env, w.econ.em, w.econ.aliases, signer, passkey).Failure?
  {
    hide Sound, Custody.InCustody, Chain.Step, Claim;
    GenesisInOrder(x.env, orgs, aliases);
    RunKeepsOrder(x, Genesis(orgs, aliases), 890_000_000_000_000, actions);
    IdleRun(x, Genesis(orgs, aliases), 890_000_000_000_000, actions);
    var w := Chain.Run(x, Genesis(orgs, aliases), actions);
    NoClaim(x.env, w.econ.em, w.econ.aliases, signer, passkey);
    if epoch > w.econ.em.pool.value.epoch {
      NoApprovalsAhead(w.mem, epoch);
    }
  }
}
