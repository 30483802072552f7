/** The closed forms of the two emission pools along every run that leaves the parameters alone. */
module Schedule {
  import opened Numbers
  import opened Wrappers
  import opened Externals
  import opened Emissions
  import opened Economy
  import Arith

  predicate ParamsUntouched(actions: seq<Action>) {
    forall i :: 0 <= i < |actions| ==> !actions[i].UpdateParams?
  }

  // ----- validators: pool / epochs left -----

  /** A schedule of zero days behaves like one of a single day. */
  function Horizon(duration: uint64): (d: nat)
    ensures d >= 1
  {
    if duration == 0 then 1 else duration
  }

  /** What is left of a pool of q * d + m after k mints: q for each epoch to come, plus the extras. */
  function ValidatorLeft(q: nat, m: nat, d: nat, k: nat): nat {
    if k <= d then q * (d - k) + Min(m, d - k) else 0
  }

  /** The k-th emission: q, one more in the last m epochs, nothing afterwards. */
  function ValidatorShareAt(q: nat, m: nat, d: nat, k: nat): nat {
    if k >= d then 0 else q + if d - k <= m then 1 else 0
  }

  lemma ValidatorMint(q: nat, m: nat, duration: uint64, elapsed: uint64, pool: uint64)
    requires pool == ValidatorLeft(q, m, Horizon(duration), elapsed)
    ensures var d, e := Horizon(duration), ValidatorEmission(pool, RemainingEpochs(duration, elapsed));
            && e == ValidatorShareAt(q, m, d, elapsed)
            && pool - e == ValidatorLeft(q, m, d, elapsed + 1)
  {
    var d := Horizon(duration);
    if elapsed < d {
      Arith.SpreadQuotient(q, m, d - elapsed, pool);
      Arith.SpreadRest(q, m, d - elapsed, pool, ValidatorShareAt(q, m, d, elapsed));
    }
  }

  /** The emissions never decrease until the schedule ends, and each is q or q + 1; the pool ends empty. */
  lemma ValidatorShareShape(q: nat, m: nat, d: nat, j: nat, k: nat)
    requires m < d && j <= k < d
    ensures ValidatorShareAt(q, m, d, j) <= ValidatorShareAt(q, m, d, k)
    ensures q <= ValidatorShareAt(q, m, d, j) <= q + 1
    ensures ValidatorLeft(q, m, d, 0) == q * d + m
    ensures ValidatorLeft(q, m, d, d) == 0
  {
  }

  /** What one mint does to the two pools, and the validator share it records. */
  lemma MintOnPool(s: State, locked: nat, epoch: uint64, counts: map<string, uint64>)
    requires Conserved(s, locked) && Solvent(s)
    ensures var pool, params, (after, r) := s.pool.value, CurrentParams(s), Mint(s, epoch, counts);
            var left := RemainingEpochs(params.duration, pool.elapsed);
            var e, b := ValidatorEmission(pool.validatorPool, left),
                        ContributorBudget(pool.contributorPool, left, params.annualCap);
            && after.pool.Some? && after.params == s.params
            && (r.Success? ==> && r.value.validatorShare == e
                               && after.pool.value.validatorPool == pool.validatorPool - e
                               && after.pool.value.contributorPool == pool.contributorPool - b
                               && after.pool.value.elapsed == pool.elapsed + 1)
            && (r.Failure? ==> after == s)
  {
    MintCompletes(s, locked, epoch, counts);
    if epoch > s.pool.value.epoch {
      CreditsFit(s, locked, counts);
      MintEffect(s, epoch, counts);
    }
  }

  /** Any other action leaves the pool alone; a mint takes one emission and one budget from it. */
  lemma PoolStep(env: Env, gov: string, w: World, locked: nat, a: Action)
    requires Sound(w, locked) && !a.UpdateParams?
    ensures var pool, params, after := w.em.pool.value, CurrentParams(w.em), Step(env, gov, w, a).em;
            var left := RemainingEpochs(params.duration, pool.elapsed);
            && after.pool.Some? && after.params == w.em.params
            && (|| after.pool.value == pool
                || (&& after.pool.value.elapsed == pool.elapsed + 1
                    && after.pool.value.validatorPool == pool.validatorPool - ValidatorEmission(pool.validatorPool, left)
                    && after.pool.value.contributorPool ==
                       pool.contributorPool - ContributorBudget(pool.contributorPool, left, params.annualCap)))
  {
    if a.EpochEnd? || a.GovernanceMint? {
      MintOnPool(w.em, locked, a.epoch, a.counts);
    }
  }

  ghost predicate OnValidatorSchedule(s: State, q: nat, m: nat) {
    && s.pool.Some?
    && s.pool.value.validatorPool ==
       ValidatorLeft(q, m, Horizon(CurrentParams(s).duration), s.pool.value.elapsed)
  }

  lemma ValidatorStep(env: Env, gov: string, w: World, locked: nat, a: Action, q: nat, m: nat)
    requires Sound(w, locked) && !a.UpdateParams? && OnValidatorSchedule(w.em, q, m)
    ensures OnValidatorSchedule(Step(env, gov, w, a).em, q, m)
    ensures Step(env, gov, w, a).em.params == w.em.params
  {
    PoolStep(env, gov, w, locked, a);
    ValidatorMint(q, m, CurrentParams(w.em).duration, w.em.pool.value.elapsed, w.em.pool.value.validatorPool);
  }

  /** From a fresh pool of q * d + m over d epochs, the closed form holds after any run. */
  lemma {:induction false} ValidatorSchedule(
    env: Env, gov: string, w: World, locked: nat, actions: seq<Action>, q: nat, m: nat)
    requires Sound(w, locked) && w.em.pool.value.elapsed == 0 && ParamsUntouched(actions)
    requires var d := Horizon(CurrentParams(w.em).duration);
             m < d && w.em.pool.value.validatorPool == q * d + m
    ensures OnValidatorSchedule(Run(env, gov, w, actions).em, q, m)
    ensures Run(env, gov, w, actions).em.params == w.em.params
  {
    if actions != [] {
      var prefix := actions[..|actions| - 1];
      ValidatorSchedule(env, gov, w, locked, prefix, q, m);
      RunKeepsSound(env, gov, w, locked, prefix);
      ValidatorStep(env, gov, Run(env, gov, w, prefix), locked, actions[|actions| - 1], q, m);
    }
  }

  /** The mint that follows any such run records the closed-form share of its position. */
  lemma ValidatorShareOfMint(
    env: Env, gov: string, w: World, locked: nat, actions: seq<Action>, q: nat, m: nat,
    epoch: uint64, counts: map<string, uint64>)
    requires Sound(w, locked) && w.em.pool.value.elapsed == 0 && ParamsUntouched(actions)
    requires var d := Horizon(CurrentParams(w.em).duration);
             m < d && w.em.pool.value.validatorPool == q * d + m
    requires Mint(Run(env, gov, w, actions).em, epoch, counts).1.Success?
    ensures var mid := Run(env, gov, w, actions).em;
            && mid.pool.Some?
            && Mint(mid, epoch, counts).1.value.validatorShare ==
               ValidatorShareAt(q, m, Horizon(CurrentParams(w.em).duration), mid.pool.value.elapsed)
  {
    var mid := Run(env, gov, w, actions).em;
    RunKeepsSound(env, gov, w, locked, actions);
    ValidatorSchedule(env, gov, w, locked, actions, q, m);
    MintOnPool(mid, locked, epoch, counts);
    ValidatorMint(q, m, CurrentParams(w.em).duration, mid.pool.value.elapsed, mid.pool.value.validatorPool);
  }

  // ----- contributors: the same division under an annual cap -----

  /** A pool of daily * days + extra after k mints of `daily` each, while it lasts. */
  function ContributorLeft(daily: nat, extra: nat, days: nat, k: nat): nat {
    if k <= days then daily * (days - k) + extra
    else if extra <= daily * (k - days) then 0
    else extra - daily * (k - days)
  }

  lemma BudgetDuring(cap: uint64, pool: uint64, n: uint64, extra: nat)
    requires cap >= EPOCHS_PER_YEAR && n >= 1 && pool == cap / EPOCHS_PER_YEAR * n + extra
    ensures ContributorBudget(pool, n, cap) == cap / EPOCHS_PER_YEAR
  {
    var daily := cap / EPOCHS_PER_YEAR;
    Arith.DivAtLeast(pool, n, daily);
    Arith.MulMonotone(1, n, daily);
  }

  lemma BudgetAfter(cap: uint64, pool: uint64)
    requires cap >= EPOCHS_PER_YEAR
    ensures ContributorBudget(pool, 1, cap) == Min(cap / EPOCHS_PER_YEAR, pool)
  {
  }

  lemma ContributorMint(cap: uint64, extra: nat, days: uint64, elapsed: uint64, pool: uint64)
    requires cap >= EPOCHS_PER_YEAR && days >= 1
    requires pool == ContributorLeft(cap / EPOCHS_PER_YEAR, extra, days, elapsed)
    ensures var b := ContributorBudget(pool, RemainingEpochs(days, elapsed), cap);
            && (elapsed < days ==> b == cap / EPOCHS_PER_YEAR)
            && pool - b == ContributorLeft(cap / EPOCHS_PER_YEAR, extra, days, elapsed + 1)
  {
    var daily := cap / EPOCHS_PER_YEAR;
    if elapsed < days {
      BudgetDuring(cap, pool, days - elapsed, extra);
      Arith.MulStep(daily, days - elapsed - 1);
    } else {
      BudgetAfter(cap, pool);
      Arith.MulStep(daily, elapsed - days);
    }
  }

  ghost predicate OnContributorSchedule(s: State, extra: nat) {
    && s.pool.Some? && CurrentParams(s).annualCap >= EPOCHS_PER_YEAR && CurrentParams(s).duration >= 1
    && s.pool.value.contributorPool ==
       ContributorLeft(CurrentParams(s).annualCap / EPOCHS_PER_YEAR, extra, CurrentParams(s).duration, s.pool.value.elapsed)
  }

  lemma ContributorStep(env: Env, gov: string, w: World, locked: nat, a: Action, extra: nat)
    requires Sound(w, locked) && !a.UpdateParams? && OnContributorSchedule(w.em, extra)
    ensures OnContributorSchedule(Step(env, gov, w, a).em, extra)
    ensures Step(env, gov, w, a).em.params == w.em.params
  {
    hide Sound, Step;
    PoolStep(env, gov, w, locked, a);
    var params, pool := CurrentParams(w.em), w.em.pool.value;
    ContributorMint(params.annualCap, extra, params.duration, pool.elapsed, pool.contributorPool);
  }

  lemma CapTimesYears(cap: nat, years: nat)
    ensures cap * years == cap / EPOCHS_PER_YEAR * (EPOCHS_PER_YEAR * years) + cap % EPOCHS_PER_YEAR * years
  {
    var daily, r := cap / EPOCHS_PER_YEAR, cap % EPOCHS_PER_YEAR;
    assert cap == daily * EPOCHS_PER_YEAR + r;
    assert (daily * EPOCHS_PER_YEAR + r) * years == daily * (EPOCHS_PER_YEAR * years) + r * years;
  }

  lemma {:induction false} ContributorRun(env: Env, gov: string, w: World, locked: nat, actions: seq<Action>, extra: nat)
    requires Sound(w, locked) && ParamsUntouched(actions) && OnContributorSchedule(w.em, extra)
    ensures OnContributorSchedule(Run(env, gov, w, actions).em, extra)
    ensures Run(env, gov, w, actions).em.params == w.em.params
  {
    if actions != [] {
      var prefix := actions[..|actions| - 1];
      ContributorRun(env, gov, w, locked, prefix, extra);
      RunKeepsSound(env, gov, w, locked, prefix);
      ContributorStep(env, gov, Run(env, gov, w, prefix), locked, actions[|actions| - 1], extra);
    }
  }

  /**
   * With a pool of `years` annual caps over `years` years, after any run every mint of the schedule has
   * budgeted one 365th of the cap, so that years * (cap mod 365) is left over and drains afterwards.
   */
  lemma ContributorSchedule(env: Env, gov: string, w: World, locked: nat, actions: seq<Action>, years: nat, extra: nat)
    requires Sound(w, locked) && w.em.pool.value.elapsed == 0 && ParamsUntouched(actions)
    requires CurrentParams(w.em).annualCap >= EPOCHS_PER_YEAR && years >= 1
    requires extra == CurrentParams(w.em).annualCap % EPOCHS_PER_YEAR * years
    requires CurrentParams(w.em).duration == EPOCHS_PER_YEAR * years
    requires w.em.pool.value.contributorPool == CurrentParams(w.em).annualCap * years
    ensures OnContributorSchedule(Run(env, gov, w, actions).em, extra)
  {
    CapTimesYears(CurrentParams(w.em).annualCap, years);
    ContributorRun(env, gov, w, locked, actions, extra);
  }

  /** The leftover at the end of the schedule is `extra`, and exactly extra / daily further mints, rounded up, exhaust it. */
  lemma ContributorLeftover(daily: nat, extra: nat, days: nat, k: nat)
    requires daily >= 1
    ensures ContributorLeft(daily, extra, days, days) == extra
    ensures ContributorLeft(daily, extra, days, k) == 0 <==> k >= days + (extra + daily - 1) / daily
  {
    if k <= days {
      Arith.MulMonotone(1, daily, days - k);
      Arith.CoversIff(extra, daily, 0);
    } else {
      Arith.CoversIff(extra, daily, k - days);
    }
  }

  /** n budgets of `daily` each. */
  function Allowance(daily: nat, n: nat): nat {
    if n == 0 then 0 else Allowance(daily, n - 1) + daily
  }

  lemma {:induction false} AllowanceIsProduct(daily: nat, n: nat)
    ensures Allowance(daily, n) == daily * n
  {
    if n > 0 {
      AllowanceIsProduct(daily, n - 1);
      Arith.MulStep(daily, n - 1);
    }
  }

  /** The contributor pool has shrunk by at most `daily` for each mint since `before`. */
  ghost predicate WithinRate(before: EmissionPool, s: State, daily: nat) {
    && s.pool.Some?
    && before.elapsed <= s.pool.value.elapsed
    && before.contributorPool - s.pool.value.contributorPool <= Allowance(daily, s.pool.value.elapsed - before.elapsed)
  }

  lemma BudgetOfStep(env: Env, gov: string, w: World, locked: nat, a: Action)
    requires Sound(w, locked) && !a.UpdateParams? && CurrentParams(w.em).annualCap >= EPOCHS_PER_YEAR
    ensures var pool, after := w.em.pool.value, Step(env, gov, w, a).em;
            && after.pool.Some? && after.params == w.em.params
            && (|| after.pool.value == pool
                || (&& after.pool.value.elapsed == pool.elapsed + 1
                    && pool.contributorPool - after.pool.value.contributorPool <=
                       CurrentParams(w.em).annualCap / EPOCHS_PER_YEAR))
  {
    PoolStep(env, gov, w, locked, a);
  }

  /** The annual cap binds and does not exceed `cap`. */
  predicate CapUpTo(p: Params, cap: uint64) {
    EPOCHS_PER_YEAR <= p.annualCap <= cap
  }

  predicate CapsUpTo(actions: seq<Action>, cap: uint64) {
    forall i :: 0 <= i < |actions| && actions[i].UpdateParams? ==> CapUpTo(actions[i].params, cap)
  }

  lemma UpdateKeepsPool(env: Env, gov: string, w: World, a: Action, cap: uint64)
    requires a.UpdateParams? && CapUpTo(CurrentParams(w.em), cap) && CapUpTo(a.params, cap)
    ensures Step(env, gov, w, a).em.pool == w.em.pool && CapUpTo(CurrentParams(Step(env, gov, w, a).em), cap)
  {
  }

  lemma MonotoneRate(a: nat, b: nat)
    requires a <= b
    ensures a / EPOCHS_PER_YEAR <= b / EPOCHS_PER_YEAR
  {
  }

  lemma BudgetStep(env: Env, gov: string, w: World, locked: nat, a: Action, before: EmissionPool, cap: uint64)
    requires Sound(w, locked) && CapUpTo(CurrentParams(w.em), cap) && (a.UpdateParams? ==> CapUpTo(a.params, cap))
    requires WithinRate(before, w.em, cap / EPOCHS_PER_YEAR)
    ensures WithinRate(before, Step(env, gov, w, a).em, cap / EPOCHS_PER_YEAR)
    ensures CapUpTo(CurrentParams(Step(env, gov, w, a).em), cap)
  {
    hide Sound, Step;
    if a.UpdateParams? {
      UpdateKeepsPool(env, gov, w, a, cap);
    } else {
      BudgetOfStep(env, gov, w, locked, a);
      MonotoneRate(CurrentParams(w.em).annualCap, cap);
    }
  }

  /** From any sound state, any n mints budget at most n times a 365th of the highest cap in force. */
  lemma {:induction false} BudgetRate(
    env: Env, gov: string, w: World, locked: nat, actions: seq<Action>, cap: uint64)
    requires Sound(w, locked) && CapUpTo(CurrentParams(w.em), cap) && CapsUpTo(actions, cap)
    ensures WithinRate(w.em.pool.value, Run(env, gov, w, actions).em, cap / EPOCHS_PER_YEAR)
    ensures CapUpTo(CurrentParams(Run(env, gov, w, actions).em), cap)
  {
    assert w.em.pool.Some?;
    hide Sound, Step;
    if actions != [] {
      var prefix := actions[..|actions| - 1];
      BudgetRate(env, gov, w, locked, prefix, cap);
      RunKeepsSound(env, gov, w, locked, prefix);
      BudgetStep(env, gov, Run(env, gov, w, prefix), locked, actions[|actions| - 1], w.em.pool.value, cap);
    }
  }

  lemma RateWithinCap(before: EmissionPool, s: State, cap: uint64)
    requires WithinRate(before, s, cap / EPOCHS_PER_YEAR)
    requires s.pool.value.elapsed <= before.elapsed + EPOCHS_PER_YEAR
    ensures before.contributorPool - s.pool.value.contributorPool <= cap
  {
    AllowanceIsProduct(cap / EPOCHS_PER_YEAR, s.pool.value.elapsed - before.elapsed);
    Arith.RateBound(s.pool.value.elapsed - before.elapsed, EPOCHS_PER_YEAR, cap);
  }

  /**
   * Any stretch of at most 365 mints, whatever the pool holds and however the parameters change between
   * caps of 365 and `cap`, budgets at most `cap`.
   */
  lemma AnnualCap(env: Env, gov: string, w: World, locked: nat, actions: seq<Action>, cap: uint64)
    requires Sound(w, locked) && CapUpTo(CurrentParams(w.em), cap) && CapsUpTo(actions, cap)
    ensures var before, after := w.em.pool.value, Run(env, gov, w, actions).em;
            && after.pool.Some?
            && (after.pool.value.elapsed <= before.elapsed + EPOCHS_PER_YEAR ==>
                before.contributorPool - after.pool.value.contributorPool <= cap)
  {
    var before, after := w.em.pool.value, Run(env, gov, w, actions).em;
    BudgetRate(env, gov, w, locked, actions, cap);
    if after.pool.value.elapsed <= before.elapsed + EPOCHS_PER_YEAR {
      RateWithinCap(before, after, cap);
    }
  }

  /**
   * The per-epoch cap binds for every pool exactly when the annual cap is at least 365; below that it is
   * ignored, and the budget is the even share of the pool.
   */
  lemma CapBindsIff(annualCap: uint64)
    ensures (forall pool: uint64, epochs: uint64 :: epochs >= 1 ==>
              ContributorBudget(pool, epochs, annualCap) <= annualCap / EPOCHS_PER_YEAR)
            <==> annualCap >= EPOCHS_PER_YEAR
    ensures annualCap < EPOCHS_PER_YEAR ==>
              forall pool: uint64, epochs: uint64 :: epochs >= 1 ==> ContributorBudget(pool, epochs, annualCap) == pool / epochs
  {
    if annualCap < EPOCHS_PER_YEAR {
      assert ContributorBudget(1, 1, annualCap) == 1;
      forall pool: uint64, epochs: uint64 | epochs >= 1 ensures ContributorBudget(pool, epochs, annualCap) == pool / epochs {
        EvenShareWithin(pool, epochs);
      }
    }
  }

  lemma EvenShareWithin(pool: nat, epochs: nat)
    requires epochs >= 1
    ensures 0 <= pool / epochs <= pool
  {
    var q := pool / epochs;
    assert pool == epochs * q + pool % epochs;
    Arith.MulMonotone(1, epochs, q);
  }

  /** The genesis with a schedule of one day and an annual cap that is ignored. */
  function Uncapped(annualCap: uint64): World {
    World(State(Some(DEFAULT_POOL), Some(DEFAULT_PARAMS.(annualCap := annualCap, duration := 1)), map[], Ledger(map[], map[]), 0, map[], []),
          map[])
  }

  /** Below 365 the annual cap does not hold: one mint may budget the whole pool. */
  lemma AnnualCapFails(env: Env, gov: string, annualCap: uint64)
    requires annualCap < EPOCHS_PER_YEAR
    ensures var w := Uncapped(annualCap);
            var after := Run(env, gov, w, [EpochEnd(1, map[])]).em.pool;
            && Sound(w, 890_000_000_000_000) && CurrentParams(w.em).annualCap == annualCap
            && after.Some? && after.value.elapsed == w.em.pool.value.elapsed + 1
            && w.em.pool.value.contributorPool - after.value.contributorPool > annualCap
  {
    hide Mint, Conserved, Solvent;
    var w := Uncapped(annualCap);
    UncappedIsSound(annualCap);
    MintOnPool(w.em, 890_000_000_000_000, 1, map[]);
    MintCompletes(w.em, 890_000_000_000_000, 1, map[]);
    CapBindsIff(annualCap);
    assert [EpochEnd(1, map[])][..0] == [];
    assert Run(env, gov, w, [EpochEnd(1, map[])]) == Step(env, gov, Run(env, gov, w, []), EpochEnd(1, map[]));
  }

  lemma UncappedIsSound(annualCap: uint64)
    ensures Sound(Uncapped(annualCap), 890_000_000_000_000)
    ensures Conserved(Uncapped(annualCap).em, 890_000_000_000_000) && Solvent(Uncapped(annualCap).em)
  {
    GenesisIsSound(map[]);
    assert Uncapped(annualCap).em == GENESIS.(params := Uncapped(annualCap).em.params);
  }

  /** The default genesis meets the assumptions of both schedules, with 32 years. */
  lemma DefaultSchedule()
    ensures DEFAULT_POOL.contributorPool == DEFAULT_PARAMS.annualCap * 32
    ensures DEFAULT_PARAMS.duration == EPOCHS_PER_YEAR * 32
    ensures DEFAULT_PARAMS.annualCap % EPOCHS_PER_YEAR * 32 == 11_360
    ensures (11_360 + DEFAULT_PARAMS.annualCap / EPOCHS_PER_YEAR - 1) / (DEFAULT_PARAMS.annualCap / EPOCHS_PER_YEAR) == 1
    ensures DEFAULT_POOL.validatorPool == 48_801_369_863 * DEFAULT_PARAMS.duration + 160
  {
  }
}
