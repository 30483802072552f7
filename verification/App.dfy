/** The keepers wired together: what they do to their stores, action by action, is a run of the chain. */
module App {
  import opened Numbers
  import opened Wrappers
  import Chain
  import Economy
  import Emissions
  import EmissionsKeeper
  import EpochOrder
  import Identity
  import Memory
  import MemoryKeeper
  import Org
  import OrgKeeper

  class Application {
    const emissions: EmissionsKeeper.Keeper
    const identity: Identity.Keeper
    const orgs: OrgKeeper.Keeper
    const memory: MemoryKeeper.Keeper

    /** InitChain: the default emission genesis, empty registries, and the marker. */
    constructor (balances: map<string, nat>, supply: int)
      ensures Wired()
      ensures View() == EpochOrder.Genesis(Org.State(map[], map[], 0, None, balances, supply), map[])
      ensures fresh(emissions) && fresh(identity) && fresh(orgs) && fresh(memory)
    {
      var em := new EmissionsKeeper.Keeper();
      var id := new Identity.Keeper();
      var reg := new OrgKeeper.Keeper(balances, supply);
      var mem := new MemoryKeeper.Keeper(reg);
      mem.PutMarker();
      emissions, identity, orgs, memory := em, id, reg, mem;
    }

    ghost predicate Wired() {
      memory.orgKeeper == orgs
    }

    ghost function View(): Chain.World
      reads emissions, identity, orgs, memory
    {
      Chain.World(Economy.World(emissions.Value(), identity.aliases), orgs.Value(), memory.Value())
    }

    /** The emissions hook reads the approvals and mints; only then the memory hook records the epoch. */
    method DispatchEpochEnd(epoch: uint64, ghost x: Org.Setting)
      requires Wired()
      modifies emissions, memory
      ensures View() == Chain.Step(x, old(View()), Chain.EpochEnd(epoch))
    {
      hide Emissions.Mint, Memory.EpochEnd, Memory.Approvals;
      var counts := memory.GetContributorsWithApprovalsInEpoch(epoch);
      emissions.AfterEpochEnd(EmissionsKeeper.EPOCH_IDENTIFIER, epoch, counts);
      memory.AfterEpochEnd(MemoryKeeper.EPOCH_IDENTIFIER, epoch);
    }

    method DeliverEmissions(x: Org.Setting, a: Chain.Action)
      requires Wired()
      requires a.GovernanceMint? || a.EmissionsParams? || a.ClaimReward? || a.MigrateIdentity?
      modifies emissions, identity
      ensures View() == Chain.Step(x, old(View()), a)
    {
      hide Emissions.Mint, Memory.Approvals, Emissions.Claim, Identity.Migrate, Emissions.ParamsValid;
      match a
      case GovernanceMint(authority, epoch) =>
        var counts := memory.GetContributorsWithApprovalsInEpoch(epoch);
        var _ := emissions.HandleMint(x.gov, authority, epoch, counts);
      case EmissionsParams(authority, params) =>
        var _ := emissions.UpdateParams(x.gov, authority, params);
      case ClaimReward(signer, passkey) =>
        var _ := emissions.ClaimContributorReward(x.env, identity, signer, passkey);
      case MigrateIdentity(msg, height) =>
        var _ := identity.MigrateIdentity(x.env, msg, height);
    }

    method DeliverContent(x: Org.Setting, a: Chain.Action)
      requires Wired()
      requires a.OrgMessage? || a.SubmitCommitment? || a.ApproveMemory? || a.ReportMemory? || a.MemoryParams?
      modifies orgs, memory
      ensures View() == Chain.Step(x, old(View()), a)
    {
      hide Org.Step, Org.Deliver, Memory.Submit, Memory.Approve, Memory.FileReport, Memory.SetParams;
      match a
      case OrgMessage(m) =>
        var _ := orgs.Deliver(x, m);
      case SubmitCommitment(m) =>
        var _ := memory.HandleSubmitCommitment(m);
      case ApproveMemory(m, ok) =>
        var _ := memory.HandleApproveMemory(x.env, m, ok);
      case ReportMemory(m, ok) =>
        var _ := memory.HandleReportMemory(m, ok);
      case MemoryParams(authority, params) =>
        var _ := memory.HandleUpdateParams(x.gov, authority, params);
    }

    /** Every action the keepers carry out is one step of the chain. */
    method Deliver(x: Org.Setting, a: Chain.Action)
      requires Wired()
      modifies emissions, identity, orgs, memory
      ensures View() == Chain.Step(x, old(View()), a)
    {
      hide Chain.Step;
      match a
      case EpochEnd(epoch) => DispatchEpochEnd(epoch, x);
      case OrgMessage(_) => DeliverContent(x, a);
      case SubmitCommitment(_) => DeliverContent(x, a);
      case ApproveMemory(_, _) => DeliverContent(x, a);
      case ReportMemory(_, _) => DeliverContent(x, a);
      case MemoryParams(_, _) => DeliverContent(x, a);
      case _ => DeliverEmissions(x, a);
    }

    /** So every sequence of actions is a run, and the theorems about runs are theorems about the keepers. */
    method DeliverAll(x: Org.Setting, actions: seq<Chain.Action>)
      requires Wired()
      modifies emissions, identity, orgs, memory
      ensures View() == Chain.Run(x, old(View()), actions)
    {
      hide Chain.Step;
      ghost var start := View();
      for i := 0 to |actions|
        invariant View() == Chain.Run(x, start, actions[..i])
      {
        assert actions[..i + 1][..|actions[..i + 1]| - 1] == actions[..i];
        Deliver(x, actions[i]);
      }
      assert actions[..|actions|] == actions;
    }

    /** A started chain on which any actions ran, epochs ending in order, still has an empty reward ledger. */
    method RunFromGenesis(x: Org.Setting, actions: seq<Chain.Action>, ghost genesis: Org.State)
      requires Wired() && View() == EpochOrder.Genesis(genesis, map[]) && EpochOrder.Increasing(actions, 0)
      modifies emissions, identity, orgs, memory
      ensures emissions.pending == map[] && emissions.lifetime == map[] && emissions.moduleBalance == 0
      ensures EpochOrder.Ordered(View())
    {
      hide Chain.Run, EpochOrder.Increasing, EpochOrder.Ordered, Emissions.Claim;
      DeliverAll(x, actions);
      EpochOrder.NoRewardIsEverPaid(x, genesis, map[], actions, 0, "", "");
    }
  }
}
