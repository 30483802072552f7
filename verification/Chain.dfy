/**
 * The modules wired together: every interleaving of epoch ends and of emissions, identity, registry
 * and memory messages.  At an epoch end the emissions hook runs before the memory hook.
 */
module Chain {
  import opened Numbers
  import opened Wrappers
  import Economy
  import Emissions
  import Identity
  import Memory
  import Org

  datatype World = World(econ: Economy.World, orgs: Org.State, mem: Memory.State)

  datatype Action =
    | EpochEnd(epoch: uint64)
    | GovernanceMint(authority: string, epoch: uint64)
    | EmissionsParams(authority: string, emissionsParams: Emissions.Params)
    | ClaimReward(signer: string, passkey: string)
    | MigrateIdentity(migration: Identity.MsgMigrate, height: uint64)
    | OrgMessage(m: Org.Message)
    | SubmitCommitment(submission: Memory.MsgSubmit)
    | ApproveMemory(approval: Memory.MsgApprove, reputationOk: bool)
    | ReportMemory(report: Memory.MsgReport, reputationOk: bool)
    | MemoryParams(authority: string, memoryParams: Memory.Params)

  /** What an action means to the emissions and identity modules; mints read the approvals in the memory store. */
  function EconomyAction(w: World, a: Action): Option<Economy.Action> {
    match a
    case EpochEnd(epoch) => Some(Economy.EpochEnd(epoch, Memory.Approvals(w.mem.approved, epoch)))
    case GovernanceMint(authority, epoch) =>
      Some(Economy.GovernanceMint(authority, epoch, Memory.Approvals(w.mem.approved, epoch)))
    case EmissionsParams(authority, params) => Some(Economy.UpdateParams(authority, params))
    case ClaimReward(signer, passkey) => Some(Economy.ClaimReward(signer, passkey))
    case MigrateIdentity(msg, height) => Some(Economy.MigrateIdentity(msg, height))
    case _ => None
  }

  ghost function EconomyStep(x: Org.Setting, w: World, a: Action): Economy.World {
    match EconomyAction(w, a)
    case Some(e) => Economy.Step(x.env, x.gov, w.econ, e)
    case None => w.econ
  }

  /** What an action does to the memory store and to the registry. */
  ghost function ContentStep(x: Org.Setting, w: World, a: Action): (Memory.State, Org.State) {
    match a
    case EpochEnd(epoch) => (Memory.EpochEnd(w.mem, epoch), w.orgs)
    case OrgMessage(m) => (w.mem, Org.Step(x, w.orgs, m))
    case SubmitCommitment(m) =>
      var r := Memory.Submit(w.mem, w.orgs, m);
      (if r.Success? then r.value else w.mem, w.orgs)
    case ApproveMemory(m, ok) =>
      var r := Memory.Approve(x.env, w.mem, w.orgs, m, ok);
      if r.Success? then r.value else (w.mem, w.orgs)
    case ReportMemory(m, ok) =>
      var r := Memory.FileReport(w.mem, w.orgs, m, ok);
      if r.Success? then r.value else (w.mem, w.orgs)
    case MemoryParams(authority, params) =>
      var r := Memory.SetParams(x.gov, w.mem, authority, params);
      (if r.Success? then r.value else w.mem, w.orgs)
    case _ => (w.mem, w.orgs)
  }

  /** A failed message is rolled back; the epoch hooks keep whatever they wrote. */
  ghost function Step(x: Org.Setting, w: World, a: Action): World {
    var (mem, orgs) := ContentStep(x, w, a);
    World(EconomyStep(x, w, a), orgs, mem)
  }

  ghost function Run(x: Org.Setting, w: World, actions: seq<Action>): World {
    if actions == [] then w
    else Step(x, Run(x, w, actions[..|actions| - 1]), actions[|actions| - 1])
  }

  /** The emissions and identity part of a run is a run of those modules alone, with the approvals the chain had. */
  lemma {:induction false} Projection(x: Org.Setting, w: World, actions: seq<Action>) returns (es: seq<Economy.Action>)
    ensures Run(x, w, actions).econ == Economy.Run(x.env, x.gov, w.econ, es) && |es| <= |actions|
  {
    hide Economy.Step, ContentStep;
    if actions == [] {
      es := [];
    } else {
      var prefix, last := actions[..|actions| - 1], actions[|actions| - 1];
      var front := Projection(x, w, prefix);
      match EconomyAction(Run(x, w, prefix), last)
      case Some(e) =>
        es := front + [e];
        assert es[..|es| - 1] == front;
      case None =>
        es := front;
    }
  }
}
