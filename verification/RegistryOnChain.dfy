/**
 * The registry inside the chain.  Memory messages change nothing in it but running totals, and registry
 * messages never read those, so what holds of runs of registry messages holds of the whole chain.
 */
module RegistryOnChain {
  import opened Numbers
  import opened Wrappers
  import opened Org
  import opened OrgInvariant
  import Chain
  import Custody
  import Memory
  import StoreKeys
  import Tally

  function BareOrg(o: Organisation): Organisation {
    o.(committedMemories := 0, upheldReports := 0, lastActivity := 0)
  }

  function BareOrgs(orgs: map<string, Organisation>): map<string, Organisation> {
    map o | o in orgs :: BareOrg(orgs[o])
  }

  /** The registry without the totals other modules keep in it. */
  function Bare(s: State): State {
    s.(orgs := BareOrgs(s.orgs))
  }

  lemma BareUpdate(orgs: map<string, Organisation>, o: string, r: Organisation)
    ensures BareOrgs(orgs[o := r]) == BareOrgs(orgs)[o := BareOrg(r)]
  {
  }

  lemma BareAt(s: State, o: string)
    ensures o in Bare(s).orgs <==> o in s.orgs
    ensures o in s.orgs ==> Bare(s).orgs[o] == BareOrg(s.orgs[o])
  {
  }

  // ----- registry messages do not read the totals -----

  ghost predicate Commutes(x: Setting, s: State, m: Message) {
    Step(x, Bare(s), m) == Bare(Step(x, s, m))
  }

  lemma ChargeCommutes(s: State, creator: string, account: string, fee: uint64)
    ensures var (bare, full) := (Charge(Bare(s), creator, account, fee), Charge(s, creator, account, fee));
            && (full.Failure? ==> bare == full)
            && (full.Success? ==> bare == Success(Bare(full.value)) && full.value.orgs == s.orgs && full.value.members == s.members)
    ensures SlotFee(Bare(s)) == SlotFee(s)
  {
  }

  lemma SameLeaders(s: State, leader: string)
    ensures (forall o :: o in Bare(s).orgs ==> Bare(s).orgs[o].leader != leader)
       <==> (forall o :: o in s.orgs ==> s.orgs[o].leader != leader)
  {
    assert forall o :: o in s.orgs ==> o in Bare(s).orgs && Bare(s).orgs[o].leader == s.orgs[o].leader;
  }

  lemma RegisterCommutes(x: Setting, s: State, m: Message)
    requires m.RegisterOrg?
    ensures Commutes(x, s, m)
  {
    hide ProfileValid, GrantOk, StoreKeys.OrgId, Wrap, Charge, SlotFee, BareOrgs;
    var org := StoreKeys.OrgId(s.nextSlot);
    BareUpdate(s.orgs, org, Organisation(s.nextSlot, m.leader, m.leaderWallet, m.servingKey, Active, m.profile, 1, 0, 0, 0));
    ChargeCommutes(s, m.signer, x.account(org), SlotFee(s));
    SameLeaders(s, m.leader);
    assert Bare(s).orgs.Keys == s.orgs.Keys by { BareKeys(s); }
  }

  lemma BareKeys(s: State)
    ensures Bare(s).orgs.Keys == s.orgs.Keys
  {
  }

  lemma AddCommutes(x: Setting, s: State, m: Message)
    requires m.AddMember?
    ensures Commutes(x, s, m)
  {
    hide Wrap, BareOrgs;
    BareAt(s, m.org);
    if m.org in s.orgs {
      BareUpdate(s.orgs, m.org, s.orgs[m.org].(activeMembers := Wrap(s.orgs[m.org].activeMembers + 1)));
    }
  }

  lemma RemoveCommutes(x: Setting, s: State, m: Message)
    requires m.RemoveMember?
    ensures Commutes(x, s, m)
  {
    hide BareOrgs;
    BareAt(s, m.org);
    if m.org in s.orgs {
      var n := s.orgs[m.org].activeMembers;
      BareUpdate(s.orgs, m.org, s.orgs[m.org].(activeMembers := if n > 0 then n - 1 else 0));
    }
  }

  lemma TransferCommutes(x: Setting, s: State, m: Message)
    requires m.TransferLeadership?
    ensures Commutes(x, s, m)
  {
    hide GrantOk, BareOrgs;
    BareAt(s, m.org);
    if m.org in s.orgs {
      BareUpdate(s.orgs, m.org, s.orgs[m.org].(leader := m.newLeader, leaderWallet := m.newWallet));
    }
  }

  lemma SettingsCommute(x: Setting, s: State, m: Message)
    requires m.SetMemberCapabilities? || m.UpdateParams?
    ensures Commutes(x, s, m)
  {
    hide BareOrgs;
    if m.SetMemberCapabilities? {
      BareAt(s, m.org);
    }
  }

  lemma ServingKeyCommutes(x: Setting, s: State, m: Message)
    requires m.SetServingKey?
    ensures Commutes(x, s, m)
  {
    hide GrantOk, BareOrgs;
    BareAt(s, m.org);
    if m.org in s.orgs {
      BareUpdate(s.orgs, m.org, s.orgs[m.org].(servingKey := m.servingKey));
    }
  }

  lemma CloseCommutes(x: Setting, s: State, m: Message)
    requires m.CloseOrg?
    ensures Commutes(x, s, m)
  {
    hide BareOrgs;
    BareAt(s, m.org);
    if m.org in s.orgs {
      BareUpdate(s.orgs, m.org, s.orgs[m.org].(status := Closed));
    }
  }

  lemma StepCommutes(x: Setting, s: State, m: Message)
    ensures Commutes(x, s, m)
  {
    hide Commutes;
    match m
    case RegisterOrg(_, _, _, _, _, _) => RegisterCommutes(x, s, m);
    case AddMember(_, _, _, _, _, _, _) => AddCommutes(x, s, m);
    case RemoveMember(_, _, _) => RemoveCommutes(x, s, m);
    case TransferLeadership(_, _, _, _, _) => TransferCommutes(x, s, m);
    case SetServingKey(_, _, _, _) => ServingKeyCommutes(x, s, m);
    case CloseOrg(_, _) => CloseCommutes(x, s, m);
    case _ => SettingsCommute(x, s, m);
  }

  // ----- memory messages change nothing but totals -----

  lemma CountsAreBare(s: State, org: string, epoch: uint64)
    requires org in s.orgs
    ensures Bare(DateActivity(CountCommitted(s, org), org, epoch)) == Bare(s)
    ensures Bare(CountUpheld(s, org)) == Bare(s)
  {
    assert BareOrgs(DateActivity(CountCommitted(s, org), org, epoch).orgs) == BareOrgs(s.orgs);
    assert BareOrgs(CountUpheld(s, org).orgs) == BareOrgs(s.orgs);
  }

  lemma ContentStepIsBare(x: Setting, w: Chain.World, a: Chain.Action)
    requires !a.OrgMessage?
    ensures Bare(Chain.ContentStep(x, w, a).1) == Bare(w.orgs)
  {
    hide Bare, Memory.EpochEnd, Memory.Submit, Memory.Approve, Memory.FileReport, CountCommitted, CountUpheld, DateActivity;
    match a
    case ApproveMemory(m, ok) =>
      if Memory.Approve(x.env, w.mem, w.orgs, m, ok).Success? {
        Custody.ApproveEffect(x.env, w.mem, w.orgs, m, ok);
        CountsAreBare(w.orgs, m.org, w.mem.pending[(m.org, m.hash)].epoch);
      }
    case ReportMemory(m, ok) =>
      if Memory.FileReport(w.mem, w.orgs, m, ok).Success? {
        Custody.ReportEffect(w.mem, w.orgs, m, ok);
        CountsAreBare(w.orgs, m.org, 0);
      }
    case _ =>
  }

  // ----- projection -----

  /** The registry messages among the actions. */
  function Messages(actions: seq<Chain.Action>): (ms: seq<Message>)
    ensures |ms| <= |actions|
  {
    if actions == [] then []
    else
      var front, last := Messages(actions[..|actions| - 1]), actions[|actions| - 1];
      if last.OrgMessage? then front + [last.m] else front
  }

  /** Without the totals, a run of the chain is a run of its registry messages. */
  lemma {:induction false} RegistryProjection(x: Setting, w: Chain.World, actions: seq<Chain.Action>)
    ensures Bare(Chain.Run(x, w, actions).orgs) == Run(x, Bare(w.orgs), Messages(actions))
  {
    hide Bare, Step, Chain.ContentStep, Chain.EconomyStep;
    if actions != [] {
      var prefix, last := actions[..|actions| - 1], actions[|actions| - 1];
      var mid := Chain.Run(x, w, prefix);
      RegistryProjection(x, w, prefix);
      if last.OrgMessage? {
        OrgMessageStep(x, mid, last.m);
        StepCommutes(x, mid.orgs, last.m);
        assert Messages(actions)[..|Messages(actions)| - 1] == Messages(prefix);
      } else {
        ContentStepIsBare(x, mid, last);
      }
    }
  }

  lemma OrgMessageStep(x: Setting, w: Chain.World, m: Message)
    ensures Chain.ContentStep(x, w, Chain.OrgMessage(m)).1 == Step(x, w.orgs, m)
  {
  }

  lemma BareKeeps(s: State)
    ensures Sound(Bare(s)) <==> Sound(s)
    ensures LeadersDistinct(Bare(s)) <==> LeadersDistinct(s)
  {
    assert forall o :: o in s.orgs ==> o in Bare(s).orgs && Bare(s).orgs[o] == BareOrg(s.orgs[o]);
    BareKeepsSound(s);
  }

  lemma BareKeepsSound(s: State)
    ensures SlotsDense(Bare(s)) <==> SlotsDense(s)
    ensures Led(Bare(s)) <==> Led(s)
    ensures Counted(Bare(s)) <==> Counted(s)
  {
    hide StoreKeys.OrgId, KeysOf;
    assert Bare(s).orgs.Keys == s.orgs.Keys;
    assert forall o :: o in s.orgs ==> Bare(s).orgs[o] == BareOrg(s.orgs[o]);
  }

  // ----- what follows for the chain -----

  /** Dense slots, one leader each and exact member counts survive every run of the chain. */
  lemma SoundOnChain(x: Setting, w: Chain.World, actions: seq<Chain.Action>)
    requires Sound(w.orgs) && |w.orgs.members| + |actions| < TWO64
    ensures Sound(Chain.Run(x, w, actions).orgs)
  {
    hide Sound, Chain.Run, Run, LeadersDistinct;
    BareKeeps(w.orgs);
    BareKeeps(Chain.Run(x, w, actions).orgs);
    RegistryProjection(x, w, actions);
    OrgInvariant.RunKeeps(x, Bare(w.orgs), Messages(actions));
  }

  /** A closed organisation stays closed and keeps its set of members over every run of the chain. */
  lemma ClosedOnChain(x: Setting, w: Chain.World, actions: seq<Chain.Action>, o: string)
    requires Sound(w.orgs) && |w.orgs.members| + |actions| < TWO64 && o in w.orgs.orgs && w.orgs.orgs[o].status.Closed?
    ensures var after := Chain.Run(x, w, actions).orgs;
            o in after.orgs && after.orgs[o].status.Closed? && KeysOf(after.members.Keys, o) == KeysOf(w.orgs.members.Keys, o)
  {
    hide Sound, Chain.Run, Run, KeysOf;
    BareKeeps(w.orgs);
    RegistryProjection(x, w, actions);
    ClosedForever(x, Bare(w.orgs), Messages(actions), o);
    var after := Chain.Run(x, w, actions).orgs;
    assert o in Bare(after).orgs && Bare(after).orgs[o] == BareOrg(after.orgs[o]);
  }

  /** Over every run of the chain the supply falls by the burned halves, and each account changes by receipts less fees. */
  lemma FeesOnChain(x: Setting, w: Chain.World, actions: seq<Chain.Action>, a: string)
    ensures var (after, s, ms) := (Chain.Run(x, w, actions).orgs, Bare(w.orgs), Messages(actions));
            && after.supply == w.orgs.supply - Burned(x, s, ms)
            && Tally.Lookup(after.balances, a) + PaidBy(x, s, ms, a) == Tally.Lookup(w.orgs.balances, a) + ReceivedBy(x, s, ms, a)
            && Tally.Total(after.balances) == Tally.Total(w.orgs.balances) - Burned(x, s, ms)
  {
    hide Chain.Run, Run, Burned, PaidBy, ReceivedBy, Tally.Total, Tally.Lookup;
    RegistryProjection(x, w, actions);
    FeeLedger(x, Bare(w.orgs), Messages(actions), a);
  }

  /** Leaders are distinct after every prefix of the chain run. */
  ghost predicate ChainDistinct(x: Setting, w: Chain.World, actions: seq<Chain.Action>) {
    LeadersDistinct(Chain.Run(x, w, actions).orgs) && (actions != [] ==> ChainDistinct(x, w, actions[..|actions| - 1]))
  }

  lemma {:induction false} ChainDistinctProjects(x: Setting, w: Chain.World, actions: seq<Chain.Action>)
    ensures ChainDistinct(x, w, actions) <==> AlwaysDistinct(x, Bare(w.orgs), Messages(actions))
  {
    hide Chain.Run, Run, LeadersDistinct, Sound, Bare;
    RegistryProjection(x, w, actions);
    BareKeeps(Chain.Run(x, w, actions).orgs);
    if actions != [] {
      var prefix, last := actions[..|actions| - 1], actions[|actions| - 1];
      ChainDistinctProjects(x, w, prefix);
      if last.OrgMessage? {
        assert Messages(actions)[..|Messages(actions)| - 1] == Messages(prefix);
      } else {
        AlwaysIncludesEnd(x, Bare(w.orgs), Messages(prefix));
      }
    }
  }

  lemma AlwaysIncludesEnd(x: Setting, s: State, ms: seq<Message>)
    ensures AlwaysDistinct(x, s, ms) ==> LeadersDistinct(Run(x, s, ms))
  {
  }

  /** Along a run of the chain leaders stay distinct exactly when no transfer goes to the leader of another organisation. */
  lemma DistinctOnChain(x: Setting, w: Chain.World, actions: seq<Chain.Action>)
    requires LeadersDistinct(w.orgs)
    ensures ChainDistinct(x, w, actions) <==> NoSecondOrg(x, Bare(w.orgs), Messages(actions))
  {
    hide Chain.Run, Run, LeadersDistinct, Sound, NoSecondOrg, AlwaysDistinct, ChainDistinct;
    BareKeeps(w.orgs);
    ChainDistinctProjects(x, w, actions);
    RunKeepsDistinctIff(x, Bare(w.orgs), Messages(actions));
  }
}
