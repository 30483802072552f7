/**
 * Who may change what.  An organisation and its members change only on a message signed by the wallet its
 * leader has registered; parameters change only on a message of governance.
 */
module Authority {
  import opened Numbers
  import opened Wrappers
  import opened Org
  import opened RegistryOnChain
  import Chain
  import Emissions
  import Lex
  import Memory
  import StoreKeys

  /** The organisation a message is about, and who signed it. */
  function About(m: Message): Option<(string, string)> {
    match m
    case AddMember(signer, org, _, _, _, _, _) => Some((org, signer))
    case RemoveMember(signer, org, _) => Some((org, signer))
    case SetMemberCapabilities(signer, org, _, _, _) => Some((org, signer))
    case TransferLeadership(signer, org, _, _, _) => Some((org, signer))
    case SetServingKey(signer, org, _, _) => Some((org, signer))
    case CloseOrg(signer, org) => Some((org, signer))
    case _ => None
  }

  /** The message is about the organisation and signed by the wallet its leader has registered. */
  predicate FromLeader(s: State, m: Message, o: string) {
    && About(m).Some? && About(m).value.0 == o && o in s.orgs
    && s.orgs[o].leaderWallet != "" && About(m).value.1 == s.orgs[o].leaderWallet
  }

  /** The organisation and its member k are as they were. */
  ghost predicate Untouched(s: State, after: State, o: string, k: string) {
    && o in s.orgs && o in after.orgs && after.orgs[o] == s.orgs[o]
    && ((o, k) in after.members <==> (o, k) in s.members)
    && ((o, k) in s.members ==> after.members[(o, k)] == s.members[(o, k)])
  }

  lemma MembershipNeedsLeader(x: Setting, s: State, m: Message, o: string, k: string)
    requires m.AddMember? || m.RemoveMember? || m.SetMemberCapabilities?
    requires o in s.orgs && !FromLeader(s, m, o)
    ensures Untouched(s, Step(x, s, m), o, k)
  {
    hide Wrap;
  }

  lemma LeadershipNeedsLeader(x: Setting, s: State, m: Message, o: string, k: string)
    requires m.TransferLeadership? || m.SetServingKey? || m.CloseOrg? || m.UpdateParams?
    requires o in s.orgs && !FromLeader(s, m, o)
    ensures Untouched(s, Step(x, s, m), o, k)
  {
    hide GrantOk;
  }

  lemma RegistrationLeavesOthers(x: Setting, s: State, m: Message, o: string, k: string)
    requires m.RegisterOrg? && o in s.orgs
    ensures Untouched(s, Step(x, s, m), o, k)
  {
    hide StoreKeys.OrgId, Charge, SlotFee, ProfileValid, GrantOk, Wrap;
  }

  /** Without the signature of its leader's wallet a message changes neither an organisation nor any of its members. */
  lemma OnlyTheLeaderRules(x: Setting, s: State, m: Message, o: string, k: string)
    requires o in s.orgs
    ensures o in Step(x, s, m).orgs
    ensures FromLeader(s, m, o) || Untouched(s, Step(x, s, m), o, k)
    ensures Step(x, s, m).params == s.params || (m.UpdateParams? && m.authority == x.gov && Step(x, s, m).params == Some(m.params))
  {
    OnlyGovernanceSetsParams(x, s, m);
    OrgsStay(x, s, m, o);
    hide Step, FromLeader, Untouched;
    if !FromLeader(s, m, o) {
      match m
      case RegisterOrg(_, _, _, _, _, _) => RegistrationLeavesOthers(x, s, m, o, k);
      case AddMember(_, _, _, _, _, _, _) => MembershipNeedsLeader(x, s, m, o, k);
      case RemoveMember(_, _, _) => MembershipNeedsLeader(x, s, m, o, k);
      case SetMemberCapabilities(_, _, _, _, _) => MembershipNeedsLeader(x, s, m, o, k);
      case _ => LeadershipNeedsLeader(x, s, m, o, k);
    }
  }

  lemma OnlyGovernanceSetsParams(x: Setting, s: State, m: Message)
    ensures Step(x, s, m).params == s.params || (m.UpdateParams? && m.authority == x.gov && Step(x, s, m).params == Some(m.params))
  {
    hide StoreKeys.OrgId, SlotFee, ProfileValid, GrantOk, Wrap;
  }

  lemma OrgsStay(x: Setting, s: State, m: Message, o: string)
    requires o in s.orgs
    ensures o in Step(x, s, m).orgs
  {
    hide StoreKeys.OrgId, SlotFee, ProfileValid, GrantOk, Wrap;
  }

  // ----- the chain -----

  /** The same with the running totals left aside. */
  ghost predicate UntouchedOnChain(s: State, after: State, o: string, k: string) {
    Untouched(Bare(s), Bare(after), o, k)
  }

  lemma UntouchedIsBare(s: State, after: State, o: string, k: string)
    requires Untouched(s, after, o, k)
    ensures UntouchedOnChain(s, after, o, k)
  {
  }

  lemma BareSame(s: State, after: State, o: string, k: string)
    requires o in s.orgs && Bare(s) == Bare(after)
    ensures UntouchedOnChain(s, after, o, k)
  {
    BareAt(s, o);
  }

  lemma ChainStepAuthority(x: Setting, w: Chain.World, a: Chain.Action, o: string, k: string)
    requires o in w.orgs.orgs
    ensures o in Chain.Step(x, w, a).orgs.orgs
    ensures (a.OrgMessage? && FromLeader(w.orgs, a.m, o)) || UntouchedOnChain(w.orgs, Chain.Step(x, w, a).orgs, o, k)
  {
    hide Chain.ContentStep, Chain.EconomyStep, Step, FromLeader, UntouchedOnChain, Untouched, Bare;
    if a.OrgMessage? {
      OrgMessageStep(x, w, a.m);
      OnlyTheLeaderRules(x, w.orgs, a.m, o, k);
      if !FromLeader(w.orgs, a.m, o) {
        UntouchedIsBare(w.orgs, Chain.Step(x, w, a).orgs, o, k);
      }
    } else {
      ContentStepIsBare(x, w, a);
      BareSame(w.orgs, Chain.Step(x, w, a).orgs, o, k);
      BareAt(w.orgs, o);
      BareAt(Chain.Step(x, w, a).orgs, o);
    }
  }

  /** The leader's wallet of that moment signed the i-th action about the organisation. */
  ghost predicate RuledAt(x: Setting, w: Chain.World, actions: seq<Chain.Action>, i: nat, o: string) {
    i < |actions| && actions[i].OrgMessage? && FromLeader(Chain.Run(x, w, actions[..i]).orgs, actions[i].m, o)
  }

  lemma UntouchedTwice(s: State, mid: State, after: State, o: string, k: string)
    requires UntouchedOnChain(s, mid, o, k) && UntouchedOnChain(mid, after, o, k)
    ensures UntouchedOnChain(s, after, o, k)
  {
    hide Bare;
  }

  /** An organisation that differs after a run, totals aside, in itself or in a member, was ruled by its leader's wallet in the run. */
  lemma {:induction false} ChainAuthority(x: Setting, w: Chain.World, actions: seq<Chain.Action>, o: string, k: string)
    requires o in w.orgs.orgs
    ensures o in Chain.Run(x, w, actions).orgs.orgs
    ensures UntouchedOnChain(w.orgs, Chain.Run(x, w, actions).orgs, o, k) || exists i: nat :: RuledAt(x, w, actions, i, o)
  {
    hide Chain.Step, UntouchedOnChain, FromLeader;
    if actions == [] {
      BareSame(w.orgs, w.orgs, o, k);
    } else {
      var prefix, last := actions[..|actions| - 1], actions[|actions| - 1];
      var mid := Chain.Run(x, w, prefix);
      ChainAuthority(x, w, prefix, o, k);
      ChainStepAuthority(x, mid, last, o, k);
      if i: nat :| RuledAt(x, w, prefix, i, o) {
        assert actions[..i] == prefix[..i] && actions[i] == prefix[i];
        assert RuledAt(x, w, actions, i, o);
      } else if last.OrgMessage? && FromLeader(mid.orgs, last.m, o) {
        assert RuledAt(x, w, actions, |actions| - 1, o);
      } else {
        UntouchedTwice(w.orgs, mid.orgs, Chain.Run(x, w, actions).orgs, o, k);
      }
    }
  }

  // ----- governance -----

  /** The action is signed by the governance account. */
  predicate Governed(x: Setting, a: Chain.Action) {
    match a
    case GovernanceMint(authority, _) => authority == x.gov
    case EmissionsParams(authority, _) => authority == x.gov
    case MemoryParams(authority, _) => authority == x.gov
    case OrgMessage(m) => m.UpdateParams? && m.authority == x.gov
    case _ => false
  }

  lemma MintKeepsParams(s: Emissions.State, epoch: uint64, counts: map<string, uint64>)
    ensures Emissions.Mint(s, epoch, counts).0.params == s.params
  {
    hide Emissions.PlanMint, Emissions.CreditAll;
  }

  lemma EmissionsAuthority(x: Setting, w: Chain.World, a: Chain.Action)
    requires !Governed(x, a)
    ensures Chain.EconomyStep(x, w, a).em.params == w.econ.em.params
    ensures !a.EpochEnd? ==> Chain.EconomyStep(x, w, a).em.pool == w.econ.em.pool
  {
    hide Emissions.Mint, Memory.Approvals;
    if a.EpochEnd? {
      MintKeepsParams(w.econ.em, a.epoch, Memory.Approvals(w.mem.approved, a.epoch));
    }
  }

  /** Without governance no parameters of any module change, and only an epoch end moves the emission pool. */
  lemma OnlyGovernanceSets(x: Setting, w: Chain.World, a: Chain.Action)
    requires !Governed(x, a)
    ensures var after := Chain.Step(x, w, a);
            && after.econ.em.params == w.econ.em.params && after.orgs.params == w.orgs.params
            && after.mem.params == w.mem.params && (!a.EpochEnd? ==> after.econ.em.pool == w.econ.em.pool)
  {
    hide Chain.EconomyStep, Memory.Submit, Memory.Approve, Memory.FileReport, Memory.EpochEnd, Step;
    EmissionsAuthority(x, w, a);
    match a
    case EpochEnd(epoch) => EpochKeepsParams(w.mem, epoch);
    case OrgMessage(m) => OnlyGovernanceSetsParams(x, w.orgs, m);
    case SubmitCommitment(m) => SubmitKeepsParams(w.mem, w.orgs, m);
    case ApproveMemory(m, ok) => ApproveKeepsParams(x, w.mem, w.orgs, m, ok);
    case ReportMemory(m, ok) => ReportKeepsParams(w.mem, w.orgs, m, ok);
    case _ =>
  }

  /** What governance sets is what it sent, under the module's own validity rule, and nothing else moves. */
  lemma GovernanceSets(x: Setting, w: Chain.World, a: Chain.Action)
    requires Governed(x, a) && !a.GovernanceMint?
    ensures var after := Chain.Step(x, w, a);
            match a
            case EmissionsParams(_, p) =>
              after == (if (p.operatorShare + p.validatorShare) % TWO64 == 100 && (p.storageWeight + p.retrievalWeight) % TWO64 == 100
                        then w.(econ := w.econ.(em := w.econ.em.(params := Some(p)))) else w)
            case MemoryParams(_, p) => after == if x.gov == "" then w else w.(mem := w.mem.(params := Some(p)))
            case OrgMessage(m) => after == if m.params.slotCap == 0 then w else w.(orgs := w.orgs.(params := Some(m.params)))
            case _ => true
  {
    hide Emissions.Mint, Memory.Approvals, Memory.EpochEnd, Emissions.Claim;
  }

  lemma {:induction false} ExpiryKeepsParams(s: Memory.State, keys: seq<string>, entries: map<string, Memory.Validity>)
    requires forall k :: k in keys ==> k in entries
    ensures Memory.ExpireAll(s, keys, entries).0.params == s.params
    decreases keys
  {
    if keys != [] && Memory.Resolves(s, entries[keys[0]]) {
      ExpiryKeepsParams(Memory.ExpireOne(s, keys[0], entries[keys[0]]), keys[1..], entries);
    }
  }

  lemma EpochKeepsParams(s: Memory.State, epoch: uint64)
    ensures Memory.EpochEnd(s, epoch).params == s.params
  {
    var at := s.(epoch := epoch);
    Lex.OrderedLists(Memory.ExpiredKeys(at, epoch));
    ExpiryKeepsParams(at, Lex.Ordered(Memory.ExpiredKeys(at, epoch)), at.validity);
  }

  lemma SubmitKeepsParams(s: Memory.State, orgs: State, m: Memory.MsgSubmit)
    ensures Memory.Submit(s, orgs, m).Success? ==> Memory.Submit(s, orgs, m).value.params == s.params
  {
    hide Memory.PendingCount, Memory.ProvenanceValid;
  }

  lemma ApproveKeepsParams(x: Setting, s: Memory.State, orgs: State, m: Memory.MsgApprove, ok: bool)
    ensures var r := Memory.Approve(x.env, s, orgs, m, ok);
            r.Success? ==> r.value.0.params == s.params && r.value.1.params == orgs.params
  {
    hide Memory.ApprovalCheck;
  }

  lemma ReportKeepsParams(s: Memory.State, orgs: State, m: Memory.MsgReport, ok: bool)
    ensures var r := Memory.FileReport(s, orgs, m, ok);
            r.Success? ==> r.value.0.params == s.params && r.value.1.params == orgs.params
  {
  }
}
