/** The totals two modules keep about the same memories and reports agree in every reachable state. */
module Counters {
  import opened Numbers
  import opened Wrappers
  import opened OrgInvariant
  import opened Memory
  import Chain
  import Custody
  import Expiry
  import Org

  /** Memories and reports belong to registered organisations. */
  ghost predicate Registered(mem: State, orgs: Org.State) {
    && (forall k :: k in mem.approved ==> k.0 in orgs.orgs)
    && (forall k :: k in mem.reports ==> k.0 in orgs.orgs)
    && mem.counts.Keys <= orgs.orgs.Keys
  }

  /** The three totals are the numbers of keys stored. */
  ghost predicate Tallied(mem: State, orgs: Org.State, o: string)
    requires o in orgs.orgs
  {
    && CountOf(mem, o) == |KeysOf(mem.approved.Keys, o)| == orgs.orgs[o].committedMemories
    && orgs.orgs[o].upheldReports == |KeysOf(mem.reports.Keys, o)|
  }

  ghost predicate Agree(mem: State, orgs: Org.State) {
    Registered(mem, orgs) && forall o :: o in orgs.orgs ==> Tallied(mem, orgs, o)
  }

  // ----- the registry -----

  /** Registry messages keep the organisations and both totals; a new organisation starts at zero. */
  ghost predicate TotalsKept(s: Org.State, after: Org.State) {
    && (forall o :: o in s.orgs ==>
          && o in after.orgs
          && after.orgs[o].committedMemories == s.orgs[o].committedMemories
          && after.orgs[o].upheldReports == s.orgs[o].upheldReports)
    && (forall o :: o in after.orgs && o !in s.orgs ==>
          after.orgs[o].committedMemories == 0 && after.orgs[o].upheldReports == 0)
  }

  lemma RegisterKeepsTotals(x: Org.Setting, s: Org.State, m: Org.Message)
    requires m.RegisterOrg? && Org.Register(x.env, x.account, s, m).Success?
    ensures TotalsKept(s, Org.Register(x.env, x.account, s, m).value)
  {
    hide Org.Charge, Org.ProfileValid, Org.GrantOk, Org.SlotFee, Wrap;
  }

  lemma MembershipKeepsTotals(x: Org.Setting, s: Org.State, m: Org.Message)
    requires m.AddMember? || m.RemoveMember? || m.SetMemberCapabilities?
    ensures TotalsKept(s, Org.Step(x, s, m))
  {
    hide Wrap;
  }

  lemma LeadershipKeepsTotals(x: Org.Setting, s: Org.State, m: Org.Message)
    requires m.TransferLeadership? || m.SetServingKey? || m.CloseOrg? || m.UpdateParams?
    ensures TotalsKept(s, Org.Step(x, s, m))
  {
    hide Org.GrantOk;
  }

  lemma MessageKeepsTotals(x: Org.Setting, s: Org.State, m: Org.Message)
    ensures TotalsKept(s, Org.Step(x, s, m))
  {
    hide Org.Register;
    match m
    case RegisterOrg(_, _, _, _, _, _) =>
      if Org.Register(x.env, x.account, s, m).Success? {
        RegisterKeepsTotals(x, s, m);
      }
    case AddMember(_, _, _, _, _, _, _) => MembershipKeepsTotals(x, s, m);
    case RemoveMember(_, _, _) => MembershipKeepsTotals(x, s, m);
    case SetMemberCapabilities(_, _, _, _, _) => MembershipKeepsTotals(x, s, m);
    case _ => LeadershipKeepsTotals(x, s, m);
  }

  lemma MessageKeepsAgreement(mem: State, orgs: Org.State, after: Org.State)
    requires Agree(mem, orgs) && TotalsKept(orgs, after)
    ensures Agree(mem, after)
  {
    forall o | o in after.orgs ensures Tallied(mem, after, o) {
      if o !in orgs.orgs {
        assert KeysOf(mem.approved.Keys, o) == {} && KeysOf(mem.reports.Keys, o) == {};
      }
    }
  }

  // ----- approvals and reports -----

  /** One organisation's totals went up, by one memory or by one report; all others stayed. */
  ghost predicate Raised(orgs: Org.State, after: Org.State, org: string, memories: nat, reports: nat) {
    && after.orgs.Keys == orgs.orgs.Keys && org in orgs.orgs
    && forall o :: o in orgs.orgs ==>
         var here := o == org;
         && after.orgs[o].committedMemories == (if here then Wrap(orgs.orgs[o].committedMemories + memories) else orgs.orgs[o].committedMemories)
         && after.orgs[o].upheldReports == (if here then Wrap(orgs.orgs[o].upheldReports + reports) else orgs.orgs[o].upheldReports)
  }

  lemma RaisedKeepsOrgs(orgs: Org.State, after: Org.State, org: string, memories: nat, reports: nat)
    requires Raised(orgs, after, org, memories, reports)
    ensures after.orgs.Keys == orgs.orgs.Keys && org in orgs.orgs
  {
  }

  lemma CommittedRaises(orgs: Org.State, org: string, epoch: uint64)
    requires org in orgs.orgs
    ensures Raised(orgs, Org.DateActivity(Org.CountCommitted(orgs, org), org, epoch), org, 1, 0)
  {
  }

  lemma UpheldRaises(orgs: Org.State, org: string)
    requires org in orgs.orgs
    ensures Raised(orgs, Org.CountUpheld(orgs, org), org, 0, 1)
  {
  }

  lemma ApproveTallies(mem: State, orgs: Org.State, after: State, orgs': Org.State, key: Key, o: string)
    requires o in orgs.orgs && Tallied(mem, orgs, o) && key !in mem.approved && |mem.approved| < TWO64 - 1
    requires after.approved.Keys == mem.approved.Keys + {key} && after.reports == mem.reports
    requires after.counts == mem.counts[key.0 := Wrap(CountOf(mem, key.0) + 1)]
    requires Raised(orgs, orgs', key.0, 1, 0)
    ensures Tallied(after, orgs', o)
  {
    hide KeysOf, Wrap;
    KeysAdded(mem.approved.Keys, key, o);
    assert orgs'.orgs[o].upheldReports == orgs.orgs[o].upheldReports;
  }

  lemma ApproveKeepsAgreement(mem: State, orgs: Org.State, after: State, orgs': Org.State, key: Key)
    requires Agree(mem, orgs) && key !in mem.approved && |mem.approved| < TWO64 - 1
    requires after.approved.Keys == mem.approved.Keys + {key} && after.reports == mem.reports
    requires after.counts == mem.counts[key.0 := Wrap(CountOf(mem, key.0) + 1)]
    requires Raised(orgs, orgs', key.0, 1, 0)
    ensures Agree(after, orgs')
  {
    hide Tallied, Wrap, CountOf, Raised, KeysOf;
    RaisedKeepsOrgs(orgs, orgs', key.0, 1, 0);
    forall o | o in orgs.orgs ensures Tallied(after, orgs', o) {
      ApproveTallies(mem, orgs, after, orgs', key, o);
    }
  }

  lemma ReportKeepsAgreement(mem: State, orgs: Org.State, after: State, orgs': Org.State, key: (string, (seq<byte>, string)))
    requires Agree(mem, orgs) && key !in mem.reports && |mem.reports| < TWO64 - 1
    requires after.reports.Keys == mem.reports.Keys + {key}
    requires after.approved == mem.approved && after.counts == mem.counts
    requires Raised(orgs, orgs', key.0, 0, 1)
    ensures Agree(after, orgs')
  {
    hide KeysOf, Wrap;
    forall o | o in orgs.orgs ensures Tallied(after, orgs', o) {
      KeysAdded(mem.reports.Keys, key, o);
      assert Tallied(mem, orgs, o);
    }
  }

  // ----- runs -----

  /** How many records the counters have to hold. */
  function Records(w: Chain.World): nat {
    |w.mem.approved| + |w.mem.reports|
  }

  lemma ApproveStep(x: Org.Setting, w: Chain.World, m: MsgApprove, ok: bool)
    requires Agree(w.mem, w.orgs) && Records(w) < TWO64 - 1 && Approve(x.env, w.mem, w.orgs, m, ok).Success?
    ensures var (mem, orgs) := Approve(x.env, w.mem, w.orgs, m, ok).value;
            Agree(mem, orgs) && |mem.approved| + |mem.reports| <= Records(w) + 1
  {
    hide Agree, Approve, Raised, Approved, Org.CountCommitted, Org.DateActivity;
    var (mem, orgs) := Approve(x.env, w.mem, w.orgs, m, ok).value;
    var key := (m.org, m.hash);
    Custody.ApproveEffect(x.env, w.mem, w.orgs, m, ok);
    CommittedRaises(w.orgs, m.org, w.mem.pending[key].epoch);
    assert mem.approved.Keys == w.mem.approved.Keys + {key};
    ApproveKeepsAgreement(w.mem, w.orgs, mem, orgs, key);
  }

  lemma ReportStep(w: Chain.World, m: MsgReport, ok: bool)
    requires Agree(w.mem, w.orgs) && Records(w) < TWO64 - 1 && FileReport(w.mem, w.orgs, m, ok).Success?
    ensures var (mem, orgs) := FileReport(w.mem, w.orgs, m, ok).value;
            Agree(mem, orgs) && |mem.approved| + |mem.reports| <= Records(w) + 1
  {
    hide Agree, FileReport, Raised, Org.CountUpheld;
    var (mem, orgs) := FileReport(w.mem, w.orgs, m, ok).value;
    var key := (m.org, (m.hash, m.reporter));
    Custody.ReportEffect(w.mem, w.orgs, m, ok);
    UpheldRaises(w.orgs, m.org);
    assert mem.reports.Keys == w.mem.reports.Keys + {key};
    ReportKeepsAgreement(w.mem, w.orgs, mem, orgs, key);
  }

  lemma EpochStep(s: State, orgs: Org.State, epoch: uint64)
    requires Agree(s, orgs) && Expiry.WellKeyed(s)
    ensures Agree(EpochEnd(s, epoch), orgs)
    ensures |EpochEnd(s, epoch).approved| == |s.approved| && EpochEnd(s, epoch).reports == s.reports
  {
    hide EpochEnd;
    Custody.EpochEndEffect(s, epoch);
    var after := EpochEnd(s, epoch);
    assert |after.approved.Keys| == |s.approved.Keys|;
    forall o | o in orgs.orgs ensures Tallied(after, orgs, o) {
      assert Tallied(s, orgs, o);
    }
  }

  lemma SubmitStep(s: State, orgs: Org.State, m: MsgSubmit)
    requires Submit(s, orgs, m).Success?
    ensures var after := Submit(s, orgs, m).value; after == s.(pending := after.pending)
  {
  }

  lemma SidelinesKeepAgreement(s: State, orgs: Org.State, after: State)
    requires Agree(s, orgs) && after.approved == s.approved && after.reports == s.reports && after.counts == s.counts
    ensures Agree(after, orgs)
  {
    forall o | o in orgs.orgs ensures Tallied(after, orgs, o) {
      assert Tallied(s, orgs, o);
    }
  }

  lemma StepKeeps(x: Org.Setting, w: Chain.World, a: Chain.Action)
    requires Agree(w.mem, w.orgs) && Expiry.WellKeyed(w.mem) && Records(w) < TWO64 - 1
    ensures var after := Chain.Step(x, w, a);
            Agree(after.mem, after.orgs) && Records(after) <= Records(w) + 1
  {
    hide Agree, Chain.EconomyStep, Submit, Approve, FileReport, EpochEnd, Org.Step, Expiry.WellKeyed;
    match a
    case EpochEnd(epoch) => EpochStep(w.mem, w.orgs, epoch);
    case OrgMessage(m) =>
      MessageKeepsTotals(x, w.orgs, m);
      MessageKeepsAgreement(w.mem, w.orgs, Org.Step(x, w.orgs, m));
    case SubmitCommitment(m) =>
      if Submit(w.mem, w.orgs, m).Success? {
        SubmitStep(w.mem, w.orgs, m);
        SidelinesKeepAgreement(w.mem, w.orgs, Submit(w.mem, w.orgs, m).value);
      }
    case ApproveMemory(m, ok) =>
      if Approve(x.env, w.mem, w.orgs, m, ok).Success? {
        ApproveStep(x, w, m, ok);
      }
    case ReportMemory(m, ok) =>
      if FileReport(w.mem, w.orgs, m, ok).Success? {
        ReportStep(w, m, ok);
      }
    case MemoryParams(_, params) => SidelinesKeepAgreement(w.mem, w.orgs, w.mem.(params := Some(params)));
    case _ =>
  }

  /**
   * After every run, count/org, the number of approved keys and the registry's total agree for each
   * organisation, and so do its report keys and its total of upheld reports.
   */
  lemma {:induction false} RunKeeps(x: Org.Setting, w: Chain.World, actions: seq<Chain.Action>)
    requires Agree(w.mem, w.orgs) && Custody.InCustody(x.env, w.mem) && Records(w) + |actions| < TWO64
    ensures var after := Chain.Run(x, w, actions);
            Agree(after.mem, after.orgs) && Records(after) <= Records(w) + |actions|
  {
    hide Agree, Custody.InCustody, Chain.Step, Expiry.WellKeyed;
    if actions != [] {
      var prefix := actions[..|actions| - 1];
      RunKeeps(x, w, prefix);
      Custody.RunKeeps(x, w, prefix);
      Custody.KeyedInCustody(x.env, Chain.Run(x, w, prefix).mem);
      StepKeeps(x, Chain.Run(x, w, prefix), actions[|actions| - 1]);
    }
  }

  /** A chain without organisations and memories starts in agreement. */
  lemma StartAgrees(orgs: Org.State)
    requires orgs.orgs == map[]
    ensures Agree(STARTED, orgs)
  {
  }
}
