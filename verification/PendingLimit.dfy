/**
 * The limit on pending commitments.  The scan behind it has no upper bound, so besides the
 * organisation's own commitments it counts those of organisations that sort later, every report, and the
 * marker that InitChain leaves in the store.
 */
module PendingLimit {
  import opened Numbers
  import opened Wrappers
  import opened StoreKeys
  import opened Memory
  import opened OrgInvariant
  import Chain
  import Custody
  import Hex
  import Lex
  import Org

  lemma {:induction false} PrefixBelow(a: string, b: string)
    requires a <= b
    ensures Lex.Le(Lex.Codes(a), Lex.Codes(b))
  {
    if a != "" {
      PrefixBelow(a[1..], b[1..]);
      assert Lex.Codes(a)[1..] == Lex.Codes(a[1..]) && Lex.Codes(b)[1..] == Lex.Codes(b[1..]);
    }
  }

  /** A common beginning does not decide the order. */
  lemma {:induction false} LeDropCommon(tag: seq<int>, a: seq<int>, b: seq<int>)
    ensures Lex.Le(tag + a, tag + b) <==> Lex.Le(a, b)
  {
    if tag == [] {
      assert tag + a == a && tag + b == b;
    } else {
      LeDropCommon(tag[1..], a, b);
      assert (tag + a)[1..] == tag[1..] + a && (tag + b)[1..] == tag[1..] + b;
    }
  }

  /** What follows t decides nothing, unless t is a proper prefix of p. */
  lemma {:induction false} LeIgnoresTail(p: seq<int>, t: seq<int>, h: seq<int>)
    requires t <= p ==> t == p
    ensures Lex.Le(p, t + h) <==> Lex.Le(p, t)
  {
    if p != [] {
      assert t != [];
      assert (t + h)[0] == t[0] && (t + h)[1..] == t[1..] + h;
      if p[0] == t[0] {
        assert t[1..] <= p[1..] ==> t <= p;
        LeIgnoresTail(p[1..], t[1..], h);
      }
    }
  }

  lemma CodesConcat(a: string, b: string)
    ensures Lex.Codes(a + b) == Lex.Codes(a) + Lex.Codes(b)
  {
  }

  /** An organisation sorts at or after another in the store: its id, closed by the separator, does. */
  predicate AtOrAfter(org: string, o: string) {
    Lex.Le(Lex.Codes(org + "/"), Lex.Codes(o + "/"))
  }

  lemma NoProperPrefix(org: string, o: string)
    requires NoSlash(org) && Lex.Codes(o + "/") <= Lex.Codes(org + "/")
    ensures Lex.Codes(o + "/") == Lex.Codes(org + "/")
  {
    var p, t := Lex.Codes(org + "/"), Lex.Codes(o + "/");
    assert p[|o|] == t[|o|] == '/' as int;
    assert forall i :: 0 <= i < |org| ==> p[i] == org[i] as int;
  }

  /** The scan from an organisation's prefix meets the commitments of exactly the organisations at or after it. */
  lemma ScanMeetsIff(org: string, o: string, h: seq<byte>)
    requires NoSlash(org)
    ensures Lex.Le(Lex.Codes(PendingPrefix(org)), Lex.Codes(PendingKey(o, h))) <==> AtOrAfter(org, o)
  {
    hide Hex.Encode;
    var tag, p, t, tail := Lex.Codes("pending/"), Lex.Codes(org + "/"), Lex.Codes(o + "/"), Lex.Codes(Hex.Encode(h));
    assert PendingPrefix(org) == "pending/" + (org + "/");
    assert PendingKey(o, h) == "pending/" + ((o + "/") + Hex.Encode(h));
    CodesConcat("pending/", org + "/");
    CodesConcat("pending/", (o + "/") + Hex.Encode(h));
    CodesConcat(o + "/", Hex.Encode(h));
    LeDropCommon(tag, p, t + tail);
    if t <= p {
      NoProperPrefix(org, o);
    }
    LeIgnoresTail(p, t, tail);
  }

  /** The commitments of other organisations that sort at or after this one. */
  function Later(s: State, org: string): set<Key> {
    set k | k in s.pending && k.0 != org && AtOrAfter(org, k.0)
  }

  /** The scan misses none of the organisation's own commitments, and adds all later ones, all reports and the marker. */
  lemma CountSplits(s: State, org: string)
    requires NoSlash(org)
    ensures PendingCount(s, org)
         == |KeysOf(s.pending.Keys, org)| + |Later(s, org)| + |s.reports| + (if s.marker then 1 else 0)
  {
    hide AtOrAfter;
    forall k: Key
      ensures k in PendingScan(s, org) <==> k in s.pending && AtOrAfter(org, k.0)
    {
      ScanMeetsIff(org, k.0, k.1);
    }
    AfterItself(org);
    assert PendingScan(s, org) == KeysOf(s.pending.Keys, org) + Later(s, org);
  }

  lemma AfterItself(org: string)
    ensures AtOrAfter(org, org)
  {
    Lex.LeReflexive(Lex.Codes(org + "/"));
  }

  /**
   * The limit counts the organisation's own commitments exactly when no organisation at or after it has
   * any, nothing was reported, and the marker is missing; on a started chain it never does.
   */
  lemma LimitIsOwnIff(s: State, org: string)
    requires NoSlash(org)
    ensures PendingCount(s, org) == |KeysOf(s.pending.Keys, org)|
       <==> !s.marker && s.reports == map[] && forall k :: k in s.pending && k.0 != org ==> !AtOrAfter(org, k.0)
  {
    CountSplits(s, org);
    assert forall k :: k in s.pending && k.0 != org ==> (k in Later(s, org) <==> AtOrAfter(org, k.0));
  }

  lemma OwnAreScanned(s: State, org: string)
    ensures KeysOf(s.pending.Keys, org) <= PendingScan(s, org)
    ensures |KeysOf(s.pending.Keys, org)| <= |PendingScan(s, org)|
  {
    forall k | k in KeysOf(s.pending.Keys, org) ensures k in PendingScan(s, org) {
      PrefixBelow(PendingPrefix(org), PendingKey(k.0, k.1));
    }
    SubsetSize(KeysOf(s.pending.Keys, org), PendingScan(s, org));
  }

  /** A submission that succeeds leaves the organisation, marker included, within the limit, however the scan overcounts. */
  lemma LimitHolds(s: State, orgs: Org.State, m: MsgSubmit)
    requires Submit(s, orgs, m).Success?
    ensures |KeysOf(Submit(s, orgs, m).value.pending.Keys, m.org)| + (if s.marker then 1 else 0) <= CurrentParams(s).maxPending
  {
    hide KeysOf, PendingScan;
    OwnAreScanned(s, m.org);
    KeysAdded(s.pending.Keys, (m.org, m.hash), m.org);
    assert Submit(s, orgs, m).value.pending.Keys == s.pending.Keys + {(m.org, m.hash)};
  }

  // ----- the limit along runs -----

  /** The organisation's own commitments and the marker together do not exceed the limit. */
  ghost predicate WithinLimit(s: State, org: string, limit: nat) {
    |KeysOf(s.pending.Keys, org)| + (if s.marker then 1 else 0) <= limit
  }

  predicate LimitsUpTo(actions: seq<Chain.Action>, limit: nat) {
    forall i :: 0 <= i < |actions| && actions[i].MemoryParams? ==> actions[i].memoryParams.maxPending <= limit
  }

  lemma SubmitWithinLimit(s: State, orgs: Org.State, m: MsgSubmit, org: string, limit: nat)
    requires WithinLimit(s, org, limit) && CurrentParams(s).maxPending <= limit && Submit(s, orgs, m).Success?
    ensures WithinLimit(Submit(s, orgs, m).value, org, limit)
  {
    hide KeysOf, PendingCount;
    LimitHolds(s, orgs, m);
    KeysAdded(s.pending.Keys, (m.org, m.hash), org);
    assert Submit(s, orgs, m).value.pending.Keys == s.pending.Keys + {(m.org, m.hash)};
  }

  lemma FewerWithinLimit(s: State, after: State, org: string, limit: nat)
    requires WithinLimit(s, org, limit) && after.pending.Keys <= s.pending.Keys && after.marker == s.marker
    ensures WithinLimit(after, org, limit)
  {
    SubsetSize(KeysOf(after.pending.Keys, org), KeysOf(s.pending.Keys, org));
  }

  lemma StepWithinLimit(x: Org.Setting, w: Chain.World, a: Chain.Action, org: string, limit: nat)
    requires Custody.InCustody(x.env, w.mem) && WithinLimit(w.mem, org, limit) && CurrentParams(w.mem).maxPending <= limit
    requires a.MemoryParams? ==> a.memoryParams.maxPending <= limit
    ensures var mem := Chain.Step(x, w, a).mem; WithinLimit(mem, org, limit) && CurrentParams(mem).maxPending <= limit
  {
    hide Chain.EconomyStep, EpochEnd, Submit, Approve, FileReport, Org.Step, Custody.InCustody, WithinLimit;
    match a
    case EpochEnd(epoch) =>
      Custody.KeyedInCustody(x.env, w.mem);
      Custody.EpochEndEffect(w.mem, epoch);
      FewerWithinLimit(w.mem, EpochEnd(w.mem, epoch), org, limit);
    case SubmitCommitment(m) =>
      if Submit(w.mem, w.orgs, m).Success? {
        SubmitWithinLimit(w.mem, w.orgs, m, org, limit);
        SubmitOnlyAdds(w.mem, w.orgs, m);
      }
    case ApproveMemory(m, ok) =>
      if Approve(x.env, w.mem, w.orgs, m, ok).Success? {
        Custody.ApproveEffect(x.env, w.mem, w.orgs, m, ok);
        FewerWithinLimit(w.mem, Promote(x.env, w.mem, m), org, limit);
      }
    case ReportMemory(m, ok) =>
      if FileReport(w.mem, w.orgs, m, ok).Success? {
        Custody.ReportEffect(w.mem, w.orgs, m, ok);
        FewerWithinLimit(w.mem, FileReport(w.mem, w.orgs, m, ok).value.0, org, limit);
      }
    case MemoryParams(_, params) => FewerWithinLimit(w.mem, w.mem.(params := Some(params)), org, limit);
    case _ =>
  }

  /** Along every run no organisation ever has more commitments pending than the highest limit in force, less the marker. */
  lemma {:induction false} LimitOverRuns(x: Org.Setting, w: Chain.World, actions: seq<Chain.Action>, org: string, limit: nat)
    requires Custody.InCustody(x.env, w.mem) && WithinLimit(w.mem, org, limit)
    requires CurrentParams(w.mem).maxPending <= limit && LimitsUpTo(actions, limit)
    ensures var mem := Chain.Run(x, w, actions).mem; WithinLimit(mem, org, limit) && CurrentParams(mem).maxPending <= limit
  {
    hide Custody.InCustody, Chain.Step, WithinLimit;
    if actions != [] {
      var prefix := actions[..|actions| - 1];
      LimitOverRuns(x, w, prefix, org, limit);
      Custody.RunKeeps(x, w, prefix);
      StepWithinLimit(x, Chain.Run(x, w, prefix), actions[|actions| - 1], org, limit);
    }
  }

  // ----- reports use the limit up for good -----

  /** No report and no marker is lost. */
  ghost predicate Grown(s: State, after: State) {
    |after.reports| >= |s.reports| && after.marker == s.marker
  }

  lemma EpochKeepsReports(x: Org.Setting, s: State, epoch: uint64)
    requires Custody.InCustody(x.env, s)
    ensures Grown(s, EpochEnd(s, epoch))
  {
    hide EpochEnd, Custody.InCustody;
    Custody.KeyedInCustody(x.env, s);
    Custody.EpochEndEffect(s, epoch);
  }

  lemma ApproveKeepsReports(x: Org.Setting, s: State, orgs: Org.State, m: MsgApprove, ok: bool)
    requires Approve(x.env, s, orgs, m, ok).Success?
    ensures Grown(s, Approve(x.env, s, orgs, m, ok).value.0)
  {
    hide Approve, Approved;
    Custody.ApproveEffect(x.env, s, orgs, m, ok);
  }

  lemma ReportAddsOne(s: State, orgs: Org.State, m: MsgReport, ok: bool)
    requires FileReport(s, orgs, m, ok).Success?
    ensures Grown(s, FileReport(s, orgs, m, ok).value.0)
  {
    hide FileReport;
    Custody.ReportEffect(s, orgs, m, ok);
    assert FileReport(s, orgs, m, ok).value.0.reports.Keys == s.reports.Keys + {(m.org, (m.hash, m.reporter))};
  }

  lemma SameGrown(s: State, after: State)
    requires after.reports == s.reports && after.marker == s.marker
    ensures Grown(s, after)
  {
  }

  lemma ReportsStay(x: Org.Setting, w: Chain.World, a: Chain.Action)
    requires Custody.InCustody(x.env, w.mem)
    ensures Grown(w.mem, Chain.Step(x, w, a).mem)
  {
    hide Chain.EconomyStep, EpochEnd, Submit, Approve, FileReport, Org.Step, Custody.InCustody, Grown;
    SameGrown(w.mem, w.mem);
    match a
    case EpochEnd(epoch) => EpochKeepsReports(x, w.mem, epoch);
    case SubmitCommitment(m) =>
      if Submit(w.mem, w.orgs, m).Success? {
        SubmitOnlyAdds(w.mem, w.orgs, m);
        SameGrown(w.mem, Submit(w.mem, w.orgs, m).value);
      }
    case ApproveMemory(m, ok) =>
      if Approve(x.env, w.mem, w.orgs, m, ok).Success? {
        ApproveKeepsReports(x, w.mem, w.orgs, m, ok);
      }
    case ReportMemory(m, ok) =>
      if FileReport(w.mem, w.orgs, m, ok).Success? {
        ReportAddsOne(w.mem, w.orgs, m, ok);
      }
    case MemoryParams(_, params) => SameGrown(w.mem, w.mem.(params := Some(params)));
    case _ =>
  }

  lemma SubmitOnlyAdds(s: State, orgs: Org.State, m: MsgSubmit)
    ensures Submit(s, orgs, m).Success? ==>
              var after := Submit(s, orgs, m).value; after == s.(pending := after.pending)
  {
  }

  /**
   * Once the reports, of whatever organisations, and the marker reach the limit, no submission of any
   * organisation succeeds again in any continuation, until the limit itself is raised.
   */
  lemma {:induction false} ReportsExhaustTheLimit(x: Org.Setting, w: Chain.World, actions: seq<Chain.Action>, m: MsgSubmit)
    requires Custody.InCustody(x.env, w.mem)
    ensures var after := Chain.Run(x, w, actions);
            && |after.mem.reports| >= |w.mem.reports| && after.mem.marker == w.mem.marker
            && (|w.mem.reports| + (if w.mem.marker then 1 else 0) >= CurrentParams(after.mem).maxPending ==>
                Submit(after.mem, after.orgs, m).Failure?)
  {
    hide Custody.InCustody, Chain.Step;
    if actions != [] {
      var prefix := actions[..|actions| - 1];
      ReportsExhaustTheLimit(x, w, prefix, m);
      Custody.RunKeeps(x, w, prefix);
      ReportsStay(x, Chain.Run(x, w, prefix), actions[|actions| - 1]);
    }
  }

  // ----- resubmitting an approved memory -----

  ghost predicate Disjoint(s: State) {
    s.pending.Keys !! s.approved.Keys
  }

  /** The submission checks only pending keys: they stay disjoint from the approved ones exactly when the hash is not approved. */
  lemma SubmitKeepsDisjointIff(s: State, orgs: Org.State, m: MsgSubmit)
    requires Disjoint(s) && Submit(s, orgs, m).Success?
    ensures Disjoint(Submit(s, orgs, m).value) <==> (m.org, m.hash) !in s.approved
  {
    hide PendingCount, ProvenanceValid, MayContribute;
    assert Submit(s, orgs, m).value.pending.Keys == s.pending.Keys + {(m.org, m.hash)};
  }

  /** A commitment to an approved hash may be submitted again, and then nothing approves or removes it. */
  lemma ResubmissionStep(x: Org.Setting, w: Chain.World, a: Chain.Action, k: Key)
    requires Custody.InCustody(x.env, w.mem) && k in w.mem.pending && k in w.mem.approved
    ensures k in Chain.Step(x, w, a).mem.pending
  {
    hide Chain.EconomyStep, EpochEnd, Submit, Approve, FileReport, Org.Step, Custody.InCustody;
    match a
    case EpochEnd(epoch) =>
      Custody.KeyedInCustody(x.env, w.mem);
      Custody.EpochEndEffect(w.mem, epoch);
    case SubmitCommitment(m) => SubmitKeepsPending(w.mem, w.orgs, m, k);
    case ApproveMemory(m, ok) =>
      if Approve(x.env, w.mem, w.orgs, m, ok).Success? {
        Custody.ApproveEffect(x.env, w.mem, w.orgs, m, ok);
      }
    case ReportMemory(m, ok) =>
      if FileReport(w.mem, w.orgs, m, ok).Success? {
        Custody.ReportEffect(w.mem, w.orgs, m, ok);
      }
    case _ =>
  }

  lemma SubmitKeepsPending(s: State, orgs: Org.State, m: MsgSubmit, k: Key)
    requires k in s.pending
    ensures Submit(s, orgs, m).Success? ==> k in Submit(s, orgs, m).value.pending
  {
  }

  /** A resubmitted commitment stays pending for ever and counts against the limit in every later state. */
  lemma {:induction false} ResubmissionStays(x: Org.Setting, w: Chain.World, actions: seq<Chain.Action>, k: Key)
    requires Custody.InCustody(x.env, w.mem) && k in w.mem.pending && k in w.mem.approved
    ensures var mem := Chain.Run(x, w, actions).mem;
            k in mem.pending && k in mem.approved && k in PendingScan(mem, k.0)
  {
    hide Custody.InCustody, Chain.Step;
    Custody.RunKeeps(x, w, actions);
    if actions != [] {
      var prefix := actions[..|actions| - 1];
      ResubmissionStays(x, w, prefix, k);
      Custody.RunKeeps(x, w, prefix);
      ResubmissionStep(x, Chain.Run(x, w, prefix), actions[|actions| - 1], k);
    }
    OwnAreScanned(Chain.Run(x, w, actions).mem, k.0);
    assert k in KeysOf(Chain.Run(x, w, actions).mem.pending.Keys, k.0);
  }
}
