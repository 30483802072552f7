/**
 * Where the records of a chain come from.  Whatever is stored after a run was stored at its start, or
 * goes back to a message of the run that passed every check in the state it was delivered to.
 */
module History {
  import opened Numbers
  import opened Externals
  import opened Memory
  import Chain
  import Custody
  import Hex
  import Identity
  import Org

  /** The state in which the i-th action was delivered. */
  ghost function Before(x: Org.Setting, w: Chain.World, actions: seq<Chain.Action>, i: nat): Chain.World
    requires i <= |actions|
  {
    Chain.Run(x, w, actions[..i])
  }

  lemma BeforeInPrefix(x: Org.Setting, w: Chain.World, actions: seq<Chain.Action>, i: nat)
    requires i < |actions|
    ensures var prefix := actions[..|actions| - 1];
            && Before(x, w, actions, i) == Before(x, w, prefix, i)
            && (i < |actions| - 1 ==> prefix[i] == actions[i])
            && (i == |actions| - 1 ==> Before(x, w, actions, i) == Chain.Run(x, w, prefix))
  {
    assert actions[..|actions| - 1][..i] == actions[..i];
  }

  // ----- aliases -----

  ghost predicate BoundBy(x: Org.Setting, a: Chain.Action, p: string, alias: Identity.Alias) {
    a.MigrateIdentity? && Identity.Binds(x.env, a.migration, a.height, p, alias)
  }

  lemma AliasStep(x: Org.Setting, w: Chain.World, a: Chain.Action, p: string)
    ensures var (before, after) := (w.econ.aliases, Chain.Step(x, w, a).econ.aliases);
            && (p in before ==> p in after)
            && (p in after && !(p in before && after[p] == before[p]) ==>
                BoundBy(x, a, p, after[p]) && !(p in before && before[p].migrated))
  {
    hide Chain.ContentStep, Identity.Migrate, Identity.Binds;
    if a.MigrateIdentity? {
      Identity.MigrateBindsIff(x.env, w.econ.aliases, a.migration, a.height);
    }
  }

  /** Every alias is as it was, or was bound in the run by a message its own key signed for that wallet; a migrated one stays. */
  lemma {:induction false} AliasHistory(x: Org.Setting, w: Chain.World, actions: seq<Chain.Action>, p: string)
    ensures var (before, after) := (w.econ.aliases, Chain.Run(x, w, actions).econ.aliases);
            && (p in before ==> p in after)
            && (p in before && before[p].migrated ==> after[p] == before[p])
            && (p in after ==> (p in before && after[p] == before[p])
                               || exists i :: 0 <= i < |actions| && BoundBy(x, actions[i], p, after[p]))
  {
    hide Chain.Step, BoundBy;
    if actions != [] {
      var prefix, last := actions[..|actions| - 1], actions[|actions| - 1];
      var mid := Chain.Run(x, w, prefix);
      AliasHistory(x, w, prefix, p);
      AliasStep(x, mid, last, p);
      var after := Chain.Run(x, w, actions).econ.aliases;
      if p in mid.econ.aliases && after[p] == mid.econ.aliases[p] && !(p in w.econ.aliases && after[p] == w.econ.aliases[p]) {
        var i :| 0 <= i < |prefix| && BoundBy(x, prefix[i], p, after[p]);
        assert actions[i] == prefix[i];
      }
    }
  }

  // ----- what a message of the run can have caused -----

  type ReportKey = (string, (seq<byte>, string))

  datatype Fact =
    | Offered(k: Key, from: Provenance)
    | Promoted(k: Key, r: Commitment)
    | Complained(key: ReportKey, report: Report)

  /** The signer is the wallet the organisation's leader had registered. */
  predicate SignedByLeader(orgs: Org.State, org: string, signer: string) {
    org in orgs.orgs && signer != "" && signer == orgs.orgs[org].leaderWallet
  }

  /** The message submits this provenance under the key, for a member who may contribute at that moment. */
  ghost predicate Offers(orgs: Org.State, m: MsgSubmit, k: Key, from: Provenance) {
    && m.org == k.0 && m.hash == k.1 && m.from == from && |k.1| == 32 && SignedByLeader(orgs, k.0, m.signer)
    && (k.0, from.contributor) in orgs.members
    && (orgs.members[(k.0, from.contributor)].role == "leader" || orgs.members[(k.0, from.contributor)].canContribute)
  }

  /**
   * The message turns the pending commitment under the key into the record, whatever its state is by now:
   * provenance and dates from the commitment, the capsule from the message, the stamp from the store.
   */
  ghost predicate Promotes(env: Env, s: State, orgs: Org.State, m: MsgApprove, k: Key, r: Commitment) {
    && m.org == k.0 && m.hash == k.1 && |k.1| == 32 && k in s.pending && k !in s.approved
    && SignedByLeader(orgs, k.0, m.signer)
    && (k.0, m.leader) in orgs.members && orgs.members[(k.0, m.leader)].role == "leader"
    && 0 < |m.blob| <= (if s.params.Some? then s.params.value.maxBlob else 1_048_576) < TWO63
    && r.org == k.0 && r.hash == k.1 && r.leader == m.leader && r.approvedAt == s.epoch
    && r.from == s.pending[k].from && r.height == s.pending[k].submittedAt
    && r.epoch == s.pending[k].epoch && r.lastActive == s.pending[k].epoch
    && r.capsule.blob == m.blob && r.capsule.wrappedDek == m.wrappedDek && r.capsule.plaintextHash == m.plaintextHash
    && r.capsule.salt == m.salt && r.capsule.ciphertextHash == m.ciphertextHash && r.capsule.sig == m.sig
    && r.capsule.memoryType == m.memoryType && r.capsule.wrappedDekHash == env.sha256(m.wrappedDek)
  }

  /** The message reports a memory that is approved at that moment, with evidence of bounded size. */
  ghost predicate Complains(s: State, orgs: Org.State, m: MsgReport, key: ReportKey, report: Report) {
    && key == (m.org, (m.hash, m.reporter)) && |m.hash| == 32 && m.reporter != "" && SignedByLeader(orgs, m.org, m.signer)
    && (m.org, m.hash) in s.approved && key !in s.reports
    && report == m.report.(leader := m.signer) && report.reason != "" && report.plaintextHash != []
    && (report.oversized ==> report.plaintext == [] && report.ciphertext == [] && report.capsule == [])
    && (!report.oversized ==> |report.plaintext| <= 4096 && |report.ciphertext| <= 8192 && report.capsule != [])
  }

  ghost predicate Causes(x: Org.Setting, mid: Chain.World, a: Chain.Action, f: Fact) {
    match f
    case Offered(k, from) => a.SubmitCommitment? && Offers(mid.orgs, a.submission, k, from)
    case Promoted(k, r) => a.ApproveMemory? && Promotes(x.env, mid.mem, mid.orgs, a.approval, k, r)
    case Complained(key, report) => a.ReportMemory? && Complains(mid.mem, mid.orgs, a.report, key, report)
  }

  /** An action of the run caused the fact in the state it was delivered to. */
  ghost predicate Happened(x: Org.Setting, w: Chain.World, actions: seq<Chain.Action>, f: Fact) {
    exists i :: 0 <= i < |actions| && Causes(x, Before(x, w, actions, i), actions[i], f)
  }

  lemma StillHappened(x: Org.Setting, w: Chain.World, actions: seq<Chain.Action>, f: Fact)
    requires actions != [] && Happened(x, w, actions[..|actions| - 1], f)
    ensures Happened(x, w, actions, f)
  {
    hide Causes, Before;
    var prefix := actions[..|actions| - 1];
    var i :| 0 <= i < |prefix| && Causes(x, Before(x, w, prefix, i), prefix[i], f);
    BeforeInPrefix(x, w, actions, i);
    assert Causes(x, Before(x, w, actions, i), actions[i], f);
  }

  lemma JustHappened(x: Org.Setting, w: Chain.World, actions: seq<Chain.Action>, f: Fact)
    requires actions != [] && Causes(x, Chain.Run(x, w, actions[..|actions| - 1]), actions[|actions| - 1], f)
    ensures Happened(x, w, actions, f)
  {
    hide Causes;
    BeforeInPrefix(x, w, actions, |actions| - 1);
    assert Causes(x, Before(x, w, actions, |actions| - 1), actions[|actions| - 1], f);
  }

  // ----- single messages -----

  /** A submission succeeds exactly when it is signed by the leader's wallet for a member who may contribute, is well-formed and new, and fits the limit. */
  lemma SubmitSucceedsIff(s: State, orgs: Org.State, m: MsgSubmit)
    ensures Submit(s, orgs, m).Success? <==>
            && Offers(orgs, m, (m.org, m.hash), m.from) && m.org != "" && m.memoryType.Memory?
            && m.from.contributor != "" && "" !in m.from.keywords
            && (m.from.modelId != "" ==> |m.from.modelId| <= 128 && !Blank(m.from.modelId))
            && (m.from.session != [] ==> |m.from.session| == 32 && m.from.modelId != "")
            && (m.org, m.hash) !in s.pending
            && PendingCount(s, m.org) < if s.params.Some? then s.params.value.maxPending else 1000
  {
    hide PendingCount, Blank;
  }

  /** The commitment stored says what was submitted, dated 0; nothing else changes. */
  lemma SubmitStores(s: State, orgs: Org.State, m: MsgSubmit)
    requires Submit(s, orgs, m).Success?
    ensures var (after, key) := (Submit(s, orgs, m).value, (m.org, m.hash));
            && key in after.pending && after == s.(pending := s.pending[key := after.pending[key]])
            && after.pending[key].from == m.from && after.pending[key].org == m.org && after.pending[key].hash == m.hash
            && after.pending[key].epoch == 0 && after.pending[key].submittedAt == 0 && after.pending[key].memoryType.Memory?
  {
    hide PendingCount, ProvenanceValid;
  }

  /** The blob fits the limit, as the source compares them: the limit read as a signed number. */
  lemma FitsLimit(n: nat, limit: uint64)
    requires n > 0
    ensures n <= ToInt64(limit) <==> n <= limit < TWO63
  {
  }

  /**
   * An approval succeeds exactly when the pending commitment's contributor signed what it claims, the hashes
   * are those of the bytes, the leader's wallet signed for the leader, and the blob fits the limit.
   */
  lemma ApproveSucceedsIff(env: Env, s: State, orgs: Org.State, m: MsgApprove)
    ensures var (k, limit) := ((m.org, m.hash), if s.params.Some? then s.params.value.maxBlob else 1_048_576);
            Approve(env, s, orgs, m, true).Success? <==>
            && m.org != "" && |m.hash| == 32 && m.memoryType.Memory? && SignedByLeader(orgs, m.org, m.signer)
            && (m.org, m.leader) in orgs.members && orgs.members[(m.org, m.leader)].role == "leader"
            && 0 < |m.blob| <= limit < TWO63 && k in s.pending && k !in s.approved
            && m.ciphertextHash == env.sha256(m.blob) && m.hash == env.sha256(m.blob + m.wrappedDek)
            && var key := Hex.Decode(s.pending[k].from.contributor);
               && key.Some? && |key.value| == 32
               && env.verify(key.value, CanonicalBody.Body(CanonicalBody.Submission(
                    m.ciphertextHash, s.pending[k].from.contributor, s.pending[k].epoch, m.memoryType, m.org,
                    m.plaintextHash, m.salt, env.sha256(m.blob + m.wrappedDek), env.sha256(m.wrappedDek))), m.sig)
  {
    hide Hex.Decode, CanonicalBody.Body, Promote, Org.CountCommitted, Org.DateActivity;
    if m.blob != [] {
      FitsLimit(|m.blob|, CurrentParams(s).maxBlob);
    }
  }

  /** The record an approval stores, and that nothing else about the memories changes. */
  lemma ApproveStores(env: Env, s: State, orgs: Org.State, m: MsgApprove, ok: bool)
    requires Approve(env, s, orgs, m, ok).Success?
    ensures var (after, k) := (Approve(env, s, orgs, m, ok).value.0, (m.org, m.hash));
            && k in after.approved && Promotes(env, s, orgs, m, k, after.approved[k]) && after.approved[k].state == Committed
            && after == s.(approved := s.approved[k := after.approved[k]], pending := s.pending - {k}, counts := after.counts)
  {
    hide Hex.Decode, CanonicalBody.Body, Org.CountCommitted, Org.DateActivity;
    FitsLimit(|m.blob|, CurrentParams(s).maxBlob);
  }

  /** A report is accepted exactly as `Complains` says, and stored with the signer as its leader; nothing else changes. */
  lemma ReportAcceptedIff(s: State, orgs: Org.State, m: MsgReport)
    ensures var (key, stored) := ((m.org, (m.hash, m.reporter)), m.report.(leader := m.signer));
            && (FileReport(s, orgs, m, true).Success? <==> m.org != "" && Complains(s, orgs, m, key, stored))
  {
    hide Org.CountUpheld;
  }

  lemma ReportStores(s: State, orgs: Org.State, m: MsgReport, ok: bool)
    requires FileReport(s, orgs, m, ok).Success?
    ensures var (after, key) := (FileReport(s, orgs, m, ok).value.0, (m.org, (m.hash, m.reporter)));
            && key in after.reports && Complains(s, orgs, m, key, after.reports[key])
            && after == s.(reports := s.reports[key := after.reports[key]])
  {
    hide Org.CountUpheld;
  }

  // ----- memories -----

  /** The provenance was in the store at the start, or was submitted under the key in the run. */
  ghost predicate Sourced(x: Org.Setting, w: Chain.World, actions: seq<Chain.Action>, k: Key, from: Provenance) {
    || (k in w.mem.pending && w.mem.pending[k].from == from)
    || (k in w.mem.approved && w.mem.approved[k].from == from)
    || Happened(x, w, actions, Offered(k, from))
  }

  lemma StillSourced(x: Org.Setting, w: Chain.World, actions: seq<Chain.Action>, k: Key, from: Provenance)
    requires actions != [] && Sourced(x, w, actions[..|actions| - 1], k, from)
    ensures Sourced(x, w, actions, k, from)
  {
    hide Happened;
    if Happened(x, w, actions[..|actions| - 1], Offered(k, from)) {
      StillHappened(x, w, actions, Offered(k, from));
    }
  }

  /** One step: what is pending or approved under a key afterwards was so before, or the action put it there. */
  ghost predicate StepCauses(x: Org.Setting, w: Chain.World, a: Chain.Action, after: State, k: Key) {
    && (k in after.pending ==>
          (k in w.mem.pending && after.pending[k] == w.mem.pending[k]) || Causes(x, w, a, Offered(k, after.pending[k].from)))
    && (k in after.approved ==>
          || (k in w.mem.approved && Custody.Aged(w.mem.approved[k], after.approved[k]))
          || (&& Causes(x, w, a, Promoted(k, after.approved[k]))
              && k in w.mem.pending && after.approved[k].from == w.mem.pending[k].from))
  }

  lemma MemoryStep(x: Org.Setting, w: Chain.World, a: Chain.Action, k: Key)
    requires Custody.InCustody(x.env, w.mem)
    ensures StepCauses(x, w, a, Chain.Step(x, w, a).mem, k)
  {
    hide Custody.InCustody, Chain.EconomyStep, Submit, Approve, FileReport, EpochEnd, Org.Step, Promotes, Offers;
    match a
    case EpochEnd(epoch) => EpochCauses(x, w, epoch, k);
    case SubmitCommitment(m) =>
      if Submit(w.mem, w.orgs, m).Success? {
        SubmitStores(w.mem, w.orgs, m);
        SubmitSucceedsIff(w.mem, w.orgs, m);
      }
    case ApproveMemory(m, ok) =>
      if Approve(x.env, w.mem, w.orgs, m, ok).Success? {
        ApproveStores(x.env, w.mem, w.orgs, m, ok);
        PromotesFrom(x.env, w.mem, w.orgs, m, (m.org, m.hash), Approve(x.env, w.mem, w.orgs, m, ok).value.0.approved[(m.org, m.hash)]);
      }
    case ReportMemory(m, ok) =>
      if FileReport(w.mem, w.orgs, m, ok).Success? {
        Custody.ReportEffect(w.mem, w.orgs, m, ok);
      }
    case _ =>
  }

  lemma PromotesFrom(env: Env, s: State, orgs: Org.State, m: MsgApprove, k: Key, r: Commitment)
    requires Promotes(env, s, orgs, m, k, r)
    ensures k in s.pending && r.from == s.pending[k].from
  {
  }

  lemma EpochCauses(x: Org.Setting, w: Chain.World, epoch: uint64, k: Key)
    requires Custody.InCustody(x.env, w.mem)
    ensures StepCauses(x, w, Chain.EpochEnd(epoch), EpochEnd(w.mem, epoch), k)
  {
    hide EpochEnd, Custody.InCustody;
    Custody.KeyedInCustody(x.env, w.mem);
    Custody.EpochEndEffect(w.mem, epoch);
    Custody.EpochEndKeeps(x.env, w.mem, epoch);
  }

  /** The record does not tell apart the states a memory goes through. */
  lemma AgedHappened(x: Org.Setting, w: Chain.World, actions: seq<Chain.Action>, k: Key, c: Commitment, d: Commitment)
    requires Custody.Aged(c, d) && Happened(x, w, actions, Promoted(k, c))
    ensures Happened(x, w, actions, Promoted(k, d))
  {
    hide Before;
    var i :| 0 <= i < |actions| && Causes(x, Before(x, w, actions, i), actions[i], Promoted(k, c));
    assert Causes(x, Before(x, w, actions, i), actions[i], Promoted(k, d));
  }

  /** Where the memory under a key comes from. */
  ghost predicate Traced(x: Org.Setting, w: Chain.World, actions: seq<Chain.Action>, after: State, k: Key) {
    && (k in after.pending ==> Sourced(x, w, actions, k, after.pending[k].from))
    && (k in after.approved ==> Sourced(x, w, actions, k, after.approved[k].from))
    && (k in after.approved ==>
          || (k in w.mem.approved && Custody.Aged(w.mem.approved[k], after.approved[k]))
          || Happened(x, w, actions, Promoted(k, after.approved[k])))
  }

  lemma AgedTwice(c: Commitment, d: Commitment, e: Commitment)
    requires Custody.Aged(c, d) && Custody.Aged(d, e)
    ensures Custody.Aged(c, e) && e.from == c.from
  {
  }

  lemma TracedStep(x: Org.Setting, w: Chain.World, actions: seq<Chain.Action>, k: Key)
    requires actions != []
    requires var mid := Chain.Run(x, w, actions[..|actions| - 1]);
             && Traced(x, w, actions[..|actions| - 1], mid.mem, k)
             && StepCauses(x, mid, actions[|actions| - 1], Chain.Run(x, w, actions).mem, k)
    ensures Traced(x, w, actions, Chain.Run(x, w, actions).mem, k)
  {
    hide Chain.Run, Sourced, Happened, Causes;
    var prefix := actions[..|actions| - 1];
    var mid, after := Chain.Run(x, w, prefix).mem, Chain.Run(x, w, actions).mem;
    if k in mid.pending {
      StillSourced(x, w, actions, k, mid.pending[k].from);
    }
    if k in after.pending && !(k in mid.pending && after.pending[k] == mid.pending[k]) {
      JustHappened(x, w, actions, Offered(k, after.pending[k].from));
      SourcedNow(x, w, actions, k, after.pending[k].from);
    }
    if k in after.approved {
      if k in mid.approved && Custody.Aged(mid.approved[k], after.approved[k]) {
        StillSourced(x, w, actions, k, mid.approved[k].from);
        if Happened(x, w, prefix, Promoted(k, mid.approved[k])) {
          StillHappened(x, w, actions, Promoted(k, mid.approved[k]));
          AgedHappened(x, w, actions, k, mid.approved[k], after.approved[k]);
        } else {
          AgedTwice(w.mem.approved[k], mid.approved[k], after.approved[k]);
        }
      } else {
        JustHappened(x, w, actions, Promoted(k, after.approved[k]));
      }
    }
  }

  lemma SourcedNow(x: Org.Setting, w: Chain.World, actions: seq<Chain.Action>, k: Key, from: Provenance)
    requires Happened(x, w, actions, Offered(k, from))
    ensures Sourced(x, w, actions, k, from)
  {
  }

  /**
   * Every commitment and every approved memory carries the provenance of a submission of the run by a member
   * who could contribute then, and every approved memory is what an approval of the run made of it.
   */
  lemma {:induction false} MemoryHistory(x: Org.Setting, w: Chain.World, actions: seq<Chain.Action>, k: Key)
    requires Custody.InCustody(x.env, w.mem)
    ensures Traced(x, w, actions, Chain.Run(x, w, actions).mem, k)
  {
    hide Custody.InCustody, Chain.Step, StepCauses;
    if actions == [] {
      TracedStart(x, w, k);
    } else {
      var prefix := actions[..|actions| - 1];
      MemoryHistory(x, w, prefix, k);
      Custody.RunKeeps(x, w, prefix);
      MemoryStep(x, Chain.Run(x, w, prefix), actions[|actions| - 1], k);
      hide Traced;
      TracedStep(x, w, actions, k);
    }
  }

  lemma TracedStart(x: Org.Setting, w: Chain.World, k: Key)
    ensures Traced(x, w, [], w.mem, k)
  {
    hide Happened;
  }

  // ----- reports -----

  lemma ReportStep(x: Org.Setting, w: Chain.World, a: Chain.Action, key: ReportKey)
    requires Custody.InCustody(x.env, w.mem)
    ensures var after := Chain.Step(x, w, a).mem;
            && (key in w.mem.reports ==> key in after.reports && after.reports[key] == w.mem.reports[key])
            && (key in after.reports && key !in w.mem.reports ==> Causes(x, w, a, Complained(key, after.reports[key])))
  {
    hide Custody.InCustody, Chain.EconomyStep, Submit, Approve, FileReport, EpochEnd, Org.Step, Complains, Promotes;
    match a
    case EpochEnd(epoch) =>
      Custody.KeyedInCustody(x.env, w.mem);
      Custody.EpochEndEffect(w.mem, epoch);
    case SubmitCommitment(m) =>
      if Submit(w.mem, w.orgs, m).Success? {
        SubmitStores(w.mem, w.orgs, m);
      }
    case ApproveMemory(m, ok) =>
      if Approve(x.env, w.mem, w.orgs, m, ok).Success? {
        ApproveStores(x.env, w.mem, w.orgs, m, ok);
      }
    case ReportMemory(m, ok) =>
      if FileReport(w.mem, w.orgs, m, ok).Success? {
        ReportStores(w.mem, w.orgs, m, ok);
        ComplainsNew(w.mem, w.orgs, m, (m.org, (m.hash, m.reporter)), FileReport(w.mem, w.orgs, m, ok).value.0.reports[(m.org, (m.hash, m.reporter))]);
      }
    case _ =>
  }

  lemma ComplainsNew(s: State, orgs: Org.State, m: MsgReport, key: ReportKey, report: Report)
    requires Complains(s, orgs, m, key, report)
    ensures key !in s.reports && (key.0, key.1.0) in s.approved
  {
  }

  /** Every report was filed in the run, or was there at its start; none is lost or rewritten. */
  lemma {:induction false} ReportHistory(x: Org.Setting, w: Chain.World, actions: seq<Chain.Action>, key: ReportKey)
    requires Custody.InCustody(x.env, w.mem)
    ensures var after := Chain.Run(x, w, actions).mem;
            && (key in w.mem.reports ==> key in after.reports && after.reports[key] == w.mem.reports[key])
            && (key in after.reports && key !in w.mem.reports ==> Happened(x, w, actions, Complained(key, after.reports[key])))
  {
    hide Custody.InCustody, Chain.Step, Causes, Happened;
    if actions != [] {
      var prefix := actions[..|actions| - 1];
      var mid, after := Chain.Run(x, w, prefix), Chain.Run(x, w, actions).mem;
      ReportHistory(x, w, prefix, key);
      Custody.RunKeeps(x, w, prefix);
      ReportStep(x, mid, actions[|actions| - 1], key);
      if key in after.reports && key !in w.mem.reports {
        if key in mid.mem.reports {
          StillHappened(x, w, actions, Complained(key, after.reports[key]));
        } else {
          JustHappened(x, w, actions, Complained(key, after.reports[key]));
        }
      }
    }
  }

  /** Every report is about an approved memory, after every run. */
  lemma {:induction false} ReportsAreAboutMemories(x: Org.Setting, w: Chain.World, actions: seq<Chain.Action>, key: ReportKey)
    requires Custody.InCustody(x.env, w.mem)
    requires key in w.mem.reports ==> (key.0, key.1.0) in w.mem.approved
    ensures var after := Chain.Run(x, w, actions).mem; key in after.reports ==> (key.0, key.1.0) in after.approved
  {
    hide Custody.InCustody, Chain.Step, Complains;
    if actions != [] {
      var prefix, last := actions[..|actions| - 1], actions[|actions| - 1];
      var mid, after := Chain.Run(x, w, prefix), Chain.Run(x, w, actions).mem;
      ReportsAreAboutMemories(x, w, prefix, key);
      Custody.RunKeeps(x, w, prefix);
      Custody.StepKeeps(x, mid, last);
      ReportStep(x, mid, last, key);
      if key in after.reports && key !in mid.mem.reports {
        ComplainsNew(mid.mem, mid.orgs, last.report, key, after.reports[key]);
      }
    }
  }
}
