/** Approved memories over whole runs: re-verifiable from what is stored, permanent, and only ever archived. */
module Custody {
  import opened Numbers
  import opened Wrappers
  import opened Externals
  import opened Memory
  import opened CanonicalBody
  import opened Expiry
  import Chain
  import Hex
  import Org
  import OrgInvariant

  /** The signed submission, rebuilt from the stored record alone. */
  function Signed(c: Commitment): Submission {
    Submission(c.capsule.ciphertextHash, c.from.contributor, c.epoch, c.capsule.memoryType, c.org,
               c.capsule.plaintextHash, c.capsule.salt, c.hash, c.capsule.wrappedDekHash)
  }

  /** The stored signature verifies over the rebuilt body, and the stored hashes bind the stored bytes. */
  ghost predicate Verifiable(env: Env, c: Commitment) {
    && Checked(Signed(c))
    && |Hex.Decode(c.from.contributor).value| == PUBLIC_KEY_SIZE
    && env.verify(Hex.Decode(c.from.contributor).value, Body(Signed(c)), c.capsule.sig)
    && c.hash == env.sha256(c.capsule.blob + c.capsule.wrappedDek)
    && c.capsule.ciphertextHash == env.sha256(c.capsule.blob)
    && c.capsule.wrappedDekHash == env.sha256(c.capsule.wrappedDek)
  }

  ghost predicate InCustody(env: Env, s: State) {
    && WellKeyed(s)
    && forall k :: k in s.approved ==> Verifiable(env, s.approved[k]) && s.approved[k].state in {Committed, Archived}
  }

  lemma KeyedInCustody(env: Env, s: State)
    requires InCustody(env, s)
    ensures WellKeyed(s)
  {
  }

  /** A record may only turn from committed to archived. */
  predicate Aged(c: Commitment, d: Commitment) {
    d == c || (c.state.Committed? && d == c.(state := Archived))
  }

  /** Nothing approved is lost or rewritten. */
  ghost predicate Kept(s: State, after: State) {
    forall k :: k in s.approved ==> k in after.approved && Aged(s.approved[k], after.approved[k])
  }

  /** One signed body is approved at most once: its fields name the only key the record can have. */
  lemma OneApprovalPerBody(env: Env, s: State, k: Key, l: Key)
    requires InCustody(env, s) && k in s.approved && l in s.approved
    requires Body(Signed(s.approved[k])) == Body(Signed(s.approved[l]))
    ensures k == l
  {
    hide Body;
    BodyInjective(Signed(s.approved[k]), Signed(s.approved[l]));
  }

  // ----- the epoch hook -----

  /** The hook sets the epoch, drops validity entries and archives memories; it touches nothing else. */
  lemma EpochEndEffect(s: State, epoch: uint64)
    requires WellKeyed(s)
    ensures var after := EpochEnd(s, epoch);
            && after == s.(epoch := epoch, validity := after.validity, approved := after.approved)
            && after.approved.Keys == s.approved.Keys && after.validity.Keys <= s.validity.Keys
            && forall k :: k in s.approved ==> after.approved[k] == s.approved[k] || after.approved[k] == Archive(s.approved[k])
  {
    hide Sweep;
    assert WellKeyed(s.(epoch := epoch));
    var _, _ := SweepEffect(s.(epoch := epoch), epoch);
  }

  lemma EpochEndKeeps(env: Env, s: State, epoch: uint64)
    requires InCustody(env, s)
    ensures InCustody(env, EpochEnd(s, epoch)) && Kept(s, EpochEnd(s, epoch))
  {
    hide EpochEnd, Verifiable;
    EpochEndEffect(s, epoch);
    var after := EpochEnd(s, epoch);
    forall k | k in s.approved ensures Aged(s.approved[k], after.approved[k]) && Verifiable(env, after.approved[k]) {
      ArchivingKeeps(env, s.approved[k]);
    }
  }

  /** The signed fields do not include the state. */
  lemma ArchivingKeeps(env: Env, c: Commitment)
    requires Verifiable(env, c)
    ensures Verifiable(env, Archive(c))
  {
    assert Signed(Archive(c)) == Signed(c);
  }

  // ----- approval -----

  /** The approval message's claims are what the record will say. */
  lemma ApprovedIsVerifiable(env: Env, s: State, orgs: Org.State, m: MsgApprove)
    requires Approve(env, s, orgs, m, true).Success?
    ensures (m.org, m.hash) in s.pending
    ensures Verifiable(env, Approved(env, s, s.pending[(m.org, m.hash)], m))
  {
    var p := s.pending[(m.org, m.hash)];
    assert Signed(Approved(env, s, p, m)) == Claimed(env, p, m);
  }

  lemma ApproveEffect(env: Env, s: State, orgs: Org.State, m: MsgApprove, ok: bool)
    requires Approve(env, s, orgs, m, ok).Success?
    ensures var (after, orgs') := Approve(env, s, orgs, m, ok).value;
            var key := (m.org, m.hash);
            && m.org in orgs.orgs && key in s.pending && key !in s.approved
            && after == Promote(env, s, m)
            && orgs' == Org.DateActivity(Org.CountCommitted(orgs, m.org), m.org, s.pending[key].epoch)
    ensures ok
  {
  }

  lemma ApproveKeeps(env: Env, s: State, orgs: Org.State, m: MsgApprove, ok: bool)
    requires InCustody(env, s) && Approve(env, s, orgs, m, ok).Success?
    ensures InCustody(env, Approve(env, s, orgs, m, ok).value.0) && Kept(s, Approve(env, s, orgs, m, ok).value.0)
  {
    hide Approve, Verifiable;
    ApproveEffect(env, s, orgs, m, ok);
    ApprovedIsVerifiable(env, s, orgs, m);
  }

  lemma SubmitKeeps(env: Env, s: State, orgs: Org.State, m: MsgSubmit)
    requires InCustody(env, s) && Submit(s, orgs, m).Success?
    ensures InCustody(env, Submit(s, orgs, m).value)
    ensures Submit(s, orgs, m).value.approved == s.approved && Submit(s, orgs, m).value.epoch == s.epoch
  {
    hide Verifiable;
  }

  // ----- who decides -----

  function SignerOf(a: Chain.Action): Option<(string, string)> {
    match a
    case SubmitCommitment(m) => Some((m.org, m.signer))
    case ApproveMemory(m, _) => Some((m.org, m.signer))
    case ReportMemory(m, _) => Some((m.org, m.signer))
    case _ => None
  }

  /** Apart from the epoch hook and governance, only a signature of the organisation's leader wallet changes the store. */
  lemma OnlyTheLeaderWrites(x: Org.Setting, w: Chain.World, a: Chain.Action)
    requires Chain.Step(x, w, a).mem != w.mem && !a.EpochEnd? && !a.MemoryParams?
    ensures SignerOf(a).Some?
    ensures var (org, signer) := SignerOf(a).value;
            org in w.orgs.orgs && signer != "" && signer == w.orgs.orgs[org].leaderWallet
  {
    hide Chain.EconomyStep, ApprovalCheck, ProvenanceValid, PendingCount, Promote, EvidenceFits;
  }

  /** The leader named by an approval is the one the registry has. */
  lemma ApprovedByTheLeader(env: Env, s: State, orgs: Org.State, m: MsgApprove, ok: bool)
    requires OrgInvariant.Led(orgs) && Approve(env, s, orgs, m, ok).Success?
    ensures m.org in orgs.orgs && m.leader == orgs.orgs[m.org].leader
  {
  }

  // ----- runs -----

  lemma StepKeeps(x: Org.Setting, w: Chain.World, a: Chain.Action)
    requires InCustody(x.env, w.mem)
    ensures InCustody(x.env, Chain.Step(x, w, a).mem) && Kept(w.mem, Chain.Step(x, w, a).mem)
  {
    hide InCustody, Chain.EconomyStep, Submit, Approve, FileReport, EpochEnd, Org.Step;
    match a
    case EpochEnd(epoch) => EpochEndKeeps(x.env, w.mem, epoch);
    case SubmitCommitment(m) =>
      if Submit(w.mem, w.orgs, m).Success? {
        SubmitKeeps(x.env, w.mem, w.orgs, m);
      }
    case ApproveMemory(m, ok) =>
      if Approve(x.env, w.mem, w.orgs, m, ok).Success? {
        ApproveKeeps(x.env, w.mem, w.orgs, m, ok);
      }
    case ReportMemory(m, ok) =>
      if FileReport(w.mem, w.orgs, m, ok).Success? {
        ReportKeeps(x.env, w.mem, w.orgs, m, ok);
      }
    case MemoryParams(_, params) => ParamsKeep(x.env, w.mem, params);
    case _ =>
  }

  lemma ReportEffect(s: State, orgs: Org.State, m: MsgReport, ok: bool)
    requires FileReport(s, orgs, m, ok).Success?
    ensures var (after, orgs') := FileReport(s, orgs, m, ok).value;
            var key := (m.org, (m.hash, m.reporter));
            && m.org in orgs.orgs && key !in s.reports && orgs' == Org.CountUpheld(orgs, m.org)
            && after == s.(reports := s.reports[key := m.report.(leader := m.signer)])
  {
  }

  lemma ReportKeeps(env: Env, s: State, orgs: Org.State, m: MsgReport, ok: bool)
    requires InCustody(env, s) && FileReport(s, orgs, m, ok).Success?
    ensures InCustody(env, FileReport(s, orgs, m, ok).value.0)
    ensures FileReport(s, orgs, m, ok).value.0.approved == s.approved && FileReport(s, orgs, m, ok).value.0.epoch == s.epoch
  {
    hide Verifiable, FileReport;
    ReportEffect(s, orgs, m, ok);
  }

  lemma ParamsKeep(env: Env, s: State, params: Params)
    requires InCustody(env, s)
    ensures InCustody(env, s.(params := Some(params)))
  {
    hide Verifiable;
  }

  /** Every approved memory stays, verifies from its stored fields, and changes only from committed to archived. */
  lemma {:induction false} RunKeeps(x: Org.Setting, w: Chain.World, actions: seq<Chain.Action>)
    requires InCustody(x.env, w.mem)
    ensures InCustody(x.env, Chain.Run(x, w, actions).mem) && Kept(w.mem, Chain.Run(x, w, actions).mem)
  {
    hide InCustody, Chain.Step;
    if actions != [] {
      var prefix := actions[..|actions| - 1];
      RunKeeps(x, w, prefix);
      StepKeeps(x, Chain.Run(x, w, prefix), actions[|actions| - 1]);
    }
  }

  lemma StartedInCustody(env: Env)
    ensures InCustody(env, STARTED)
  {
  }

  // ----- validity entries -----

  lemma ValidityStep(x: Org.Setting, w: Chain.World, a: Chain.Action)
    requires InCustody(x.env, w.mem)
    ensures Chain.Step(x, w, a).mem.validity.Keys <= w.mem.validity.Keys
  {
    hide InCustody, Chain.EconomyStep, Submit, Approve, FileReport, EpochEnd, Org.Step;
    match a
    case EpochEnd(epoch) =>
      KeyedInCustody(x.env, w.mem);
      EpochEndEffect(w.mem, epoch);
    case SubmitCommitment(m) => SubmitKeepsValidity(w.mem, w.orgs, m);
    case ApproveMemory(m, ok) =>
      if Approve(x.env, w.mem, w.orgs, m, ok).Success? {
        ApproveEffect(x.env, w.mem, w.orgs, m, ok);
      }
    case ReportMemory(m, ok) =>
      if FileReport(w.mem, w.orgs, m, ok).Success? {
        ReportEffect(w.mem, w.orgs, m, ok);
      }
    case _ =>
  }

  lemma SubmitKeepsValidity(s: State, orgs: Org.State, m: MsgSubmit)
    ensures Submit(s, orgs, m).Success? ==> Submit(s, orgs, m).value.validity == s.validity
  {
  }

  /** No action writes validity entries: along every run there are only those it started with, from a started chain none. */
  lemma {:induction false} ValidityOnlyShrinks(x: Org.Setting, w: Chain.World, actions: seq<Chain.Action>)
    requires InCustody(x.env, w.mem)
    ensures Chain.Run(x, w, actions).mem.validity.Keys <= w.mem.validity.Keys
    ensures w.mem == STARTED ==> Chain.Run(x, w, actions).mem.validity == map[]
  {
    hide InCustody, Chain.Step;
    if actions != [] {
      var prefix := actions[..|actions| - 1];
      ValidityOnlyShrinks(x, w, prefix);
      RunKeeps(x, w, prefix);
      ValidityStep(x, Chain.Run(x, w, prefix), actions[|actions| - 1]);
    }
  }

  // ----- the epoch of a record -----

  /** Every commitment, pending or approved, carries epoch 0. */
  ghost predicate Undated(s: State) {
    && (forall k :: k in s.pending ==> s.pending[k].epoch == 0)
    && (forall k :: k in s.approved ==> s.approved[k].epoch == 0)
  }

  lemma SubmitUndated(s: State, orgs: Org.State, m: MsgSubmit)
    requires Undated(s) && Submit(s, orgs, m).Success?
    ensures Undated(Submit(s, orgs, m).value)
  {
  }

  lemma UndatedStep(x: Org.Setting, w: Chain.World, a: Chain.Action)
    requires InCustody(x.env, w.mem) && Undated(w.mem)
    ensures Undated(Chain.Step(x, w, a).mem)
  {
    hide InCustody, Chain.EconomyStep, Submit, Approve, FileReport, EpochEnd, Org.Step;
    match a
    case EpochEnd(epoch) =>
      KeyedInCustody(x.env, w.mem);
      EpochEndEffect(w.mem, epoch);
    case SubmitCommitment(m) =>
      if Submit(w.mem, w.orgs, m).Success? {
        SubmitUndated(w.mem, w.orgs, m);
      }
    case ApproveMemory(m, ok) =>
      if Approve(x.env, w.mem, w.orgs, m, ok).Success? {
        ApproveEffect(x.env, w.mem, w.orgs, m, ok);
      }
    case ReportMemory(m, ok) =>
      if FileReport(w.mem, w.orgs, m, ok).Success? {
        ReportEffect(w.mem, w.orgs, m, ok);
      }
    case _ =>
  }

  /** The approved memories an epoch's Merkle root is computed from. */
  function Selected(s: State, epoch: uint64): set<Key> {
    set k | k in s.approved && s.approved[k].epoch == epoch
  }

  /** The root of any epoch above 0 covers no approved memory, whatever was approved. */
  lemma {:induction false} RootsSelectNothing(x: Org.Setting, w: Chain.World, actions: seq<Chain.Action>, epoch: uint64)
    requires InCustody(x.env, w.mem) && Undated(w.mem)
    ensures Undated(Chain.Run(x, w, actions).mem)
    ensures epoch > 0 ==> Selected(Chain.Run(x, w, actions).mem, epoch) == {}
  {
    hide InCustody, Chain.Step;
    if actions != [] {
      var prefix := actions[..|actions| - 1];
      RootsSelectNothing(x, w, prefix, epoch);
      RunKeeps(x, w, prefix);
      UndatedStep(x, Chain.Run(x, w, prefix), actions[|actions| - 1]);
    }
  }
}
