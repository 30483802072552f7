/** Concrete runs and states at which promises of the source fail, in any environment in which somebody can sign. */
module Scenarios {
  import opened Numbers
  import opened Wrappers
  import opened Externals
  import opened StoreKeys
  import opened Memory
  import opened CanonicalBody
  import opened OrgInvariant
  import ApprovalCounts
  import Chain
  import Custody
  import EpochOrder
  import Emissions
  import Expiry
  import Hex
  import Lex
  import Org
  import PendingLimit
  import SlotPrice
  import Tally

  // ----- two expiring entries -----

  /** The key of an entry without a cid, and the key of the entry for a memory. */
  const EMPTY_CID := ValidityKey(OrgId(0), "")

  function CidKey(h: seq<byte>): string {
    ValidityKey(OrgId(0), Hex.Encode(h))
  }

  /** A memory, an entry that expires it after epoch 1, and one, sorting first, for a memory that does not exist. */
  function Blocked(c: Commitment): State {
    State(map[], map[(OrgId(0), c.hash) := c], map[], map[],
          map[EMPTY_CID := Validity(OrgId(0), "", 0, 1), CidKey(c.hash) := Validity(OrgId(0), Hex.Encode(c.hash), 0, 1)],
          0, None, true)
  }

  lemma TextOfHash(h: seq<byte>)
    requires |h| == HASH_SIZE
    ensures DecodeCid(Hex.Encode(h)) == Some(h) && DecodeCid("").None? && Hex.Encode(h) != ""
  {
    Hex.DecodeEncode(h);
    assert Hex.Decode("") == Some([]);
  }

  /** The entry without a cid sorts before the other. */
  lemma KeysInOrder(h: seq<byte>)
    requires |h| == HASH_SIZE
    ensures EMPTY_CID != CidKey(h) && !Lex.Le(Lex.Codes(CidKey(h)), Lex.Codes(EMPTY_CID))
  {
    hide OrgId, Hex.Encode, Lex.Le, Lex.Codes;
    TextOfHash(h);
    var a, b := EMPTY_CID, CidKey(h);
    assert b == a + Hex.Encode(h);
    PendingLimit.PrefixBelow(a, b);
    if Lex.Le(Lex.Codes(b), Lex.Codes(a)) {
      Lex.LeAntisymmetric(Lex.Codes(a), Lex.Codes(b));
      Lex.CodesInjective(a, b);
    }
  }

  lemma BlockedEntries(c: Commitment)
    requires |c.hash| == HASH_SIZE
    ensures var s := Blocked(c);
            && EMPTY_CID != CidKey(c.hash) && ExpiredKeys(s, 2) == {EMPTY_CID, CidKey(c.hash)}
            && !Resolves(s, s.validity[EMPTY_CID]) && Resolves(s, s.validity[CidKey(c.hash)])
            && TargetOf(s.validity[CidKey(c.hash)]) == (OrgId(0), c.hash)
  {
    hide Hex.Encode, Hex.Decode, OrgId, CidKey;
    KeysInOrder(c.hash);
    TextOfHash(c.hash);
  }

  lemma BlockedIsKeyed(c: Commitment)
    requires c.org == OrgId(0)
    ensures Expiry.WellKeyed(Blocked(c))
  {
    hide OrgId, Hex.Encode, CidKey;
  }

  /** Of two expired entries the first has no memory: nothing moves. */
  lemma StuckAt(s: State, epoch: uint64, a: string, b: string)
    requires Expiry.WellKeyed(s) && ExpiredKeys(s, epoch) == {a, b} && !Lex.Le(Lex.Codes(b), Lex.Codes(a))
    requires !Resolves(s, s.validity[a]) && Resolves(s, s.validity[b])
    ensures Sweep(s, epoch) == (s, false)
  {
    hide Sweep, Expiry.Swept, Resolves, Expiry.WellKeyed;
    assert a in ExpiredKeys(s, epoch);
    Expiry.SweepSucceedsIff(s, epoch);
    var stuck, done := Expiry.SweepStopsAt(s, epoch);
    assert stuck == a && done == {};
    Expiry.SweptNone(s, s.validity);
  }

  /** The sweep of epoch 2 stops at the first entry and leaves the second, whose memory is there, as it was. */
  lemma StuckSweep(c: Commitment)
    requires c.org == OrgId(0) && |c.hash| == HASH_SIZE && c.state.Committed?
    ensures Sweep(Blocked(c), 2) == (Blocked(c), false)
  {
    hide Sweep, Blocked, OrgId, Hex.Encode, Lex.Le, Lex.Codes, Resolves, ExpiredKeys, Expiry.WellKeyed, CidKey;
    BlockedEntries(c);
    BlockedIsKeyed(c);
    KeysInOrder(c.hash);
    StuckAt(Blocked(c), 2, EMPTY_CID, CidKey(c.hash));
  }

  /** One expired entry with a committed memory: archived, removed, and valid again. */
  lemma RevivedAt(s: State, epoch: uint64, key: string)
    requires Expiry.WellKeyed(s) && ExpiredKeys(s, epoch) == {key} && Resolves(s, s.validity[key])
    ensures var target := TargetOf(s.validity[key]);
            && Sweep(s, epoch).1 && target in Sweep(s, epoch).0.approved
            && Sweep(s, epoch).0.approved[target] == Archive(s.approved[target])
            && !ValidIn(s.validity, key, epoch) && ValidIn(Sweep(s, epoch).0.validity, key, epoch)
  {
    hide Sweep, ValidIn;
    Expiry.SweepSucceedsIff(s, epoch);
    Expiry.SweepRevives(s, epoch, key, epoch);
    assert Expiry.Targeted({key}, s.validity, TargetOf(s.validity[key]));
  }

  /** The same memory with its own entry only. */
  function Expiring(c: Commitment): State {
    State(map[], map[(OrgId(0), c.hash) := c], map[], map[],
          map[CidKey(c.hash) := Validity(OrgId(0), Hex.Encode(c.hash), 0, 1)], 0, None, true)
  }

  lemma ExpiringEntry(c: Commitment)
    requires |c.hash| == HASH_SIZE && c.org == OrgId(0)
    ensures var s := Expiring(c);
            && Expiry.WellKeyed(s) && ExpiredKeys(s, 2) == {CidKey(c.hash)} && Resolves(s, s.validity[CidKey(c.hash)])
            && TargetOf(s.validity[CidKey(c.hash)]) == (OrgId(0), c.hash)
  {
    hide Hex.Encode, Hex.Decode, OrgId, CidKey;
    TextOfHash(c.hash);
  }

  /** Without the first entry the sweep succeeds, and the memory, invalid in epoch 2 before, is valid in epoch 2 after. */
  lemma RevivedEntry(c: Commitment)
    requires c.org == OrgId(0) && |c.hash| == HASH_SIZE && c.state.Committed?
    ensures var (after, ok) := Sweep(Expiring(c), 2);
            && ok && (OrgId(0), c.hash) in after.approved && after.approved[(OrgId(0), c.hash)] == c.(state := Archived)
            && !ValidIn(Expiring(c).validity, CidKey(c.hash), 2) && ValidIn(after.validity, CidKey(c.hash), 2)
  {
    hide Sweep, ValidIn, OrgId, Hex.Encode, DecodeCid, Resolves, ExpiredKeys, Expiry.WellKeyed, CidKey;
    ExpiringEntry(c);
    RevivedAt(Expiring(c), 2, CidKey(c.hash));
  }

  // ----- a chain with two organisations -----

  /** A setting, an account, the contributor's public key as text, a digest and a signature. */
  datatype Cast = Cast(x: Org.Setting, wallet: string, k: string, h: seq<byte>, sig: seq<byte>)

  const RIVAL := "rival"

  /** The account is well-formed, and two public keys lead organisations. */
  predicate MayFound(c: Cast) {
    c.wallet != "" && c.x.env.validAddress(c.wallet) && c.k != "" && c.k != RIVAL
  }

  /** What the contributor signs for a memory of one byte without a wrapped key. */
  function ToSign(c: Cast): Submission {
    Submission(c.h, c.k, 0, CanonicalBody.Memory, OrgId(0), [], [], c.h, c.x.env.sha256([]))
  }

  /** The digest is that of the one byte, and the signature is the contributor's over what it submits. */
  predicate MaySign(c: Cast) {
    && MayFound(c)
    && c.h == c.x.env.sha256([1]) && |c.h| == HASH_SIZE
    && Hex.Decode(c.k).Some? && |Hex.Decode(c.k).value| == PUBLIC_KEY_SIZE
    && c.x.env.verify(Hex.Decode(c.k).value, Body(ToSign(c)), c.sig)
  }

  const PROFILE := Org.Profile("", "", "", "", "", 0, 0)

  /** An empty registry, and the fees of the first two slots in the account. */
  function Funded(wallet: string): Org.State {
    Org.State(map[], map[], 0, None, map[wallet := 22_000_000], 22_000_000)
  }

  /** The account registers an organisation under the public key `leader`. */
  function Founding(wallet: string, leader: string): Org.Message {
    Org.RegisterOrg(wallet, leader, wallet, "", PROFILE, true)
  }

  function Founded(wallet: string, slot: uint64, leader: string): Org.Organisation {
    Org.Organisation(slot, leader, wallet, "", Org.Active, PROFILE, 1, 0, 0, 0)
  }

  function Founder(org: string, leader: string): Org.Member {
    Org.Member(org, leader, Org.LEADER, "", false, false)
  }

  lemma FoundingSucceeds(x: Org.Setting, wallet: string, s: Org.State, leader: string)
    requires wallet != "" && x.env.validAddress(wallet) && leader != "" && s.nextSlot < 32 && s.params == None
    requires OrgId(s.nextSlot) !in s.orgs && forall o :: o in s.orgs ==> s.orgs[o].leader != leader
    requires Tally.Lookup(s.balances, wallet) >= Org.SlotFee(s)
    ensures var after := Org.Step(x, s, Founding(wallet, leader));
            var org := OrgId(s.nextSlot);
            && after.orgs == s.orgs[org := Founded(wallet, s.nextSlot, leader)]
            && after.members == s.members[(org, leader) := Founder(org, leader)]
            && after.nextSlot == s.nextSlot + 1 && after.params == None
            && Tally.Lookup(after.balances, wallet) >= Tally.Lookup(s.balances, wallet) - Org.SlotFee(s)
  {
    hide OrgId, SlotPrice.Price;
  }

  lemma DefaultFee(s: Org.State)
    requires s.nextSlot < 32 && s.params == None
    ensures Org.SlotFee(s) == 10_000_000 + 2_000_000 * s.nextSlot
  {
    SlotPrice.DefaultPricesAscend(s.nextSlot);
  }

  /** The registry after the account has founded organisations under k and under the rival. */
  ghost predicate TwoOrgs(s: Org.State, c: Cast) {
    && OrgId(0) != OrgId(1) && s.nextSlot == 2
    && s.orgs == map[OrgId(0) := Founded(c.wallet, 0, c.k), OrgId(1) := Founded(c.wallet, 1, RIVAL)]
    && s.members == map[(OrgId(0), c.k) := Founder(OrgId(0), c.k), (OrgId(1), RIVAL) := Founder(OrgId(1), RIVAL)]
  }

  lemma TwoFoundings(c: Cast)
    requires MayFound(c)
    ensures TwoOrgs(Org.Step(c.x, Org.Step(c.x, Funded(c.wallet), Founding(c.wallet, c.k)), Founding(c.wallet, RIVAL)), c)
  {
    hide OrgId, SlotPrice.Price, Org.Step, Org.SlotFee;
    OrgIdsDistinct(0, 1);
    DefaultFee(Funded(c.wallet));
    FoundingSucceeds(c.x, c.wallet, Funded(c.wallet), c.k);
    var first := Org.Step(c.x, Funded(c.wallet), Founding(c.wallet, c.k));
    DefaultFee(first);
    FoundingSucceeds(c.x, c.wallet, first, RIVAL);
  }

  lemma RunAppend(x: Org.Setting, s: Org.State, ms: seq<Org.Message>, m: Org.Message)
    ensures Org.Run(x, s, ms + [m]) == Org.Step(x, Org.Run(x, s, ms), m)
  {
    assert (ms + [m])[..|ms + [m]| - 1] == ms;
  }

  lemma OrgIdNonEmpty(slot: uint64)
    ensures OrgId(slot) != ""
  {
    assert OrgId(slot)[0] == 'w';
  }

  // ----- one leader, two organisations -----

  function Joining(c: Cast): Org.Message {
    Org.AddMember(c.wallet, OrgId(1), c.k, Org.MEMBER, "x", false, false)
  }

  /** Both foundings, and k joins the second organisation. */
  function Joined(c: Cast): seq<Org.Message> {
    [] + [Founding(c.wallet, c.k)] + [Founding(c.wallet, RIVAL)] + [Joining(c)]
  }

  function HandOver(c: Cast): Org.Message {
    Org.TransferLeadership(c.wallet, OrgId(1), c.k, c.wallet, true)
  }

  lemma JoiningSucceeds(c: Cast)
    requires MayFound(c)
    ensures var s := Org.Run(c.x, Funded(c.wallet), Joined(c));
            && OrgId(0) != OrgId(1) && s.orgs.Keys == {OrgId(0), OrgId(1)} && (OrgId(1), c.k) in s.members
            && s.orgs[OrgId(0)] == Founded(c.wallet, 0, c.k)
            && s.orgs[OrgId(1)] == Founded(c.wallet, 1, RIVAL).(activeMembers := 2)
  {
    hide OrgId, Org.Register;
    var s, a, b := Funded(c.wallet), Founding(c.wallet, c.k), Founding(c.wallet, RIVAL);
    RunAppend(c.x, s, [], a);
    RunAppend(c.x, s, [] + [a], b);
    RunAppend(c.x, s, [] + [a] + [b], Joining(c));
    TwoFoundings(c);
    OrgIdNonEmpty(1);
  }

  /** From the empty registry: after the transfer k leads both organisations. */
  lemma TransferGivesASecondOrg(c: Cast)
    requires MayFound(c) && c.k != c.wallet
    ensures LeadersDistinct(Org.Run(c.x, Funded(c.wallet), Joined(c)))
    ensures !LeadersDistinct(Org.Run(c.x, Funded(c.wallet), Joined(c) + [HandOver(c)]))
  {
    hide OrgId, Org.Run;
    OrgIdNonEmpty(1);
    JoiningSucceeds(c);
    var s := Org.Run(c.x, Funded(c.wallet), Joined(c));
    RunAppend(c.x, Funded(c.wallet), Joined(c), HandOver(c));
    assert Org.Transfer(c.x.env, s, HandOver(c)).Success?;
    assert s.orgs[OrgId(0)].leader == HandOver(c).newLeader;
    TransferKeepsDistinctIff(c.x, s, HandOver(c));
  }

  // ----- a memory, approved, reported and submitted again -----

  function Origin(k: string): Provenance {
    Provenance([], k, "", "", [], 0)
  }

  function Offer(c: Cast): MsgSubmit {
    MsgSubmit(c.wallet, OrgId(0), c.h, Origin(c.k), CanonicalBody.Memory)
  }

  function Offered(c: Cast): PendingCommitment {
    PendingCommitment(OrgId(0), c.h, Origin(c.k), 0, 0, CanonicalBody.Memory)
  }

  function Approval(c: Cast): MsgApprove {
    MsgApprove(c.wallet, OrgId(0), c.h, [1], [], [], [], c.h, c.sig, CanonicalBody.Memory, c.k)
  }

  function Complaint(c: Cast): MsgReport {
    MsgReport(c.wallet, OrgId(0), c.h, "r", Report("", [], [], "", "reason", [], [], [1], [1], false))
  }

  /** The first organisation, with k for a leader and the account for its wallet, whatever its running totals are; the second one exists. */
  ghost predicate LedByK(s: Org.State, c: Cast) {
    && OrgId(0) in s.orgs && s.orgs[OrgId(0)].leaderWallet == c.wallet && c.wallet != "" && OrgId(1) in s.orgs
    && (OrgId(0), c.k) in s.members && s.members[(OrgId(0), c.k)].role == Org.LEADER
  }

  lemma SubmitSucceeds(s: State, orgs: Org.State, c: Cast)
    requires LedByK(orgs, c) && c.k != "" && |c.h| == HASH_SIZE && s.params == None
    requires (OrgId(0), c.h) !in s.pending && PendingCount(s, OrgId(0)) < 1000
    ensures Submit(s, orgs, Offer(c))
         == Success(s.(pending := s.pending[(OrgId(0), c.h) := Offered(c)]))
  {
    hide OrgId, PendingCount;
    OrgIdNonEmpty(0);
  }

  lemma ApproveSucceeds(s: State, orgs: Org.State, c: Cast)
    requires MaySign(c) && LedByK(orgs, c) && s.params == None
    requires (OrgId(0), c.h) in s.pending && (OrgId(0), c.h) !in s.approved && s.pending[(OrgId(0), c.h)] == Offered(c)
    ensures Approve(c.x.env, s, orgs, Approval(c), true).Success?
  {
    hide OrgId, Hex.Decode, Body;
    OrgIdNonEmpty(0);
    assert [1] + [] == [1 as byte];
    assert Claimed(c.x.env, Offered(c), Approval(c)) == ToSign(c);
  }

  lemma ReportSucceeds(s: State, orgs: Org.State, c: Cast)
    requires LedByK(orgs, c) && |c.h| == HASH_SIZE && (OrgId(0), c.h) in s.approved && s.reports == map[]
    ensures FileReport(s, orgs, Complaint(c), true).Success?
  {
    hide OrgId;
    OrgIdNonEmpty(0);
  }

  lemma ChainAppend(x: Org.Setting, w: Chain.World, actions: seq<Chain.Action>, a: Chain.Action)
    ensures Chain.Run(x, w, actions + [a]) == Chain.Step(x, Chain.Run(x, w, actions), a)
    ensures EpochOrder.LastEpoch(actions + [a], 0) == if a.EpochEnd? then a.epoch else EpochOrder.LastEpoch(actions, 0)
    ensures EpochOrder.Increasing(actions, 0) && (a.EpochEnd? ==> a.epoch > EpochOrder.LastEpoch(actions, 0))
            ==> EpochOrder.Increasing(actions + [a], 0)
  {
    assert (actions + [a])[..|actions + [a]| - 1] == actions;
  }

  /** Two organisations are founded, and the first epoch ends. */
  function Opening(c: Cast): seq<Chain.Action> {
    [] + [Chain.OrgMessage(Founding(c.wallet, c.k))] + [Chain.OrgMessage(Founding(c.wallet, RIVAL))] + [Chain.EpochEnd(1)]
  }

  function Offering(c: Cast): seq<Chain.Action> {
    Opening(c) + [Chain.SubmitCommitment(Offer(c))]
  }

  function Approving(c: Cast): seq<Chain.Action> {
    Offering(c) + [Chain.ApproveMemory(Approval(c), true)]
  }

  function Closing(c: Cast): seq<Chain.Action> {
    Approving(c) + [Chain.EpochEnd(2)]
  }

  function Reporting(c: Cast): seq<Chain.Action> {
    Closing(c) + [Chain.ReportMemory(Complaint(c), true)]
  }

  function Resubmitting(c: Cast): seq<Chain.Action> {
    Reporting(c) + [Chain.SubmitCommitment(Offer(c))]
  }

  ghost function Start(c: Cast): Chain.World {
    EpochOrder.Genesis(Funded(c.wallet), map[])
  }

  ghost function After(c: Cast, actions: seq<Chain.Action>): Chain.World {
    Chain.Run(c.x, Start(c), actions)
  }

  lemma AfterOpening(c: Cast)
    requires MayFound(c)
    ensures var w := After(c, Opening(c));
            w.mem == STARTED.(epoch := 1) && TwoOrgs(w.orgs, c) && EpochOrder.Increasing(Opening(c), 0)
            && EpochOrder.LastEpoch(Opening(c), 0) == 1
  {
    hide Org.Step, OrgId, Chain.EconomyStep, EpochEnd;
    var g, a, b := Start(c), Chain.OrgMessage(Founding(c.wallet, c.k)), Chain.OrgMessage(Founding(c.wallet, RIVAL));
    ChainAppend(c.x, g, [], a);
    ChainAppend(c.x, g, [] + [a], b);
    ChainAppend(c.x, g, [] + [a] + [b], Chain.EpochEnd(1));
    TwoFoundings(c);
    Expiry.NothingExpires(STARTED, 1);
  }

  /** One memory of k, approved in epoch 1, and nothing else. */
  ghost predicate Holding(s: State, c: Cast, epoch: uint64) {
    var key := (OrgId(0), c.h);
    && s.pending == map[] && s.reports == map[] && s.validity == map[] && s.params == None && s.marker && s.epoch == epoch
    && s.approved.Keys == {key} && s.approved[key].approvedAt == 1 && s.approved[key].state.Committed?
    && s.approved[key].from == Origin(c.k)
  }

  lemma TwoOrgsLed(s: Org.State, c: Cast)
    requires TwoOrgs(s, c) && MayFound(c)
    ensures LedByK(s, c)
  {
    hide OrgId;
  }

  lemma NothingPending(s: State, org: string)
    requires s.pending == map[]
    ensures PendingCount(s, org) == |s.reports| + (if s.marker then 1 else 0)
  {
    assert PendingScan(s, org) == {};
  }

  lemma TotalsKeepLead(s: Org.State, c: Cast, epoch: uint64)
    requires LedByK(s, c)
    ensures LedByK(Org.DateActivity(Org.CountCommitted(s, OrgId(0)), OrgId(0), epoch), c)
    ensures LedByK(Org.CountUpheld(s, OrgId(0)), c)
  {
    hide OrgId;
  }

  lemma SignersFound(c: Cast)
    requires MaySign(c)
    ensures MayFound(c) && |c.h| == HASH_SIZE
  {
  }

  lemma AfterOffering(c: Cast)
    requires MayFound(c) && |c.h| == HASH_SIZE
    ensures var (w, actions) := (After(c, Offering(c)), Offering(c));
            && w.mem == STARTED.(epoch := 1, pending := map[(OrgId(0), c.h) := Offered(c)]) && LedByK(w.orgs, c)
            && EpochOrder.Increasing(actions, 0) && EpochOrder.LastEpoch(actions, 0) == 1
  {
    hide OrgId, Chain.EconomyStep, Submit, LedByK, TwoOrgs, Opening;
    AfterOpening(c);
    var w := After(c, Opening(c));
    ChainAppend(c.x, Start(c), Opening(c), Chain.SubmitCommitment(Offer(c)));
    TwoOrgsLed(w.orgs, c);
    NothingPending(w.mem, OrgId(0));
    SubmitSucceeds(w.mem, w.orgs, c);
  }

  lemma AfterApproving(c: Cast)
    requires MaySign(c)
    ensures var w := After(c, Approving(c));
            Holding(w.mem, c, 1) && LedByK(w.orgs, c) && EpochOrder.Increasing(Approving(c), 0)
            && EpochOrder.LastEpoch(Approving(c), 0) == 1
  {
    hide OrgId, Chain.EconomyStep, Approve, LedByK, Offering, MaySign, Org.CountCommitted, Org.DateActivity, Wrap;
    SignersFound(c);
    AfterOffering(c);
    var w := After(c, Offering(c));
    ChainAppend(c.x, Start(c), Offering(c), Chain.ApproveMemory(Approval(c), true));
    ApproveSucceeds(w.mem, w.orgs, c);
    Custody.ApproveEffect(c.x.env, w.mem, w.orgs, Approval(c), true);
    TotalsKeepLead(w.orgs, c, 0);
  }

  lemma AfterClosing(c: Cast)
    requires MaySign(c)
    ensures var w := After(c, Closing(c));
            Holding(w.mem, c, 2) && LedByK(w.orgs, c) && EpochOrder.Increasing(Closing(c), 0)
  {
    hide OrgId, Chain.EconomyStep, EpochEnd, LedByK, Approving, Hex.Decode;
    AfterApproving(c);
    ChainAppend(c.x, Start(c), Approving(c), Chain.EpochEnd(2));
    Expiry.NothingExpires(After(c, Approving(c)).mem, 2);
  }

  /** The one memory counts once for its contributor in epoch 1. */
  lemma HoldingCounts(s: State, c: Cast, epoch: uint64)
    requires Holding(s, c, epoch) && c.k != ""
    ensures Approvals(s.approved, 1) == map[c.k := 1]
  {
    hide OrgId, Approvals;
    var key := (OrgId(0), c.h);
    ApprovalCounts.NoApprovals(1);
    ApprovalCounts.ApprovalsAdd(map[], key, s.approved[key], 1);
    assert map[][key := s.approved[key]] == s.approved;
  }

  /**
   * A memory approved while epoch 1 is the recorded epoch counts for epoch 1, which was minted already:
   * the next epoch end pays its contributor nothing, and no claim succeeds.
   */
  lemma ApprovedButNeverPaid(c: Cast, signer: string, passkey: string)
    requires MaySign(c)
    ensures var w := After(c, Approving(c)); w.mem.epoch == 1 && Approvals(w.mem.approved, w.mem.epoch) == map[c.k := 1]
    ensures var w := After(c, Closing(c));
            && w.mem.epoch == 2 && w.econ.em.ledger == Emissions.Ledger(map[], map[])
            && Emissions.Claim(c.x.env, w.econ.em, w.econ.aliases, signer, passkey).Failure?
  {
    hide OrgId, Hex.Decode, Approving, Closing, Emissions.Claim, Chain.Run, Approvals, EpochOrder.Increasing, EpochOrder.Ordered;
    AfterApproving(c);
    HoldingCounts(After(c, Approving(c)).mem, c, 1);
    AfterClosing(c);
    EpochOrder.NoRewardIsEverPaid(c.x, Funded(c.wallet), map[], Closing(c), 0, signer, passkey);
  }

  lemma AfterReporting(c: Cast)
    requires MaySign(c)
    ensures var w := After(c, Reporting(c));
            && w.mem.pending == map[] && |w.mem.reports| == 1 && w.mem.marker && w.mem.params == None
            && (OrgId(0), c.h) in w.mem.approved && LedByK(w.orgs, c)
  {
    hide OrgId, Chain.EconomyStep, FileReport, LedByK, Closing, Hex.Decode, Org.CountUpheld;
    AfterClosing(c);
    var w := After(c, Closing(c));
    ChainAppend(c.x, Start(c), Closing(c), Chain.ReportMemory(Complaint(c), true));
    ReportSucceeds(w.mem, w.orgs, c);
    Custody.ReportEffect(w.mem, w.orgs, Complaint(c), true);
    TotalsKeepLead(w.orgs, c, 0);
  }

  /** One report about the first organisation and the marker count against the second, which has nothing pending. */
  lemma ForeignReportCounts(c: Cast)
    requires MaySign(c)
    ensures var w := After(c, Reporting(c));
            OrgId(1) in w.orgs.orgs && PendingCount(w.mem, OrgId(1)) == 2 && KeysOf(w.mem.pending.Keys, OrgId(1)) == {}
  {
    hide OrgId, Hex.Decode, After, Reporting, PendingCount;
    AfterReporting(c);
    NothingPending(After(c, Reporting(c)).mem, OrgId(1));
  }

  /** The approved hash is accepted for submission again: it is pending and approved at once. */
  lemma ResubmissionAccepted(c: Cast)
    requires MaySign(c)
    ensures PendingLimit.Disjoint(After(c, Reporting(c)).mem)
    ensures var mem := After(c, Resubmitting(c)).mem;
            !PendingLimit.Disjoint(mem) && (OrgId(0), c.h) in mem.pending && (OrgId(0), c.h) in mem.approved
  {
    hide OrgId, Hex.Decode, Reporting, Chain.EconomyStep, Submit, PendingCount, LedByK;
    AfterReporting(c);
    var w := After(c, Reporting(c));
    ChainAppend(c.x, Start(c), Reporting(c), Chain.SubmitCommitment(Offer(c)));
    NothingPending(w.mem, OrgId(0));
    SubmitSucceeds(w.mem, w.orgs, c);
    PendingLimit.SubmitKeepsDisjointIff(w.mem, w.orgs, Offer(c));
  }
}
