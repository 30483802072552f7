/**
 * x/memory as values: commitments are submitted, approved against the contributor's signature,
 * reported, and archived when their validity ends.
 */
module Memory {
  import opened Numbers
  import opened Wrappers
  import opened Externals
  import opened StoreKeys
  import opened CanonicalBody
  import Org
  import Hex
  import Lex

  const HASH_SIZE := 32
  const MAX_MODEL_ID := 128

  datatype MemoryState =
    | Unspecified | Pending | PendingKeyword | PendingChain | Committed | Denied | Archived | ReportedDeleted

  /** Keys and records carry the organisation and the content hash. */
  type Key = (string, seq<byte>)

  /** What the contributor says about how a memory was produced. */
  datatype Provenance = Provenance(
    keywords: seq<string>, contributor: string, address: string, modelId: string, session: seq<byte>, version: nat)

  datatype PendingCommitment = PendingCommitment(
    org: string, hash: seq<byte>, from: Provenance, epoch: uint64, submittedAt: uint64, memoryType: MemoryType)

  /** The encrypted memory with everything its contributor signed. */
  datatype Capsule = Capsule(
    blob: seq<byte>, wrappedDek: seq<byte>, plaintextHash: seq<byte>, salt: seq<byte>, ciphertextHash: seq<byte>,
    wrappedDekHash: seq<byte>, sig: seq<byte>, memoryType: MemoryType)

  datatype Commitment = Commitment(
    org: string, hash: seq<byte>, from: Provenance, capsule: Capsule, epoch: uint64, height: uint64, leader: string,
    state: MemoryState, lastActive: uint64, approvedAt: uint64)

  datatype Report = Report(
    contributor: string, approving: seq<string>, upholding: seq<string>, leader: string, reason: string,
    plaintext: seq<byte>, ciphertext: seq<byte>, capsule: seq<byte>, plaintextHash: seq<byte>, oversized: bool)

  /** From and until which epoch a memory counts; zero leaves a side open. */
  datatype Validity = Validity(org: string, cid: string, after: uint64, until: uint64)

  datatype Params = Params(maxPending: uint64, maxBlob: uint64)
  const DEFAULT_PARAMS := Params(1000, 1_048_576)

  datatype State = State(
    pending: map<Key, PendingCommitment>, approved: map<Key, Commitment>, counts: map<string, uint64>,
    reports: map<(string, (seq<byte>, string)), Report>, validity: map<string, Validity>, epoch: uint64, params: Option<Params>,
    marker: bool)

  /** A store nothing was written to. */
  const EMPTY := State(map[], map[], map[], map[], map[], 0, None, false)

  /** The store a chain starts with: InitChain writes one marker under four 0xFF bytes into every store. */
  const STARTED := EMPTY.(marker := true)

  datatype Error =
    | InvalidMessage | OrgNotFound | Unauthorized | NotContributor | InvalidMemoryType | InvalidKeyword
    | CommitmentExists | MaxPendingExceeded | CommitmentNotFound | InvalidContributor | InvalidSignature | InvalidBlob
    | InvalidContentHash | BlobTooLarge | MemoryExists | ReputationFailed | MemoryNotFound | ReportExists

  function CurrentParams(s: State): Params {
    s.params.GetOr(DEFAULT_PARAMS)
  }

  /** The authenticated signer is the organisation's registered leader wallet. */
  function LeaderWallet(orgs: Org.State, org: string, signer: string): Check<Error> {
    if org !in orgs.orgs then Fail(OrgNotFound)
    else if orgs.orgs[org].leaderWallet == "" || signer != orgs.orgs[org].leaderWallet then Fail(Unauthorized)
    else Pass
  }

  predicate IsLeader(orgs: Org.State, org: string, pubkey: string) {
    (org, pubkey) in orgs.members && orgs.members[(org, pubkey)].role == Org.LEADER
  }

  // ----- submission -----

  datatype MsgSubmit = MsgSubmit(signer: string, org: string, hash: seq<byte>, from: Provenance, memoryType: MemoryType)

  predicate Blank(s: string) {
    forall i :: 0 <= i < |s| ==> s[i] == ' ' || 9 <= s[i] as int <= 13
  }

  predicate ProvenanceValid(p: Provenance) {
    && p.contributor != ""
    && (p.modelId != "" ==> |p.modelId| <= MAX_MODEL_ID && !Blank(p.modelId))
    && (p.session != [] ==> |p.session| == 32 && p.modelId != "")
  }

  predicate MayContribute(orgs: Org.State, org: string, pubkey: string) {
    var key := (org, pubkey);
    key in orgs.members && (orgs.members[key].role == Org.LEADER || orgs.members[key].canContribute)
  }

  /** The commitments at or above the organisation's pending prefix, in the order of the store. */
  function PendingScan(s: State, org: string): set<Key> {
    set k | k in s.pending && Lex.Le(Lex.Codes(PendingPrefix(org)), Lex.Codes(PendingKey(k.0, k.1)))
  }

  /** The scan has no upper bound: it meets later organisations' commitments, every report and the marker, too. */
  function PendingCount(s: State, org: string): nat {
    |PendingScan(s, org)| + |s.reports| + (if s.marker then 1 else 0)
  }

  function Submit(s: State, orgs: Org.State, m: MsgSubmit): Result<State, Error> {
    var key := (m.org, m.hash);
    :- Need(m.signer != "" && m.org != "" && |m.hash| == HASH_SIZE && ProvenanceValid(m.from), InvalidMessage);
    :- LeaderWallet(orgs, m.org, m.signer);
    :- Need(MayContribute(orgs, m.org, m.from.contributor), NotContributor);
    :- Need(m.memoryType.Memory?, InvalidMemoryType);
    :- Need("" !in m.from.keywords, InvalidKeyword);
    :- Need(key !in s.pending, CommitmentExists);
    :- Need(PendingCount(s, m.org) < CurrentParams(s).maxPending, MaxPendingExceeded);
    Success(s.(pending := s.pending[key := PendingCommitment(m.org, m.hash, m.from, 0, 0, m.memoryType)]))
  }

  // ----- approval -----

  datatype MsgApprove = MsgApprove(
    signer: string, org: string, hash: seq<byte>, blob: seq<byte>, wrappedDek: seq<byte>, plaintextHash: seq<byte>,
    salt: seq<byte>, ciphertextHash: seq<byte>, sig: seq<byte>, memoryType: MemoryType, leader: string)

  /** The submission an approval message claims the contributor signed. */
  function Claimed(env: Env, p: PendingCommitment, m: MsgApprove): Submission {
    Submission(m.ciphertextHash, p.from.contributor, p.epoch, m.memoryType, m.org, m.plaintextHash, m.salt,
               env.sha256(m.blob + m.wrappedDek), env.sha256(m.wrappedDek))
  }

  function Approved(env: Env, s: State, p: PendingCommitment, m: MsgApprove): Commitment {
    Commitment(
      m.org, m.hash, p.from,
      Capsule(m.blob, m.wrappedDek, m.plaintextHash, m.salt, m.ciphertextHash, env.sha256(m.wrappedDek), m.sig, m.memoryType),
      p.epoch, p.submittedAt, m.leader, Committed, p.epoch, s.epoch)
  }

  /** The checks of the message server, before the keeper is called. */
  function ApprovalCheck(env: Env, p: PendingCommitment, m: MsgApprove): Check<Error> {
    var key := Hex.Decode(p.from.contributor);
    if key.None? || |key.value| != PUBLIC_KEY_SIZE then Fail(InvalidContributor)
    else if !env.verify(key.value, Body(Claimed(env, p, m)), m.sig) then Fail(InvalidSignature)
    else if m.ciphertextHash != env.sha256(m.blob) then Fail(InvalidBlob)
    else if m.hash != env.sha256(m.blob + m.wrappedDek) then Fail(InvalidContentHash)
    else Pass
  }

  function CountOf(s: State, org: string): uint64 {
    if org in s.counts then s.counts[org] else 0
  }

  /** The pending commitment becomes an approved memory; both modules' totals go up by one. */
  function Promote(env: Env, s: State, m: MsgApprove): State
    requires (m.org, m.hash) in s.pending
  {
    var key := (m.org, m.hash);
    s.(approved := s.approved[key := Approved(env, s, s.pending[key], m)],
       pending := s.pending - {key},
       counts := s.counts[m.org := Wrap(CountOf(s, m.org) + 1)])
  }

  function Approve(env: Env, s: State, orgs: Org.State, m: MsgApprove, reputationOk: bool): Result<(State, Org.State), Error> {
    var key := (m.org, m.hash);
    :- Need(m.signer != "" && m.org != "" && |m.hash| == HASH_SIZE && m.blob != [], InvalidMessage);
    :- LeaderWallet(orgs, m.org, m.signer);
    :- Need(m.memoryType.Memory?, InvalidMemoryType);
    :- Need(key in s.pending, CommitmentNotFound);
    :- ApprovalCheck(env, s.pending[key], m);
    :- Need(IsLeader(orgs, m.org, m.leader), Unauthorized);
    :- Need(|m.blob| <= ToInt64(CurrentParams(s).maxBlob), BlobTooLarge);
    :- Need(key !in s.approved, MemoryExists);
    :- Need(reputationOk, ReputationFailed);
    Success((Promote(env, s, m), Org.DateActivity(Org.CountCommitted(orgs, m.org), m.org, s.pending[key].epoch)))
  }

  // ----- reports -----

  datatype MsgReport = MsgReport(signer: string, org: string, hash: seq<byte>, reporter: string, report: Report)

  predicate EvidenceFits(r: Report) {
    if r.oversized then r.plaintext == [] && r.ciphertext == [] && r.capsule == []
    else |r.plaintext| <= 4096 && |r.ciphertext| <= 8192 && r.capsule != []
  }

  function FileReport(s: State, orgs: Org.State, m: MsgReport, reputationOk: bool): Result<(State, Org.State), Error> {
    var key := (m.org, (m.hash, m.reporter));
    :- Need(m.signer != "" && m.org != "" && |m.hash| == HASH_SIZE && m.reporter != "" && m.report.reason != "", InvalidMessage);
    :- LeaderWallet(orgs, m.org, m.signer);
    :- Need(m.report.plaintextHash != [], InvalidContentHash);
    :- Need(EvidenceFits(m.report), BlobTooLarge);
    :- Need((m.org, m.hash) in s.approved, MemoryNotFound);
    :- Need(key !in s.reports, ReportExists);
    :- Need(reputationOk, ReputationFailed);
    Success((s.(reports := s.reports[key := m.report.(leader := m.signer)]), Org.CountUpheld(orgs, m.org)))
  }

  // ----- the end of an epoch -----

  /** The approved memory counts towards the contributor's reward for the epoch. */
  predicate CountsFor(c: Commitment, epoch: uint64) {
    c.approvedAt == epoch && c.state.Committed? && c.from.contributor != ""
  }

  function ApprovalsOf(approved: map<Key, Commitment>, epoch: uint64, contributor: string): set<Key> {
    set k | k in approved && CountsFor(approved[k], epoch) && approved[k].from.contributor == contributor
  }

  function Contributors(approved: map<Key, Commitment>, epoch: uint64): set<string> {
    set k | k in approved && CountsFor(approved[k], epoch) :: approved[k].from.contributor
  }

  /** The number of counting memories of each contributor that has one. */
  function Approvals(approved: map<Key, Commitment>, epoch: uint64): map<string, uint64> {
    map c | c in Contributors(approved, epoch) :: Wrap(|ApprovalsOf(approved, epoch, c)|)
  }

  predicate Expired(v: Validity, epoch: uint64) {
    v.until != 0 && epoch > v.until
  }

  /** A memory without an entry is always valid; otherwise the epoch lies in the entry's window. */
  predicate ValidIn(validity: map<string, Validity>, key: string, epoch: uint64) {
    key in validity ==>
      && (validity[key].after != 0 ==> epoch >= validity[key].after)
      && (validity[key].until != 0 ==> epoch <= validity[key].until)
  }

  function DecodeCid(cid: string): Option<seq<byte>> {
    var hash := Hex.Decode(cid);
    if hash.Some? && |hash.value| == HASH_SIZE then hash else None
  }

  function TargetOf(v: Validity): Key
    requires DecodeCid(v.cid).Some?
  {
    (v.org, DecodeCid(v.cid).value)
  }

  /** The entry has a readable cid and its memory exists. */
  predicate Resolves(s: State, v: Validity) {
    DecodeCid(v.cid).Some? && TargetOf(v) in s.approved
  }

  function Archive(c: Commitment): Commitment {
    if c.state.Archived? || c.state.Denied? then c else c.(state := Archived)
  }

  /** One expired entry: the memory is rewritten under its own organisation and hash, the entry goes. */
  function ExpireOne(s: State, key: string, v: Validity): State
    requires Resolves(s, v)
  {
    var c := s.approved[TargetOf(v)];
    var kept := if c.state.Archived? || c.state.Denied? then s.approved else s.approved[(c.org, c.hash) := Archive(c)];
    s.(approved := kept, validity := s.validity - {key})
  }

  /** Handles the entries in turn and stops at the first one whose memory cannot be loaded. */
  function ExpireAll(s: State, keys: seq<string>, entries: map<string, Validity>): (State, bool)
    requires forall k :: k in keys ==> k in entries
    decreases keys
  {
    if keys == [] then (s, true)
    else if !Resolves(s, entries[keys[0]]) then (s, false)
    else ExpireAll(ExpireOne(s, keys[0], entries[keys[0]]), keys[1..], entries)
  }

  function ExpiredKeys(s: State, epoch: uint64): set<string> {
    set k | k in s.validity && Expired(s.validity[k], epoch)
  }

  ghost function Sweep(s: State, epoch: uint64): (State, bool) {
    Lex.OrderedLists(ExpiredKeys(s, epoch));
    ExpireAll(s, Lex.Ordered(ExpiredKeys(s, epoch)), s.validity)
  }

  /** The hook: the epoch is recorded first, and a failed sweep keeps what it already did. */
  ghost function EpochEnd(s: State, epoch: uint64): State {
    Sweep(s.(epoch := epoch), epoch).0
  }

  function SetParams(gov: string, s: State, authority: string, params: Params): Result<State, Error> {
    if authority != gov then Failure(Unauthorized)
    else if authority == "" then Failure(InvalidMessage)
    else Success(s.(params := Some(params)))
  }
}
