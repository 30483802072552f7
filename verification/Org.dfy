/** x/org: the slot registry, memberships and the registration fee, as values. */
module Org {
  import opened Numbers
  import opened Wrappers
  import opened Externals
  import opened StoreKeys
  import SlotPrice
  import Tally

  datatype Status = Active | Dormant | Suspended | Closed

  /** What a registration says about the organisation; the two allowances are stored unchecked. */
  datatype Profile = Profile(
    domain: string, name: string, description: string, techStack: string, focusAreas: string,
    storageQuota: uint64, retrievalBudget: uint64)

  /** The stored organisation: registration data and the running totals. */
  datatype Organisation = Organisation(
    slot: uint64, leader: string, leaderWallet: string, servingKey: string, status: Status, profile: Profile,
    activeMembers: uint64, committedMemories: uint64, upheldReports: uint64, lastActivity: uint64)

  datatype Member = Member(
    org: string, pubkey: string, role: string, x25519: string, canContribute: bool, canModerate: bool)

  const LEADER := "leader"
  const MEMBER := "member"

  datatype Params = Params(basePrice: uint64, increasePercent: uint64, slotCap: uint64)
  const DEFAULT_PARAMS := Params(10_000_000, 20, 32)

  datatype State = State(
    orgs: map<string, Organisation>, members: map<(string, string), Member>, nextSlot: uint64, params: Option<Params>,
    balances: map<string, nat>, supply: int)

  datatype Error =
    | InvalidMessage | SlotCapReached | InvalidLeader | InvalidProfile | OrgAlreadyExists | LeaderAlreadyOwnsOrg
    | InsufficientFunds | FeegrantFailed | OrgNotFound | NotLeader | OrgNotActive | InvalidRole | MemberExists
    | MemberNotFound | CannotRemoveLeader | InvalidWallet | Unauthorized | InvalidParams

  datatype Message =
    | RegisterOrg(signer: string, leader: string, leaderWallet: string, servingKey: string, profile: Profile, feegrantOk: bool)
    | AddMember(signer: string, org: string, pubkey: string, role: string, x25519: string, canContribute: bool, canModerate: bool)
    | RemoveMember(signer: string, org: string, pubkey: string)
    | SetMemberCapabilities(signer: string, org: string, pubkey: string, canContribute: bool, canModerate: bool)
    | TransferLeadership(signer: string, org: string, newLeader: string, newWallet: string, feegrantOk: bool)
    | SetServingKey(signer: string, org: string, servingKey: string, feegrantOk: bool)
    | CloseOrg(signer: string, org: string)
    | UpdateParams(authority: string, params: Params)

  // ----- registration -----

  predicate NoControl(s: string) {
    forall i :: 0 <= i < |s| ==> s[i] as int >= 0x20
  }

  predicate DomainChar(c: char) {
    'a' <= c <= 'z' || 'A' <= c <= 'Z' || '0' <= c <= '9' || c in " ,.-_/+&"
  }

  predicate ProfileValid(p: Profile) {
    && |p.description| <= 500 && NoControl(p.description)
    && |p.techStack| <= 200 && NoControl(p.techStack)
    && |p.focusAreas| <= 200 && NoControl(p.focusAreas)
    && |p.name| <= 100 && NoControl(p.name)
    && |p.domain| <= 128 && forall i :: 0 <= i < |p.domain| ==> DomainChar(p.domain[i])
  }

  function CurrentParams(s: State): Params {
    s.params.GetOr(DEFAULT_PARAMS)
  }

  function SlotFee(s: State): uint64 {
    SlotPrice.Price(CurrentParams(s).basePrice, CurrentParams(s).increasePercent, s.nextSlot)
  }

  /** Half of the fee, rounded down, is burned; the rest goes to the organisation's own account. */
  function Charge(s: State, creator: string, account: string, fee: uint64): Result<State, Error> {
    var burned, kept := fee / 2, fee - fee / 2;
    var funds := Tally.Lookup(s.balances, creator);
    if fee == 0 then Success(s)
    else if funds < burned || funds - burned < kept then Failure(InsufficientFunds)
    else
      var paid := s.balances[creator := funds - fee];
      Success(s.(balances := paid[account := Tally.Lookup(paid, account) + kept], supply := s.supply - burned))
  }

  /** An address is either absent or well-formed, and the grant goes through. */
  predicate GrantOk(env: Env, grantee: string, feegrantOk: bool) {
    grantee == "" || (env.validAddress(grantee) && feegrantOk)
  }

  function Register(env: Env, account: string -> string, s: State, m: Message): Result<State, Error>
    requires m.RegisterOrg?
  {
    var org := OrgId(s.nextSlot);
    :- Need(m.signer != "" && m.leader != "" && env.validAddress(m.signer), InvalidMessage);
    :- Need(s.nextSlot < CurrentParams(s).slotCap, SlotCapReached);
    :- Need(ProfileValid(m.profile), InvalidProfile);
    :- Need(org !in s.orgs, OrgAlreadyExists);
    :- Need(forall o :: o in s.orgs ==> s.orgs[o].leader != m.leader, LeaderAlreadyOwnsOrg);
    var s1 :- Charge(s, m.signer, account(org), SlotFee(s));
    :- Need(GrantOk(env, m.servingKey, m.feegrantOk) && GrantOk(env, m.leaderWallet, m.feegrantOk), FeegrantFailed);
    var record := Organisation(s.nextSlot, m.leader, m.leaderWallet, m.servingKey, Active, m.profile, 1, 0, 0, 0);
    Success(s1.(orgs := s.orgs[org := record],
                members := s.members[(org, m.leader) := Member(org, m.leader, LEADER, "", false, false)],
                nextSlot := Wrap(s.nextSlot + 1)))
  }

  // ----- membership -----

  /** The organisation exists and the signer is its leader's wallet. */
  function LeaderCheck(s: State, org: string, signer: string): Check<Error> {
    if org !in s.orgs then Fail(OrgNotFound)
    else if s.orgs[org].leaderWallet == "" || signer != s.orgs[org].leaderWallet then Fail(NotLeader)
    else Pass
  }

  function Add(s: State, m: Message): Result<State, Error>
    requires m.AddMember?
  {
    var key := (m.org, m.pubkey);
    :- Need(m.signer != "" && m.org != "" && m.pubkey != "" && m.x25519 != "", InvalidMessage);
    :- Need(m.role == MEMBER, InvalidRole);
    :- LeaderCheck(s, m.org, m.signer);
    :- Need(s.orgs[m.org].status.Active?, OrgNotActive);
    :- Need(key !in s.members, MemberExists);
    var org := s.orgs[m.org];
    Success(s.(members := s.members[key := Member(m.org, m.pubkey, m.role, m.x25519, m.canContribute, m.canModerate)],
               orgs := s.orgs[m.org := org.(activeMembers := Wrap(org.activeMembers + 1))]))
  }

  function Remove(s: State, m: Message): Result<State, Error>
    requires m.RemoveMember?
  {
    var key := (m.org, m.pubkey);
    :- Need(m.signer != "" && m.org != "" && m.pubkey != "", InvalidMessage);
    :- LeaderCheck(s, m.org, m.signer);
    :- Need(key in s.members, MemberNotFound);
    :- Need(s.members[key].role != LEADER, CannotRemoveLeader);
    :- Need(s.orgs[m.org].status.Active?, OrgNotActive);
    var org := s.orgs[m.org];
    Success(s.(members := s.members - {key},
               orgs := s.orgs[m.org := org.(activeMembers := if org.activeMembers > 0 then org.activeMembers - 1 else 0)]))
  }

  function SetCapabilities(s: State, m: Message): Result<State, Error>
    requires m.SetMemberCapabilities?
  {
    var key := (m.org, m.pubkey);
    :- Need(m.signer != "" && m.org != "" && m.pubkey != "", InvalidMessage);
    :- LeaderCheck(s, m.org, m.signer);
    :- Need(s.orgs[m.org].status.Active?, OrgNotActive);
    :- Need(key in s.members, MemberNotFound);
    Success(s.(members := s.members[key := s.members[key].(canContribute := m.canContribute, canModerate := m.canModerate)]))
  }

  /** Demotes the record under the old leader's key, then promotes the new leader's, read afresh. */
  function Transfer(env: Env, s: State, m: Message): Result<State, Error>
    requires m.TransferLeadership?
  {
    var newKey := (m.org, m.newLeader);
    :- Need(m.signer != "" && m.org != "" && m.newLeader != "" && m.newWallet != "" && m.signer != m.newLeader, InvalidMessage);
    :- Need(env.validAddress(m.newWallet), InvalidWallet);
    :- LeaderCheck(s, m.org, m.signer);
    :- Need(newKey in s.members, MemberNotFound);
    :- Need(GrantOk(env, m.newWallet, m.feegrantOk), FeegrantFailed);
    var oldKey := (m.org, s.orgs[m.org].leader);
    var old_ := if oldKey in s.members then s.members[oldKey] else Member("", "", "", "", false, false);
    var demoted := s.members[oldKey := old_.(role := MEMBER)];
    var promoted := demoted[newKey := demoted[newKey].(role := LEADER)];
    Success(s.(members := promoted,
               orgs := s.orgs[m.org := s.orgs[m.org].(leader := m.newLeader, leaderWallet := m.newWallet)]))
  }

  function ServingKey(env: Env, s: State, m: Message): Result<State, Error>
    requires m.SetServingKey?
  {
    var ok := m.signer != "" && m.org != "" && m.servingKey != "";
    :- Need(ok, InvalidMessage);
    :- LeaderCheck(s, m.org, m.signer);
    :- Need(GrantOk(env, m.servingKey, m.feegrantOk), FeegrantFailed);
    Success(s.(orgs := s.orgs[m.org := s.orgs[m.org].(servingKey := m.servingKey)]))
  }

  function Close(s: State, m: Message): Result<State, Error>
    requires m.CloseOrg?
  {
    var ok := m.signer != "" && m.org != "";
    :- Need(ok, InvalidMessage);
    :- LeaderCheck(s, m.org, m.signer);
    :- Need(s.orgs[m.org].status.Active?, OrgNotActive);
    Success(s.(orgs := s.orgs[m.org := s.orgs[m.org].(status := Closed)]))
  }

  function SetParams(gov: string, s: State, m: Message): Result<State, Error>
    requires m.UpdateParams?
  {
    if m.authority != gov then Failure(Unauthorized)
    else if m.params.slotCap == 0 then Failure(InvalidParams)
    else Success(s.(params := Some(m.params)))
  }

  // ----- running totals kept for other modules -----

  /** The registry's own epoch cell is never written, so a running total is always dated epoch 0. */
  function CountCommitted(s: State, org: string): State
    requires org in s.orgs
  {
    s.(orgs := s.orgs[org := s.orgs[org].(committedMemories := Wrap(s.orgs[org].committedMemories + 1), lastActivity := 0)])
  }

  function CountUpheld(s: State, org: string): State
    requires org in s.orgs
  {
    s.(orgs := s.orgs[org := s.orgs[org].(upheldReports := Wrap(s.orgs[org].upheldReports + 1), lastActivity := 0)])
  }

  function DateActivity(s: State, org: string, epoch: uint64): State
    requires org in s.orgs
  {
    s.(orgs := s.orgs[org := s.orgs[org].(lastActivity := epoch)])
  }

  // ----- runs -----

  /** What the modules around the registry fix: the governance account and the derivation of org accounts. */
  datatype Setting = Setting(env: Env, gov: string, account: string -> string)

  function Deliver(x: Setting, s: State, m: Message): Result<State, Error> {
    match m
    case RegisterOrg(_, _, _, _, _, _) => Register(x.env, x.account, s, m)
    case AddMember(_, _, _, _, _, _, _) => Add(s, m)
    case RemoveMember(_, _, _) => Remove(s, m)
    case SetMemberCapabilities(_, _, _, _, _) => SetCapabilities(s, m)
    case TransferLeadership(_, _, _, _, _) => Transfer(x.env, s, m)
    case SetServingKey(_, _, _, _) => ServingKey(x.env, s, m)
    case CloseOrg(_, _) => Close(s, m)
    case UpdateParams(_, _) => SetParams(x.gov, s, m)
  }

  /** A failed message changes nothing. */
  function Step(x: Setting, s: State, m: Message): State {
    var r := Deliver(x, s, m);
    if r.Success? then r.value else s
  }

  function Run(x: Setting, s: State, ms: seq<Message>): State {
    if ms == [] then s else Step(x, Run(x, s, ms[..|ms| - 1]), ms[|ms| - 1])
  }

  /** The members RecomputeOrgActiveMembers counts. */
  function ActiveMembers(s: State, org: string): set<(string, string)> {
    set k | k in s.members && k.0 == org && s.members[k].role != "inactive"
  }
}
