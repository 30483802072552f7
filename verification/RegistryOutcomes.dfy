/**
 * What each registry message is accepted for and what it leaves behind, in the terms of the message and of
 * the two states alone.
 */
module RegistryOutcomes {
  import opened Numbers
  import opened Org
  import opened Authority
  import Decimal
  import OrgInvariant
  import StoreKeys
  import Tally

  // ----- registration -----

  /** The fee by the parameters in force: 10,000,000 uvibe and 20 per cent a slot until governance sets others. */
  function Fee(s: State): int {
    var (base, percent) := if s.params.Some? then (s.params.value.basePrice, s.params.value.increasePercent) else (10_000_000, 20);
    var exact := ToInt64(base) * (100 + s.nextSlot * ToInt64(percent)) / 100;
    if 0 < exact < TWO64 then exact else base
  }

  lemma FeeInForce(s: State)
    ensures SlotFee(s) == Fee(s)
  {
  }

  /** A fee of two halves, the smaller one burned, leaves the creator for the organisation's account. */
  ghost predicate Charged(s: State, after: State, creator: string, account: string, fee: int, a: string) {
    && after.supply == s.supply - fee / 2
    && Tally.Lookup(after.balances, a)
       == Tally.Lookup(s.balances, a) - (if a == creator then fee else 0) + (if a == account then fee - fee / 2 else 0)
  }

  /** The new organisation, as registered. */
  ghost predicate Opened(s: State, after: State, m: Message)
    requires m.RegisterOrg?
  {
    var org := "wevibe-org-" + Decimal.Format(s.nextSlot);
    && org !in s.orgs && org in after.orgs && after.orgs == s.orgs[org := after.orgs[org]]
    && after.orgs[org].slot == s.nextSlot && after.orgs[org].leader == m.leader
    && after.orgs[org].leaderWallet == m.leaderWallet && after.orgs[org].servingKey == m.servingKey
    && after.orgs[org].status == Active && after.orgs[org].profile == m.profile && after.orgs[org].activeMembers == 1
    && after.orgs[org].committedMemories == 0 && after.orgs[org].upheldReports == 0
    && after.members == s.members[(org, m.leader) := Member(org, m.leader, "leader", "", false, false)]
    && after.nextSlot == Wrap(s.nextSlot + 1) && after.params == s.params
  }

  lemma RegisterOutcome(x: Setting, s: State, m: Message, a: string)
    requires m.RegisterOrg? && Register(x.env, x.account, s, m).Success?
    ensures var after := Register(x.env, x.account, s, m).value;
            && Opened(s, after, m)
            && Charged(s, after, m.signer, x.account("wevibe-org-" + Decimal.Format(s.nextSlot)), Fee(s), a)
  {
    hide ProfileValid, GrantOk, Charge, SlotFee, Fee, Decimal.Format;
    FeeInForce(s);
    OrgInvariant.RegisterFunds(x, s, m);
    OrgInvariant.ChargeEffect(s, m.signer, x.account(StoreKeys.OrgId(s.nextSlot)), SlotFee(s), a);
    ChargeKeepsParams(s, m.signer, x.account(StoreKeys.OrgId(s.nextSlot)), SlotFee(s));
  }

  lemma ChargeKeepsParams(s: State, creator: string, account: string, fee: uint64)
    ensures var r := Charge(s, creator, account, fee);
            && (r.Success? ==> r.value.params == s.params)
            && (r.Success? <==> Tally.Lookup(s.balances, creator) >= fee)
  {
  }

  /** The profile's texts are within their lengths and hold no control characters; the domain is of the listed characters. */
  predicate Presentable(p: Profile) {
    && |p.name| <= 100 && |p.description| <= 500 && |p.techStack| <= 200 && |p.focusAreas| <= 200 && |p.domain| <= 128
    && (forall c :: c in p.name || c in p.description || c in p.techStack || c in p.focusAreas ==> c >= ' ')
    && (forall c :: c in p.domain ==> 'a' <= c <= 'z' || 'A' <= c <= 'Z' || '0' <= c <= '9' || c in " ,.-_/+&")
  }

  lemma NoControlIff(text: string)
    ensures NoControl(text) <==> forall c :: c in text ==> c >= ' '
  {
    if forall c :: c in text ==> c >= ' ' {
      assert forall i :: 0 <= i < |text| ==> text[i] in text;
    }
  }

  lemma DomainIff(text: string)
    ensures (forall i :: 0 <= i < |text| ==> DomainChar(text[i])) <==> (forall c :: c in text ==> DomainChar(c))
  {
    assert forall i :: 0 <= i < |text| ==> text[i] in text;
  }

  lemma PresentableIff(p: Profile)
    ensures ProfileValid(p) <==> Presentable(p)
  {
    hide NoControl;
    NoControlIff(p.name);
    NoControlIff(p.description);
    NoControlIff(p.techStack);
    NoControlIff(p.focusAreas);
    DomainIff(p.domain);
  }

  /** A registration is accepted exactly below the slot cap, from an account with the fee, with a fitting profile, for a leader without an organisation. */
  lemma RegisterAcceptedIff(x: Setting, s: State, m: Message)
    requires m.RegisterOrg?
    ensures Register(x.env, x.account, s, m).Success? <==>
            && m.signer != "" && m.leader != "" && x.env.validAddress(m.signer)
            && s.nextSlot < (if s.params.Some? then s.params.value.slotCap else 32)
            && Presentable(m.profile) && "wevibe-org-" + Decimal.Format(s.nextSlot) !in s.orgs
            && (forall o :: o in s.orgs ==> s.orgs[o].leader != m.leader)
            && Tally.Lookup(s.balances, m.signer) >= Fee(s)
            && (m.servingKey == "" || (x.env.validAddress(m.servingKey) && m.feegrantOk))
            && (m.leaderWallet == "" || (x.env.validAddress(m.leaderWallet) && m.feegrantOk))
  {
    hide ProfileValid, Presentable, Charge, SlotFee, Fee, Decimal.Format;
    PresentableIff(m.profile);
    FeeInForce(s);
    ChargeKeepsParams(s, m.signer, x.account(StoreKeys.OrgId(s.nextSlot)), SlotFee(s));
  }

  // ----- members -----

  /** Accepted from the leader of an active organisation for a new member, stored with its key and its two flags. */
  lemma AddOutcome(s: State, m: Message)
    requires m.AddMember?
    ensures Add(s, m).Success? <==>
            && FromLeader(s, m, m.org) && m.org != "" && m.pubkey != "" && m.x25519 != "" && m.role == "member"
            && s.orgs[m.org].status == Active && (m.org, m.pubkey) !in s.members
    ensures Add(s, m).Success? ==>
            var after := Add(s, m).value;
            && after.members == s.members[(m.org, m.pubkey) := Member(m.org, m.pubkey, "member", m.x25519, m.canContribute, m.canModerate)]
            && after == s.(members := after.members, orgs := s.orgs[m.org := s.orgs[m.org].(activeMembers := Wrap(s.orgs[m.org].activeMembers + 1))])
  {
    hide Wrap;
  }

  /** Accepted from the leader of an active organisation for a member that does not lead it; only that record goes. */
  lemma RemoveOutcome(s: State, m: Message)
    requires m.RemoveMember?
    ensures Remove(s, m).Success? <==>
            && FromLeader(s, m, m.org) && m.org != "" && m.pubkey != "" && s.orgs[m.org].status == Active
            && (m.org, m.pubkey) in s.members && s.members[(m.org, m.pubkey)].role != "leader"
    ensures Remove(s, m).Success? ==>
            var (after, n) := (Remove(s, m).value, s.orgs[m.org].activeMembers);
            && after.members.Keys == s.members.Keys - {(m.org, m.pubkey)}
            && (forall k :: k in after.members ==> after.members[k] == s.members[k])
            && after == s.(members := after.members, orgs := s.orgs[m.org := s.orgs[m.org].(activeMembers := if n == 0 then 0 else n - 1)])
  {
  }

  /** The two flags of one member of an active organisation, and nothing else. */
  lemma CapabilitiesOutcome(s: State, m: Message)
    requires m.SetMemberCapabilities?
    ensures SetCapabilities(s, m).Success? <==>
            && FromLeader(s, m, m.org) && m.org != "" && m.pubkey != "" && s.orgs[m.org].status == Active
            && (m.org, m.pubkey) in s.members
    ensures SetCapabilities(s, m).Success? ==>
            var (after, k) := (SetCapabilities(s, m).value, (m.org, m.pubkey));
            && k in after.members && after == s.(members := s.members[k := after.members[k]])
            && after.members[k].canContribute == m.canContribute && after.members[k].canModerate == m.canModerate
            && after.members[k] == s.members[k].(canContribute := m.canContribute, canModerate := m.canModerate)
  {
  }

  // ----- leadership -----

  /** Accepted from the leader for a member and a well-formed wallet, in whatever status; member and wallet take over. */
  lemma TransferOutcome(x: Setting, s: State, m: Message)
    requires m.TransferLeadership?
    ensures Transfer(x.env, s, m).Success? <==>
            && FromLeader(s, m, m.org) && m.org != "" && m.newLeader != "" && m.newWallet != "" && m.signer != m.newLeader
            && x.env.validAddress(m.newWallet) && m.feegrantOk && (m.org, m.newLeader) in s.members
    ensures Transfer(x.env, s, m).Success? ==>
            var after := Transfer(x.env, s, m).value;
            && after.orgs == s.orgs[m.org := s.orgs[m.org].(leader := m.newLeader, leaderWallet := m.newWallet)]
            && after == s.(members := after.members, orgs := after.orgs)
  {
  }

  /** Accepted from the leader with a well-formed key and a grant; only the serving key changes. */
  lemma ServingKeyOutcome(x: Setting, s: State, m: Message)
    requires m.SetServingKey?
    ensures ServingKey(x.env, s, m).Success? <==>
            && FromLeader(s, m, m.org) && m.org != "" && m.servingKey != "" && x.env.validAddress(m.servingKey) && m.feegrantOk
    ensures ServingKey(x.env, s, m).Success? ==>
            ServingKey(x.env, s, m).value == s.(orgs := s.orgs[m.org := s.orgs[m.org].(servingKey := m.servingKey)])
  {
  }

  /** Accepted from the leader of an active organisation; only its status changes. */
  lemma CloseOutcome(s: State, m: Message)
    requires m.CloseOrg?
    ensures Close(s, m).Success? <==> FromLeader(s, m, m.org) && m.org != "" && s.orgs[m.org].status == Active
    ensures Close(s, m).Success? ==> Close(s, m).value == s.(orgs := s.orgs[m.org := s.orgs[m.org].(status := Closed)])
  {
  }
}
