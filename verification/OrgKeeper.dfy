/**
 * The org keeper as it runs.  A handler works on a branch of the store that is written back only
 * when the message succeeds.
 */
module OrgKeeper {
  import opened Numbers
  import opened Wrappers
  import opened Externals
  import opened StoreKeys
  import opened Org
  import SlotPrice
  import Tally

  class Keeper {
    var orgs: map<string, Organisation>
    var members: map<(string, string), Member>
    var nextSlot: uint64
    var params: Option<Params>
    var balances: map<string, nat>
    var supply: int

    constructor (balances: map<string, nat>, supply: int)
      ensures Value() == State(map[], map[], 0, None, balances, supply)
    {
      orgs, members, nextSlot, params := map[], map[], 0, None;
      this.balances, this.supply := balances, supply;
    }

    ghost function Value(): State
      reads this
    {
      State(orgs, members, nextSlot, params, balances, supply)
    }

    method LeaderOwnsOrg(leader: string) returns (found: bool)
      ensures found <==> exists o :: o in orgs && orgs[o].leader == leader
    {
      var rest := orgs.Keys;
      while rest != {}
        invariant rest <= orgs.Keys
        invariant forall o :: o in orgs && o !in rest ==> orgs[o].leader != leader
        decreases |rest|
      {
        var o :| o in rest;
        if orgs[o].leader == leader {
          return true;
        }
        rest := rest - {o};
      }
      return false;
    }

    /** Burns half of the fee, rounded down, before it sends the rest; the new balances and supply are not stored yet. */
    method ChargeFee(creator: string, account: string, fee: uint64) returns (r: Result<(map<string, nat>, int), Error>)
      ensures Charge(Value(), creator, account, fee)
           == if r.Success? then Success(Value().(balances := r.value.0, supply := r.value.1)) else Failure(r.error)
    {
      var funds, burned := balances, fee / 2;
      if fee > 0 {
        var kept := fee - burned;
        if burned > 0 {
          if Tally.Lookup(funds, creator) < burned {
            return Failure(InsufficientFunds);
          }
          funds := funds[creator := Tally.Lookup(funds, creator) - burned];
        }
        if Tally.Lookup(funds, creator) < kept {
          return Failure(InsufficientFunds);
        }
        funds := funds[creator := Tally.Lookup(funds, creator) - kept];
        assert funds == balances[creator := Tally.Lookup(balances, creator) - fee];
        funds := funds[account := Tally.Lookup(funds, account) + kept];
      }
      return Success((funds, supply - burned));
    }

    /** Charges the ascending slot fee, burns half of it and stores the organisation with its leader. */
    method HandleRegisterOrg(env: Env, account: string -> string, m: Message) returns (r: Result<string, Error>)
      requires m.RegisterOrg?
      modifies this
      ensures r.Failure? ==> Value() == old(Value())
      ensures Register(env, account, old(Value()), m) == if r.Success? then Success(Value()) else Failure(r.error)
      ensures r.Success? ==> r.value == OrgId(old(nextSlot))
    {
      hide ProfileValid, GrantOk, Charge, OrgId, SlotPrice.Price;
      if m.signer == "" || m.leader == "" || !env.validAddress(m.signer) {
        return Failure(InvalidMessage);
      }
      var p := params.GetOr(DEFAULT_PARAMS);
      if nextSlot >= p.slotCap {
        return Failure(SlotCapReached);
      }
      var org := OrgId(nextSlot);
      if !ProfileValid(m.profile) {
        return Failure(InvalidProfile);
      }
      if org in orgs {
        return Failure(OrgAlreadyExists);
      }
      var owned := LeaderOwnsOrg(m.leader);
      if owned {
        return Failure(LeaderAlreadyOwnsOrg);
      }
      var price := SlotPrice.ComputeAscendingPrice(p.basePrice, p.increasePercent, nextSlot);
      var charged := ChargeFee(m.signer, account(org), price);
      if charged.Failure? {
        return Failure(charged.error);
      }
      if !GrantOk(env, m.servingKey, m.feegrantOk) || !GrantOk(env, m.leaderWallet, m.feegrantOk) {
        return Failure(FeegrantFailed);
      }
      balances, supply := charged.value.0, charged.value.1;
      orgs := orgs[org := Organisation(nextSlot, m.leader, m.leaderWallet, m.servingKey, Active, m.profile, 1, 0, 0, 0)];
      members := members[(org, m.leader) := Member(org, m.leader, LEADER, "", false, false)];
      nextSlot := Wrap(nextSlot + 1);
      return Success(org);
    }

    method HandleAddMember(m: Message) returns (r: Result<(), Error>)
      requires m.AddMember?
      modifies this
      ensures r.Failure? ==> Value() == old(Value())
      ensures Add(old(Value()), m) == if r.Success? then Success(Value()) else Failure(r.error)
    {
      if m.signer == "" || m.org == "" || m.pubkey == "" || m.x25519 == "" {
        return Failure(InvalidMessage);
      }
      if m.role != MEMBER {
        return Failure(InvalidRole);
      }
      if m.org !in orgs {
        return Failure(OrgNotFound);
      }
      var org := orgs[m.org];
      if org.leaderWallet == "" || m.signer != org.leaderWallet {
        return Failure(NotLeader);
      }
      if org.status != Active {
        return Failure(OrgNotActive);
      }
      var key := (m.org, m.pubkey);
      if key in members {
        return Failure(MemberExists);
      }
      members := members[key := Member(m.org, m.pubkey, m.role, m.x25519, m.canContribute, m.canModerate)];
      orgs := orgs[m.org := org.(activeMembers := Wrap(org.activeMembers + 1))];
      return Success(());
    }

    method HandleRemoveMember(m: Message) returns (r: Result<(), Error>)
      requires m.RemoveMember?
      modifies this
      ensures r.Failure? ==> Value() == old(Value())
      ensures Remove(old(Value()), m) == if r.Success? then Success(Value()) else Failure(r.error)
    {
      if m.signer == "" || m.org == "" || m.pubkey == "" {
        return Failure(InvalidMessage);
      }
      if m.org !in orgs {
        return Failure(OrgNotFound);
      }
      var org := orgs[m.org];
      if org.leaderWallet == "" || m.signer != org.leaderWallet {
        return Failure(NotLeader);
      }
      var key := (m.org, m.pubkey);
      if key !in members {
        return Failure(MemberNotFound);
      }
      if members[key].role == LEADER {
        return Failure(CannotRemoveLeader);
      }
      if org.status != Active {
        return Failure(OrgNotActive);
      }
      members := members - {key};
      if org.activeMembers > 0 {
        org := org.(activeMembers := org.activeMembers - 1);
      }
      orgs := orgs[m.org := org];
      return Success(());
    }

    method HandleSetMemberCapabilities(m: Message) returns (r: Result<(), Error>)
      requires m.SetMemberCapabilities?
      modifies this
      ensures r.Failure? ==> Value() == old(Value())
      ensures SetCapabilities(old(Value()), m) == if r.Success? then Success(Value()) else Failure(r.error)
    {
      if m.signer == "" || m.org == "" || m.pubkey == "" {
        return Failure(InvalidMessage);
      }
      if m.org !in orgs {
        return Failure(OrgNotFound);
      }
      if orgs[m.org].leaderWallet == "" || m.signer != orgs[m.org].leaderWallet {
        return Failure(NotLeader);
      }
      if orgs[m.org].status != Active {
        return Failure(OrgNotActive);
      }
      var key := (m.org, m.pubkey);
      if key !in members {
        return Failure(MemberNotFound);
      }
      members := members[key := members[key].(canContribute := m.canContribute, canModerate := m.canModerate)];
      return Success(());
    }

    /** Reads, demotes and writes the old leader's record before it reads the new leader's. */
    method HandleTransferLeadership(env: Env, m: Message) returns (r: Result<(), Error>)
      requires m.TransferLeadership?
      modifies this
      ensures r.Failure? ==> Value() == old(Value())
      ensures Transfer(env, old(Value()), m) == if r.Success? then Success(Value()) else Failure(r.error)
    {
      if m.signer == "" || m.org == "" || m.newLeader == "" || m.newWallet == "" || m.signer == m.newLeader {
        return Failure(InvalidMessage);
      }
      if !env.validAddress(m.newWallet) {
        return Failure(InvalidWallet);
      }
      if m.org !in orgs {
        return Failure(OrgNotFound);
      }
      var org := orgs[m.org];
      if org.leaderWallet == "" || m.signer != org.leaderWallet {
        return Failure(NotLeader);
      }
      var newKey, oldKey := (m.org, m.newLeader), (m.org, org.leader);
      if newKey !in members {
        return Failure(MemberNotFound);
      }
      var branch := members;
      var oldLeader := if oldKey in branch then branch[oldKey] else Member("", "", "", "", false, false);
      branch := branch[oldKey := oldLeader.(role := MEMBER)];
      var newLeader := branch[newKey];
      branch := branch[newKey := newLeader.(role := LEADER)];
      if !GrantOk(env, m.newWallet, m.feegrantOk) {
        return Failure(FeegrantFailed);
      }
      members := branch;
      orgs := orgs[m.org := org.(leader := m.newLeader, leaderWallet := m.newWallet)];
      return Success(());
    }

    method HandleCloseOrg(m: Message) returns (r: Result<(), Error>)
      requires m.CloseOrg?
      modifies this
      ensures r.Failure? ==> Value() == old(Value())
      ensures Close(old(Value()), m) == if r.Success? then Success(Value()) else Failure(r.error)
    {
      if m.signer == "" || m.org == "" {
        return Failure(InvalidMessage);
      }
      if m.org !in orgs {
        return Failure(OrgNotFound);
      }
      if orgs[m.org].leaderWallet == "" || m.signer != orgs[m.org].leaderWallet {
        return Failure(NotLeader);
      }
      if orgs[m.org].status != Active {
        return Failure(OrgNotActive);
      }
      orgs := orgs[m.org := orgs[m.org].(status := Closed)];
      return Success(());
    }

    method HandleSetServingKey(env: Env, m: Message) returns (r: Result<(), Error>)
      requires m.SetServingKey?
      modifies this
      ensures r.Failure? ==> Value() == old(Value())
      ensures ServingKey(env, old(Value()), m) == if r.Success? then Success(Value()) else Failure(r.error)
    {
      if m.signer == "" || m.org == "" || m.servingKey == "" {
        return Failure(InvalidMessage);
      }
      if m.org !in orgs {
        return Failure(OrgNotFound);
      }
      if orgs[m.org].leaderWallet == "" || m.signer != orgs[m.org].leaderWallet {
        return Failure(NotLeader);
      }
      if !GrantOk(env, m.servingKey, m.feegrantOk) {
        return Failure(FeegrantFailed);
      }
      orgs := orgs[m.org := orgs[m.org].(servingKey := m.servingKey)];
      return Success(());
    }

    method HandleUpdateParams(gov: string, m: Message) returns (r: Result<(), Error>)
      requires m.UpdateParams?
      modifies this
      ensures r.Failure? ==> Value() == old(Value())
      ensures SetParams(gov, old(Value()), m) == if r.Success? then Success(Value()) else Failure(r.error)
    {
      if m.authority != gov {
        return Failure(Unauthorized);
      }
      if m.params.slotCap == 0 {
        return Failure(InvalidParams);
      }
      params := Some(m.params);
      return Success(());
    }

    /** The message router: every registry message takes the registry one step. */
    method Deliver(x: Setting, m: Message) returns (r: Result<(), Error>)
      modifies this
      ensures Value() == Step(x, old(Value()), m)
      ensures r.Success? <==> Org.Deliver(x, old(Value()), m).Success?
    {
      hide Register, Add, Remove, SetCapabilities, Transfer, ServingKey, Close, SetParams;
      match m
      case RegisterOrg(_, _, _, _, _, _) =>
        var id := HandleRegisterOrg(x.env, x.account, m);
        return if id.Success? then Success(()) else Failure(id.error);
      case AddMember(_, _, _, _, _, _, _) => r := HandleAddMember(m);
      case RemoveMember(_, _, _) => r := HandleRemoveMember(m);
      case SetMemberCapabilities(_, _, _, _, _) => r := HandleSetMemberCapabilities(m);
      case TransferLeadership(_, _, _, _, _) => r := HandleTransferLeadership(x.env, m);
      case SetServingKey(_, _, _, _) => r := HandleSetServingKey(x.env, m);
      case CloseOrg(_, _) => r := HandleCloseOrg(m);
      case UpdateParams(_, _) => r := HandleUpdateParams(x.gov, m);
    }

    method IncrementOrgCommittedMemories(org: string) returns (r: Result<(), Error>)
      modifies this`orgs
      ensures r.Failure? <==> org !in old(orgs)
      ensures Value() == if r.Success? then CountCommitted(old(Value()), org) else old(Value())
    {
      if org !in orgs {
        return Failure(OrgNotFound);
      }
      var stored := orgs[org];
      orgs := orgs[org := stored.(committedMemories := Wrap(stored.committedMemories + 1), lastActivity := 0)];
      return Success(());
    }

    method IncrementOrgUpheldReports(org: string) returns (r: Result<(), Error>)
      modifies this`orgs
      ensures r.Failure? <==> org !in old(orgs)
      ensures Value() == if r.Success? then CountUpheld(old(Value()), org) else old(Value())
    {
      if org !in orgs {
        return Failure(OrgNotFound);
      }
      var stored := orgs[org];
      orgs := orgs[org := stored.(upheldReports := Wrap(stored.upheldReports + 1), lastActivity := 0)];
      return Success(());
    }

    method SetOrgLastActivityEpoch(org: string, epoch: uint64) returns (r: Result<(), Error>)
      modifies this`orgs
      ensures r.Failure? <==> org !in old(orgs)
      ensures Value() == if r.Success? then DateActivity(old(Value()), org, epoch) else old(Value())
    {
      if org !in orgs {
        return Failure(OrgNotFound);
      }
      orgs := orgs[org := orgs[org].(lastActivity := epoch)];
      return Success(());
    }

    /** Counts the members whose role is not inactive and overwrites the running total. */
    method RecomputeOrgActiveMembers(org: string) returns (r: Result<(), Error>)
      modifies this`orgs
      ensures r.Failure? <==> org !in old(orgs)
      ensures r.Failure? ==> orgs == old(orgs)
      ensures r.Success? ==>
                orgs == old(orgs)[org := old(orgs)[org].(activeMembers := Wrap(|ActiveMembers(old(Value()), org)|), lastActivity := 0)]
    {
      var count := 0;
      var rest := members.Keys;
      ghost var counted: set<(string, string)> := {};
      while rest != {}
        invariant rest <= members.Keys
        invariant counted == set k | k in ActiveMembers(Value(), org) && k !in rest
        invariant count == |counted|
        decreases |rest|
      {
        var k :| k in rest;
        if k.0 == org && members[k].role != "inactive" {
          count := count + 1;
          counted := counted + {k};
        }
        rest := rest - {k};
      }
      assert counted == ActiveMembers(Value(), org);
      if org !in orgs {
        return Failure(OrgNotFound);
      }
      orgs := orgs[org := orgs[org].(activeMembers := Wrap(count), lastActivity := 0)];
      return Success(());
    }
  }
}
