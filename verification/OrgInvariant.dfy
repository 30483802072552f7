/** What every run of registry messages keeps: dense slots, one leader each, exact counters, a balanced fee ledger. */
module OrgInvariant {
  import opened Numbers
  import opened Wrappers
  import opened StoreKeys
  import opened Org
  import Tally

  /** The registered organisations are exactly the slots below nextSlot. */
  ghost predicate SlotsDense(s: State) {
    && (forall i: uint64 :: i < s.nextSlot ==> OrgId(i) in s.orgs)
    && (forall o :: o in s.orgs ==> s.orgs[o].slot < s.nextSlot && o == OrgId(s.orgs[o].slot))
  }

  /** Every member belongs to an organisation; the one leader record is the organisation's leader. */
  ghost predicate Led(s: State) {
    && (forall k :: k in s.members ==> k.0 in s.orgs && s.members[k].role in {LEADER, MEMBER})
    && (forall o :: o in s.orgs ==> (o, s.orgs[o].leader) in s.members && s.members[(o, s.orgs[o].leader)].role == LEADER)
    && (forall k :: k in s.members && s.members[k].role == LEADER ==> k.1 == s.orgs[k.0].leader)
  }

  /** The keys of one organisation. */
  function KeysOf<T(==)>(keys: set<(string, T)>, o: string): set<(string, T)> {
    set k | k in keys && k.0 == o
  }

  /** The running total is the number of members. */
  ghost predicate Counted(s: State) {
    forall o :: o in s.orgs ==> s.orgs[o].activeMembers == |KeysOf(s.members.Keys, o)|
  }

  ghost predicate Sound(s: State) {
    SlotsDense(s) && Led(s) && Counted(s)
  }

  /** In a sound registry the running total is what RecomputeOrgActiveMembers would count. */
  lemma RecountAgrees(s: State, o: string)
    requires Sound(s) && o in s.orgs
    ensures s.orgs[o].activeMembers == |ActiveMembers(s, o)|
  {
    assert ActiveMembers(s, o) == KeysOf(s.members.Keys, o);
  }

  lemma {:induction false} SubsetSize<T>(a: set<T>, b: set<T>)
    requires a <= b
    ensures |a| <= |b|
  {
    if a != {} {
      var x :| x in a;
      SubsetSize(a - {x}, b - {x});
    }
  }

  lemma KeysAdded<T>(keys: set<(string, T)>, key: (string, T), o: string)
    requires key !in keys
    ensures |KeysOf(keys + {key}, o)| == |KeysOf(keys, o)| + (if key.0 == o then 1 else 0)
    ensures |KeysOf(keys, o)| <= |keys|
  {
    assert KeysOf(keys + {key}, o) == KeysOf(keys, o) + (if key.0 == o then {key} else {});
    SubsetSize(KeysOf(keys, o), keys);
  }

  lemma KeysRemoved(keys: set<(string, string)>, key: (string, string), o: string)
    requires key in keys
    ensures |KeysOf(keys - {key}, o)| == |KeysOf(keys, o)| - (if key.0 == o then 1 else 0)
  {
    assert KeysOf(keys - {key}, o) == KeysOf(keys, o) - (if key.0 == o then {key} else {});
  }

  /** The already-exists branch of registration is unreachable. */
  lemma FreshSlot(s: State)
    requires SlotsDense(s)
    ensures OrgId(s.nextSlot) !in s.orgs
  {
    if OrgId(s.nextSlot) in s.orgs {
      OrgIdsDistinct(s.nextSlot, s.orgs[OrgId(s.nextSlot)].slot);
    }
  }

  // ----- registration -----

  /** One more organisation, with its leader as the only member. */
  ghost predicate Registered(s: State, after: State, leader: string) {
    var org := OrgId(s.nextSlot);
    && after.nextSlot == s.nextSlot + 1
    && org in after.orgs && after.orgs == s.orgs[org := after.orgs[org]]
    && after.orgs[org].slot == s.nextSlot && after.orgs[org].leader == leader && after.orgs[org].activeMembers == 1
    && (org, leader) in after.members && after.members == s.members[(org, leader) := after.members[(org, leader)]]
    && after.members[(org, leader)].role == LEADER
  }

  lemma RegisterEffect(x: Setting, s: State, m: Message)
    requires m.RegisterOrg? && Register(x.env, x.account, s, m).Success?
    ensures Registered(s, Register(x.env, x.account, s, m).value, m.leader)
  {
  }

  lemma RegisteredSlots(s: State, after: State, leader: string)
    requires SlotsDense(s) && Registered(s, after, leader)
    ensures SlotsDense(after)
  {
    FreshSlot(s);
  }

  lemma RegisteredLed(s: State, after: State, leader: string)
    requires SlotsDense(s) && Led(s) && Registered(s, after, leader)
    ensures Led(after)
  {
    FreshSlot(s);
  }

  /** Before it registers, an organisation has no members. */
  lemma NoMembersYet(s: State, key: (string, string))
    requires SlotsDense(s) && Led(s) && key.0 == OrgId(s.nextSlot)
    ensures key !in s.members && KeysOf(s.members.Keys, key.0) == {}
  {
    FreshSlot(s);
  }

  lemma RegisteredCounted(s: State, after: State, leader: string)
    requires Sound(s) && Registered(s, after, leader)
    ensures Counted(after) && |after.members| == |s.members| + 1
  {
    hide KeysOf, SlotsDense, Led, OrgId;
    var key := (OrgId(s.nextSlot), leader);
    NoMembersYet(s, key);
    assert after.members.Keys == s.members.Keys + {key};
    forall o | o in after.orgs ensures after.orgs[o].activeMembers == |KeysOf(after.members.Keys, o)| {
      KeysAdded(s.members.Keys, key, o);
    }
  }

  // ----- members come and go -----

  /** The counter of one organisation moved by delta; everything else about the organisations stayed. */
  ghost predicate Recounted(s: State, after: State, org: string, delta: int) {
    && after.nextSlot == s.nextSlot && org in s.orgs && org in after.orgs
    && after.orgs == s.orgs[org := s.orgs[org].(activeMembers := after.orgs[org].activeMembers)]
    && after.orgs[org].activeMembers == s.orgs[org].activeMembers + delta
  }

  lemma RecountedSlots(s: State, after: State, org: string, delta: int)
    requires SlotsDense(s) && Recounted(s, after, org, delta)
    ensures SlotsDense(after)
  {
  }

  lemma AddEffect(s: State, m: Message)
    requires Counted(s) && |s.members| < TWO64 - 1 && m.AddMember? && Add(s, m).Success?
    ensures Joined(s, Add(s, m).value, (m.org, m.pubkey))
  {
    KeysAdded(s.members.Keys, (m.org, m.pubkey), m.org);
  }

  ghost predicate Joined(s: State, after: State, key: (string, string)) {
    && Recounted(s, after, key.0, 1)
    && key !in s.members && key in after.members && after.members == s.members[key := after.members[key]]
    && after.members[key].role == MEMBER
  }

  lemma JoinedLed(s: State, after: State, key: (string, string))
    requires Led(s) && Joined(s, after, key)
    ensures Led(after)
  {
  }

  lemma JoinedCounted(s: State, after: State, key: (string, string))
    requires Counted(s) && Joined(s, after, key)
    ensures Counted(after) && |after.members| == |s.members| + 1
  {
    assert after.members.Keys == s.members.Keys + {key};
    forall o | o in after.orgs ensures after.orgs[o].activeMembers == |KeysOf(after.members.Keys, o)| {
      KeysAdded(s.members.Keys, key, o);
    }
  }

  ghost predicate Left(s: State, after: State, key: (string, string)) {
    && Recounted(s, after, key.0, -1)
    && key in s.members && s.members[key].role != LEADER && after.members == s.members - {key}
  }

  lemma RemoveEffect(s: State, m: Message)
    requires Counted(s) && m.RemoveMember? && Remove(s, m).Success?
    ensures Left(s, Remove(s, m).value, (m.org, m.pubkey))
  {
    var key := (m.org, m.pubkey);
    KeysRemoved(s.members.Keys, key, m.org);
    assert key in KeysOf(s.members.Keys, m.org);
  }

  lemma LeftLed(s: State, after: State, key: (string, string))
    requires Led(s) && Left(s, after, key)
    ensures Led(after)
  {
  }

  lemma LeftCounted(s: State, after: State, key: (string, string))
    requires Counted(s) && Left(s, after, key)
    ensures Counted(after) && |after.members| <= |s.members|
  {
    assert after.members.Keys == s.members.Keys - {key};
    forall o | o in after.orgs ensures after.orgs[o].activeMembers == |KeysOf(after.members.Keys, o)| {
      KeysRemoved(s.members.Keys, key, o);
    }
    SubsetSize(after.members.Keys, s.members.Keys);
  }

  // ----- messages that keep the member keys -----

  /** Same organisations, slots and counters, same member keys. */
  ghost predicate SameShape(s: State, after: State) {
    && after.nextSlot == s.nextSlot && after.orgs.Keys == s.orgs.Keys && after.members.Keys == s.members.Keys
    && forall o :: o in s.orgs ==>
         after.orgs[o].slot == s.orgs[o].slot && after.orgs[o].activeMembers == s.orgs[o].activeMembers
  }

  lemma SameShapeKeeps(s: State, after: State)
    requires SlotsDense(s) && Counted(s) && SameShape(s, after)
    ensures SlotsDense(after) && Counted(after) && |after.members| == |s.members|
  {
    assert |after.members| == |after.members.Keys| == |s.members.Keys|;
  }

  /** One organisation was rewritten, its slot and counter kept, and roles were moved to its new leader. */
  ghost predicate Relabelled(s: State, after: State, org: string) {
    && after.nextSlot == s.nextSlot && org in s.orgs && org in after.orgs
    && after.orgs == s.orgs[org := after.orgs[org]]
    && after.orgs[org].slot == s.orgs[org].slot && after.orgs[org].activeMembers == s.orgs[org].activeMembers
    && after.members.Keys == s.members.Keys
    && forall k :: k in s.members ==>
         after.members[k].role == if k.0 != org then s.members[k].role
                                  else if k.1 == after.orgs[org].leader then LEADER else MEMBER
  }

  lemma RelabelledShape(s: State, after: State, org: string)
    requires Relabelled(s, after, org)
    ensures SameShape(s, after)
  {
  }

  lemma RelabelledLeads(s: State, after: State, org: string, o: string)
    requires Led(s) && Relabelled(s, after, org) && (org, after.orgs[org].leader) in s.members && o in after.orgs
    ensures (o, after.orgs[o].leader) in after.members && after.members[(o, after.orgs[o].leader)].role == LEADER
  {
    assert o != org ==> after.orgs[o] == s.orgs[o];
  }

  lemma RelabelledMember(s: State, after: State, org: string, k: (string, string))
    requires Led(s) && Relabelled(s, after, org) && k in after.members
    ensures k.0 in after.orgs && after.members[k].role in {LEADER, MEMBER}
    ensures after.members[k].role == LEADER ==> k.1 == after.orgs[k.0].leader
  {
    assert k in s.members;
    assert k.0 != org ==> after.orgs[k.0] == s.orgs[k.0];
  }

  lemma LedIntro(s: State)
    requires forall k :: k in s.members ==> k.0 in s.orgs && s.members[k].role in {LEADER, MEMBER}
    requires forall o :: o in s.orgs ==> (o, s.orgs[o].leader) in s.members && s.members[(o, s.orgs[o].leader)].role == LEADER
    requires forall k :: k in s.members && s.members[k].role == LEADER ==> k.1 == s.orgs[k.0].leader
    ensures Led(s)
  {
  }

  lemma RelabelledKeeps(s: State, after: State, org: string)
    requires Led(s) && Relabelled(s, after, org) && (org, after.orgs[org].leader) in s.members
    ensures Led(after) && SameShape(s, after)
  {
    RelabelledShape(s, after, org);
    hide SameShape, Relabelled, Led;
    forall o | o in after.orgs
      ensures (o, after.orgs[o].leader) in after.members && after.members[(o, after.orgs[o].leader)].role == LEADER
    {
      RelabelledLeads(s, after, org, o);
    }
    forall k | k in after.members
      ensures k.0 in after.orgs && after.members[k].role in {LEADER, MEMBER}
      ensures after.members[k].role == LEADER ==> k.1 == after.orgs[k.0].leader
    {
      RelabelledMember(s, after, org, k);
    }
    LedIntro(after);
  }

  /** What a transfer writes, key by key. */
  lemma TransferWrites(x: Setting, s: State, m: Message, k: (string, string))
    requires m.TransferLeadership? && Transfer(x.env, s, m).Success?
    ensures m.org in s.orgs && (m.org, m.newLeader) in s.members
    ensures var after, oldKey := Transfer(x.env, s, m).value, (m.org, s.orgs[m.org].leader);
            && after.nextSlot == s.nextSlot
            && after.orgs == s.orgs[m.org := s.orgs[m.org].(leader := m.newLeader, leaderWallet := m.newWallet)]
            && after.members.Keys == s.members.Keys + {oldKey}
            && (k in after.members ==>
                after.members[k].role == if k == (m.org, m.newLeader) then LEADER
                                         else if k == oldKey then MEMBER else s.members[k].role)
  {
    hide GrantOk;
  }

  /** Demote, then promote: also when the new leader is the old one, exactly the new leader leads. */
  lemma TransferEffect(x: Setting, s: State, m: Message)
    requires Led(s) && m.TransferLeadership? && Transfer(x.env, s, m).Success?
    ensures var after := Transfer(x.env, s, m).value;
            Relabelled(s, after, m.org) && after.orgs[m.org].leader == m.newLeader && (m.org, m.newLeader) in s.members
  {
    hide Transfer;
    var after := Transfer(x.env, s, m).value;
    TransferWrites(x, s, m, ("", ""));
    assert after.members.Keys == s.members.Keys;
    forall k | k in s.members
      ensures after.members[k].role == if k.0 != m.org then s.members[k].role
                                       else if k.1 == m.newLeader then LEADER else MEMBER
    {
      TransferWrites(x, s, m, k);
    }
  }

  lemma CapabilitiesKeep(s: State, m: Message)
    requires Led(s) && m.SetMemberCapabilities? && SetCapabilities(s, m).Success?
    ensures var after := SetCapabilities(s, m).value; Led(after) && SameShape(s, after)
  {
    var after := SetCapabilities(s, m).value;
    var key := (m.org, m.pubkey);
    assert after.orgs == s.orgs && after.members == s.members[key := after.members[key]];
    assert after.members.Keys == s.members.Keys && after.members[key].role == s.members[key].role;
  }

  lemma ServingKeyKeeps(x: Setting, s: State, m: Message)
    requires Led(s) && m.SetServingKey? && ServingKey(x.env, s, m).Success?
    ensures var after := ServingKey(x.env, s, m).value; Led(after) && SameShape(s, after)
  {
  }

  lemma CloseKeeps(s: State, m: Message)
    requires Led(s) && m.CloseOrg? && Close(s, m).Success?
    ensures var after := Close(s, m).value; Led(after) && SameShape(s, after)
  {
  }

  lemma SameShapeStep(x: Setting, s: State, m: Message)
    requires Led(s) && !m.RegisterOrg? && !m.AddMember? && !m.RemoveMember?
    ensures Led(Step(x, s, m)) && SameShape(s, Step(x, s, m))
  {
    hide Transfer, SetCapabilities, ServingKey, Close, Led;
    if m.TransferLeadership? {
      if Transfer(x.env, s, m).Success? {
        TransferEffect(x, s, m);
        RelabelledKeeps(s, Transfer(x.env, s, m).value, m.org);
      }
    } else if m.SetMemberCapabilities? {
      if SetCapabilities(s, m).Success? {
        CapabilitiesKeep(s, m);
      }
    } else if m.SetServingKey? {
      if ServingKey(x.env, s, m).Success? {
        ServingKeyKeeps(x, s, m);
      }
    } else if m.CloseOrg? {
      if Close(s, m).Success? {
        CloseKeeps(s, m);
      }
    } else {
      ParamsKeep(x, s, m);
    }
  }

  lemma ParamsKeep(x: Setting, s: State, m: Message)
    requires Led(s) && m.UpdateParams?
    ensures Led(Step(x, s, m)) && SameShape(s, Step(x, s, m))
  {
  }

  lemma StepKeeps(x: Setting, s: State, m: Message)
    requires Sound(s) && |s.members| < TWO64 - 1
    ensures Sound(Step(x, s, m)) && |Step(x, s, m).members| <= |s.members| + 1
  {
    hide Register, Add, Remove, SlotsDense, Led, Counted, SameShape;
    var after := Step(x, s, m);
    if m.RegisterOrg? {
      if Register(x.env, x.account, s, m).Success? {
        RegisterEffect(x, s, m);
        RegisteredSlots(s, after, m.leader);
        RegisteredLed(s, after, m.leader);
        RegisteredCounted(s, after, m.leader);
      }
    } else if m.AddMember? {
      if Add(s, m).Success? {
        AddEffect(s, m);
        RecountedSlots(s, after, m.org, 1);
        JoinedLed(s, after, (m.org, m.pubkey));
        JoinedCounted(s, after, (m.org, m.pubkey));
      }
    } else if m.RemoveMember? {
      if Remove(s, m).Success? {
        RemoveEffect(s, m);
        RecountedSlots(s, after, m.org, -1);
        LeftLed(s, after, (m.org, m.pubkey));
        LeftCounted(s, after, (m.org, m.pubkey));
      }
    } else {
      SameShapeStep(x, s, m);
      SameShapeKeeps(s, after);
    }
  }

  /** The registry invariant over every run of fewer than 2^64 messages. */
  lemma {:induction false} RunKeeps(x: Setting, s: State, ms: seq<Message>)
    requires Sound(s) && |s.members| + |ms| < TWO64
    ensures Sound(Run(x, s, ms)) && |Run(x, s, ms).members| <= |s.members| + |ms|
  {
    if ms != [] {
      RunKeeps(x, s, ms[..|ms| - 1]);
      StepKeeps(x, Run(x, s, ms[..|ms| - 1]), ms[|ms| - 1]);
    }
  }

  lemma EmptyIsSound(params: Option<Params>, balances: map<string, nat>, supply: int)
    ensures Sound(State(map[], map[], 0, params, balances, supply))
  {
  }

  /** In a sound registry each organisation has exactly one leader record. */
  lemma OneLeader(s: State, o: string)
    requires Led(s) && o in s.orgs
    ensures (set k | k in s.members && k.0 == o && s.members[k].role == LEADER) == {(o, s.orgs[o].leader)}
  {
  }

  // ----- one organisation per leader -----

  ghost predicate LeadersDistinct(s: State) {
    forall o, p :: o in s.orgs && p in s.orgs && o != p ==> s.orgs[o].leader != s.orgs[p].leader
  }

  /** Registration refuses a leader who has an organisation. */
  lemma RegisterKeepsDistinct(x: Setting, s: State, m: Message)
    requires LeadersDistinct(s) && m.RegisterOrg? && Register(x.env, x.account, s, m).Success?
    ensures LeadersDistinct(Register(x.env, x.account, s, m).value)
  {
    hide Charge, ProfileValid, GrantOk, SlotFee;
  }

  /** A transfer does not check: leaders stay distinct exactly when the new one leads no other organisation. */
  lemma TransferKeepsDistinctIff(x: Setting, s: State, m: Message)
    requires LeadersDistinct(s) && m.TransferLeadership? && Transfer(x.env, s, m).Success?
    ensures LeadersDistinct(Transfer(x.env, s, m).value)
            <==> forall o :: o in s.orgs && o != m.org ==> s.orgs[o].leader != m.newLeader
  {
    var after := Transfer(x.env, s, m).value;
    assert after.orgs == s.orgs[m.org := after.orgs[m.org]] && after.orgs[m.org].leader == m.newLeader;
    if LeadersDistinct(after) {
      forall o | o in s.orgs && o != m.org ensures s.orgs[o].leader != m.newLeader {
        assert after.orgs[o].leader != after.orgs[m.org].leader;
      }
    }
  }

  /** Messages other than registrations and transfers change no leader. */
  lemma OthersKeepLeaders(x: Setting, s: State, m: Message)
    requires !m.RegisterOrg? && !m.TransferLeadership?
    ensures Step(x, s, m).orgs.Keys == s.orgs.Keys
    ensures forall o :: o in s.orgs ==> Step(x, s, m).orgs[o].leader == s.orgs[o].leader
  {
    hide Wrap, GrantOk;
  }

  /** The message gives an organisation to the leader of another one. */
  ghost predicate GivesSecondOrg(x: Setting, s: State, m: Message) {
    && m.TransferLeadership? && Transfer(x.env, s, m).Success?
    && exists o :: o in s.orgs && o != m.org && s.orgs[o].leader == m.newLeader
  }

  lemma StepKeepsDistinctIff(x: Setting, s: State, m: Message)
    requires LeadersDistinct(s)
    ensures LeadersDistinct(Step(x, s, m)) <==> !GivesSecondOrg(x, s, m)
  {
    hide Register, Transfer, Add, Remove, SetCapabilities, ServingKey, Close;
    if m.RegisterOrg? {
      if Register(x.env, x.account, s, m).Success? {
        RegisterKeepsDistinct(x, s, m);
      }
    } else if m.TransferLeadership? {
      if Transfer(x.env, s, m).Success? {
        TransferKeepsDistinctIff(x, s, m);
      }
    } else {
      OthersKeepLeaders(x, s, m);
    }
  }

  /** Leaders are distinct after every prefix of the run. */
  ghost predicate AlwaysDistinct(x: Setting, s: State, ms: seq<Message>) {
    LeadersDistinct(Run(x, s, ms)) && (ms != [] ==> AlwaysDistinct(x, s, ms[..|ms| - 1]))
  }

  /** No message of the run gives an organisation to the leader of another one. */
  ghost predicate NoSecondOrg(x: Setting, s: State, ms: seq<Message>) {
    ms != [] ==>
      var prefix, last := ms[..|ms| - 1], ms[|ms| - 1];
      NoSecondOrg(x, s, prefix) && !GivesSecondOrg(x, Run(x, s, prefix), last)
  }

  /** Along a run leaders stay distinct exactly when no transfer goes to a leader of another organisation. */
  lemma {:induction false} RunKeepsDistinctIff(x: Setting, s: State, ms: seq<Message>)
    requires LeadersDistinct(s)
    ensures AlwaysDistinct(x, s, ms) <==> NoSecondOrg(x, s, ms)
  {
    hide LeadersDistinct, GivesSecondOrg, Step;
    if ms != [] {
      var prefix := ms[..|ms| - 1];
      RunKeepsDistinctIff(x, s, prefix);
      if AlwaysDistinct(x, s, prefix) {
        StepKeepsDistinctIff(x, Run(x, s, prefix), ms[|ms| - 1]);
      }
    }
  }

  lemma ClosedAtRegistration(x: Setting, s: State, m: Message, o: string)
    requires SlotsDense(s) && o in s.orgs && m.RegisterOrg?
    ensures o in Step(x, s, m).orgs && Step(x, s, m).orgs[o] == s.orgs[o]
    ensures KeysOf(Step(x, s, m).members.Keys, o) == KeysOf(s.members.Keys, o)
  {
    hide Register, OrgId;
    FreshSlot(s);
    if Register(x.env, x.account, s, m).Success? {
      RegisterEffect(x, s, m);
    }
  }

  lemma ClosedAtAdd(s: State, m: Message, o: string)
    requires o in s.orgs && s.orgs[o].status.Closed? && m.AddMember? && Add(s, m).Success?
    ensures var after := Add(s, m).value;
            o in after.orgs && after.orgs[o] == s.orgs[o] && KeysOf(after.members.Keys, o) == KeysOf(s.members.Keys, o)
  {
    hide Wrap;
  }

  lemma ClosedAtRemove(s: State, m: Message, o: string)
    requires o in s.orgs && s.orgs[o].status.Closed? && m.RemoveMember? && Remove(s, m).Success?
    ensures var after := Remove(s, m).value;
            o in after.orgs && after.orgs[o] == s.orgs[o] && KeysOf(after.members.Keys, o) == KeysOf(s.members.Keys, o)
  {
  }

  lemma OthersKeepClosed(x: Setting, s: State, m: Message, o: string)
    requires o in s.orgs && s.orgs[o].status.Closed? && !m.RegisterOrg? && !m.AddMember? && !m.RemoveMember?
    ensures o in Step(x, s, m).orgs && Step(x, s, m).orgs[o].status.Closed?
  {
    hide GrantOk;
  }

  /** Closing is final: the organisation stays closed and its set of members is frozen. */
  lemma ClosedStep(x: Setting, s: State, m: Message, o: string)
    requires Sound(s) && |s.members| < TWO64 - 1 && o in s.orgs && s.orgs[o].status.Closed?
    ensures o in Step(x, s, m).orgs && Step(x, s, m).orgs[o].status.Closed?
    ensures KeysOf(Step(x, s, m).members.Keys, o) == KeysOf(s.members.Keys, o)
  {
    hide SlotsDense, Counted, Led, KeysOf, Register, Add, Remove, Transfer, SetCapabilities, ServingKey, Close;
    if m.RegisterOrg? {
      ClosedAtRegistration(x, s, m, o);
    } else if m.AddMember? {
      if Add(s, m).Success? {
        ClosedAtAdd(s, m, o);
      }
    } else if m.RemoveMember? {
      if Remove(s, m).Success? {
        ClosedAtRemove(s, m, o);
      }
    } else {
      SameShapeStep(x, s, m);
      OthersKeepClosed(x, s, m, o);
    }
  }

  lemma {:induction false} ClosedForever(x: Setting, s: State, ms: seq<Message>, o: string)
    requires Sound(s) && |s.members| + |ms| < TWO64 && o in s.orgs && s.orgs[o].status.Closed?
    ensures o in Run(x, s, ms).orgs && Run(x, s, ms).orgs[o].status.Closed?
    ensures KeysOf(Run(x, s, ms).members.Keys, o) == KeysOf(s.members.Keys, o)
  {
    if ms != [] {
      var prefix := ms[..|ms| - 1];
      ClosedForever(x, s, prefix, o);
      RunKeeps(x, s, prefix);
      ClosedStep(x, Run(x, s, prefix), ms[|ms| - 1], o);
    }
  }

  // ----- the fee ledger -----

  /** The fee a message pays: zero unless it registers an organisation. */
  function FeeOf(x: Setting, s: State, m: Message): nat {
    if m.RegisterOrg? && Register(x.env, x.account, s, m).Success? then SlotFee(s) else 0
  }

  function Burned(x: Setting, s: State, ms: seq<Message>): nat {
    if ms == [] then 0
    else Burned(x, s, ms[..|ms| - 1]) + FeeOf(x, Run(x, s, ms[..|ms| - 1]), ms[|ms| - 1]) / 2
  }

  function PaidBy(x: Setting, s: State, ms: seq<Message>, a: string): nat {
    if ms == [] then 0
    else
      var mid, m := Run(x, s, ms[..|ms| - 1]), ms[|ms| - 1];
      PaidBy(x, s, ms[..|ms| - 1], a) + if m.RegisterOrg? && m.signer == a then FeeOf(x, mid, m) else 0
  }

  function ReceivedBy(x: Setting, s: State, ms: seq<Message>, a: string): nat {
    if ms == [] then 0
    else
      var mid, m := Run(x, s, ms[..|ms| - 1]), ms[|ms| - 1];
      var fee := FeeOf(x, mid, m);
      ReceivedBy(x, s, ms[..|ms| - 1], a) + if x.account(OrgId(mid.nextSlot)) == a then fee - fee / 2 else 0
  }

  lemma ChargeEffect(s: State, creator: string, account: string, fee: uint64, a: string)
    requires Charge(s, creator, account, fee).Success?
    ensures var after := Charge(s, creator, account, fee).value;
            && after.supply == s.supply - fee / 2
            && Tally.Lookup(after.balances, a) + (if a == creator then fee else 0) ==
               Tally.Lookup(s.balances, a) + (if a == account then fee - fee / 2 else 0)
            && Tally.Total(after.balances) == Tally.Total(s.balances) - fee / 2
  {
    if fee > 0 {
      var paid := s.balances[creator := Tally.Lookup(s.balances, creator) - fee];
      Tally.TotalUpdate(s.balances, creator, Tally.Lookup(s.balances, creator) - fee);
      Tally.TotalUpdate(paid, account, Tally.Lookup(paid, account) + (fee - fee / 2));
    }
  }

  lemma RegisterFunds(x: Setting, s: State, m: Message)
    requires m.RegisterOrg? && Register(x.env, x.account, s, m).Success?
    ensures var charged := Charge(s, m.signer, x.account(OrgId(s.nextSlot)), SlotFee(s));
            var after := Register(x.env, x.account, s, m).value;
            charged.Success? && after.balances == charged.value.balances && after.supply == charged.value.supply
  {
  }

  lemma OthersKeepFunds(x: Setting, s: State, m: Message)
    requires !m.RegisterOrg?
    ensures Step(x, s, m).balances == s.balances && Step(x, s, m).supply == s.supply
  {
  }

  lemma FeeStep(x: Setting, s: State, m: Message, a: string)
    ensures var fee, after := FeeOf(x, s, m), Step(x, s, m);
            && after.supply == s.supply - fee / 2
            && Tally.Lookup(after.balances, a) + (if m.RegisterOrg? && m.signer == a then fee else 0) ==
               Tally.Lookup(s.balances, a) + (if x.account(OrgId(s.nextSlot)) == a then fee - fee / 2 else 0)
            && Tally.Total(after.balances) == Tally.Total(s.balances) - fee / 2
  {
    hide Register, Add, Remove, Transfer, SetCapabilities, ServingKey, Close, Charge;
    if !m.RegisterOrg? {
      OthersKeepFunds(x, s, m);
    } else if Register(x.env, x.account, s, m).Success? {
      RegisterFunds(x, s, m);
      ChargeEffect(s, m.signer, x.account(OrgId(s.nextSlot)), SlotFee(s), a);
    }
  }

  /**
   * Over any run the supply falls by the burned halves, and each account changes by exactly what it
   * received as an organisation account minus what it paid as a creator.
   */
  lemma {:induction false} FeeLedger(x: Setting, s: State, ms: seq<Message>, a: string)
    ensures var after := Run(x, s, ms);
            && after.supply == s.supply - Burned(x, s, ms)
            && Tally.Lookup(after.balances, a) + PaidBy(x, s, ms, a) == Tally.Lookup(s.balances, a) + ReceivedBy(x, s, ms, a)
            && Tally.Total(after.balances) == Tally.Total(s.balances) - Burned(x, s, ms)
  {
    if ms != [] {
      FeeLedger(x, s, ms[..|ms| - 1], a);
      FeeStep(x, Run(x, s, ms[..|ms| - 1]), ms[|ms| - 1], a);
    }
  }
}
