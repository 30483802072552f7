/** x/bandwidth: per-organisation, per-epoch caps on memory and serve bandwidth. */
module Bandwidth {
  import opened Numbers
  import opened Wrappers
  import opened BandwidthCodec
  import Varint

  type OrgId = seq<byte>

  datatype Params = Params(memoryCap: uint64, serveCap: uint64)
  const DEFAULT_PARAMS := Params(10_000, 50_000)

  datatype Store = Store(
    states: map<(OrgId, uint64), StoredState>, overrides: map<OrgId, StoredOverride>, params: Option<Params>)

  datatype Action =
    | ConsumeMemory(org: OrgId, epoch: uint64)
    | ConsumeServe(org: OrgId, epoch: uint64, count: uint64)
    | Query(org: OrgId, epoch: uint64)
    | SetOverride(org: OrgId, memoryCap: uint64, serveCap: uint64)
    | DeleteOverride(org: OrgId)
    | SetParams(params: Params)

  /** The state of an organisation in an epoch, created on first touch from its override or the parameters. */
  function StateFor(s: Store, org: OrgId, epoch: uint64): StoredState {
    if (org, epoch) in s.states then s.states[(org, epoch)]
    else if org in s.overrides then
      StoredState(org, epoch, 0, s.overrides[org].memoryCap, 0, s.overrides[org].serveCap)
    else
      var p := s.params.GetOr(DEFAULT_PARAMS);
      StoredState(org, epoch, 0, p.memoryCap, 0, p.serveCap)
  }

  function Touch(s: Store, org: OrgId, epoch: uint64): Store {
    s.(states := s.states[(org, epoch) := StateFor(s, org, epoch)])
  }

  /** The state after consuming one memory, if the cap allows it. */
  function UseMemory(st: StoredState): Option<StoredState> {
    if st.memoryUsed >= st.memoryCap then None else Some(st.(memoryUsed := Wrap(st.memoryUsed + 1)))
  }

  /** The state after consuming `count` serves; the sum is compared, and kept, modulo 2^64. */
  function UseServe(st: StoredState, count: uint64): Option<StoredState> {
    if Wrap(st.serveUsed + count) > st.serveCap then None else Some(st.(serveUsed := Wrap(st.serveUsed + count)))
  }

  /** A refused consumption still leaves the freshly initialised state behind. */
  function Step(s: Store, a: Action): Store {
    match a
    case ConsumeMemory(org, epoch) =>
      var next := UseMemory(StateFor(s, org, epoch));
      if next.None? then Touch(s, org, epoch) else s.(states := s.states[(org, epoch) := next.value])
    case ConsumeServe(org, epoch, count) =>
      var next := UseServe(StateFor(s, org, epoch), count);
      if next.None? then Touch(s, org, epoch) else s.(states := s.states[(org, epoch) := next.value])
    case Query(org, epoch) => Touch(s, org, epoch)
    case SetOverride(org, memoryCap, serveCap) =>
      s.(overrides := s.overrides[org := StoredOverride(org, memoryCap, serveCap)])
    case DeleteOverride(org) => s.(overrides := s.overrides - {org})
    case SetParams(params) => s.(params := Some(params))
  }

  function Run(s: Store, actions: seq<Action>): Store {
    if actions == [] then s else Step(Run(s, actions[..|actions| - 1]), actions[|actions| - 1])
  }

  predicate WithinCaps(s: Store) {
    forall k :: k in s.states ==>
      s.states[k].memoryUsed <= s.states[k].memoryCap && s.states[k].serveUsed <= s.states[k].serveCap
  }

  /** A state once created stays, and its caps never change. */
  ghost predicate CapsFrozen(old_: Store, new_: Store) {
    forall k :: k in old_.states ==>
      && k in new_.states
      && new_.states[k].memoryCap == old_.states[k].memoryCap
      && new_.states[k].serveCap == old_.states[k].serveCap
  }

  lemma StepKeeps(s: Store, a: Action)
    requires WithinCaps(s)
    ensures WithinCaps(Step(s, a)) && CapsFrozen(s, Step(s, a))
  {
  }

  /** Whatever is consumed, overridden or re-parameterised: usage stays under the cap set at first touch. */
  lemma {:induction false} RunKeeps(s: Store, actions: seq<Action>)
    requires WithinCaps(s)
    ensures WithinCaps(Run(s, actions)) && CapsFrozen(s, Run(s, actions))
  {
    if actions != [] {
      RunKeeps(s, actions[..|actions| - 1]);
      StepKeeps(Run(s, actions[..|actions| - 1]), actions[|actions| - 1]);
    }
  }

  /**
   * An accepted serve consumption is added to the usage exactly when the 64-bit sum does not wrap;
   * a wrapping request is accepted only if it lowers the recorded usage.
   */
  lemma ServeCountedIff(st: StoredState, count: uint64)
    requires st.serveUsed <= st.serveCap && UseServe(st, count).Some?
    ensures UseServe(st, count).value.serveUsed == st.serveUsed + count <==> st.serveUsed + count < TWO64
    ensures st.serveUsed + count >= TWO64 ==> UseServe(st, count).value.serveUsed < st.serveUsed
  {
  }

  /** Asking for 2^64 - 1 serves is accepted and gives one serve back. */
  lemma WrappingRequestAccepted()
    ensures UseServe(StoredState([], 1, 0, 0, 5, 10), TWO64 - 1) == Some(StoredState([], 1, 0, 0, 4, 10))
  {
  }

  // ----- what is accepted -----

  /** A first touch takes the caps of the organisation's override, else of the parameters, else 10,000 and 50,000. */
  lemma FirstTouch(s: Store, org: OrgId, epoch: uint64)
    requires (org, epoch) !in s.states
    ensures var st := StateFor(s, org, epoch);
            && st.orgId == org && st.epoch == epoch && st.memoryUsed == 0 && st.serveUsed == 0
            && st.memoryCap == (if org in s.overrides then s.overrides[org].memoryCap
                                else if s.params.Some? then s.params.value.memoryCap else 10_000)
            && st.serveCap == (if org in s.overrides then s.overrides[org].serveCap
                               else if s.params.Some? then s.params.value.serveCap else 50_000)
  {
  }

  /** An override or new parameters hold for the first touches that follow, and for none of the states there are. */
  lemma CapsTakeEffect(s: Store, a: Action, org: OrgId, epoch: uint64)
    ensures var (before, after) := (StateFor(s, org, epoch), StateFor(Step(s, a), org, epoch));
            if (org, epoch) in s.states then after.memoryCap == before.memoryCap && after.serveCap == before.serveCap
            else match a
              case SetOverride(o, memoryCap, serveCap) =>
                after == if o == org then before.(memoryCap := memoryCap, serveCap := serveCap) else before
              case DeleteOverride(o) =>
                var p := if s.params.Some? then s.params.value else Params(10_000, 50_000);
                after == if o == org then before.(memoryCap := p.memoryCap, serveCap := p.serveCap) else before
              case SetParams(p) =>
                after == if org in s.overrides then before else before.(memoryCap := p.memoryCap, serveCap := p.serveCap)
              case _ => after.memoryCap == before.memoryCap && after.serveCap == before.serveCap
  {
  }

  /** Exactly what is below its cap is accepted; a memory takes one, a serve request its count modulo 2^64. */
  lemma AcceptedIff(st: StoredState, count: uint64)
    ensures UseMemory(st).Some? <==> st.memoryUsed < st.memoryCap
    ensures UseMemory(st).Some? ==> UseMemory(st).value == st.(memoryUsed := st.memoryUsed + 1)
    ensures UseServe(st, count).Some? <==> (st.serveUsed + count) % TWO64 <= st.serveCap
    ensures UseServe(st, count).Some? ==> UseServe(st, count).value == st.(serveUsed := (st.serveUsed + count) % TWO64)
  {
  }

  /** The memories an action takes from a state of the organisation in the epoch: one, below the cap. */
  function TakesMemory(st: StoredState, a: Action, org: OrgId, epoch: uint64): nat {
    if a == ConsumeMemory(org, epoch) && st.memoryUsed < st.memoryCap then 1 else 0
  }

  /** The serves an action takes: all it asks for, when the sum modulo 2^64 is within the cap. */
  function TakesServes(st: StoredState, a: Action, org: OrgId, epoch: uint64): uint64 {
    if a.ConsumeServe? && a.org == org && a.epoch == epoch && (st.serveUsed + a.count) % TWO64 <= st.serveCap then a.count else 0
  }

  /** How many memories of the organisation in the epoch a run accepted. */
  function Memories(s: Store, actions: seq<Action>, org: OrgId, epoch: uint64): nat {
    if actions == [] then 0
    else
      var prefix, last := actions[..|actions| - 1], actions[|actions| - 1];
      Memories(s, prefix, org, epoch) + TakesMemory(StateFor(Run(s, prefix), org, epoch), last, org, epoch)
  }

  /** How many serves the accepted requests of a run asked for. */
  function Serves(s: Store, actions: seq<Action>, org: OrgId, epoch: uint64): nat {
    if actions == [] then 0
    else
      var prefix, last := actions[..|actions| - 1], actions[|actions| - 1];
      Serves(s, prefix, org, epoch) + TakesServes(StateFor(Run(s, prefix), org, epoch), last, org, epoch)
  }

  lemma StepTakes(s: Store, a: Action, org: OrgId, epoch: uint64)
    ensures var (st, after) := (StateFor(s, org, epoch), StateFor(Step(s, a), org, epoch));
            && after.memoryUsed == st.memoryUsed + TakesMemory(st, a, org, epoch)
            && after.serveUsed == (st.serveUsed + TakesServes(st, a, org, epoch)) % TWO64
  {
    hide UseMemory, UseServe;
    AcceptedIff(StateFor(s, org, epoch), if a.ConsumeServe? then a.count else 0);
    if a.ConsumeServe? {
      AcceptedIff(StateFor(s, a.org, a.epoch), a.count);
    } else if a.ConsumeMemory? {
      AcceptedIff(StateFor(s, a.org, a.epoch), 0);
    }
  }

  lemma WithinCap(s: Store, org: OrgId, epoch: uint64)
    requires WithinCaps(s)
    ensures StateFor(s, org, epoch).memoryUsed <= StateFor(s, org, epoch).memoryCap
  {
  }

  lemma ModAdd(a: int, b: int)
    ensures (a % TWO64 + b) % TWO64 == (a + b) % TWO64
  {
  }

  /** Usage is what was accepted: memories exactly, serves modulo 2^64; so no more memories than the cap are ever accepted. */
  lemma {:induction false} UsageIsAccepted(s: Store, actions: seq<Action>, org: OrgId, epoch: uint64)
    requires WithinCaps(s)
    ensures var (st, after) := (StateFor(s, org, epoch), StateFor(Run(s, actions), org, epoch));
            && after.memoryUsed == st.memoryUsed + Memories(s, actions, org, epoch) <= after.memoryCap
            && after.serveUsed == (st.serveUsed + Serves(s, actions, org, epoch)) % TWO64
  {
    hide Step, StateFor, WithinCaps, CapsFrozen, TakesMemory, TakesServes;
    RunKeeps(s, actions);
    WithinCap(Run(s, actions), org, epoch);
    if actions != [] {
      var prefix, last := actions[..|actions| - 1], actions[|actions| - 1];
      UsageIsAccepted(s, prefix, org, epoch);
      StepTakes(Run(s, prefix), last, org, epoch);
      ModAdd(StateFor(s, org, epoch).serveUsed + Serves(s, prefix, org, epoch),
             TakesServes(StateFor(Run(s, prefix), org, epoch), last, org, epoch));
    }
  }

  // ----- the store as bytes -----

  ghost predicate Decodable(states: map<(OrgId, uint64), seq<byte>>, overrides: map<OrgId, seq<byte>>) {
    && (forall k :: k in states ==> DecodeState(states[k]).Success? && DecodeState(states[k]).value.orgId == k.0)
    && (forall o :: o in overrides ==> DecodeOverride(overrides[o]).Success?)
  }

  /** What the stored bytes decode to. */
  ghost function Decoded(
    states: map<(OrgId, uint64), seq<byte>>, overrides: map<OrgId, seq<byte>>, params: Option<Params>): Store
    requires Decodable(states, overrides)
  {
    Store(map k | k in states :: DecodeState(states[k]).value,
          map o | o in overrides :: DecodeOverride(overrides[o]).value, params)
  }

  /** Storing an encoding stores the record. */
  lemma StatePut(
    states: map<(OrgId, uint64), seq<byte>>, overrides: map<OrgId, seq<byte>>, params: Option<Params>,
    key: (OrgId, uint64), bytes: seq<byte>, st: StoredState)
    requires Decodable(states, overrides) && DecodeState(bytes) == Success(st) && st.orgId == key.0
    ensures Decodable(states[key := bytes], overrides)
    ensures var before := Decoded(states, overrides, params);
            Decoded(states[key := bytes], overrides, params) == before.(states := before.states[key := st])
  {
    hide DecodeState, DecodeOverride;
    var before, after := Decoded(states, overrides, params), Decoded(states[key := bytes], overrides, params);
    assert after.states == before.states[key := st];
  }

  /** The organisation id is of a length that occurs. */
  predicate OrgFits(a: Action) {
    (a.ConsumeMemory? || a.ConsumeServe? || a.Query? || a.SetOverride?) ==> |a.org| < TWO32
  }

  /** The keeper over a byte store: every read and write goes through the codec. */
  class Keeper {
    var states: map<(OrgId, uint64), seq<byte>>
    var overrides: map<OrgId, seq<byte>>
    var params: Option<Params>

    constructor ()
      ensures Valid() && View() == Store(map[], map[], None)
    {
      states, overrides, params := map[], map[], None;
    }

    ghost predicate Valid()
      reads this
    {
      Decodable(states, overrides)
    }

    ghost function View(): Store
      requires Valid()
      reads this
    {
      Decoded(states, overrides, params)
    }

    method PutState(org: OrgId, epoch: uint64, st: StoredState)
      requires Valid() && |org| < TWO32 && st.orgId == org
      modifies this`states
      ensures Valid() && View() == old(View()).(states := old(View()).states[(org, epoch) := st])
    {
      hide StateBytes, DecodeState, Decodable, Decoded;
      ShortState(st);
      var bytes := MarshalState(st);
      StateRoundTrip(st);
      StatePut(states, overrides, params, (org, epoch), bytes, st);
      states := states[(org, epoch) := bytes];
    }

    /** Neither read can meet undecodable bytes, because only encodings are ever stored. */
    method GetOrInitBandwidthState(org: OrgId, epoch: uint64) returns (st: StoredState)
      requires Valid() && |org| < TWO32
      modifies this`states
      ensures Valid() && View() == Touch(old(View()), org, epoch)
      ensures st == StateFor(old(View()), org, epoch) && st.orgId == org
    {
      hide StateBytes, DecodeState, DecodeOverride;
      if (org, epoch) in states {
        var r := UnmarshalState(states[(org, epoch)]);
        assert View() == Touch(old(View()), org, epoch);
        return r.value;
      }
      var memoryCap, serveCap: uint64;
      if org in overrides {
        var o := UnmarshalOverride(overrides[org]);
        memoryCap, serveCap := o.value.memoryCap, o.value.serveCap;
      } else {
        var p := params.GetOr(DEFAULT_PARAMS);
        memoryCap, serveCap := p.memoryCap, p.serveCap;
      }
      st := StoredState(org, epoch, 0, memoryCap, 0, serveCap);
      PutState(org, epoch, st);
    }

    method ConsumeMemoryBandwidth(org: OrgId, epoch: uint64) returns (accepted: bool)
      requires Valid() && |org| < TWO32
      modifies this`states
      ensures Valid() && View() == Step(old(View()), ConsumeMemory(org, epoch))
      ensures accepted == UseMemory(StateFor(old(View()), org, epoch)).Some?
    {
      hide Decodable, Decoded;
      var st := GetOrInitBandwidthState(org, epoch);
      if st.memoryUsed >= st.memoryCap {
        return false;
      }
      st := st.(memoryUsed := Wrap(st.memoryUsed + 1));
      PutState(org, epoch, st);
      return true;
    }

    method ConsumeServeBandwidth(org: OrgId, epoch: uint64, count: uint64) returns (accepted: bool)
      requires Valid() && |org| < TWO32
      modifies this`states
      ensures Valid() && View() == Step(old(View()), ConsumeServe(org, epoch, count))
      ensures accepted == UseServe(StateFor(old(View()), org, epoch), count).Some?
    {
      hide Decodable, Decoded;
      var st := GetOrInitBandwidthState(org, epoch);
      if Wrap(st.serveUsed + count) > st.serveCap {
        return false;
      }
      st := st.(serveUsed := Wrap(st.serveUsed + count));
      PutState(org, epoch, st);
      return true;
    }

    /** The remaining bandwidth: within the caps neither subtraction underflows. */
    method GetRemainingBandwidth(org: OrgId, epoch: uint64) returns (memory: uint64, serve: uint64)
      requires Valid() && |org| < TWO32 && WithinCaps(View())
      modifies this`states
      ensures Valid() && View() == Step(old(View()), Query(org, epoch))
      ensures var st := StateFor(old(View()), org, epoch);
              memory == st.memoryCap - st.memoryUsed && serve == st.serveCap - st.serveUsed
    {
      hide Decodable, Decoded;
      var st := GetOrInitBandwidthState(org, epoch);
      return st.memoryCap - st.memoryUsed, st.serveCap - st.serveUsed;
    }

    method SetBandwidthOverride(org: OrgId, memoryCap: uint64, serveCap: uint64)
      requires Valid() && |org| < TWO32
      modifies this`overrides
      ensures Valid() && View() == Step(old(View()), SetOverride(org, memoryCap, serveCap))
    {
      hide OverrideBytes, DecodeOverride, DecodeState;
      var o := StoredOverride(org, memoryCap, serveCap);
      ShortOverride(o);
      var bytes := MarshalOverride(o);
      OverrideRoundTrip(o);
      overrides := overrides[org := bytes];
    }

    method DeleteBandwidthOverride(org: OrgId)
      requires Valid()
      modifies this`overrides
      ensures Valid() && View() == Step(old(View()), DeleteOverride(org))
    {
      hide DecodeState, DecodeOverride;
      overrides := overrides - {org};
      assert View().overrides == old(View()).overrides - {org};
    }

    method PutParams(p: Params)
      requires Valid()
      modifies this`params
      ensures Valid() && View() == Step(old(View()), SetParams(p))
    {
      params := Some(p);
    }

    /** Every operation is one step of the bandwidth runs. */
    method Deliver(a: Action)
      requires Valid() && WithinCaps(View()) && OrgFits(a)
      modifies this
      ensures Valid() && View() == Step(old(View()), a)
    {
      hide Decodable, Decoded, Step, WithinCaps;
      match a
      case ConsumeMemory(org, epoch) =>
        var _ := ConsumeMemoryBandwidth(org, epoch);
      case ConsumeServe(org, epoch, count) =>
        var _ := ConsumeServeBandwidth(org, epoch, count);
      case Query(org, epoch) =>
        var _, _ := GetRemainingBandwidth(org, epoch);
      case SetOverride(org, memoryCap, serveCap) => SetBandwidthOverride(org, memoryCap, serveCap);
      case DeleteOverride(org) => DeleteBandwidthOverride(org);
      case SetParams(p) => PutParams(p);
    }

    /** So the keeper runs the bandwidth machine, and stays within caps frozen at first touch. */
    method DeliverAll(actions: seq<Action>)
      requires Valid() && WithinCaps(View()) && forall i :: 0 <= i < |actions| ==> OrgFits(actions[i])
      modifies this
      ensures Valid() && View() == Run(old(View()), actions)
      ensures WithinCaps(View()) && CapsFrozen(old(View()), View())
    {
      hide Decodable, Decoded, Step, WithinCaps, CapsFrozen;
      ghost var start := View();
      RunKeeps(start, []);
      for i := 0 to |actions|
        invariant Valid() && View() == Run(start, actions[..i]) && WithinCaps(View())
      {
        assert actions[..i + 1][..|actions[..i + 1]| - 1] == actions[..i];
        Deliver(actions[i]);
        RunKeeps(start, actions[..i + 1]);
      }
      assert actions[..|actions|] == actions;
      RunKeeps(start, actions);
    }
  }

  lemma ShortState(st: StoredState)
    requires |st.orgId| < TWO32
    ensures |StateBytes(st)| < TWO63
  {
    Varint.EncodeShort(|st.orgId|);
    Varint.EncodeShort(st.epoch);
    Varint.EncodeShort(st.memoryUsed);
    Varint.EncodeShort(st.memoryCap);
    Varint.EncodeShort(st.serveUsed);
    Varint.EncodeShort(st.serveCap);
  }

  lemma ShortOverride(o: StoredOverride)
    requires |o.orgId| < TWO32
    ensures |OverrideBytes(o)| < TWO63
  {
    Varint.EncodeShort(|o.orgId|);
    Varint.EncodeShort(o.memoryCap);
    Varint.EncodeShort(o.serveCap);
  }
}
