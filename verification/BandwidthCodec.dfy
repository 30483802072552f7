/** The two stored messages of x/bandwidth and their backward-writing encoder. */
module BandwidthCodec {
  import opened Numbers
  import opened Wrappers
  import opened Varint
  import opened Wire

  datatype StoredState = StoredState(
    orgId: seq<byte>, epoch: uint64, memoryUsed: uint64, memoryCap: uint64, serveUsed: uint64, serveCap: uint64)

  datatype StoredOverride = StoredOverride(orgId: seq<byte>, memoryCap: uint64, serveCap: uint64)

  const STATE_NUMBERS := 5
  const OVERRIDE_NUMBERS := 2

  function StateRecord(s: StoredState): Record {
    Record(s.orgId, [s.epoch, s.memoryUsed, s.memoryCap, s.serveUsed, s.serveCap])
  }

  function OverrideRecord(o: StoredOverride): Record {
    Record(o.orgId, [o.memoryCap, o.serveCap])
  }

  function StateOf(m: Record): StoredState
    requires |m.nums| == STATE_NUMBERS
  {
    StoredState(m.text, m.nums[0], m.nums[1], m.nums[2], m.nums[3], m.nums[4])
  }

  function OverrideOf(m: Record): StoredOverride
    requires |m.nums| == OVERRIDE_NUMBERS
  {
    StoredOverride(m.text, m.nums[0], m.nums[1])
  }

  // ----- the bytes of a message -----

  /** A uint64 field: tag byte and varint, or nothing for zero. */
  function NumberBytes(num: nat, v: uint64): seq<byte>
    requires 1 <= num < 16
  {
    if v == 0 then [] else [num * 8] + Encode(v)
  }

  function TextBytes(text: seq<byte>): seq<byte> {
    if text == [] then [] else [0x0a] + (Encode(|text|) + text)
  }

  function NumbersBytes(nums: seq<uint64>, k: nat): seq<byte>
    requires k <= |nums| <= 14
    decreases |nums| - k
  {
    if k == |nums| then [] else NumberBytes(k + 2, nums[k]) + NumbersBytes(nums, k + 1)
  }

  function MessageBytes(m: Record): seq<byte>
    requires |m.nums| <= 14
  {
    TextBytes(m.text) + NumbersBytes(m.nums, 0)
  }

  /** The fields the encoder emits: those with a value other than zero, in ascending order. */
  function NumberFields(nums: seq<uint64>, k: nat): Fields
    requires k <= |nums|
    decreases |nums| - k
  {
    if k == |nums| then Nil
    else if nums[k] == 0 then NumberFields(nums, k + 1)
    else Cons(VarintField(k + 2, nums[k]), NumberFields(nums, k + 1))
  }

  function MessageFields(m: Record): Fields {
    if m.text == [] then NumberFields(m.nums, 0)
    else Cons(BytesField(1, m.text), NumberFields(m.nums, 0))
  }

  lemma {:induction false} NumberFieldsEncode(nums: seq<uint64>, k: nat)
    requires k <= |nums| <= 14
    ensures EncodeFields(NumberFields(nums, k)) == NumbersBytes(nums, k)
    ensures AllWellFormed(NumberFields(nums, k)) && AllTyped(|nums|, NumberFields(nums, k))
    decreases |nums| - k
  {
    if k < |nums| {
      NumberFieldsEncode(nums, k + 1);
      assert Encode((k + 2) * 8) == [(k + 2) * 8];
    }
  }

  lemma MessageFieldsEncode(m: Record)
    requires |m.nums| <= 14 && |m.text| < TWO63
    ensures EncodeFields(MessageFields(m)) == MessageBytes(m)
    ensures AllWellFormed(MessageFields(m)) && AllTyped(|m.nums|, MessageFields(m))
  {
    NumberFieldsEncode(m.nums, 0);
    assert Encode(10) == [0x0a];
  }

  lemma {:induction false} NumberFieldsRestore(m: Record, k: nat, acc: Record)
    requires k <= |m.nums| == |acc.nums| && acc.text == m.text
    requires acc.nums[..k] == m.nums[..k]
    requires forall j :: k <= j < |acc.nums| ==> acc.nums[j] == 0
    ensures ApplyAll(acc, NumberFields(m.nums, k)) == m
    decreases |m.nums| - k
  {
    if k < |m.nums| {
      var next := acc.(nums := acc.nums[k := m.nums[k]]);
      assert next.nums[..k + 1] == m.nums[..k] + [m.nums[k]] == m.nums[..k + 1];
      if m.nums[k] == 0 {
        assert next.nums == acc.nums;
      }
      NumberFieldsRestore(m, k + 1, next);
    }
  }

  /** Decoding the bytes of any message into a zero value gives the message back. */
  lemma MessageRoundTrip(m: Record)
    requires |m.nums| <= 14 && |MessageBytes(m)| < TWO63
    ensures DecodeFrom(MessageBytes(m), 0, Zero(|m.nums|)) == Success(m)
  {
    var zero := Zero(|m.nums|);
    MessageFieldsEncode(m);
    DecodeMeaning(MessageBytes(m), 0, MessageFields(m), zero);
    NumberFieldsRestore(m, 0, zero.(text := m.text));
    assert zero.text == m.text ==> zero.(text := m.text) == zero;
  }

  // ----- Size, Marshal and Unmarshal of the two messages -----

  function NumberSize(v: uint64): nat {
    if v == 0 then 0 else 1 + Size(v)
  }

  function TextSize(text: seq<byte>): nat {
    if |text| == 0 then 0 else 1 + |text| + Size(|text|)
  }

  function StateSize(s: StoredState): nat {
    TextSize(s.orgId) + NumberSize(s.epoch) + NumberSize(s.memoryUsed) + NumberSize(s.memoryCap)
    + NumberSize(s.serveUsed) + NumberSize(s.serveCap)
  }

  function OverrideSize(o: StoredOverride): nat {
    TextSize(o.orgId) + NumberSize(o.memoryCap) + NumberSize(o.serveCap)
  }

  function StateBytes(s: StoredState): seq<byte> {
    TextBytes(s.orgId) + (NumberBytes(2, s.epoch) + (NumberBytes(3, s.memoryUsed) + (NumberBytes(4, s.memoryCap)
    + (NumberBytes(5, s.serveUsed) + NumberBytes(6, s.serveCap)))))
  }

  function OverrideBytes(o: StoredOverride): seq<byte> {
    TextBytes(o.orgId) + (NumberBytes(2, o.memoryCap) + NumberBytes(3, o.serveCap))
  }

  lemma SizesMatch(num: nat, v: uint64, text: seq<byte>)
    requires 1 <= num < 16
    ensures NumberSize(v) == |NumberBytes(num, v)| && TextSize(text) == |TextBytes(text)|
  {
    SizeIsLength(v);
    SizeIsLength(|text|);
  }

  /** Size is exactly the number of bytes of the encoding. */
  lemma StateSizeExact(s: StoredState)
    ensures StateSize(s) == |StateBytes(s)|
  {
    SizesMatch(2, s.epoch, s.orgId);
    SizesMatch(3, s.memoryUsed, []);
    SizesMatch(4, s.memoryCap, []);
    SizesMatch(5, s.serveUsed, []);
    SizesMatch(6, s.serveCap, []);
  }

  lemma OverrideSizeExact(o: StoredOverride)
    ensures OverrideSize(o) == |OverrideBytes(o)|
  {
    SizesMatch(2, o.memoryCap, o.orgId);
    SizesMatch(3, o.serveCap, []);
  }

  lemma StateBytesAreMessage(s: StoredState)
    ensures StateBytes(s) == MessageBytes(StateRecord(s))
  {
    var nums := StateRecord(s).nums;
    assert NumbersBytes(nums, 5) == [];
    assert NumbersBytes(nums, 4) == NumberBytes(6, s.serveCap);
    assert NumbersBytes(nums, 3) == NumberBytes(5, s.serveUsed) + NumbersBytes(nums, 4);
    assert NumbersBytes(nums, 2) == NumberBytes(4, s.memoryCap) + NumbersBytes(nums, 3);
    assert NumbersBytes(nums, 1) == NumberBytes(3, s.memoryUsed) + NumbersBytes(nums, 2);
    assert NumbersBytes(nums, 0) == NumberBytes(2, s.epoch) + NumbersBytes(nums, 1);
  }

  lemma OverrideBytesAreMessage(o: StoredOverride)
    ensures OverrideBytes(o) == MessageBytes(OverrideRecord(o))
  {
    var nums := OverrideRecord(o).nums;
    assert NumbersBytes(nums, 2) == [];
    assert NumbersBytes(nums, 1) == NumberBytes(3, o.serveCap);
    assert NumbersBytes(nums, 0) == NumberBytes(2, o.memoryCap) + NumbersBytes(nums, 1);
  }

  function DecodeState(d: seq<byte>): Result<StoredState, Error> {
    var m :- DecodeFrom(d, 0, Zero(STATE_NUMBERS));
    Success(StateOf(m))
  }

  function DecodeOverride(d: seq<byte>): Result<StoredOverride, Error> {
    var m :- DecodeFrom(d, 0, Zero(OVERRIDE_NUMBERS));
    Success(OverrideOf(m))
  }

  /** Unmarshal undoes Marshal, for every uint64 value and every string. */
  lemma StateRoundTrip(s: StoredState)
    requires |StateBytes(s)| < TWO63
    ensures DecodeState(StateBytes(s)) == Success(s)
  {
    StateBytesAreMessage(s);
    MessageRoundTrip(StateRecord(s));
  }

  lemma OverrideRoundTrip(o: StoredOverride)
    requires |OverrideBytes(o)| < TWO63
    ensures DecodeOverride(OverrideBytes(o)) == Success(o)
  {
    OverrideBytesAreMessage(o);
    MessageRoundTrip(OverrideRecord(o));
  }

  // ----- the field numbers -----

  function Message(f: Field): seq<byte> {
    EncodeFields(Cons(f, Nil))
  }

  lemma DecodeOnly(f: Field, n: nat)
    requires WellFormed(f) && Typed(n, f) && |EncodeField(f)| < TWO63
    ensures DecodeFrom(Message(f), 0, Zero(n)) == Success(Apply(Zero(n), f))
  {
    hide EncodeField, DecodeFrom, Apply;
    assert EncodeFields(Nil) == [] && Message(f) == EncodeField(f) + [];
    DecodeMeaning(Message(f), 0, Cons(f, Nil), Zero(n));
    ApplyOnly(Zero(n), f);
  }

  lemma ApplyOnly(m: Record, f: Field)
    ensures ApplyAll(m, Cons(f, Nil)) == Apply(m, f)
  {
  }

  lemma NumberMessageShort(num: nat, v: uint64)
    requires num < 16
    ensures |EncodeField(VarintField(num, v))| < TWO63
  {
    EncodeShort(num * 8);
    EncodeShort(v);
  }

  /** Which number names which field of a state: 1 the organisation, 2 the epoch, then memory used and cap, serves used and cap. */
  lemma StateFieldNumbers(v: uint64, text: seq<byte>)
    requires |text| < TWO32
    ensures DecodeState(Message(BytesField(1, text))) == Success(StoredState(text, 0, 0, 0, 0, 0))
    ensures DecodeState(Message(VarintField(2, v))) == Success(StoredState([], v, 0, 0, 0, 0))
    ensures DecodeState(Message(VarintField(3, v))) == Success(StoredState([], 0, v, 0, 0, 0))
    ensures DecodeState(Message(VarintField(4, v))) == Success(StoredState([], 0, 0, v, 0, 0))
    ensures DecodeState(Message(VarintField(5, v))) == Success(StoredState([], 0, 0, 0, v, 0))
    ensures DecodeState(Message(VarintField(6, v))) == Success(StoredState([], 0, 0, 0, 0, v))
  {
    hide EncodeField, DecodeFrom, Message;
    TextMessageShort(text);
    DecodeOnly(BytesField(1, text), 5);
    forall num: nat | 2 <= num < 7 ensures DecodeFrom(Message(VarintField(num, v)), 0, Zero(5)) == Success(Apply(Zero(5), VarintField(num, v))) {
      NumberMessageShort(num, v);
      DecodeOnly(VarintField(num, v), 5);
    }
  }

  lemma TextMessageShort(text: seq<byte>)
    requires |text| < TWO32
    ensures |EncodeField(BytesField(1, text))| < TWO63
  {
    EncodeShort(10);
    EncodeShort(|text|);
  }

  /** And of an override: 1 the organisation, 2 the memory cap, 3 the serve cap. */
  lemma OverrideFieldNumbers(v: uint64, text: seq<byte>)
    requires |text| < TWO32
    ensures DecodeOverride(Message(BytesField(1, text))) == Success(StoredOverride(text, 0, 0))
    ensures DecodeOverride(Message(VarintField(2, v))) == Success(StoredOverride([], v, 0))
    ensures DecodeOverride(Message(VarintField(3, v))) == Success(StoredOverride([], 0, v))
  {
    hide EncodeField, DecodeFrom, Message;
    TextMessageShort(text);
    DecodeOnly(BytesField(1, text), 2);
    forall num: nat | 2 <= num < 4 ensures DecodeFrom(Message(VarintField(num, v)), 0, Zero(2)) == Success(Apply(Zero(2), VarintField(num, v))) {
      NumberMessageShort(num, v);
      DecodeOnly(VarintField(num, v), 2);
    }
  }

  /** One record with every field set, byte by byte. */
  lemma StateOnTheWire()
    ensures StateBytes(StoredState([97], 1, 2, 3, 4, 300)) == [0x0a, 1, 97, 0x10, 1, 0x18, 2, 0x20, 3, 0x28, 4, 0x30, 0xac, 0x02]
  {
    assert Encode(300) == [0xac, 0x02] && Encode(1) == [1] && Encode(2) == [2] && Encode(3) == [3] && Encode(4) == [4];
  }

  /** Everything before `i` is as it was. */
  twostate predicate Untouched(buf: array<byte>, i: nat)
    reads buf
  {
    forall k :: 0 <= k < i && k < buf.Length ==> buf[k] == old(buf[k])
  }

  method PutByte(buf: array<byte>, end: nat, b: byte) returns (i: nat)
    requires 1 <= end <= buf.Length
    modifies buf
    ensures i == end - 1 && Untouched(buf, i) && buf[i..] == [b] + old(buf[end..])
  {
    i := end - 1;
    buf[i] := b;
  }

  method PutBytes(buf: array<byte>, end: nat, text: seq<byte>) returns (i: nat)
    requires |text| <= end <= buf.Length
    modifies buf
    ensures i == end - |text| && Untouched(buf, i) && buf[i..] == text + old(buf[end..])
  {
    i := end - |text|;
    forall k | 0 <= k < |text| {
      buf[i + k] := text[k];
    }
  }

  method PutVarint(buf: array<byte>, end: nat, v: uint64) returns (i: nat)
    requires |Encode(v)| <= end <= buf.Length
    modifies buf
    ensures i == end - |Encode(v)| && Untouched(buf, i) && buf[i..] == Encode(v) + old(buf[end..])
  {
    i := EncodeVarint(buf, end, v);
    assert buf[i..] == buf[i..end] + buf[end..];
  }

  /** Writes one uint64 field so that it ends at `end`; zero writes nothing. */
  method PutNumber(buf: array<byte>, end: nat, num: nat, v: uint64) returns (i: nat)
    requires 1 <= num < 16 && |NumberBytes(num, v)| <= end <= buf.Length
    modifies buf
    ensures i == end - |NumberBytes(num, v)| && Untouched(buf, i) && buf[i..] == NumberBytes(num, v) + old(buf[end..])
  {
    hide Encode;
    i := end;
    if v != 0 {
      i := PutVarint(buf, i, v);
      i := PutByte(buf, i, num * 8);
    }
  }

  method PutText(buf: array<byte>, end: nat, text: seq<byte>) returns (i: nat)
    requires |text| < TWO63 && |TextBytes(text)| <= end <= buf.Length
    modifies buf
    ensures i == end - |TextBytes(text)| && Untouched(buf, i) && buf[i..] == TextBytes(text) + old(buf[end..])
  {
    hide Encode, TextBytes;
    i := end;
    TextSplits(text, buf[end..]);
    if |text| > 0 {
      i := PutBytes(buf, i, text);
      i := PutVarint(buf, i, |text|);
      i := PutByte(buf, i, 0x0a);
    }
  }

  lemma TextSplits(text: seq<byte>, tail: seq<byte>)
    ensures text == [] ==> TextBytes(text) == []
    ensures text != [] ==> |TextBytes(text)| == 1 + |Encode(|text|)| + |text|
    ensures text != [] ==> TextBytes(text) + tail == [0x0a] + (Encode(|text|) + (text + tail))
  {
  }

  /** Fills the end of the buffer with the message, last field first, and touches nothing before it. */
  method MarshalStateToSizedBuffer(s: StoredState, buf: array<byte>) returns (n: nat)
    requires |s.orgId| < TWO63 && StateSize(s) <= buf.Length
    modifies buf
    ensures n == StateSize(s) && Untouched(buf, buf.Length - n) && buf[buf.Length - n..] == StateBytes(s)
  {
    StateSizeExact(s);
    hide NumberBytes, TextBytes, StateSize;
    var i := buf.Length;
    i := PutNumber(buf, i, 6, s.serveCap);
    assert buf[i..] == NumberBytes(6, s.serveCap);
    i := PutNumber(buf, i, 5, s.serveUsed);
    i := PutNumber(buf, i, 4, s.memoryCap);
    i := PutNumber(buf, i, 3, s.memoryUsed);
    i := PutNumber(buf, i, 2, s.epoch);
    i := PutText(buf, i, s.orgId);
    n := buf.Length - i;
  }

  method MarshalOverrideToSizedBuffer(o: StoredOverride, buf: array<byte>) returns (n: nat)
    requires |o.orgId| < TWO63 && OverrideSize(o) <= buf.Length
    modifies buf
    ensures n == OverrideSize(o) && Untouched(buf, buf.Length - n) && buf[buf.Length - n..] == OverrideBytes(o)
  {
    OverrideSizeExact(o);
    hide NumberBytes, TextBytes, OverrideSize;
    var i := buf.Length;
    i := PutNumber(buf, i, 3, o.serveCap);
    assert buf[i..] == NumberBytes(3, o.serveCap);
    i := PutNumber(buf, i, 2, o.memoryCap);
    i := PutText(buf, i, o.orgId);
    n := buf.Length - i;
  }

  /** Marshal allocates exactly Size bytes and the writer fills all of them. */
  method MarshalState(s: StoredState) returns (bytes: seq<byte>)
    requires |s.orgId| < TWO63
    ensures bytes == StateBytes(s) && |bytes| == StateSize(s)
  {
    var buf := new byte[StateSize(s)](_ => 0);
    var n := MarshalStateToSizedBuffer(s, buf);
    bytes := buf[..n];
    assert buf[buf.Length - n..] == bytes;
  }

  method MarshalOverride(o: StoredOverride) returns (bytes: seq<byte>)
    requires |o.orgId| < TWO63
    ensures bytes == OverrideBytes(o) && |bytes| == OverrideSize(o)
  {
    var buf := new byte[OverrideSize(o)](_ => 0);
    var n := MarshalOverrideToSizedBuffer(o, buf);
    bytes := buf[..n];
    assert buf[buf.Length - n..] == bytes;
  }

  method UnmarshalState(d: seq<byte>) returns (r: Result<StoredState, Error>)
    ensures r == DecodeState(d)
  {
    var m :- Unmarshal(d, Zero(STATE_NUMBERS));
    return Success(StateOf(m));
  }

  method UnmarshalOverride(d: seq<byte>) returns (r: Result<StoredOverride, Error>)
    ensures r == DecodeOverride(d)
  {
    var m :- Unmarshal(d, Zero(OVERRIDE_NUMBERS));
    return Success(OverrideOf(m));
  }
}
