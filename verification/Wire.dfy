/**
 * The generated protobuf decoder: tags, fields, and skipping of fields it does not know, up to
 * nested groups.  `Field` is the grammar of well-formed wire data; the decoder is shown to
 * compute its meaning.
 */
module Wire {
  import opened Numbers
  import opened Wrappers
  import opened Varint

  datatype Field =
    | VarintField(num: nat, v: uint64)
    | Fixed64Field(num: nat, bytes: seq<byte>)
    | BytesField(num: nat, bytes: seq<byte>)
    | GroupField(num: nat, body: Fields)
    | Fixed32Field(num: nat, bytes: seq<byte>)

  datatype Fields = Nil | Cons(head: Field, tail: Fields)

  predicate WellFormed(f: Field) {
    && 1 <= f.num < TWO31
    && match f
       case VarintField(_, _) => true
       case Fixed64Field(_, bytes) => |bytes| == 8
       case BytesField(_, bytes) => |bytes| < TWO63
       case GroupField(_, body) => AllWellFormed(body)
       case Fixed32Field(_, bytes) => |bytes| == 4
  }

  predicate AllWellFormed(fs: Fields) {
    match fs
    case Nil => true
    case Cons(f, rest) => WellFormed(f) && AllWellFormed(rest)
  }

  function EncodeField(f: Field): seq<byte> {
    match f
    case VarintField(num, v) => Encode(num * 8) + Encode(v)
    case Fixed64Field(num, bytes) => Encode(num * 8 + 1) + bytes
    case BytesField(num, bytes) => Encode(num * 8 + 2) + (Encode(|bytes|) + bytes)
    case GroupField(num, body) => Encode(num * 8 + 3) + (EncodeFields(body) + Encode(num * 8 + 4))
    case Fixed32Field(num, bytes) => Encode(num * 8 + 5) + bytes
  }

  function EncodeFields(fs: Fields): seq<byte> {
    match fs
    case Nil => []
    case Cons(f, rest) => EncodeField(f) + EncodeFields(rest)
  }

  // ----- skipping an unknown field -----

  /** The payload that follows a tag: the index behind it and the new group depth. */
  function SkipPayload(d: seq<byte>, j: nat, wireType: nat, depth: nat): (r: Result<(nat, nat), Error>)
    ensures r.Success? ==> j <= r.value.0
  {
    if wireType == 0 then
      var (_, k) :- Read(d, j, 0, 0);
      Success((k, depth))
    else if wireType == 1 then Success((j + 8, depth))
    else if wireType == 2 then
      var (length, k) :- Read(d, j, 0, 0);
      if ToInt64(length) < 0 then Failure(InvalidLength) else Success((k + length, depth))
    else if wireType == 3 then Success((j, depth + 1))
    else if wireType == 4 then
      if depth == 0 then Failure(EndGroup) else Success((j, depth - 1))
    else if wireType == 5 then Success((j + 4, depth))
    else Failure(IllegalWireType)
  }

  /** One round of the skip loop. */
  function SkipOne(d: seq<byte>, i: nat, depth: nat): (r: Result<(nat, nat), Error>)
    ensures r.Success? ==> i < r.value.0 < TWO63
  {
    var (wire, j) :- Read(d, i, 0, 0);
    var (next, level) :- SkipPayload(d, j, wire % 8, depth);
    if next >= TWO63 then Failure(InvalidLength) else Success((next, level))
  }

  /** skipState: a successful skip consumes at least one byte. */
  function Skip(d: seq<byte>, i: nat, depth: nat): (r: Result<nat, Error>)
    ensures r.Success? ==> r.value > i
    decreases |d| - i
  {
    if i >= |d| then Failure(UnexpectedEOF)
    else
      var (next, level) :- SkipOne(d, i, depth);
      if level == 0 then Success(next) else Skip(d, next, level)
  }

  function Resume(d: seq<byte>, i: nat, depth: nat): Result<nat, Error> {
    if depth == 0 then Success(i) else Skip(d, i, depth)
  }

  function WireType(f: Field): nat {
    match f
    case VarintField(_, _) => 0
    case Fixed64Field(_, _) => 1
    case BytesField(_, _) => 2
    case GroupField(_, _) => 3
    case Fixed32Field(_, _) => 5
  }

  function Payload(f: Field): seq<byte>
    requires !f.GroupField?
  {
    match f
    case VarintField(_, v) => Encode(v)
    case Fixed64Field(_, bytes) => bytes
    case BytesField(_, bytes) => Encode(|bytes|) + bytes
    case Fixed32Field(_, bytes) => bytes
  }

  lemma ReadPayload(d: seq<byte>, j: nat, f: Field, depth: nat)
    requires WellFormed(f) && !f.GroupField? && At(d, j, Payload(f))
    ensures SkipPayload(d, j, WireType(f), depth) == Success((j + |Payload(f)|, depth))
  {
    if f.VarintField? {
      ReadEncoded(d, j, f.v);
    } else if f.BytesField? {
      AtConcat(d, j, Encode(|f.bytes|), f.bytes);
      ReadEncoded(d, j, |f.bytes|);
    }
  }

  lemma FlatParts(d: seq<byte>, i: nat, f: Field)
    requires !f.GroupField? && At(d, i, EncodeField(f))
    ensures var tag := Encode(f.num * 8 + WireType(f));
            At(d, i, tag) && At(d, i + |tag|, Payload(f)) && |EncodeField(f)| == |tag| + |Payload(f)|
  {
    var tag := Encode(f.num * 8 + WireType(f));
    assert EncodeField(f) == tag + Payload(f);
    AtConcat(d, i, tag, Payload(f));
  }

  lemma GroupParts(d: seq<byte>, i: nat, f: Field)
    requires f.GroupField? && At(d, i, EncodeField(f))
    ensures var open, body, close := Encode(f.num * 8 + 3), EncodeFields(f.body), Encode(f.num * 8 + 4);
            && At(d, i, open) && At(d, i + |open|, body) && At(d, i + |open| + |body|, close)
            && |EncodeField(f)| == |open| + |body| + |close|
  {
    var open, body, close := Encode(f.num * 8 + 3), EncodeFields(f.body), Encode(f.num * 8 + 4);
    AtConcat(d, i, open, body + close);
    AtConcat(d, i + |open|, body, close);
  }

  /** Reading a tag splits it into field number and wire type. */
  lemma TagAt(d: seq<byte>, i: nat, num: nat, wireType: nat)
    requires 1 <= num < TWO31 && wireType < 8 && At(d, i, Encode(num * 8 + wireType))
    ensures var tag := Encode(num * 8 + wireType);
            && Read(d, i, 0, 0) == Success((num * 8 + wireType, i + |tag|)) && i < |d|
            && (num * 8 + wireType) % 8 == wireType && ToInt32((num * 8 + wireType) / 8) == num
  {
    hide Read, Encode, At;
    ReadEncoded(d, i, num * 8 + wireType);
  }

  lemma SkipOneFrom(d: seq<byte>, i: nat, wire: uint64, j: nat, depth: nat, next: nat, level: nat)
    requires Read(d, i, 0, 0) == Success((wire, j))
    requires SkipPayload(d, j, wire % 8, depth) == Success((next, level)) && next < TWO63
    ensures SkipOne(d, i, depth) == Success((next, level))
  {
  }

  lemma SkipFlat(d: seq<byte>, i: nat, f: Field, depth: nat)
    requires WellFormed(f) && !f.GroupField? && At(d, i, EncodeField(f)) && |d| < TWO63
    ensures SkipOne(d, i, depth) == Success((i + |EncodeField(f)|, depth)) && i < |d|
  {
    hide SkipOne, SkipPayload, Read, Encode;
    var tag := Encode(f.num * 8 + WireType(f));
    FlatParts(d, i, f);
    TagAt(d, i, f.num, WireType(f));
    ReadPayload(d, i + |tag|, f, depth);
    SkipOneFrom(d, i, f.num * 8 + WireType(f), i + |tag|, depth, i + |EncodeField(f)|, depth);
  }

  lemma SkipGroupTag(d: seq<byte>, i: nat, num: nat, wireType: nat, depth: nat, level: nat)
    requires 1 <= num < TWO31 && At(d, i, Encode(num * 8 + wireType)) && |d| < TWO63
    requires (wireType == 3 && level == depth + 1) || (wireType == 4 && depth == level + 1)
    ensures SkipOne(d, i, depth) == Success((i + |Encode(num * 8 + wireType)|, level)) && i < |d|
  {
    hide SkipOne, Read, Encode;
    TagAt(d, i, num, wireType);
    var j := i + |Encode(num * 8 + wireType)|;
    SkipOneFrom(d, i, num * 8 + wireType, j, depth, j, level);
  }

  lemma SkipGroup(d: seq<byte>, i: nat, j: nat, k: nat, end: nat, depth: nat)
    requires i < |d| && SkipOne(d, i, depth) == Success((j, depth + 1))
    requires Skip(d, j, depth + 1) == Skip(d, k, depth + 1)
    requires k < |d| && SkipOne(d, k, depth + 1) == Success((end, depth))
    ensures Skip(d, i, depth) == Resume(d, end, depth)
  {
    assert Skip(d, i, depth) == Skip(d, j, depth + 1);
  }

  /** A well-formed field, however deeply nested, is skipped exactly, at any depth. */
  lemma {:induction false} SkipField(d: seq<byte>, i: nat, f: Field, depth: nat)
    requires WellFormed(f) && At(d, i, EncodeField(f)) && |d| < TWO63
    ensures Skip(d, i, depth) == Resume(d, i + |EncodeField(f)|, depth)
    decreases f, 0
  {
    hide SkipOne, Read, Encode;
    if f.GroupField? {
      var open, body, close := Encode(f.num * 8 + 3), EncodeFields(f.body), Encode(f.num * 8 + 4);
      GroupParts(d, i, f);
      SkipGroupTag(d, i, f.num, 3, depth, depth + 1);
      SkipFields(d, i + |open|, f.body, depth + 1);
      SkipGroupTag(d, i + |open| + |body|, f.num, 4, depth + 1, depth);
      SkipGroup(d, i, i + |open|, i + |open| + |body|, i + |EncodeField(f)|, depth);
    } else {
      SkipFlat(d, i, f, depth);
    }
  }

  lemma {:induction false} SkipFields(d: seq<byte>, i: nat, fs: Fields, depth: nat)
    requires AllWellFormed(fs) && At(d, i, EncodeFields(fs)) && |d| < TWO63 && depth >= 1
    ensures Skip(d, i, depth) == Skip(d, i + |EncodeFields(fs)|, depth)
    decreases fs, 1
  {
    hide Skip;
    if fs.Cons? {
      ConsParts(d, i, fs);
      SkipField(d, i, fs.head, depth);
      SkipFields(d, i + |EncodeField(fs.head)|, fs.tail, depth);
    }
  }

  lemma ConsParts(d: seq<byte>, i: nat, fs: Fields)
    requires fs.Cons? && At(d, i, EncodeFields(fs))
    ensures var first := EncodeField(fs.head);
            && At(d, i, first) && At(d, i + |first|, EncodeFields(fs.tail))
            && |EncodeFields(fs)| == |first| + |EncodeFields(fs.tail)|
  {
    AtConcat(d, i, EncodeField(fs.head), EncodeFields(fs.tail));
  }

  // ----- decoding a message -----

  /** A message with one string field, number 1, and uint64 fields numbered from 2. */
  datatype Record = Record(text: seq<byte>, nums: seq<uint64>)

  function Zero(n: nat): Record {
    Record([], seq(n, _ => 0))
  }

  function ToInt32(x: nat): int {
    var y := x % TWO32;
    if y < TWO31 then y else y - TWO32
  }

  /** One round of the Unmarshal loop. */
  function DecodeField(d: seq<byte>, i: nat, m: Record): (r: Result<(Record, nat), Error>)
    ensures r.Success? ==> i < r.value.1 <= |d| && |r.value.0.nums| == |m.nums|
  {
    var (wire, j) :- Read(d, i, 0, 0);
    var num, wireType := ToInt32(wire / 8), wire % 8;
    :- Need(wireType != 4, EndGroup);
    :- Need(num > 0, IllegalTag);
    if num == 1 then
      :- Need(wireType == 2, WrongWireType);
      var (length, k) :- Read(d, j, 0, 0);
      :- Need(ToInt64(length) >= 0 && k + length < TWO63, InvalidLength);
      :- Need(k + length <= |d|, UnexpectedEOF);
      Success((m.(text := d[k..k + length]), k + length))
    else if num - 2 < |m.nums| then
      :- Need(wireType == 0, WrongWireType);
      var (v, k) :- Read(d, j, 0, 0);
      Success((m.(nums := m.nums[num - 2 := v]), k))
    else
      var skipped :- Skip(d[i..], 0, 0);
      :- Need(i + skipped < TWO63, InvalidLength);
      :- Need(i + skipped <= |d|, UnexpectedEOF);
      Success((m, i + skipped))
  }

  function DecodeFrom(d: seq<byte>, i: nat, m: Record): (r: Result<Record, Error>)
    ensures r.Success? ==> |r.value.nums| == |m.nums|
    decreases |d| - i
  {
    if i >= |d| then Success(m)
    else
      var (m', next) :- DecodeField(d, i, m);
      DecodeFrom(d, next, m')
  }

  // ----- what wire data means -----

  /** The known fields carry the wire type the message declares. */
  predicate Typed(n: nat, f: Field) {
    (f.num == 1 ==> f.BytesField?) && (2 <= f.num < n + 2 ==> f.VarintField?)
  }

  predicate AllTyped(n: nat, fs: Fields) {
    match fs
    case Nil => true
    case Cons(f, rest) => Typed(n, f) && AllTyped(n, rest)
  }

  function Apply(m: Record, f: Field): (r: Record)
    ensures |r.nums| == |m.nums|
  {
    if f.BytesField? && f.num == 1 then m.(text := f.bytes)
    else if f.VarintField? && 2 <= f.num < |m.nums| + 2 then m.(nums := m.nums[f.num - 2 := f.v])
    else m
  }

  function ApplyAll(m: Record, fs: Fields): (r: Record)
    ensures |r.nums| == |m.nums|
    decreases fs
  {
    match fs
    case Nil => m
    case Cons(f, rest) => ApplyAll(Apply(m, f), rest)
  }

  lemma AtSuffix(d: seq<byte>, i: nat, e: seq<byte>)
    requires At(d, i, e)
    ensures At(d[i..], 0, e)
  {
    assert d[i..][..|e|] == d[i..i + |e|];
  }

  lemma DecodeText(d: seq<byte>, i: nat, f: Field, m: Record)
    requires WellFormed(f) && f.BytesField? && f.num == 1 && At(d, i, EncodeField(f)) && |d| < TWO63
    ensures DecodeField(d, i, m) == Success((Apply(m, f), i + |EncodeField(f)|))
  {
    hide Read, Encode;
    var tag, length := Encode(f.num * 8 + 2), Encode(|f.bytes|);
    FlatParts(d, i, f);
    TagAt(d, i, f.num, 2);
    AtConcat(d, i + |tag|, length, f.bytes);
    ReadEncoded(d, i + |tag|, |f.bytes|);
  }

  lemma DecodeNumber(d: seq<byte>, i: nat, f: Field, m: Record)
    requires WellFormed(f) && f.VarintField? && 2 <= f.num < |m.nums| + 2 && At(d, i, EncodeField(f))
    ensures DecodeField(d, i, m) == Success((Apply(m, f), i + |EncodeField(f)|))
  {
    hide Read, Encode, At;
    FlatParts(d, i, f);
    TagAt(d, i, f.num, 0);
    ReadEncoded(d, i + |Encode(f.num * 8)|, f.v);
  }

  lemma TagOf(d: seq<byte>, i: nat, f: Field)
    requires WellFormed(f) && At(d, i, EncodeField(f))
    ensures i < |d| && Read(d, i, 0, 0).Success?
    ensures var wire := Read(d, i, 0, 0).value.0; wire % 8 != 4 && ToInt32(wire / 8) == f.num
  {
    if f.GroupField? {
      GroupParts(d, i, f);
    } else {
      FlatParts(d, i, f);
    }
    TagAt(d, i, f.num, WireType(f));
  }

  lemma DecodeUnknown(d: seq<byte>, i: nat, f: Field, m: Record)
    requires WellFormed(f) && f.num >= |m.nums| + 2 && At(d, i, EncodeField(f)) && |d| < TWO63
    ensures DecodeField(d, i, m) == Success((m, i + |EncodeField(f)|))
  {
    TagOf(d, i, f);
    AtSuffix(d, i, EncodeField(f));
    SkipField(d[i..], 0, f, 0);
  }

  /** Decoding one well-formed field applies its meaning and moves right behind it. */
  lemma DecodeOne(d: seq<byte>, i: nat, f: Field, m: Record)
    requires WellFormed(f) && Typed(|m.nums|, f) && At(d, i, EncodeField(f)) && |d| < TWO63
    ensures DecodeField(d, i, m) == Success((Apply(m, f), i + |EncodeField(f)|))
  {
    if f.num == 1 {
      DecodeText(d, i, f, m);
    } else if f.num < |m.nums| + 2 {
      DecodeNumber(d, i, f, m);
    } else {
      DecodeUnknown(d, i, f, m);
    }
  }

  /** The decoder computes the meaning of every well-formed message, known fields and unknown ones alike. */
  lemma {:induction false} DecodeMeaning(d: seq<byte>, i: nat, fs: Fields, m: Record)
    requires AllWellFormed(fs) && AllTyped(|m.nums|, fs) && |d| < TWO63
    requires At(d, i, EncodeFields(fs)) && i + |EncodeFields(fs)| == |d|
    ensures DecodeFrom(d, i, m) == Success(ApplyAll(m, fs))
    decreases fs
  {
    hide DecodeField, EncodeField, At, Apply;
    if fs.Cons? {
      ConsParts(d, i, fs);
      DecodeOne(d, i, fs.head, m);
      DecodeMeaning(d, i + |EncodeField(fs.head)|, fs.tail, Apply(m, fs.head));
    }
  }

  function Append(a: Fields, b: Fields): Fields {
    match a
    case Nil => b
    case Cons(f, rest) => Cons(f, Append(rest, b))
  }

  predicate Unknown(n: nat, fs: Fields) {
    match fs
    case Nil => true
    case Cons(f, rest) => f.num >= n + 2 && Unknown(n, rest)
  }

  lemma {:induction false} UnknownChangesNothing(m: Record, a: Fields, u: Fields, b: Fields)
    requires Unknown(|m.nums|, u)
    ensures ApplyAll(m, Append(a, Append(u, b))) == ApplyAll(m, Append(a, b))
    decreases a, u
  {
    if a.Cons? {
      UnknownChangesNothing(Apply(m, a.head), a.tail, u, b);
    } else if u.Cons? {
      UnknownChangesNothing(m, a, u.tail, b);
    }
  }

  lemma {:induction false} AppendValid(n: nat, a: Fields, b: Fields)
    requires AllWellFormed(a) && AllWellFormed(b) && AllTyped(n, a) && AllTyped(n, b)
    ensures AllWellFormed(Append(a, b)) && AllTyped(n, Append(a, b))
  {
    if a.Cons? {
      AppendValid(n, a.tail, b);
    }
  }

  lemma {:induction false} UnknownIsTyped(n: nat, u: Fields)
    requires Unknown(n, u)
    ensures AllTyped(n, u)
  {
    if u.Cons? {
      UnknownIsTyped(n, u.tail);
    }
  }

  /** Inserting unknown fields anywhere between the fields of a message does not change what is decoded. */
  lemma UnknownFieldTolerance(m: Record, a: Fields, u: Fields, b: Fields)
    requires AllWellFormed(a) && AllWellFormed(u) && AllWellFormed(b)
    requires AllTyped(|m.nums|, a) && Unknown(|m.nums|, u) && AllTyped(|m.nums|, b)
    requires |EncodeFields(Append(a, Append(u, b)))| < TWO63 && |EncodeFields(Append(a, b))| < TWO63
    ensures DecodeFrom(EncodeFields(Append(a, Append(u, b))), 0, m) == DecodeFrom(EncodeFields(Append(a, b)), 0, m)
  {
    var n := |m.nums|;
    UnknownIsTyped(n, u);
    AppendValid(n, u, b);
    AppendValid(n, a, Append(u, b));
    AppendValid(n, a, b);
    DecodeMeaning(EncodeFields(Append(a, Append(u, b))), 0, Append(a, Append(u, b)), m);
    DecodeMeaning(EncodeFields(Append(a, b)), 0, Append(a, b), m);
    UnknownChangesNothing(m, a, u, b);
  }

  // ----- the loops -----

  method SkipState(d: seq<byte>) returns (r: Result<nat, Error>)
    ensures r == Skip(d, 0, 0)
  {
    var i, depth: nat := 0, 0;
    while i < |d|
      invariant Skip(d, 0, 0) == Skip(d, i, depth)
      decreases |d| - i
    {
      var tag :- ReadVarint(d, i);
      var step :- SkipPastPayload(d, tag.1, tag.0 % 8, depth);
      i, depth := step.0, step.1;
      if i >= TWO63 {
        return Failure(InvalidLength);
      }
      if depth == 0 {
        return Success(i);
      }
    }
    return Failure(UnexpectedEOF);
  }

  method SkipPastPayload(d: seq<byte>, j: nat, wireType: nat, depth: nat) returns (r: Result<(nat, nat), Error>)
    ensures r == SkipPayload(d, j, wireType, depth)
  {
    if wireType == 0 {
      var v :- ReadVarint(d, j);
      return Success((v.1, depth));
    } else if wireType == 1 {
      return Success((j + 8, depth));
    } else if wireType == 2 {
      var length :- ReadVarint(d, j);
      if ToInt64(length.0) < 0 {
        return Failure(InvalidLength);
      }
      return Success((length.1 + length.0, depth));
    } else if wireType == 3 {
      return Success((j, depth + 1));
    } else if wireType == 4 {
      if depth == 0 {
        return Failure(EndGroup);
      }
      return Success((j, depth - 1));
    } else if wireType == 5 {
      return Success((j + 4, depth));
    }
    return Failure(IllegalWireType);
  }

  method Unmarshal(d: seq<byte>, zero: Record) returns (r: Result<Record, Error>)
    ensures r == DecodeFrom(d, 0, zero)
  {
    var i: nat, m := 0, zero;
    while i < |d|
      invariant i <= |d| && |m.nums| == |zero.nums|
      invariant DecodeFrom(d, 0, zero) == DecodeFrom(d, i, m)
    {
      var step := UnmarshalField(d, i, m);
      if step.Failure? {
        return Failure(step.error);
      }
      m, i := step.value.0, step.value.1;
    }
    return Success(m);
  }

  method UnmarshalField(d: seq<byte>, i: nat, m: Record) returns (r: Result<(Record, nat), Error>)
    requires i < |d|
    ensures r == DecodeField(d, i, m)
  {
    var tag :- ReadVarint(d, i);
    var num, wireType := ToInt32(tag.0 / 8), tag.0 % 8;
    if wireType == 4 {
      return Failure(EndGroup);
    }
    if num <= 0 {
      return Failure(IllegalTag);
    }
    if num == 1 {
      if wireType != 2 {
        return Failure(WrongWireType);
      }
      var length :- ReadVarint(d, tag.1);
      if ToInt64(length.0) < 0 || length.1 + length.0 >= TWO63 {
        return Failure(InvalidLength);
      }
      var post := length.1 + length.0;
      if post > |d| {
        return Failure(UnexpectedEOF);
      }
      return Success((m.(text := d[length.1..post]), post));
    } else if num - 2 < |m.nums| {
      if wireType != 0 {
        return Failure(WrongWireType);
      }
      var v :- ReadVarint(d, tag.1);
      return Success((m.(nums := m.nums[num - 2 := v.0]), v.1));
    }
    var skipped :- SkipState(d[i..]);
    if i + skipped >= TWO63 {
      return Failure(InvalidLength);
    }
    if i + skipped > |d| {
      return Failure(UnexpectedEOF);
    }
    return Success((m, i + skipped));
  }
}
