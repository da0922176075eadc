/** The codec as it runs: a message object merged from an input stream, field by field, sized, and
    written to an output stream or in place into an array. Each loop is proved against `Codec`. */
module CodecObjects {
  import opened Wire
  import opened Utf8
  import opened Codec
  import CodecTheorems

  // ---------------------------------------------------------------- sizes

  function ValueSize(v: Value): (r: nat) {
    match v
    case Str(s) => VarintSize(|s|) + |s|
    case Int32(i) => VarintSize(SignExtend(i))
  }

  function FieldSize(f: Field, v: Value): (r: nat) {
    if IsDefault(v) then 0 else 1 + ValueSize(v)
  }

  function PayloadSize(p: Payload): (r: nat) {
    match p
    case Number(v) => VarintSize(v)
    case Fixed64(_) => 8
    case Chunk(d) => VarintSize(|d|) + |d|
    case Fixed32(_) => 4
  }

  lemma FieldSizeExact(sc: Schema, i: nat, v: Value)
    requires Proper(sc) && i < |sc| && Fits(sc[i], v)
    ensures FieldSize(sc[i], v) == |FieldBytes(sc[i], v)|
  {
    match v
    case Str(s) => VarintSizeExact(|s|);
    case Int32(n) => VarintSizeExact(SignExtend(n));
  }

  lemma PayloadSizeExact(p: Payload)
    requires Sized(p)
    ensures PayloadSize(p) == |PayloadBytes(p)|
  {
    match p
    case Number(v) => VarintSizeExact(v);
    case Chunk(d) => VarintSizeExact(|d|);
    case _ =>
  }

  /** Bytes taken by the fields of one kind, from the `k`th on. */
  function KindSize(sc: Schema, values: seq<Value>, kind: Kind, k: nat): (r: nat)
    requires |values| == |sc| && k <= |sc|
    decreases |sc| - k
  {
    if k == |sc| then 0
    else (if sc[k].kind == kind then FieldSize(sc[k], values[k]) else 0) + KindSize(sc, values, kind, k + 1)
  }

  lemma {:induction false} KindsTogether(sc: Schema, values: seq<Value>, k: nat)
    requires Proper(sc) && |values| == |sc| && k <= |sc|
    requires forall i :: 0 <= i < |sc| ==> Fits(sc[i], values[i])
    ensures KindSize(sc, values, StringField, k) + KindSize(sc, values, Int32Field, k) == |FieldsFrom(sc, values, k)|
    decreases |sc| - k
  {
    hide FieldBytes, FieldSize;
    if k < |sc| {
      FieldSizeExact(sc, k, values[k]);
      KindsTogether(sc, values, k + 1);
    }
  }

  method ComputeUnknownFieldsSize(sc: Schema, us: seq<Unknown>) returns (total: nat)
    requires AllForeign(sc, us)
    ensures total == |UnknownBytes(us)|
  {
    total := 0;
    ghost var all := |UnknownBytes(us)|;
    assert us[0..] == us;
    for k := 0 to |us|
      invariant total + |UnknownBytes(us[k..])| == all
    {
      UnknownsAt(us, k);
      var tag := Tag(us[k].number, WireType(us[k].payload));
      assert Foreign(sc, us[k]);
      VarintSizeExact(tag);
      PayloadSizeExact(us[k].payload);
      total := total + VarintSize(tag) + PayloadSize(us[k].payload);
    }
  }

  /** Unknown fields first, then the strings, then the integers: a different order from the
      writer's, and the same number of bytes. */
  method ByteSizeLong(sc: Schema, m: Message) returns (total: nat)
    requires Proper(sc) && Valid(sc, m)
    ensures total == |Serialize(sc, m)|
  {
    hide Proper, FieldSize, FieldsFrom, UnknownBytes, AllForeign, Fits;
    total := ComputeUnknownFieldsSize(sc, m.unknown);
    ghost var start := total;
    for k := 0 to |sc|
      invariant total + KindSize(sc, m.values, StringField, k) == start + KindSize(sc, m.values, StringField, 0)
    {
      if sc[k].kind.StringField? {
        total := total + FieldSize(sc[k], m.values[k]);
      }
    }
    start := total;
    for k := 0 to |sc|
      invariant total + KindSize(sc, m.values, Int32Field, k) == start + KindSize(sc, m.values, Int32Field, 0)
    {
      if sc[k].kind.Int32Field? {
        total := total + FieldSize(sc[k], m.values[k]);
      }
    }
    KindsTogether(sc, m.values, 0);
  }

  // ---------------------------------------------------------------- writing in place

  /** `s` with `bytes` written over it at `at`. */
  function Splice(s: Bytes, at: nat, bytes: Bytes): (r: Bytes)
    requires at + |bytes| <= |s|
    ensures |r| == |s|
  {
    s[..at] + bytes + s[at + |bytes|..]
  }

  lemma SpliceNothing(s: Bytes, at: nat)
    requires at <= |s|
    ensures Splice(s, at, []) == s
  {
  }

  lemma SpliceOn(s: Bytes, at: nat, x: Bytes, y: Bytes)
    requires at + |x| + |y| <= |s|
    ensures Splice(Splice(s, at, x), at + |x|, y) == Splice(s, at, x + y)
  {
    var t := Splice(s, at, x);
    assert t[..at + |x|] == s[..at] + x;
    assert t[at + |x| + |y|..] == s[at + |x| + |y|..];
  }

  lemma SpliceByte(s: Bytes, at: nat, x: Bytes, b: Byte)
    requires at + |x| < |s|
    ensures Splice(s, at, x)[at + |x| := b] == Splice(s, at, x + [b])
  {
  }

  method WriteVarintToArray(value: nat, a: array<Byte>, target: nat) returns (end: nat)
    requires target + |Varint(value)| <= a.Length
    modifies a
    ensures end == target + |Varint(value)|
    ensures a[..] == Splice(old(a[..]), target, Varint(value))
  {
    var v := value;
    end := target;
    ghost var was := a[..];
    ghost var done: Bytes := [];
    SpliceNothing(was, target);
    while v >= 128
      invariant done + Varint(v) == Varint(value) && end == target + |done|
      invariant a[..] == Splice(was, target, done)
    {
      SpliceByte(was, target, done, v % 128 + 128);
      a[end] := v % 128 + 128;
      done := done + [v % 128 + 128];
      v := v / 128;
      end := end + 1;
    }
    SpliceByte(was, target, done, v);
    a[end] := v;
    end := end + 1;
  }

  method WriteRawToArray(data: Bytes, a: array<Byte>, target: nat) returns (end: nat)
    requires target + |data| <= a.Length
    modifies a
    ensures end == target + |data|
    ensures a[..] == Splice(old(a[..]), target, data)
  {
    end := target;
    ghost var was := a[..];
    SpliceNothing(was, target);
    for k := 0 to |data|
      invariant end == target + k
      invariant a[..] == Splice(was, target, data[..k])
    {
      SpliceByte(was, target, data[..k], data[k]);
      assert data[..k] + [data[k]] == data[..k + 1];
      a[end] := data[k];
      end := end + 1;
    }
    assert data[..|data|] == data;
  }

  method WriteBlockToArray(data: Bytes, a: array<Byte>, target: nat) returns (end: nat)
    requires target + |Block(data)| <= a.Length
    modifies a
    ensures end == target + |Block(data)|
    ensures a[..] == Splice(old(a[..]), target, Block(data))
  {
    ghost var was := a[..];
    end := WriteVarintToArray(|data|, a, target);
    end := WriteRawToArray(data, a, end);
    SpliceOn(was, target, Varint(|data|), data);
  }

  method WriteFieldToArray(f: Field, v: Value, a: array<Byte>, target: nat) returns (end: nat)
    requires target + |FieldBytes(f, v)| <= a.Length
    modifies a
    ensures end == target + |FieldBytes(f, v)|
    ensures a[..] == Splice(old(a[..]), target, FieldBytes(f, v))
  {
    hide Splice, Varint, Block;
    ghost var was := a[..];
    end := target;
    SpliceNothing(was, target);
    if !IsDefault(v) {
      end := WriteVarintToArray(FieldTag(f), a, end);
      match v {
        case Str(s) => end := WriteBlockToArray(s, a, end);
        case Int32(i) => end := WriteVarintToArray(SignExtend(i), a, end);
      }
      SpliceOn(was, target, Varint(FieldTag(f)), ValueBytes(v));
    }
  }

  method WritePayloadToArray(p: Payload, a: array<Byte>, target: nat) returns (end: nat)
    requires target + |PayloadBytes(p)| <= a.Length
    modifies a
    ensures end == target + |PayloadBytes(p)|
    ensures a[..] == Splice(old(a[..]), target, PayloadBytes(p))
  {
    match p {
      case Number(v) => end := WriteVarintToArray(v, a, target);
      case Fixed64(d) => end := WriteRawToArray(d, a, target);
      case Chunk(d) => end := WriteBlockToArray(d, a, target);
      case Fixed32(d) => end := WriteRawToArray(d, a, target);
    }
  }

  method WriteUnknownToArray(u: Unknown, a: array<Byte>, target: nat) returns (end: nat)
    requires target + |CodecTheorems.UnknownField(u)| <= a.Length
    modifies a
    ensures end == target + |CodecTheorems.UnknownField(u)|
    ensures a[..] == Splice(old(a[..]), target, CodecTheorems.UnknownField(u))
  {
    ghost var was := a[..];
    ghost var tag := Varint(Tag(u.number, WireType(u.payload)));
    end := WriteVarintToArray(Tag(u.number, WireType(u.payload)), a, target);
    end := WritePayloadToArray(u.payload, a, end);
    SpliceOn(was, target, tag, PayloadBytes(u.payload));
  }

  lemma UnknownsAt(us: seq<Unknown>, k: nat)
    requires k < |us|
    ensures UnknownBytes(us[k..]) == CodecTheorems.UnknownField(us[k]) + UnknownBytes(us[k + 1..])
  {
    assert us[k..][1..] == us[k + 1..];
  }

  lemma NoUnknowns()
    ensures UnknownBytes([]) == []
  {
  }

  lemma Shift(done: Bytes, bytes: Bytes, later: Bytes)
    ensures done + (bytes + later) == (done + bytes) + later
  {
  }

  method WriteFieldsToArray(sc: Schema, values: seq<Value>, a: array<Byte>, target: nat) returns (end: nat)
    requires |values| == |sc|
    requires target + |FieldsFrom(sc, values, 0)| <= a.Length
    modifies a
    ensures end == target + |FieldsFrom(sc, values, 0)|
    ensures a[..] == Splice(old(a[..]), target, FieldsFrom(sc, values, 0))
  {
    hide Splice, FieldBytes;
    ghost var was := a[..];
    ghost var done: Bytes, later := [], FieldsFrom(sc, values, 0);
    ghost var all := later;
    end := target;
    SpliceNothing(was, target);
    for k := 0 to |sc|
      invariant later == FieldsFrom(sc, values, k) && done + later == all && end == target + |done|
      invariant a[..] == Splice(was, target, done)
    {
      ghost var bytes := FieldBytes(sc[k], values[k]);
      later := FieldsFrom(sc, values, k + 1);
      Shift(done, bytes, later);
      end := WriteFieldToArray(sc[k], values[k], a, end);
      SpliceOn(was, target, done, bytes);
      done := done + bytes;
    }
    assert done == all;
  }

  method WriteUnknownsToArray(us: seq<Unknown>, a: array<Byte>, target: nat) returns (end: nat)
    requires target + |UnknownBytes(us)| <= a.Length
    modifies a
    ensures end == target + |UnknownBytes(us)|
    ensures a[..] == Splice(old(a[..]), target, UnknownBytes(us))
  {
    hide Splice, UnknownBytes, CodecTheorems.UnknownField;
    ghost var was := a[..];
    ghost var done: Bytes, later := [], UnknownBytes(us);
    ghost var all := later;
    end := target;
    SpliceNothing(was, target);
    assert us[0..] == us;
    for k := 0 to |us|
      invariant later == UnknownBytes(us[k..]) && done + later == all && end == target + |done|
      invariant a[..] == Splice(was, target, done)
    {
      ghost var bytes := CodecTheorems.UnknownField(us[k]);
      UnknownsAt(us, k);
      later := UnknownBytes(us[k + 1..]);
      Shift(done, bytes, later);
      end := WriteUnknownToArray(us[k], a, end);
      SpliceOn(was, target, done, bytes);
      done := done + bytes;
    }
    NoUnknowns();
    assert us[|us|..] == [] && done == all;
  }

  /** Writes the message in place from `target` on, and touches nothing else of the array. */
  method InternalSerializeWithCachedSizesToArray(sc: Schema, m: Message, a: array<Byte>, target: nat)
    returns (end: nat)
    requires |m.values| == |sc| && target + |Serialize(sc, m)| <= a.Length
    modifies a
    ensures end == target + |Serialize(sc, m)|
    ensures a[..] == Splice(old(a[..]), target, Serialize(sc, m))
  {
    hide Splice, FieldsFrom, UnknownBytes;
    ghost var was := a[..];
    end := WriteFieldsToArray(sc, m.values, a, target);
    end := WriteUnknownsToArray(m.unknown, a, end);
    SpliceOn(was, target, FieldsFrom(sc, m.values, 0), UnknownBytes(m.unknown));
  }

  // ---------------------------------------------------------------- output stream

  class CodedOutputStream {
    var bytes: Bytes

    constructor ()
      ensures bytes == []
    {
      bytes := [];
    }

    method WriteVarint(value: nat)
      modifies this
      ensures bytes == old(bytes) + Varint(value)
    {
      var v := value;
      while v >= 128
        invariant bytes + Varint(v) == old(bytes) + Varint(value)
      {
        bytes := bytes + [v % 128 + 128];
        v := v / 128;
      }
      bytes := bytes + [v];
    }

    method WriteRaw(data: Bytes)
      modifies this
      ensures bytes == old(bytes) + data
    {
      bytes := bytes + data;
    }

    method WriteBlock(data: Bytes)
      modifies this
      ensures bytes == old(bytes) + Block(data)
    {
      WriteVarint(|data|);
      WriteRaw(data);
    }

    method WriteField(f: Field, v: Value)
      modifies this
      ensures bytes == old(bytes) + FieldBytes(f, v)
    {
      if !IsDefault(v) {
        WriteVarint(FieldTag(f));
        match v {
          case Str(s) => WriteBlock(s);
          case Int32(i) => WriteVarint(SignExtend(i));
        }
        Shift(old(bytes), Varint(FieldTag(f)), ValueBytes(v));
      }
    }

    method WriteUnknown(u: Unknown)
      modifies this
      ensures bytes == old(bytes) + CodecTheorems.UnknownField(u)
    {
      WriteVarint(Tag(u.number, WireType(u.payload)));
      match u.payload {
        case Number(v) => WriteVarint(v);
        case Fixed64(d) => WriteRaw(d);
        case Chunk(d) => WriteBlock(d);
        case Fixed32(d) => WriteRaw(d);
      }
      Shift(old(bytes), Varint(Tag(u.number, WireType(u.payload))), PayloadBytes(u.payload));
    }
  }

  /** The stream writer appends the same bytes. */
  method SerializeWithCachedSizes(sc: Schema, m: Message, output: CodedOutputStream)
    requires |m.values| == |sc|
    modifies output
    ensures output.bytes == old(output.bytes) + Serialize(sc, m)
  {
    hide FieldBytes, UnknownBytes;
    ghost var was := output.bytes;
    ghost var done: Bytes, later := [], FieldsFrom(sc, m.values, 0);
    ghost var fields := later;
    for k := 0 to |sc|
      invariant later == FieldsFrom(sc, m.values, k) && done + later == fields
      invariant output.bytes == was + done
    {
      ghost var bytes := FieldBytes(sc[k], m.values[k]);
      later := FieldsFrom(sc, m.values, k + 1);
      Shift(done, bytes, later);
      Shift(was, done, bytes);
      output.WriteField(sc[k], m.values[k]);
      done := done + bytes;
    }
    assert done == fields;
    WriteUnknowns(m.unknown, output);
    Shift(was, fields, UnknownBytes(m.unknown));
  }

  method WriteUnknowns(us: seq<Unknown>, output: CodedOutputStream)
    modifies output
    ensures output.bytes == old(output.bytes) + UnknownBytes(us)
  {
    hide UnknownBytes, CodecTheorems.UnknownField;
    ghost var was := output.bytes;
    ghost var done: Bytes, later := [], UnknownBytes(us);
    ghost var all := later;
    assert us[0..] == us;
    for k := 0 to |us|
      invariant later == UnknownBytes(us[k..]) && done + later == all
      invariant output.bytes == was + done
    {
      ghost var bytes := CodecTheorems.UnknownField(us[k]);
      UnknownsAt(us, k);
      later := UnknownBytes(us[k + 1..]);
      Shift(done, bytes, later);
      Shift(was, done, bytes);
      output.WriteUnknown(us[k]);
      done := done + bytes;
    }
    NoUnknowns();
    assert us[|us|..] == [] && done == all;
  }

  // ---------------------------------------------------------------- input stream

  class CodedInputStream {
    var left: Bytes
    var legitimateEnd: bool

    constructor (bytes: Bytes)
      ensures left == bytes && !legitimateEnd
    {
      left := bytes;
      legitimateEnd := false;
    }

    method ReadVarint() returns (ok: bool, value: nat)
      modifies this`left
      ensures Wire.ReadVarint(old(left)).Got? == ok
      ensures ok ==> Wire.ReadVarint(old(left)) == Got(value, left)
    {
      match Wire.ReadVarint(left) {
        case Short => ok, value := false, 0;
        case Got(v, rest) => ok, value, left := true, v, rest;
      }
    }

    method ReadRaw(n: nat) returns (ok: bool, data: Bytes)
      modifies this`left
      ensures Take(old(left), n) == if ok then Got(data, left) else Short
    {
      ok, data := n <= |left|, [];
      if ok {
        data, left := left[..n], left[n..];
      }
    }

    method ReadBlock() returns (ok: bool, data: Bytes)
      modifies this`left
      ensures Wire.ReadBlock(old(left)).Got? == ok
      ensures ok ==> Wire.ReadBlock(old(left)) == Got(data, left)
    {
      var length;
      ok, length := ReadVarint();
      data := [];
      if ok {
        ok := length % TWO32 < TWO31;
        if ok {
          ok, data := ReadRaw(length % TWO32);
        }
      }
    }

    /** Zero at the end of the input, and for a tag that cannot be read. */
    method ReadTag() returns (tag: nat)
      modifies this
      ensures legitimateEnd <==> old(left) == []
      ensures old(left) == [] || Wire.ReadVarint(old(left)).Short? ==> tag == 0
      ensures old(left) != [] && Wire.ReadVarint(old(left)).Got? ==>
        tag == Wire.ReadVarint(old(left)).value % TWO32 && left == Wire.ReadVarint(old(left)).rest
    {
      legitimateEnd := left == [];
      tag := 0;
      if left != [] {
        var ok, raw := ReadVarint();
        if ok {
          tag := raw % TWO32;
        }
      }
    }
  }

  // ---------------------------------------------------------------- parsing into an object

  datatype Verdict = Parsed | Refused | GroupSeen

  class MessageObject {
    const schema: Schema
    var values: seq<Value>
    var unknown: seq<Unknown>

    constructor (sc: Schema)
      ensures schema == sc && Contents() == Default(sc)
    {
      schema := sc;
      values := Defaults(sc);
      unknown := [];
    }

    function Contents(): (m: Message)
      reads this
    {
      Message(values, unknown)
    }

    /** What the parser's loop has left to do is what it had to do. On a refusal the fields read
        so far are already in the object. */
    method MergePartialFromCodedStream(input: CodedInputStream) returns (verdict: Verdict)
      requires |values| == |schema|
      modifies this, input
      ensures |values| == |schema|
      ensures MergePartial(schema, old(input.left), old(Contents()))
        == match verdict
           case Parsed => Done(Contents(), input.legitimateEnd)
           case Refused => Failed
           case GroupSeen => GroupMet
    {
      ghost var outcome := MergePartial(schema, input.left, Contents());
      while true
        invariant |values| == |schema|
        invariant MergePartial(schema, input.left, Contents()) == outcome
        decreases |input.left|
      {
        ghost var step := ReadField(schema, input.left);
        var tag := input.ReadTag();
        var slot := Slot(schema, tag);
        if tag == 0 {
          return Parsed;
        }
        if tag <= 127 && slot < |schema| {
          var ok := MergeField(slot, input, step);
          if !ok {
            return Refused;
          }
        } else {
          var skipped := KeepField(tag, input, step);
          if skipped != Parsed {
            return skipped;
          }
        }
      }
    }

    method MergeField(slot: nat, input: CodedInputStream, ghost step: Step) returns (ok: bool)
      requires slot < |schema| == |values|
      requires step == ReadValue(schema[slot].kind, slot, input.left)
      modifies this`values, input`left
      ensures |values| == |schema|
      ensures step.Assign? == ok
      ensures ok ==> values == old(values)[slot := step.value] && input.left == step.rest
    {
      match schema[slot].kind {
        case StringField =>
          var s;
          ok, s := input.ReadBlock();
          if ok {
            values := values[slot := Str(s)];
            ok := ValidUtf8(s);
          }
        case Int32Field =>
          var v;
          ok, v := input.ReadVarint();
          if ok {
            values := values[slot := Int32(ToInt32(v))];
          }
      }
    }

    method KeepField(tag: nat, input: CodedInputStream, ghost step: Step) returns (verdict: Verdict)
      requires step == SkipField(tag, input.left)
      modifies this`unknown, input`left
      ensures verdict == if step.Keep? then Parsed else if step.Group? then GroupSeen else Refused
      ensures step.Keep? ==> unknown == old(unknown) + [step.unknown] && input.left == step.rest
    {
      var number, ok := tag / 8, false;
      if number == 0 {
        return Refused;
      }
      if tag % 8 == 0 {
        var v;
        ok, v := input.ReadVarint();
        if ok {
          unknown := unknown + [Unknown(number, Number(v))];
        }
      } else if tag % 8 == 1 {
        var d;
        ok, d := input.ReadRaw(8);
        if ok {
          unknown := unknown + [Unknown(number, Fixed64(d))];
        }
      } else if tag % 8 == 2 {
        var d;
        ok, d := input.ReadBlock();
        if ok {
          unknown := unknown + [Unknown(number, Chunk(d))];
        }
      } else if tag % 8 == 3 {
        return GroupSeen;
      } else if tag % 8 == 5 {
        var d;
        ok, d := input.ReadRaw(4);
        if ok {
          unknown := unknown + [Unknown(number, Fixed32(d))];
        }
      }
      verdict := if ok then Parsed else Refused;
    }

    /** Unknown fields first, then the known ones that are not at their default. */
    method MergeFrom(other: MessageObject)
      requires other != this && other.schema == schema && |values| == |other.values| == |schema|
      modifies this
      ensures Contents() == Codec.MergeFrom(old(Contents()), other.Contents())
    {
      ghost var was := values;
      unknown := unknown + other.unknown;
      for k := 0 to |schema|
        invariant |values| == |schema| && unknown == old(unknown) + other.unknown
        invariant other.values == old(other.values) && other.unknown == old(other.unknown)
        invariant values == MergeValues(was[..k], other.values[..k]) + was[k..]
      {
        MergeNext(was, other.values, k);
        if !IsDefault(other.values[k]) {
          values := values[k := other.values[k]];
        }
      }
      assert was[..|schema|] == was && other.values[..|schema|] == other.values;
    }
  }

  lemma MergeNext(a: seq<Value>, b: seq<Value>, k: nat)
    requires |a| == |b| && k < |a|
    ensures (MergeValues(a[..k], b[..k]) + a[k..])[k := if IsDefault(b[k]) then a[k] else b[k]]
      == MergeValues(a[..k + 1], b[..k + 1]) + a[k + 1..]
  {
  }
}
