/** The generated codec of the six proxy messages: what a serialised message is, how bytes are
    merged into a message, and how one message is merged into another.

    The six generated classes differ only in their fields, so they share one definition over a
    table of fields. Field numbers are below 16, so a tag always fits one byte. */
module Codec {
  import opened Wire
  import opened Utf8

  datatype Kind = StringField | Int32Field
  datatype Field = Field(number: nat, kind: Kind)
  type Schema = seq<Field>

  datatype Value = Str(s: Bytes) | Int32(i: int)
  datatype Payload = Number(value: nat) | Fixed64(data: Bytes) | Chunk(bytes: Bytes) | Fixed32(half: Bytes)
  datatype Unknown = Unknown(number: nat, payload: Payload)
  datatype Message = Message(values: seq<Value>, unknown: seq<Unknown>)

  const PRODUCE_REQUEST: Schema :=
    [Field(1, StringField), Field(2, StringField), Field(3, StringField), Field(4, StringField), Field(5, Int32Field)]
  const PRODUCE_REPLY: Schema := [Field(1, Int32Field), Field(2, StringField), Field(3, StringField)]
  const CONSUME_REQUEST: Schema := [Field(1, StringField), Field(2, StringField)]
  const CONSUME_REPLY: Schema :=
    [Field(1, Int32Field), Field(2, StringField), Field(3, StringField), Field(4, StringField)]
  const CONSUME_ACK_REQUEST: Schema :=
    [Field(1, StringField), Field(2, StringField), Field(3, StringField), Field(4, Int32Field)]
  const CONSUME_ACK_REPLY: Schema := [Field(1, Int32Field), Field(2, StringField), Field(4, StringField)]

  function Tag(number: nat, wireType: nat): (r: nat) {
    number * 8 + wireType
  }

  function FieldTag(f: Field): (r: nat) {
    Tag(f.number, if f.kind.StringField? then 2 else 0)
  }

  /** Field numbers begin with one, every tag is one byte, no two fields share one. */
  ghost predicate Proper(sc: Schema) {
    && (forall i :: 0 <= i < |sc| ==> 8 <= FieldTag(sc[i]) < 128)
    && (forall i, j :: 0 <= i < j < |sc| ==> FieldTag(sc[i]) != FieldTag(sc[j]))
  }

  /** The field a tag selects, or the number of fields when it selects none. */
  function Slot(sc: Schema, tag: nat): (r: nat)
    ensures r <= |sc|
    ensures r < |sc| ==> FieldTag(sc[r]) == tag
    ensures forall i :: 0 <= i < r ==> FieldTag(sc[i]) != tag
  {
    if sc == [] then 0
    else if FieldTag(sc[0]) == tag then 0
    else
      var rest := sc[1..];
      var r := Slot(rest, tag);
      assert forall i :: 0 < i < |sc| ==> sc[i] == rest[i - 1];
      r + 1
  }

  // ---------------------------------------------------------------- messages

  predicate IsDefault(v: Value) {
    match v
    case Str(s) => s == []
    case Int32(i) => i == 0
  }

  predicate Fits(f: Field, v: Value) {
    match f.kind
    case StringField => v.Str? && |v.s| < TWO31
    case Int32Field => v.Int32? && -TWO31 <= v.i < TWO31
  }

  predicate Clean(v: Value) {
    v.Str? ==> ValidUtf8(v.s)
  }

  function WireType(p: Payload): (r: nat) {
    match p
    case Number(_) => 0
    case Fixed64(_) => 1
    case Chunk(_) => 2
    case Fixed32(_) => 5
  }

  predicate Sized(p: Payload) {
    match p
    case Number(v) => v < TWO64
    case Fixed64(d) => |d| == 8
    case Chunk(d) => |d| < TWO31
    case Fixed32(d) => |d| == 4
  }

  /** An unknown field: of a legal number and size, and not under the tag of a known field. */
  predicate Foreign(sc: Schema, u: Unknown) {
    && 1 <= u.number < 0x2000_0000
    && Slot(sc, Tag(u.number, WireType(u.payload))) == |sc|
    && Sized(u.payload)
  }

  ghost predicate Valid(sc: Schema, m: Message) {
    && |m.values| == |sc|
    && (forall i :: 0 <= i < |sc| ==> Fits(sc[i], m.values[i]))
    && AllForeign(sc, m.unknown)
  }

  ghost predicate AllForeign(sc: Schema, us: seq<Unknown>) {
    forall i :: 0 <= i < |us| ==> Foreign(sc, us[i])
  }

  ghost predicate AllClean(values: seq<Value>) {
    forall i :: 0 <= i < |values| ==> Clean(values[i])
  }

  function DefaultValue(f: Field): (v: Value) {
    if f.kind.StringField? then Str([]) else Int32(0)
  }

  function Defaults(sc: Schema): (r: seq<Value>)
    ensures |r| == |sc|
    ensures forall i :: 0 <= i < |sc| ==> r[i] == DefaultValue(sc[i])
  {
    if sc == [] then [] else [DefaultValue(sc[0])] + Defaults(sc[1..])
  }

  function Default(sc: Schema): (m: Message) {
    Message(Defaults(sc), [])
  }

  // ---------------------------------------------------------------- writing

  function ValueBytes(v: Value): (r: Bytes) {
    match v
    case Str(s) => Block(s)
    case Int32(i) => Varint(SignExtend(i))
  }

  /** A field holding its default is not written at all. */
  function FieldBytes(f: Field, v: Value): (r: Bytes) {
    if IsDefault(v) then [] else Varint(FieldTag(f)) + ValueBytes(v)
  }

  function FieldsFrom(sc: Schema, values: seq<Value>, k: nat): (r: Bytes)
    requires |values| == |sc| && k <= |sc|
    decreases |sc| - k
  {
    if k == |sc| then [] else FieldBytes(sc[k], values[k]) + FieldsFrom(sc, values, k + 1)
  }

  function PayloadBytes(p: Payload): (r: Bytes) {
    match p
    case Number(v) => Varint(v)
    case Fixed64(d) => d
    case Chunk(d) => Block(d)
    case Fixed32(d) => d
  }

  function UnknownBytes(us: seq<Unknown>): (r: Bytes) {
    if us == [] then []
    else Varint(Tag(us[0].number, WireType(us[0].payload))) + PayloadBytes(us[0].payload) + UnknownBytes(us[1..])
  }

  function Serialize(sc: Schema, m: Message): (r: Bytes)
    requires |m.values| == |sc|
  {
    FieldsFrom(sc, m.values, 0) + UnknownBytes(m.unknown)
  }

  // ---------------------------------------------------------------- parsing

  /** What one round of the parser's loop comes to. A legitimate end is the end of the input;
      a zero or unreadable tag also ends the loop, but not at a legitimate end. */
  datatype Step =
    | Stop(legitimate: bool)
    | Bad
    | Group
    | Assign(slot: nat, value: Value, rest: Bytes)
    | Keep(unknown: Unknown, rest: Bytes)

  datatype Outcome = Done(message: Message, legitimate: bool) | Failed | GroupMet

  function ReadValue(kind: Kind, slot: nat, input: Bytes): (r: Step)
    ensures r.Assign? || r.Bad?
    ensures r.Assign? ==> r.slot == slot && |r.rest| < |input| && Fits(Field(0, kind), r.value) && Clean(r.value)
  {
    match kind
    case StringField => (
      match ReadBlock(input)
      case Short => Bad
      case Got(s, rest) => if ValidUtf8(s) then Assign(slot, Str(s), rest) else Bad
    )
    case Int32Field => (
      match ReadVarint(input)
      case Short => Bad
      case Got(v, rest) => Assign(slot, Int32(ToInt32(v)), rest)
    )
  }

  function SkipField(tag: nat, input: Bytes): (r: Step)
    ensures r.Keep? || r.Bad? || r.Group?
    ensures r.Keep? ==> |r.rest| <= |input| && tag == Tag(r.unknown.number, WireType(r.unknown.payload))
  {
    var number := tag / 8;
    if number == 0 then Bad
    else if tag % 8 == 0 then
      match ReadVarint(input)
      case Short => Bad
      case Got(v, rest) => Keep(Unknown(number, Number(v)), rest)
    else if tag % 8 == 1 then
      match Take(input, 8)
      case Short => Bad
      case Got(d, rest) => Keep(Unknown(number, Fixed64(d)), rest)
    else if tag % 8 == 2 then
      match ReadBlock(input)
      case Short => Bad
      case Got(d, rest) => Keep(Unknown(number, Chunk(d)), rest)
    else if tag % 8 == 3 then Group
    else if tag % 8 == 5 then
      match Take(input, 4)
      case Short => Bad
      case Got(d, rest) => Keep(Unknown(number, Fixed32(d)), rest)
    else Bad
  }

  /** A tag, once read, selects a known field or is kept as an unknown one. */
  function ReadTagged(sc: Schema, tag: nat, input: Bytes): (r: Step)
    ensures r.Assign? ==> |r.rest| < |input| && r.slot < |sc| && Fits(sc[r.slot], r.value)
    ensures r.Keep? ==> |r.rest| <= |input|
  {
    var i := Slot(sc, tag);
    if tag == 0 then Stop(false)
    else if tag <= 127 && i < |sc| then ReadValue(sc[i].kind, i, input)
    else SkipField(tag, input)
  }

  function ReadField(sc: Schema, input: Bytes): (r: Step)
    ensures r.Assign? ==> |r.rest| < |input| && r.slot < |sc| && Fits(sc[r.slot], r.value)
    ensures r.Keep? ==> |r.rest| < |input|
  {
    if input == [] then Stop(true)
    else
      match ReadVarint(input)
      case Short => Stop(false)
      case Got(raw, rest) => ReadTagged(sc, raw % TWO32, rest)
  }

  /** Merges bytes into a message, field after field, until the input ends or is refused. */
  function MergePartial(sc: Schema, input: Bytes, acc: Message): (r: Outcome)
    requires |acc.values| == |sc|
    ensures r.Done? ==> |r.message.values| == |sc|
    decreases |input|
  {
    match ReadField(sc, input)
    case Stop(legitimate) => Done(acc, legitimate)
    case Bad => Failed
    case Group => GroupMet
    case Assign(i, v, rest) => MergePartial(sc, rest, acc.(values := acc.values[i := v]))
    case Keep(u, rest) => MergePartial(sc, rest, acc.(unknown := acc.unknown + [u]))
  }

  function Parse(sc: Schema, input: Bytes): (r: Outcome) {
    MergePartial(sc, input, Default(sc))
  }

  // ---------------------------------------------------------------- merging messages

  function MergeValues(a: seq<Value>, b: seq<Value>): (r: seq<Value>)
    requires |a| == |b|
    ensures |r| == |a|
    ensures forall i :: 0 <= i < |a| ==> r[i] == if IsDefault(b[i]) then a[i] else b[i]
  {
    if a == [] then [] else [if IsDefault(b[0]) then a[0] else b[0]] + MergeValues(a[1..], b[1..])
  }

  /** A field of `b` at its default leaves the field of `a` alone; unknown fields are appended. */
  function MergeFrom(a: Message, b: Message): (r: Message)
    requires |a.values| == |b.values|
  {
    Message(MergeValues(a.values, b.values), a.unknown + b.unknown)
  }
}
