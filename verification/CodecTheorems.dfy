/** The parser undoes the writer, reading concatenated bytes is merging messages, and the size
    computed beforehand is the number of bytes written. */
module CodecTheorems {
  import opened Wire
  import opened Utf8
  import opened Codec

  // ---------------------------------------------------------------- one field

  lemma {:induction false} SlotOf(sc: Schema, i: nat)
    requires Proper(sc) && i < |sc|
    ensures Slot(sc, FieldTag(sc[i])) == i
  {
    assert Slot(sc, FieldTag(sc[i])) <= i;
  }

  lemma FieldRead(sc: Schema, i: nat, v: Value, tail: Bytes)
    requires Proper(sc) && i < |sc| && Fits(sc[i], v) && !IsDefault(v)
    ensures ReadField(sc, FieldBytes(sc[i], v) + tail) == if Clean(v) then Assign(i, v, tail) else Bad
  {
    hide ReadValue, ValueBytes, Varint, Clean;
    var tag := FieldTag(sc[i]);
    var after := ValueBytes(v) + tail;
    assert FieldBytes(sc[i], v) + tail == Varint(tag) + after;
    VarintInverse(tag, after);
    SlotOf(sc, i);
    ValueRead(sc[i], i, v, tail);
    assert tag % TWO32 == tag;
  }

  lemma ValueRead(f: Field, i: nat, v: Value, tail: Bytes)
    requires Fits(f, v)
    ensures ReadValue(f.kind, i, ValueBytes(v) + tail) == if Clean(v) then Assign(i, v, tail) else Bad
  {
    match v
    case Str(s) => BlockInverse(s, tail);
    case Int32(n) => VarintInverse(SignExtend(n), tail); Int32Inverse(n);
  }

  function UnknownField(u: Unknown): (r: Bytes) {
    Varint(Tag(u.number, WireType(u.payload))) + PayloadBytes(u.payload)
  }

  lemma UnknownRead(sc: Schema, u: Unknown, tail: Bytes)
    requires Foreign(sc, u)
    ensures ReadField(sc, UnknownField(u) + tail) == Keep(u, tail)
  {
    var tag := Tag(u.number, WireType(u.payload));
    var after := PayloadBytes(u.payload) + tail;
    assert UnknownField(u) + tail == Varint(tag) + after;
    VarintInverse(tag, after);
    SkipRead(u, tail);
    assert tag % TWO32 == tag;
  }

  lemma SkipRead(u: Unknown, tail: Bytes)
    requires u.number >= 1 && Sized(u.payload)
    ensures SkipField(Tag(u.number, WireType(u.payload)), PayloadBytes(u.payload) + tail) == Keep(u, tail)
  {
    var tag := Tag(u.number, WireType(u.payload));
    var after := PayloadBytes(u.payload) + tail;
    assert tag / 8 == u.number && tag % 8 == WireType(u.payload);
    match u.payload
    case Number(v) => VarintInverse(v, tail);
    case Fixed64(d) => assert after[..8] == d && after[8..] == tail;
    case Chunk(d) => BlockInverse(d, tail);
    case Fixed32(d) => assert after[..4] == d && after[4..] == tail;
  }

  // ---------------------------------------------------------------- a whole message

  function MergedFrom(a: seq<Value>, b: seq<Value>, k: nat): (r: seq<Value>)
    requires |a| == |b| && k <= |a|
  {
    a[..k] + MergeValues(a[k..], b[k..])
  }

  lemma MergedNothing(a: seq<Value>, b: seq<Value>)
    requires |a| == |b|
    ensures MergedFrom(a, b, |a|) == a
  {
  }

  lemma DefaultUnwritten(f: Field, v: Value)
    requires IsDefault(v)
    ensures FieldBytes(f, v) == [] && Clean(v)
  {
  }

  lemma MergedStep(a: seq<Value>, b: seq<Value>, k: nat)
    requires |a| == |b| && k < |a|
    ensures MergedFrom(a, b, k) == MergedFrom(if IsDefault(b[k]) then a else a[k := b[k]], b, k + 1)
  {
    var c := if IsDefault(b[k]) then a else a[k := b[k]];
    assert forall i :: 0 <= i < |a| ==> MergedFrom(a, b, k)[i] == MergedFrom(c, b, k + 1)[i];
  }

  ghost predicate CleanFrom(values: seq<Value>, k: nat) {
    forall i :: k <= i < |values| ==> Clean(values[i])
  }

  lemma {:induction false} FieldsMerge(sc: Schema, values: seq<Value>, k: nat, tail: Bytes, acc: Message)
    requires Proper(sc) && |values| == |sc| && k <= |sc| && |acc.values| == |sc|
    requires forall i :: 0 <= i < |sc| ==> Fits(sc[i], values[i])
    ensures MergePartial(sc, FieldsFrom(sc, values, k) + tail, acc)
      == if CleanFrom(values, k) then MergePartial(sc, tail, acc.(values := MergedFrom(acc.values, values, k)))
         else Failed
    decreases |sc| - k
  {
    hide ReadField, FieldBytes, MergedFrom, ValidUtf8;
    if k == |sc| {
      assert FieldsFrom(sc, values, k) + tail == tail;
      MergedNothing(acc.values, values);
    } else {
      var v := values[k];
      var after := FieldsFrom(sc, values, k + 1) + tail;
      MergedStep(acc.values, values, k);
      assert FieldsFrom(sc, values, k) + tail == FieldBytes(sc[k], v) + after;
      if IsDefault(v) {
        DefaultUnwritten(sc[k], v);
        assert FieldBytes(sc[k], v) + after == after;
        assert CleanFrom(values, k) <==> CleanFrom(values, k + 1);
        FieldsMerge(sc, values, k + 1, tail, acc);
      } else {
        FieldRead(sc, k, v, after);
        var next := acc.(values := acc.values[k := v]);
        FieldsMerge(sc, values, k + 1, tail, next);
        if Clean(v) {
          assert CleanFrom(values, k) <==> CleanFrom(values, k + 1);
        }
      }
    }
  }

  lemma UnknownsSplit(us: seq<Unknown>, tail: Bytes)
    requires us != []
    ensures UnknownBytes(us) + tail == UnknownField(us[0]) + (UnknownBytes(us[1..]) + tail)
  {
  }

  lemma MergeKeeps(sc: Schema, input: Bytes, acc: Message)
    requires |acc.values| == |sc| && ReadField(sc, input).Keep?
    ensures MergePartial(sc, input, acc)
      == MergePartial(sc, ReadField(sc, input).rest, acc.(unknown := acc.unknown + [ReadField(sc, input).unknown]))
  {
  }

  lemma FirstKept(sc: Schema, u: Unknown, others: seq<Unknown>, tail: Bytes, acc: Message, input: Bytes)
    requires |acc.values| == |sc| && Foreign(sc, u) && input == UnknownBytes([u] + others) + tail
    ensures MergePartial(sc, input, acc)
      == MergePartial(sc, UnknownBytes(others) + tail, acc.(unknown := acc.unknown + [u]))
  {
    var after := UnknownBytes(others) + tail;
    assert ([u] + others)[1..] == others;
    UnknownsSplit([u] + others, tail);
    UnknownRead(sc, u, after);
    MergeKeeps(sc, UnknownField(u) + after, acc);
  }

  lemma {:induction false} UnknownsMerge(sc: Schema, us: seq<Unknown>, tail: Bytes, acc: Message, input: Bytes)
    requires |acc.values| == |sc| && AllForeign(sc, us) && input == UnknownBytes(us) + tail
    ensures MergePartial(sc, input, acc) == MergePartial(sc, tail, acc.(unknown := acc.unknown + us))
    decreases |us|
  {
    if us == [] {
      assert input == tail && acc.unknown + us == acc.unknown;
    } else {
      var u, others := us[0], us[1..];
      assert us == [u] + others;
      FirstKept(sc, u, others, tail, acc, input);
      assert acc.unknown + [u] + others == acc.unknown + us;
      UnknownsMerge(sc, others, tail, acc.(unknown := acc.unknown + [u]), UnknownBytes(others) + tail);
    }
  }

  /** Parsing what `m` was serialised to, before any other bytes, merges `m` into the message being
      built and goes on with those bytes; it fails exactly when a string of `m` is not UTF-8. */
  lemma SerializedMerges(sc: Schema, m: Message, tail: Bytes, acc: Message)
    requires Proper(sc) && Valid(sc, m) && |acc.values| == |sc|
    ensures MergePartial(sc, Serialize(sc, m) + tail, acc)
      == if AllClean(m.values) then MergePartial(sc, tail, MergeFrom(acc, m)) else Failed
  {
    var after := UnknownBytes(m.unknown) + tail;
    assert Serialize(sc, m) + tail == FieldsFrom(sc, m.values, 0) + after;
    FieldsMerge(sc, m.values, 0, after, acc);
    assert AllClean(m.values) <==> CleanFrom(m.values, 0);
    var merged := acc.(values := MergedFrom(acc.values, m.values, 0));
    assert acc.values[0..] == acc.values && m.values[0..] == m.values;
    assert merged.values == MergeValues(acc.values, m.values);
    UnknownsMerge(sc, m.unknown, tail, merged, after);
  }

  lemma MergeIntoDefault(sc: Schema, m: Message)
    requires Valid(sc, m)
    ensures MergeFrom(Default(sc), m) == m
  {
    forall i | 0 <= i < |sc|
      ensures MergeValues(Defaults(sc), m.values)[i] == m.values[i]
    {
      assert Fits(sc[i], m.values[i]);
    }
    assert MergeValues(Defaults(sc), m.values) == m.values;
    assert [] + m.unknown == m.unknown;
  }

  /** A message survives the wire if and only if all its strings are UTF-8: the writer only logs
      an ill-formed string, the parser refuses it. */
  lemma RoundTrip(sc: Schema, m: Message)
    requires Proper(sc) && Valid(sc, m)
    ensures Parse(sc, Serialize(sc, m)) == Done(m, true) <==> AllClean(m.values)
    ensures Parse(sc, Serialize(sc, m)) == Failed <==> !AllClean(m.values)
  {
    SerializedMerges(sc, m, [], Default(sc));
    assert Serialize(sc, m) + [] == Serialize(sc, m);
    MergeIntoDefault(sc, m);
  }

  /** Serialised messages laid end to end parse as their merge. */
  lemma ConcatenationMerges(sc: Schema, a: Message, b: Message)
    requires Proper(sc) && Valid(sc, a) && Valid(sc, b) && AllClean(a.values) && AllClean(b.values)
    ensures Parse(sc, Serialize(sc, a) + Serialize(sc, b)) == Done(MergeFrom(a, b), true)
  {
    SerializedMerges(sc, a, Serialize(sc, b), Default(sc));
    MergeIntoDefault(sc, a);
    SerializedMerges(sc, b, [], a);
    assert Serialize(sc, b) + [] == Serialize(sc, b);
  }

  lemma AscendingIsProper(sc: Schema)
    requires forall i :: 0 <= i < |sc| ==> 0 < sc[i].number < 16
    requires forall i, j :: 0 <= i < j < |sc| ==> sc[i].number < sc[j].number
    ensures Proper(sc)
  {
  }

  function Tags(sc: Schema): (r: seq<nat>)
    ensures |r| == |sc|
  {
    seq(|sc|, i requires 0 <= i < |sc| => FieldTag(sc[i]))
  }

  lemma RequestTags()
    ensures Tags(PRODUCE_REQUEST) == [10, 18, 26, 34, 40]
    ensures Tags(CONSUME_REQUEST) == [10, 18]
    ensures Tags(CONSUME_ACK_REQUEST) == [10, 18, 26, 32]
  {
  }

  lemma ReplyTags()
    ensures Tags(PRODUCE_REPLY) == [8, 18, 26]
    ensures Tags(CONSUME_REPLY) == [8, 18, 26, 34]
    ensures Tags(CONSUME_ACK_REPLY) == [8, 18, 34]
  {
  }

  /** The six tables are proper, so everything here holds of all six messages; these are their tags on the wire. */
  lemma RequestTables()
    ensures Proper(PRODUCE_REQUEST) && Proper(CONSUME_REQUEST) && Proper(CONSUME_ACK_REQUEST)
    ensures Tags(PRODUCE_REQUEST) == [10, 18, 26, 34, 40]
    ensures Tags(CONSUME_REQUEST) == [10, 18]
    ensures Tags(CONSUME_ACK_REQUEST) == [10, 18, 26, 32]
  {
    hide Tags, Proper;
    RequestTags();
    AscendingIsProper(PRODUCE_REQUEST);
    AscendingIsProper(CONSUME_REQUEST);
    AscendingIsProper(CONSUME_ACK_REQUEST);
  }

  lemma ReplyTables()
    ensures Proper(PRODUCE_REPLY) && Proper(CONSUME_REPLY) && Proper(CONSUME_ACK_REPLY)
    ensures Tags(PRODUCE_REPLY) == [8, 18, 26]
    ensures Tags(CONSUME_REPLY) == [8, 18, 26, 34]
    ensures Tags(CONSUME_ACK_REPLY) == [8, 18, 34]
  {
    hide Tags, Proper;
    ReplyTags();
    AscendingIsProper(PRODUCE_REPLY);
    AscendingIsProper(CONSUME_REPLY);
    AscendingIsProper(CONSUME_ACK_REPLY);
  }

  // ---------------------------------------------------------------- any bytes

  lemma ValueExtend(kind: Kind, slot: nat, x: Bytes, y: Bytes)
    requires ReadValue(kind, slot, x).Assign?
    ensures ReadValue(kind, slot, x + y)
      == Assign(slot, ReadValue(kind, slot, x).value, ReadValue(kind, slot, x).rest + y)
  {
    match kind
    case StringField => BlockExtend(x, y);
    case Int32Field => VarintExtend(x, y);
  }

  lemma SkipExtend(tag: nat, x: Bytes, y: Bytes)
    requires SkipField(tag, x).Keep?
    ensures SkipField(tag, x + y) == Keep(SkipField(tag, x).unknown, SkipField(tag, x).rest + y)
  {
    var w := tag % 8;
    if w == 0 {
      VarintExtend(x, y);
    } else if w == 1 {
      TakeExtend(x, y, 8);
    } else if w == 2 {
      BlockExtend(x, y);
    } else {
      TakeExtend(x, y, 4);
    }
  }

  lemma FieldExtend(sc: Schema, x: Bytes, y: Bytes)
    requires ReadField(sc, x).Assign? || ReadField(sc, x).Keep?
    ensures ReadField(sc, x + y) == ReadField(sc, x).(rest := ReadField(sc, x).rest + y)
  {
    VarintExtend(x, y);
    var tag := ReadVarint(x).value % TWO32;
    var rest := ReadVarint(x).rest;
    var i := Slot(sc, tag);
    if tag <= 127 && i < |sc| {
      ValueExtend(sc[i].kind, i, rest, y);
    } else {
      SkipExtend(tag, rest, y);
    }
  }

  /** Whole fields may arrive in instalments: bytes that parse to their legitimate end leave the
      parser where it can go on with the next ones. */
  lemma {:induction false} ParseAppend(sc: Schema, x: Bytes, y: Bytes, acc: Message)
    requires |acc.values| == |sc|
    requires MergePartial(sc, x, acc).Done? && MergePartial(sc, x, acc).legitimate
    ensures MergePartial(sc, x + y, acc) == MergePartial(sc, y, MergePartial(sc, x, acc).message)
    decreases |x|
  {
    match ReadField(sc, x)
    case Stop(_) => assert x + y == y;
    case Assign(i, v, rest) =>
      FieldExtend(sc, x, y);
      ParseAppend(sc, rest, y, acc.(values := acc.values[i := v]));
    case Keep(u, rest) =>
      FieldExtend(sc, x, y);
      ParseAppend(sc, rest, y, acc.(unknown := acc.unknown + [u]));
  }

  ghost predicate Storable(sc: Schema, m: Message) {
    Valid(sc, m) && AllClean(m.values)
  }

  lemma KeptIsForeign(sc: Schema, input: Bytes)
    requires Proper(sc) && ReadField(sc, input).Keep?
    ensures Foreign(sc, ReadField(sc, input).unknown)
  {
    var tag := ReadVarint(input).value % TWO32;
    var i := Slot(sc, tag);
    var u := ReadField(sc, input).unknown;
    assert tag / 8 < 0x2000_0000;
    assert u.number == tag / 8;
  }

  lemma AssignedIsClean(sc: Schema, input: Bytes)
    requires ReadField(sc, input).Assign?
    ensures Clean(ReadField(sc, input).value)
  {
  }

  /** Whatever bytes come in, a message that parses holds only values that can be written again. */
  lemma {:induction false} ParsedIsStorable(sc: Schema, input: Bytes, acc: Message)
    requires Proper(sc) && Storable(sc, acc) && MergePartial(sc, input, acc).Done?
    ensures Storable(sc, MergePartial(sc, input, acc).message)
    decreases |input|
  {
    match ReadField(sc, input)
    case Stop(_) =>
    case Assign(i, v, rest) =>
      AssignedIsClean(sc, input);
      ParsedIsStorable(sc, rest, acc.(values := acc.values[i := v]));
    case Keep(u, rest) =>
      KeptIsForeign(sc, input);
      ParsedIsStorable(sc, rest, acc.(unknown := acc.unknown + [u]));
  }

  lemma DefaultIsStorable(sc: Schema)
    ensures Storable(sc, Default(sc))
  {
    assert ValidUtf8([]);
  }

  /** Writing a parsed message and parsing that gives the message again, whatever bytes it was
      first parsed from. */
  lemma Reserialized(sc: Schema, input: Bytes)
    requires Proper(sc) && Parse(sc, input).Done?
    ensures Valid(sc, Parse(sc, input).message)
    ensures Parse(sc, Serialize(sc, Parse(sc, input).message)) == Done(Parse(sc, input).message, true)
  {
    DefaultIsStorable(sc);
    ParsedIsStorable(sc, input, Default(sc));
    RoundTrip(sc, Parse(sc, input).message);
  }

  // ---------------------------------------------------------------- when reading is merging

  /** The fields the bytes assign. */
  function Written(sc: Schema, input: Bytes): (r: set<nat>)
    decreases |input|
  {
    match ReadField(sc, input)
    case Assign(i, _, rest) => {i} + Written(sc, rest)
    case Keep(_, rest) => Written(sc, rest)
    case _ => {}
  }

  function Kept(sc: Schema, input: Bytes): (r: seq<Unknown>)
    decreases |input|
  {
    match ReadField(sc, input)
    case Assign(_, _, rest) => Kept(sc, rest)
    case Keep(u, rest) => [u] + Kept(sc, rest)
    case _ => []
  }

  /** The last assignment to a field wins, whatever it held before; unassigned fields stay. */
  lemma {:induction false} LastOneWins(sc: Schema, x: Bytes, a: Message, b: Message)
    requires |a.values| == |b.values| == |sc|
    requires MergePartial(sc, x, a).Done?
    ensures MergePartial(sc, x, b).Done? && MergePartial(sc, x, b).legitimate == MergePartial(sc, x, a).legitimate
    ensures MergePartial(sc, x, a).message.unknown == a.unknown + Kept(sc, x)
    ensures forall i: nat :: i < |sc| ==>
      MergePartial(sc, x, a).message.values[i]
        == if i in Written(sc, x) then MergePartial(sc, x, b).message.values[i] else a.values[i]
    decreases |x|
  {
    hide ReadField;
    match ReadField(sc, x)
    case Stop(_) => assert a.unknown + [] == a.unknown;
    case Assign(i, v, rest) =>
      LastOneWins(sc, rest, a.(values := a.values[i := v]), b.(values := b.values[i := v]));
      LastOneWins(sc, rest, b.(values := b.values[i := v]), a.(values := a.values[i := v]));
    case Keep(u, rest) =>
      LastOneWins(sc, rest, a.(unknown := a.unknown + [u]), b.(unknown := b.unknown + [u]));
      assert a.unknown + [u] + Kept(sc, rest) == a.unknown + Kept(sc, x);
  }

  /** No field of `acc` holding something is assigned its default by `x`, which parses to `b`. */
  ghost predicate Harmless(sc: Schema, x: Bytes, b: Message, acc: Message)
    requires |b.values| == |acc.values| == |sc|
  {
    forall i: nat | i in Written(sc, x) && i < |sc| :: IsDefault(b.values[i]) ==> IsDefault(acc.values[i])
  }

  /** Reading bytes into a message is merging the message they parse to, exactly when no field is
      assigned its default over something else. Bytes of this writer assign no defaults at all. */
  lemma ReadingIsMerging(sc: Schema, x: Bytes, acc: Message)
    requires Valid(sc, acc) && Proper(sc)
    requires Parse(sc, x).Done?
    ensures MergePartial(sc, x, acc) == Done(MergeFrom(acc, Parse(sc, x).message), Parse(sc, x).legitimate)
      <==> Harmless(sc, x, Parse(sc, x).message, acc)
  {
    var b := Parse(sc, x).message;
    DefaultIsStorable(sc);
    ParsedIsStorable(sc, x, Default(sc));
    LastOneWins(sc, x, Default(sc), acc);
    LastOneWins(sc, x, acc, Default(sc));
    var r := MergePartial(sc, x, acc).message;
    assert b.unknown == Kept(sc, x) && r.unknown == MergeFrom(acc, b).unknown;
    forall i: nat | i < |sc|
      ensures r.values[i] == MergeFrom(acc, b).values[i]
        <==> (i in Written(sc, x) && IsDefault(b.values[i]) ==> IsDefault(acc.values[i]))
    {
      assert Fits(sc[i], acc.values[i]) && Fits(sc[i], b.values[i]);
    }
    if forall i: nat :: i < |sc| ==> r.values[i] == MergeFrom(acc, b).values[i] {
      assert r.values == MergeFrom(acc, b).values;
    }
  }

  // ---------------------------------------------------------------- order, and where parsing stops

  /** The fields read one after the other: the slot of a known one, and the number of fields for an unknown one. */
  function SlotsRead(sc: Schema, input: Bytes): (r: seq<nat>)
    decreases |input|
  {
    match ReadField(sc, input)
    case Assign(i, _, rest) => [i] + SlotsRead(sc, rest)
    case Keep(_, rest) => [|sc|] + SlotsRead(sc, rest)
    case _ => []
  }

  /** The slots from k on that do not hold their default. */
  function Used(values: seq<Value>, k: nat): (r: seq<nat>)
    requires k <= |values|
    decreases |values| - k
  {
    if k == |values| then []
    else if IsDefault(values[k]) then Used(values, k + 1)
    else [k] + Used(values, k + 1)
  }

  predicate Ascends(s: seq<nat>) {
    forall i, j :: 0 <= i < j < |s| ==> s[i] < s[j]
  }

  lemma AscendsBefore(k: nat, rest: seq<nat>)
    requires Ascends(rest) && forall i: nat :: i in rest ==> k < i
    ensures Ascends([k] + rest)
  {
    var r := [k] + rest;
    forall i, j | 0 <= i < j < |r| ensures r[i] < r[j] {
      assert r[j] == rest[j - 1] && rest[j - 1] in rest;
      assert i > 0 ==> r[i] == rest[i - 1];
    }
  }

  lemma {:induction false} UsedAscends(values: seq<Value>, k: nat)
    requires k <= |values|
    ensures forall i: nat :: i in Used(values, k) <==> k <= i < |values| && !IsDefault(values[i])
    ensures Ascends(Used(values, k))
    decreases |values| - k
  {
    if k < |values| {
      hide IsDefault, Ascends;
      var rest := Used(values, k + 1);
      UsedAscends(values, k + 1);
      AscendsBefore(k, rest);
      assert forall i: nat :: i in [k] + rest <==> i == k || i in rest;
    }
  }

  lemma ReadsAssigned(sc: Schema, input: Bytes, i: nat, v: Value, rest: Bytes)
    requires ReadField(sc, input) == Assign(i, v, rest)
    ensures SlotsRead(sc, input) == [i] + SlotsRead(sc, rest)
  {
  }

  lemma {:induction false} FieldsInOrder(sc: Schema, values: seq<Value>, k: nat, tail: Bytes)
    requires Proper(sc) && |values| == |sc| && k <= |sc| && AllClean(values)
    requires forall i :: 0 <= i < |sc| ==> Fits(sc[i], values[i])
    ensures SlotsRead(sc, FieldsFrom(sc, values, k) + tail) == Used(values, k) + SlotsRead(sc, tail)
    decreases |sc| - k
  {
    hide ReadField, FieldBytes, ValidUtf8, Proper, IsDefault, SlotsRead;
    if k == |sc| {
      assert FieldsFrom(sc, values, k) + tail == tail;
    } else {
      var after := FieldsFrom(sc, values, k + 1) + tail;
      var input := FieldBytes(sc[k], values[k]) + after;
      assert FieldsFrom(sc, values, k) + tail == input;
      FieldsInOrder(sc, values, k + 1, tail);
      if IsDefault(values[k]) {
        DefaultUnwritten(sc[k], values[k]);
        assert input == after;
      } else {
        FieldRead(sc, k, values[k], after);
        ReadsAssigned(sc, input, k, values[k], after);
        assert [k] + (Used(values, k + 1) + SlotsRead(sc, tail)) == Used(values, k) + SlotsRead(sc, tail);
      }
    }
  }

  lemma {:induction false} UnknownsInOrder(sc: Schema, us: seq<Unknown>)
    requires AllForeign(sc, us)
    ensures SlotsRead(sc, UnknownBytes(us)) == seq(|us|, i => |sc|)
  {
    if us != [] {
      var rest := UnknownBytes(us[1..]);
      UnknownsInOrder(sc, us[1..]);
      UnknownRead(sc, us[0], rest);
      assert UnknownBytes(us) == UnknownField(us[0]) + rest;
      assert SlotsRead(sc, UnknownBytes(us)) == [|sc|] + SlotsRead(sc, rest);
    }
  }

  /** What is written are the fields that do not hold their default, each once, in the order of their
      numbers, and then the unknown ones. */
  lemma WrittenInOrder(sc: Schema, m: Message)
    requires Proper(sc) && Valid(sc, m) && AllClean(m.values)
    ensures SlotsRead(sc, Serialize(sc, m)) == Used(m.values, 0) + seq(|m.unknown|, i => |sc|)
    ensures forall i: nat :: i in Used(m.values, 0) <==> i < |sc| && !IsDefault(m.values[i])
    ensures Ascends(Used(m.values, 0))
  {
    UsedAscends(m.values, 0);
    FieldsInOrder(sc, m.values, 0, UnknownBytes(m.unknown));
    UnknownsInOrder(sc, m.unknown);
  }

  /** The tag at the start of the input: the low 32 bits of a varint. */
  ghost predicate Begins(input: Bytes, tag: nat) {
    ReadVarint(input).Got? && ReadVarint(input).value % 0x1_0000_0000 == tag
  }

  /** Parsing ends well at the end of the input, and not so well at a tag that is zero or cut short.
      It is refused at an end-group tag, at the wire types that do not exist, and at field number
      zero; a group is beyond this parser. */
  lemma ParsingStops(sc: Schema, input: Bytes, acc: Message)
    requires Proper(sc) && |acc.values| == |sc|
    ensures input == [] ==> MergePartial(sc, input, acc) == Done(acc, true)
    ensures input != [] && ReadVarint(input).Short? ==> MergePartial(sc, input, acc) == Done(acc, false)
    ensures Begins(input, 0) ==> MergePartial(sc, input, acc) == Done(acc, false)
    ensures forall tag: nat :: Begins(input, tag) ==>
      && (0 < tag < 8 || tag % 8 in {4, 6, 7} ==> MergePartial(sc, input, acc) == Failed)
      && (tag >= 8 && tag % 8 == 3 ==> MergePartial(sc, input, acc) == GroupMet)
  {
    forall tag: nat | Begins(input, tag) && (0 < tag < 8 || tag % 8 in {3, 4, 6, 7})
      ensures ReadField(sc, input) == if tag >= 8 && tag % 8 == 3 then Group else Bad
    {
      NoSuchTag(sc, tag);
    }
  }

  /** No known field has a tag below eight, or one of another wire type than varint and block. */
  lemma NoSuchTag(sc: Schema, tag: nat)
    requires Proper(sc) && (tag < 8 || tag % 8 !in {0, 2})
    ensures Slot(sc, tag) == |sc|
  {
  }

  /** Field 1 present and empty, as this writer never writes it. */
  lemma EmptyFieldRead(sc: Schema)
    requires Proper(sc) && |sc| > 0 && sc[0] == Field(1, StringField)
    ensures ReadField(sc, [10, 0]) == Assign(0, Str([]), [])
  {
    VarintInverse(10, [0]);
    assert Varint(10) + [0] == [10, 0];
    SlotOf(sc, 0);
    BlockInverse([], []);
    assert Block([]) + [] == [0];
  }

  lemma EmptyInput(sc: Schema)
    ensures ReadField(sc, []) == Stop(true)
  {
  }

  /** Such bytes parse to the default message, yet reading them over a topic wipes it, where
      merging the default message leaves it. */
  lemma EmptyFieldIsNotMerging(topic: Bytes)
    requires 0 < |topic| < TWO31
    ensures var acc := Message([Str(topic), Str([])], []);
      && Parse(CONSUME_REQUEST, [10, 0]) == Done(Default(CONSUME_REQUEST), true)
      && MergePartial(CONSUME_REQUEST, [10, 0], acc) == Done(Default(CONSUME_REQUEST), true)
      && MergeFrom(acc, Default(CONSUME_REQUEST)) == acc
  {
    hide Tags, Proper, ReadField;
    RequestTables();
    var sc := CONSUME_REQUEST;
    EmptyFieldRead(sc);
    EmptyInput(sc);
    var acc := Message([Str(topic), Str([])], []);
    var empty := [Str([]), Str([])];
    assert Defaults(sc) == empty;
    assert acc.values[0 := Str([])] == empty && empty[0 := Str([])] == empty;
    assert MergeValues(acc.values, empty) == acc.values;
  }
}
