/** The test the parser puts every string field to, and what passes it: exactly the encodings of
    Unicode scalar values, one after the other. */
module Utf8 {
  import opened Wire

  // ---------------------------------------------------------------- the test

  predicate Continuation(s: Bytes, k: nat) {
    k < |s| && 0x80 <= s[k] < 0xC0
  }

  /** Length of the well-formed sequence at the start of `s`, zero when there is none. */
  function RuneLength(s: Bytes): (r: nat)
    ensures r <= |s|
  {
    if s == [] then 0
    else if s[0] < 0x80 then 1
    else if 0xC2 <= s[0] < 0xE0 && Continuation(s, 1) then 2
    else if 0xE0 <= s[0] < 0xF0 && Continuation(s, 1) && Continuation(s, 2)
      && (s[0] == 0xE0 ==> s[1] >= 0xA0) && (s[0] == 0xED ==> s[1] < 0xA0) then 3
    else if 0xF0 <= s[0] < 0xF5 && Continuation(s, 1) && Continuation(s, 2) && Continuation(s, 3)
      && (s[0] == 0xF0 ==> s[1] >= 0x90) && (s[0] == 0xF4 ==> s[1] < 0x90) then 4
    else 0
  }

  predicate ValidUtf8(s: Bytes) {
    s == [] || (RuneLength(s) > 0 && ValidUtf8(s[RuneLength(s)..]))
  }

  // ---------------------------------------------------------------- the encoding

  /** A code point that is not a surrogate. */
  type Scalar = c: int | 0 <= c < 0xD800 || 0xE000 <= c < 0x11_0000

  /** The first byte holds the length in unary and the highest bits, every further byte six bits. */
  function Encode(c: Scalar): (r: Bytes) {
    var six: int, twelve: int, eighteen: int := c / 64, c / 64 / 64, c / 64 / 64 / 64;
    if c < 0x80 then var first: Byte := c; [first]
    else if c < 0x800 then var first: Byte := 0xC0 + six; [first, More(c)]
    else if c < 0x1_0000 then var first: Byte := 0xE0 + twelve; [first, More(six), More(c)]
    else var first: Byte := 0xF0 + eighteen; [first, More(twelve), More(six), More(c)]
  }

  function More(bits: nat): (r: Byte) {
    0x80 + bits % 64
  }

  function EncodeAll(text: seq<Scalar>): (r: Bytes) {
    if text == [] then [] else Encode(text[0]) + EncodeAll(text[1..])
  }

  // ---------------------------------------------------------------- the test is exact

  lemma EncodedIsRune(c: Scalar, tail: Bytes)
    ensures RuneLength(Encode(c) + tail) == |Encode(c)| > 0
  {
    var s := Encode(c) + tail;
    assert forall k :: 0 <= k < |Encode(c)| ==> s[k] == Encode(c)[k];
  }

  /** The code point that a sequence of one to four bytes stands for. */
  function Decode(s: Bytes): (c: int)
    requires 1 <= |s| <= 4
  {
    var a: int := s[0];
    if |s| == 1 then a
    else
      var b: int := s[1] % 64;
      if |s| == 2 then (a - 0xC0) * 64 + b
      else
        var d: int := s[2] % 64;
        if |s| == 3 then ((a - 0xE0) * 64 + b) * 64 + d
        else
          var e: int := s[3] % 64;
          (((a - 0xF0) * 64 + b) * 64 + d) * 64 + e
  }

  lemma RuneIsEncoded(s: Bytes)
    requires RuneLength(s) > 0
    ensures RuneLength(s) <= 4
    ensures var c := Decode(s[..RuneLength(s)]); 0 <= c < 0xD800 || 0xE000 <= c < 0x11_0000
    ensures Encode(Decode(s[..RuneLength(s)])) == s[..RuneLength(s)]
  {
    var rune := s[..RuneLength(s)];
    assert forall k :: 0 <= k < |rune| ==> rune[k] == s[k];
    if |rune| == 2 {
      TwoBytes(rune);
    } else if |rune| == 3 {
      ThreeBytes(rune);
    } else if |rune| == 4 {
      FourBytes(rune);
    }
  }

  lemma TwoBytes(s: Bytes)
    requires |s| == 2 && RuneLength(s) == 2
    ensures 0x80 <= Decode(s) < 0x800 && Encode(Decode(s)) == s
  {
    var a: int := s[0];
    SixBits(a - 0xC0, s[1]);
  }

  lemma ThreeBytes(s: Bytes)
    requires |s| == 3 && RuneLength(s) == 3
    ensures 0x800 <= Decode(s) < 0xD800 || 0xE000 <= Decode(s) < 0x1_0000
    ensures Encode(Decode(s)) == s
  {
    var a: int := s[0];
    var twelve := (a - 0xE0) * 64 + s[1] % 64;
    SixBits(a - 0xE0, s[1]);
    SixBits(twelve, s[2]);
  }

  lemma FourBytes(s: Bytes)
    requires |s| == 4 && RuneLength(s) == 4
    ensures 0x1_0000 <= Decode(s) < 0x11_0000 && Encode(Decode(s)) == s
  {
    var a: int := s[0];
    var twelve := (a - 0xF0) * 64 + s[1] % 64;
    SixBits(a - 0xF0, s[1]);
    SixBits(twelve, s[2]);
    SixBits(twelve * 64 + s[2] % 64, s[3]);
  }

  /** Taking six bits off a code point takes the last byte off its sequence. */
  lemma SixBits(high: int, last: Byte)
    ensures (high * 64 + last % 64) % 64 == last % 64 && (high * 64 + last % 64) / 64 == high
  {
  }

  lemma EncodedIsDecoded(c: Scalar)
    ensures 1 <= |Encode(c)| <= 4 && Decode(Encode(c)) == c
  {
    var six: int, twelve: int := c / 64, c / 64 / 64;
    hide Decode, More;
    if c >= 0x1_0000 {
      DecodeFour(twelve / 64, twelve, six, c);
    } else if c >= 0x800 {
      DecodeThree(twelve, six, c);
    } else if c >= 0x80 {
      DecodeTwo(six, c);
    } else {
      DecodeOne(c);
    }
  }

  lemma DecodeOne(c: Byte)
    ensures Decode([c]) == c
  {
  }

  lemma DecodeTwo(six: nat, c: nat)
    requires six < 0x20 && six == c / 64
    ensures Decode([0xC0 + six, More(c)]) == c
  {
  }

  lemma DecodeThree(twelve: nat, six: nat, c: nat)
    requires twelve < 0x10 && twelve == six / 64 && six == c / 64
    ensures Decode([0xE0 + twelve, More(six), More(c)]) == c
  {
  }

  lemma DecodeFour(eighteen: nat, twelve: nat, six: nat, c: nat)
    requires eighteen < 0x08 && eighteen == twelve / 64 && twelve == six / 64 && six == c / 64
    ensures Decode([0xF0 + eighteen, More(twelve), More(six), More(c)]) == c
  {
  }

  lemma {:induction false} EncodedIsValid(text: seq<Scalar>)
    ensures ValidUtf8(EncodeAll(text))
  {
    if text != [] {
      EncodedIsRune(text[0], EncodeAll(text[1..]));
      var s := EncodeAll(text);
      assert s[|Encode(text[0])|..] == EncodeAll(text[1..]);
      EncodedIsValid(text[1..]);
    }
  }

  lemma EncodeMore(c: Scalar, text: seq<Scalar>)
    ensures EncodeAll([c] + text) == Encode(c) + EncodeAll(text)
  {
    assert ([c] + text)[1..] == text;
  }

  lemma FirstRune(s: Bytes) returns (c: Scalar, rest: Bytes)
    requires s != [] && ValidUtf8(s)
    ensures s == Encode(c) + rest && |rest| < |s| && ValidUtf8(rest)
  {
    RuneIsEncoded(s);
    c, rest := Decode(s[..RuneLength(s)]), s[RuneLength(s)..];
  }

  lemma {:induction false} ValidIsEncoded(s: Bytes) returns (text: seq<Scalar>)
    requires ValidUtf8(s)
    ensures EncodeAll(text) == s
  {
    text := [];
    if s != [] {
      hide Encode, ValidUtf8;
      var c, rest := FirstRune(s);
      text := ValidIsEncoded(rest);
      EncodeMore(c, text);
      text := [c] + text;
    }
  }

  /** A string field is accepted exactly when it is the encoding of some Unicode text. */
  lemma ValidExactly(s: Bytes)
    ensures ValidUtf8(s) <==> exists text :: EncodeAll(text) == s
  {
    if ValidUtf8(s) { var text := ValidIsEncoded(s); }
    if text :| EncodeAll(text) == s { EncodedIsValid(text); }
  }

  /** An encoding determines its text. */
  lemma {:induction false} EncodingIsUnique(a: seq<Scalar>, b: seq<Scalar>)
    requires EncodeAll(a) == EncodeAll(b)
    ensures a == b
  {
    if a != [] && b != [] {
      EncodedIsRune(a[0], EncodeAll(a[1..]));
      EncodedIsRune(b[0], EncodeAll(b[1..]));
      var n, s := |Encode(a[0])|, EncodeAll(a);
      assert s[..n] == Encode(a[0]) && s[..n] == Encode(b[0]);
      EncodeOnce(a[0], b[0]);
      assert s[n..] == EncodeAll(a[1..]) && s[n..] == EncodeAll(b[1..]);
      EncodingIsUnique(a[1..], b[1..]);
    } else if a != [] {
      EncodedIsRune(a[0], EncodeAll(a[1..]));
    } else if b != [] {
      EncodedIsRune(b[0], EncodeAll(b[1..]));
    }
  }

  lemma EncodeOnce(c: Scalar, d: Scalar)
    requires Encode(c) == Encode(d)
    ensures c == d
  {
    EncodedIsDecoded(c);
    EncodedIsDecoded(d);
  }
}
