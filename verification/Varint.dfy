/**
 The field encoders of the protobuf fixtures: two loops for base-128 varints, and the stream
 of tagged fields they build. Bytes are numbers below 256.
 */
module Varint {
  import opened Prelude

  type Bytes = seq<nat>

  /** Base-128, least significant group first, continuation bit on all but the last byte. */
  function Varint(n: nat): (r: Bytes)
    ensures r != []
  {
    if n < 128 then [n] else [n % 128 + 128] + Varint(n / 128)
  }

  /** `b | 0x80` on a byte. */
  function OrHighBit(b: nat): nat { if b < 128 then b + 128 else b }

  lemma OrHighBitOfByte(t: nat)
    ensures OrHighBit(t % 256) == t % 128 + 128
  {
  }

  /** Compare, push, shift. */
  method PushVarintCompare(buf: Bytes, n: nat) returns (out: Bytes)
    ensures out == buf + Varint(n)
  {
    out := buf;
    var t := n;
    while true
      invariant out + Varint(t) == buf + Varint(n)
      decreases t
    {
      if t < 128 {
        out := out + [t];
        return;
      }
      OrHighBitOfByte(t);
      out := out + [OrHighBit(t % 256)];
      t := t / 128;
    }
  }

  /** Mask, shift, test. */
  method PushVarintMask(buf: Bytes, n: nat) returns (out: Bytes)
    ensures out == buf + Varint(n)
  {
    out := buf;
    var t := n;
    while true
      invariant out + Varint(t) == buf + Varint(n)
      decreases t
    {
      var b := t % 128;
      t := t / 128;
      if t == 0 {
        out := out + [b];
        return;
      }
      out := out + [OrHighBit(b)];
    }
  }

  // ---- Fields ---------------------------------------------------------------------------------

  /** `(field << 3) | wire` in 32 bits: the high bits of the field number fall off. */
  function Tag(field: nat, wire: nat): nat
    requires wire < 8
  {
    field * 8 % 0x1_0000_0000 + wire
  }

  /** `value as u64` of an i32: sign extension. */
  function SignExtend(value: int): nat
    requires -0x8000_0000 <= value < 0x8000_0000
  {
    if value >= 0 then value else value + 0x1_0000_0000_0000_0000
  }

  datatype Field = Block(number: nat, data: Bytes) | Number(number: nat, value: int)

  predicate IsI32(value: int) { -0x8000_0000 <= value < 0x8000_0000 }

  predicate Encodable(f: Field) { f.Number? ==> IsI32(f.value) }

  /** The wire form of one field. */
  function FieldBytes(f: Field): Bytes
    requires Encodable(f)
  {
    match f
    case Block(number, data) => Varint(Tag(number, 2)) + Varint(|data|) + data
    case Number(number, value) => Varint(Tag(number, 0)) + Varint(SignExtend(value))
  }

  /** Both `encode_lv` loops emit the same bytes, for every field number and payload. */
  method EncodeLvCompare(field: nat, data: Bytes) returns (buf: Bytes)
    requires field < 0x1_0000_0000
    ensures buf == FieldBytes(Block(field, data))
  {
    var tag := field * 8 % 0x1_0000_0000 + 2;
    buf := PushVarintCompare([], tag);
    assert buf == Varint(tag);
    buf := PushVarintCompare(buf, |data|);
    assert buf == Varint(tag) + Varint(|data|);
    buf := buf + data;
  }

  method EncodeLvMask(field: nat, data: Bytes) returns (out: Bytes)
    requires field < 0x1_0000_0000
    ensures out == FieldBytes(Block(field, data))
  {
    var tag := field * 8 % 0x1_0000_0000 + 2;
    out := PushVarintMask([], tag);
    assert out == Varint(tag);
    out := PushVarintMask(out, |data|);
    assert out == Varint(tag) + Varint(|data|);
    out := out + data;
  }

  method EncodeVarintField(field: nat, value: int) returns (buf: Bytes)
    requires field < 0x1_0000_0000 && IsI32(value)
    ensures buf == FieldBytes(Number(field, value))
  {
    var tag := field * 8 % 0x1_0000_0000;
    var v := if value >= 0 then value else value + 0x1_0000_0000_0000_0000;
    assert tag == Tag(field, 0) && v == SignExtend(value);
    buf := PushVarintCompare([], tag);
    assert buf == Varint(tag);
    buf := PushVarintCompare(buf, v);
  }

  // ---- Reading back ---------------------------------------------------------------------------

  function ReadVarint(b: Bytes): (r: Option<(nat, Bytes)>)
    ensures r.Some? ==> |r.value.1| < |b|
  {
    if b == [] then None
    else if b[0] < 128 then Some((b[0], b[1..]))
    else
      var rest := ReadVarint(b[1..]);
      if rest.None? then None else Some((b[0] - 128 + 128 * rest.value.0, rest.value.1))
  }

  lemma {:induction false} ReadOfVarint(n: nat, rest: Bytes)
    ensures ReadVarint(Varint(n) + rest) == Some((n, rest))
  {
    var b := Varint(n) + rest;
    if n < 128 {
      assert b[1..] == rest;
    } else {
      assert b[1..] == Varint(n / 128) + rest;
      ReadOfVarint(n / 128, rest);
    }
  }

  function ReadField(b: Bytes): (r: Option<(Field, Bytes)>)
    ensures r.Some? ==> |r.value.1| < |b|
  {
    var tag := ReadVarint(b);
    if tag.None? then None
    else
      var number, wire := tag.value.0 / 8, tag.value.0 % 8;
      var n := ReadVarint(tag.value.1);
      if n.None? then None
      else if wire == 0 then
        Some((Number(number, if n.value.0 >= 0x8000_0000_0000_0000 then n.value.0 - 0x1_0000_0000_0000_0000 else n.value.0), n.value.1))
      else if wire == 2 && n.value.0 <= |n.value.1| then
        Some((Block(number, n.value.1[..n.value.0]), n.value.1[n.value.0..]))
      else None
  }

  function ReadFields(b: Bytes): Option<seq<Field>>
    decreases |b|
  {
    if b == [] then Some([])
    else
      var f := ReadField(b);
      if f.None? then None
      else
        var rest := ReadFields(f.value.1);
        if rest.None? then None else Some([f.value.0] + rest.value)
  }

  function Stream(fs: seq<Field>): Bytes
    requires forall i :: 0 <= i < |fs| ==> Encodable(fs[i])
  {
    if fs == [] then [] else FieldBytes(fs[0]) + Stream(fs[1..])
  }

  /** What a 32-bit tag keeps of a field: its number loses all but 29 bits. */
  function Kept(f: Field): Field { f.(number := f.number % 0x2000_0000) }

  lemma TagKeeps(number: nat, wire: nat)
    requires wire < 8
    ensures Tag(number, wire) / 8 == number % 0x2000_0000
    ensures Tag(number, wire) % 8 == wire
  {
  }

  lemma ReadOfBlock(number: nat, data: Bytes, rest: Bytes)
    ensures ReadField(FieldBytes(Block(number, data)) + rest) == Some((Kept(Block(number, data)), rest))
  {
    var tag := Tag(number, 2);
    var tail := Varint(|data|) + (data + rest);
    assert FieldBytes(Block(number, data)) + rest == Varint(tag) + tail;
    ReadOfVarint(tag, tail);
    ReadOfVarint(|data|, data + rest);
    TagKeeps(number, 2);
  }

  lemma ReadOfNumber(number: nat, value: int, rest: Bytes)
    requires IsI32(value)
    ensures ReadField(FieldBytes(Number(number, value)) + rest) == Some((Kept(Number(number, value)), rest))
  {
    var tag, n := Tag(number, 0), SignExtend(value);
    var tail := Varint(n) + rest;
    assert FieldBytes(Number(number, value)) + rest == Varint(tag) + tail;
    ReadOfVarint(tag, tail);
    ReadOfVarint(n, rest);
    TagKeeps(number, 0);
  }

  lemma ReadOfField(f: Field, rest: Bytes)
    requires Encodable(f)
    ensures ReadField(FieldBytes(f) + rest) == Some((Kept(f), rest))
  {
    match f
    case Block(number, data) => ReadOfBlock(number, data, rest);
    case Number(number, value) => ReadOfNumber(number, value, rest);
  }

  lemma ReadFieldsStep(b: Bytes, f: Field, rest: Bytes)
    requires ReadField(b) == Some((f, rest)) && ReadFields(rest).Some?
    ensures ReadFields(b) == Some([f] + ReadFields(rest).value)
  {
  }

  lemma ReadFieldsOfField(f: Field, rest: Bytes)
    requires Encodable(f) && ReadFields(rest).Some?
    ensures ReadFields(FieldBytes(f) + rest) == Some([Kept(f)] + ReadFields(rest).value)
  {
    ReadOfField(f, rest);
    ReadFieldsStep(FieldBytes(f) + rest, Kept(f), rest);
  }

  function AllKept(fs: seq<Field>): seq<Field> { seq(|fs|, i requires 0 <= i < |fs| => Kept(fs[i])) }

  /** Any concatenation of fields decodes uniquely, up to the number bits the tag drops. */
  lemma {:induction false} StreamDecodes(fs: seq<Field>)
    requires forall i :: 0 <= i < |fs| ==> Encodable(fs[i])
    ensures ReadFields(Stream(fs)) == Some(AllKept(fs))
  {
    if fs != [] {
      StreamDecodes(fs[1..]);
      ReadFieldsOfField(fs[0], Stream(fs[1..]));
      assert AllKept(fs) == [Kept(fs[0])] + AllKept(fs[1..]);
    }
  }

  lemma KeptIsSame(fs: seq<Field>)
    ensures AllKept(fs) == fs <==> forall i :: 0 <= i < |fs| ==> fs[i].number < 0x2000_0000
  {
    assert forall i :: 0 <= i < |fs| ==> (AllKept(fs)[i] == fs[i] <==> fs[i].number < 0x2000_0000);
  }

  /** So decoding gives back what was encoded exactly when every field number is below 2^29. */
  lemma StreamRoundTrip(fs: seq<Field>)
    requires forall i :: 0 <= i < |fs| ==> Encodable(fs[i])
    ensures ReadFields(Stream(fs)) == Some(fs) <==> forall i :: 0 <= i < |fs| ==> fs[i].number < 0x2000_0000
  {
    StreamDecodes(fs);
    KeptIsSame(fs);
  }

  // ---- Length ---------------------------------------------------------------------------------

  function Pow128(k: nat): nat { if k == 0 then 1 else 128 * Pow128(k - 1) }

  /** A value takes as many bytes as it has groups of seven bits, and at least one. */
  lemma {:induction false} VarintLength(n: nat, k: nat)
    requires k >= 1
    ensures |Varint(n)| == k <==> n < Pow128(k) && (k == 1 || Pow128(k - 1) <= n)
    decreases n
  {
    if n >= 128 {
      if k > 1 {
        VarintLength(n / 128, k - 1);
      }
    } else if k > 1 {
      Pow128AtLeast(k - 1);
    }
  }

  lemma {:induction false} Pow128AtLeast(k: nat)
    requires k >= 1
    ensures Pow128(k) >= 128
  {
    if k > 1 { Pow128AtLeast(k - 1); }
  }

  /** A negative 32-bit value always takes ten bytes. */
  lemma NegativeTakesTen(value: int)
    requires IsI32(value) && value < 0
    ensures |Varint(SignExtend(value))| == 10
  {
    assert Pow128(4) == 0x1000_0000;
    assert Pow128(8) == 0x100_0000_0000_0000 by { assert Pow128(6) == 128 * 128 * Pow128(4); }
    assert Pow128(10) == 128 * 128 * Pow128(8);
    VarintLength(SignExtend(value), 10);
  }
}
