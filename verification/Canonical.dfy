/** The canonical binary encoding: big-endian integers, length-prefixed byte strings, and a reader
    that poisons itself on the first failed read (src/canonical.cpp). */
module Canonical {
  import opened Bytes

  // ---- what the writer emits ----

  function PutU32(n: u32): Text { BigEndian(n, 4) }

  function PutU64(n: u64): Text { BigEndian(n, 8) }

  /** Two's complement: the signed value reinterpreted as an unsigned one. */
  function ToUnsigned(n: i64): u64 { if n < 0 then n + U64_MODULUS else n }

  function ToSigned(n: u64): i64 { if n > I64_MAX then n - U64_MODULUS else n }

  function PutI64(n: i64): Text { PutU64(ToUnsigned(n)) }

  function PutBool(b: bool): Text { [if b then 1 else 0] }

  /** A C++ container never holds more than a size_t counts, so the length always fits. */
  function PutLength(n: nat): (r: Text)
    ensures |r| == 8
  {
    BigEndian(n, 8)
  }

  function PutBytes(data: Text): Text { PutLength(|data|) + data }

  function PutTag(tag: Text): Text { [|tag| % 256] + tag }

  // ---- what the reader accepts: a value and the bytes left over ----

  type Parsed<+T> = Result<(T, Text)>

  function Take(s: Text, count: nat): (r: Parsed<Text>)
    ensures r.Ok? ==> r.value.0 + r.value.1 == s
  {
    if count > |s| then Err(Corrupt) else Ok((s[..count], s[count..]))
  }

  function GetU8(s: Text): Parsed<byte> {
    if s == [] then Err(Corrupt) else Ok((s[0], s[1..]))
  }

  function GetU32(s: Text): Parsed<u32> {
    if |s| < 4 then Err(Corrupt)
    else FromBigEndianBound(s[..4]); Pow256Values(); Ok((FromBigEndian(s[..4]), s[4..]))
  }

  function GetU64(s: Text): Parsed<u64> {
    if |s| < 8 then Err(Corrupt)
    else FromBigEndianBound(s[..8]); Pow256Values(); Ok((FromBigEndian(s[..8]), s[8..]))
  }

  function GetI64(s: Text): Parsed<i64> {
    match GetU64(s)
    case Err(c) => Err(c)
    case Ok((n, rest)) => Ok((ToSigned(n), rest))
  }

  function GetBool(s: Text): Parsed<bool> {
    if s == [] || s[0] > 1 then Err(Corrupt) else Ok((s[0] == 1, s[1..]))
  }

  function GetBytes(s: Text): Parsed<Text> {
    match GetU64(s)
    case Err(c) => Err(c)
    case Ok((n, rest)) => Take(rest, n)
  }

  function GetTag(s: Text, expected: Text): Parsed<()> {
    if s == [] then Err(Corrupt)
    else match Take(s[1..], s[0])
      case Err(c) => Err(c)
      case Ok((actual, rest)) => if actual != expected then Err(Corrupt) else Ok(((), rest))
  }

  function ExpectU8(s: Text, expected: byte): Parsed<()> {
    if s == [] then Err(Corrupt)
    else if s[0] != expected then Err(VersionMismatch)
    else Ok(((), s[1..]))
  }

  // ---- reading back what was written, whatever follows ----

  lemma GetPutU32(n: u32, rest: Text)
    ensures GetU32(PutU32(n) + rest) == Ok((n, rest))
  {
    Pow256Values();
    BigEndianRoundTrip(n, 4);
    assert (PutU32(n) + rest)[..4] == PutU32(n);
  }

  lemma GetPutU64(n: u64, rest: Text)
    ensures GetU64(PutU64(n) + rest) == Ok((n, rest))
  {
    Pow256Values();
    BigEndianRoundTrip(n, 8);
    assert (PutU64(n) + rest)[..8] == PutU64(n);
  }

  lemma GetPutI64(n: i64, rest: Text)
    ensures GetI64(PutI64(n) + rest) == Ok((n, rest))
  {
    GetPutU64(ToUnsigned(n), rest);
  }

  lemma GetPutBool(b: bool, rest: Text)
    ensures GetBool(PutBool(b) + rest) == Ok((b, rest))
  {
    assert (PutBool(b) + rest)[1..] == rest;
  }

  lemma GetPutBytes(data: Text, rest: Text)
    requires |data| < U64_MODULUS
    ensures GetBytes(PutBytes(data) + rest) == Ok((data, rest))
  {
    GetPutU64(|data|, data + rest);
    assert PutBytes(data) + rest == PutU64(|data|) + (data + rest);
    assert (data + rest)[..|data|] == data;
  }

  lemma GetPutTag(tag: Text, rest: Text)
    requires |tag| < 256
    ensures GetTag(PutTag(tag) + rest, tag) == Ok(((), rest))
  {
    var s := PutTag(tag) + rest;
    assert s[1..] == tag + rest;
    assert (tag + rest)[..|tag|] == tag;
  }

  lemma ShiftsAreBigEndian(n: u32)
    ensures BigEndian(n, 4)
         == [n / 0x100_0000 % 256, n / 0x1_0000 % 256, n / 0x100 % 256, n % 256]
  {
    assert BigEndian(n, 1) == [n % 256];
    assert BigEndian(n / 0x100_0000, 1) == [n / 0x100_0000 % 256];
    assert n / 256 / 256 == n / 0x1_0000 && n / 0x1_0000 / 256 == n / 0x100_0000;
    assert BigEndian(n / 0x1_0000, 2) == [n / 0x100_0000 % 256, n / 0x1_0000 % 256];
    assert BigEndian(n / 0x100, 3) == [n / 0x100_0000 % 256, n / 0x1_0000 % 256, n / 0x100 % 256];
  }

  lemma PushByte(s: Text, b: byte)
    ensures FromBigEndian(s + [b]) == FromBigEndian(s) * 256 + b
  {
    assert (s + [b])[..|s|] == s;
  }

  lemma AppendWord(a: Text, w: byte, x: byte, y: byte, z: byte)
    ensures FromBigEndian(a + [w, x, y, z])
         == FromBigEndian(a) * 0x1_0000_0000 + w * 0x100_0000 + x * 0x1_0000 + y * 0x100 + z
  {
    PushByte(a, w);
    PushByte(a + [w], x);
    PushByte(a + [w] + [x], y);
    PushByte(a + [w] + [x] + [y], z);
    assert a + [w, x, y, z] == a + [w] + [x] + [y] + [z];
  }

  /** A 64-bit field written as two 32-bit halves is one big-endian number. */
  lemma WordsAreBigEndian(n: u64)
    ensures PutU64(n) == PutU32(n / 0x1_0000_0000) + PutU32(n % 0x1_0000_0000)
  {
    var hi, lo := n / 0x1_0000_0000, n % 0x1_0000_0000;
    var s := PutU32(hi) + PutU32(lo);
    ShiftsAreBigEndian(lo);
    Pow256Values();
    BigEndianRoundTrip(hi, 4);
    BigEndianRoundTrip(lo, 4);
    var l := PutU32(lo);
    assert l == [l[0], l[1], l[2], l[3]];
    AppendWord(PutU32(hi), l[0], l[1], l[2], l[3]);
    AppendWord([], l[0], l[1], l[2], l[3]);
    assert [] + [l[0], l[1], l[2], l[3]] == l;
    FromBigEndianRoundTrip(s);
  }

  /** The encoder: an append-only byte buffer. */
  class CanonicalEncoder {
    var bytes: Text

    constructor ()
      ensures bytes == []
    {
      bytes := [];
    }

    method U8(value: byte)
      modifies this
      ensures bytes == old(bytes) + [value]
    {
      bytes := bytes + [value];
    }

    method U32(value: u32)
      modifies this
      ensures bytes == old(bytes) + PutU32(value)
    {
      U8(value / 0x100_0000 % 256);
      U8(value / 0x1_0000 % 256);
      U8(value / 0x100 % 256);
      U8(value % 256);
      ShiftsAreBigEndian(value);
    }

    method U64(value: u64)
      modifies this
      ensures bytes == old(bytes) + PutU64(value)
    {
      U32(value / 0x1_0000_0000);
      U32(value % 0x1_0000_0000);
      WordsAreBigEndian(value);
    }

    method I64(value: i64)
      modifies this
      ensures bytes == old(bytes) + PutI64(value)
    {
      U64(ToUnsigned(value));
    }

    method Boolean(value: bool)
      modifies this
      ensures bytes == old(bytes) + PutBool(value)
    {
      U8(if value then 1 else 0);
    }

    method Raw(data: Text)
      modifies this
      ensures bytes == old(bytes) + data
    {
      bytes := bytes + data;
    }

    method PutBlob(data: Text)
      requires |data| < U64_MODULUS
      modifies this
      ensures bytes == old(bytes) + PutBytes(data)
    {
      U64(|data|);
      Raw(data);
    }

    method Tag(value: Text)
      modifies this
      ensures bytes == old(bytes) + PutTag(value)
    {
      U8(|value| % 256);
      Raw(value);
    }
  }

  /** The decoder: a cursor over fixed input. Once a read fails, every later read fails. */
  class CanonicalDecoder {
    const data: Text
    var position: nat
    var ok: bool

    ghost predicate Valid()
      reads this
    {
      position <= |data|
    }

    ghost function Rest(): Text
      reads this
      requires Valid()
    {
      data[position..]
    }

    constructor (input: Text)
      ensures Valid() && ok && data == input && Rest() == input
    {
      data := input;
      position := 0;
      ok := true;
    }

    /** Whether a read that started in a healthy decoder at rest did what parsed says. */
    ghost predicate Reads<T>(was: Text, parsed: Parsed<T>, r: Result<T>)
      reads this
    {
      Valid() &&
      match parsed
      case Ok((v, left)) => r == Ok(v) && ok && Rest() == left
      case Err(c) => r == Err(c)
    }

    method TakeBytes(count: nat) returns (r: Result<Text>)
      requires Valid()
      modifies this`position, this`ok
      ensures old(ok) ==> Reads(old(Rest()), Take(old(Rest()), count), r)
      ensures !old(ok) ==> r == Err(Corrupt) && Valid()
      ensures ok <==> r.Ok?
    {
      if !ok {
        return Err(Corrupt);
      }
      if count > |data| - position {
        ok := false;
        return Err(Corrupt);
      }
      r := Ok(data[position..position + count]);
      assert data[position..][..count] == data[position..position + count];
      assert data[position..][count..] == data[position + count..];
      position := position + count;
    }

    method U8() returns (r: Result<byte>)
      requires Valid()
      modifies this`position, this`ok
      ensures old(ok) ==> Reads(old(Rest()), GetU8(old(Rest())), r)
      ensures !old(ok) ==> r == Err(Corrupt) && Valid()
      ensures ok <==> r.Ok?
    {
      var slice := TakeBytes(1);
      match slice
      case Err(c) => r := Err(c);
      case Ok(s) => r := Ok(s[0]);
    }

    /** The shift-and-or loop of the fixed-width reads. */
    method Accumulate(slice: Text) returns (value: nat)
      ensures value == FromBigEndian(slice)
    {
      value := 0;
      for i := 0 to |slice|
        invariant value == FromBigEndian(slice[..i])
      {
        assert slice[..i + 1][..i] == slice[..i];
        value := value * 256 + slice[i];
      }
      assert slice[..|slice|] == slice;
    }

    method U32() returns (r: Result<u32>)
      requires Valid()
      modifies this`position, this`ok
      ensures old(ok) ==> Reads(old(Rest()), GetU32(old(Rest())), r)
      ensures !old(ok) ==> r == Err(Corrupt) && Valid()
      ensures ok <==> r.Ok?
    {
      var slice := TakeBytes(4);
      match slice
      case Err(c) => r := Err(c);
      case Ok(s) =>
        var n := Accumulate(s);
        FromBigEndianBound(s);
        Pow256Values();
        r := Ok(n);
    }

    method U64() returns (r: Result<u64>)
      requires Valid()
      modifies this`position, this`ok
      ensures old(ok) ==> Reads(old(Rest()), GetU64(old(Rest())), r)
      ensures !old(ok) ==> r == Err(Corrupt) && Valid()
      ensures ok <==> r.Ok?
    {
      var slice := TakeBytes(8);
      match slice
      case Err(c) => r := Err(c);
      case Ok(s) =>
        var n := Accumulate(s);
        FromBigEndianBound(s);
        Pow256Values();
        r := Ok(n);
    }

    method I64() returns (r: Result<i64>)
      requires Valid()
      modifies this`position, this`ok
      ensures old(ok) ==> Reads(old(Rest()), GetI64(old(Rest())), r)
      ensures !old(ok) ==> r == Err(Corrupt) && Valid()
      ensures ok <==> r.Ok?
    {
      var n := U64();
      match n
      case Err(c) => r := Err(c);
      case Ok(v) => r := Ok(ToSigned(v));
    }

    method Boolean() returns (r: Result<bool>)
      requires Valid()
      modifies this`position, this`ok
      ensures old(ok) ==> Reads(old(Rest()), GetBool(old(Rest())), r)
      ensures !old(ok) ==> r == Err(Corrupt) && Valid()
      ensures ok <==> r.Ok?
    {
      var b := U8();
      match b
      case Err(c) => r := Err(c);
      case Ok(v) =>
        if v > 1 {
          ok := false;
          r := Err(Corrupt);
        } else {
          r := Ok(v == 1);
        }
    }

    method GetBlob() returns (r: Result<Text>)
      requires Valid()
      modifies this`position, this`ok
      ensures old(ok) ==> Reads(old(Rest()), GetBytes(old(Rest())), r)
      ensures !old(ok) ==> r == Err(Corrupt) && Valid()
      ensures ok <==> r.Ok?
    {
      var length := U64();
      match length
      case Err(c) => r := Err(c);
      case Ok(n) => r := TakeBytes(n);
    }

    method Tag(expected: Text) returns (r: Result<()>)
      requires Valid()
      modifies this`position, this`ok
      ensures old(ok) ==> Reads(old(Rest()), GetTag(old(Rest()), expected), r)
      ensures !old(ok) ==> r == Err(Corrupt) && Valid()
      ensures ok <==> r.Ok?
    {
      var length := U8();
      match length
      case Err(c) => r := Err(c);
      case Ok(n) =>
        var slice := TakeBytes(n);
        match slice
        case Err(c) => r := Err(c);
        case Ok(actual) =>
          if actual != expected {
            ok := false;
            r := Err(Corrupt);
          } else {
            r := Ok(());
          }
    }

    method Expect(expected: byte) returns (r: Result<()>)
      requires Valid()
      modifies this`position, this`ok
      ensures old(ok) ==> Reads(old(Rest()), ExpectU8(old(Rest()), expected), r)
      ensures !old(ok) ==> r == Err(Corrupt) && Valid()
      ensures ok <==> r.Ok?
    {
      var value := U8();
      match value
      case Err(c) => r := Err(c);
      case Ok(v) =>
        if v != expected {
          ok := false;
          r := Err(VersionMismatch);
        } else {
          r := Ok(());
        }
    }

    method Poison()
      requires Valid()
      modifies this`ok
      ensures !ok && Valid()
    {
      ok := false;
    }
  }
}
