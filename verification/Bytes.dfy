/** Fixed-width integers, byte strings, and the two result shapes shared by every module. */
module Bytes {

  type byte = n: int | 0 <= n < 0x100
  type u32 = n: int | 0 <= n < 0x1_0000_0000
  type u64 = n: int | 0 <= n < 0x1_0000_0000_0000_0000
  type i64 = n: int | -0x8000_0000_0000_0000 <= n < 0x8000_0000_0000_0000
  type u128 = n: int | 0 <= n < 0x1_0000_0000_0000_0000_0000_0000_0000_0000

  const U64_MODULUS := 0x1_0000_0000_0000_0000
  const I64_MAX := 0x7FFF_FFFF_FFFF_FFFF

  /** A C++ string: a sequence of bytes, with no encoding attached. */
  type Text = seq<byte>

  datatype Option<+T> = None | Some(value: T)

  datatype Result<+T> = Ok(value: T) | Err(code: StatusCode)

  /** The status codes the modelled operations report. */
  datatype StatusCode =
    | StatusOk
    | InvalidArgument
    | OutOfRange
    | Unsupported
    | ResourceExhausted
    | TooLarge
    | DepthExceeded
    | MalformedInput
    | VersionMismatch
    | Corrupt
    | FencedSequence
    | FencedIncarnation
    | FencedStaleGeneration
    | FencedStaleEpoch
    | FencedAuthority
    | FencedRevision
    | FencedDuplicateContent
    | ClockInconsistent
    | FabricMismatch
    | SourceUnknown
    | QueueFull
    | ShuttingDown

  /** The bytes of an ASCII literal. */
  function Ascii(s: string): (r: Text)
    ensures |r| == |s|
    ensures forall i :: 0 <= i < |s| ==> r[i] == (s[i] as int) % 256
  {
    seq(|s|, i requires 0 <= i < |s| => (s[i] as int) % 256)
  }

  lemma Regroup<T>(a: seq<T>, b: seq<T>, c: seq<T>)
    ensures a + b + c == a + (b + c)
  {
  }

  lemma RegroupMiddle<T>(a: seq<T>, b: seq<T>, c: seq<T>, d: seq<T>)
    ensures a + (b + c + d) == a + b + c + d
  {
  }

  /** The first n elements, or all of them. */
  function Upto<T>(s: seq<T>, n: nat): seq<T> { if |s| <= n then s else s[..n] }

  /** The last n elements, or all of them. */
  function Suffix<T>(s: seq<T>, n: nat): seq<T> { if |s| > n then s[|s| - n..] else s }

  function Min(a: int, b: int): int { if a < b then a else b }

  function Max(a: int, b: int): int { if a < b then b else a }

  /** Three-way comparison of integers: -1, 0 or 1. */
  function CompareInt(a: int, b: int): int {
    if a < b then -1 else if a == b then 0 else 1
  }

  /** Byte-wise lexicographic comparison, as std::string and std::vector compare. */
  function CompareText(a: Text, b: Text): int
    decreases |a|
  {
    if a == [] then (if b == [] then 0 else -1)
    else if b == [] then 1
    else if a[0] != b[0] then CompareInt(a[0], b[0])
    else CompareText(a[1..], b[1..])
  }

  lemma {:induction false} CompareTextLaws(a: Text, b: Text)
    ensures CompareText(a, b) == 0 <==> a == b
    ensures CompareText(a, b) == -CompareText(b, a)
    ensures -1 <= CompareText(a, b) <= 1
    decreases |a|
  {
    if a != [] && b != [] {
      CompareTextLaws(a[1..], b[1..]);
      if a[0] == b[0] && a[1..] == b[1..] {
        assert a == [a[0]] + a[1..] == b;
      }
    }
  }

  lemma {:induction false} CompareTextTransitive(a: Text, b: Text, c: Text)
    requires CompareText(a, b) <= 0 && CompareText(b, c) <= 0
    ensures CompareText(a, c) <= 0
    decreases |a|
  {
    if a != [] && b != [] && c != [] && a[0] == b[0] == c[0] {
      CompareTextTransitive(a[1..], b[1..], c[1..]);
    }
  }

  // ---- big-endian integers ----

  function Pow256(k: nat): (p: nat)
    ensures p > 0
  {
    if k == 0 then 1 else 256 * Pow256(k - 1)
  }

  /** The k low-order bytes of n, most significant first. */
  function BigEndian(n: nat, k: nat): (r: Text)
    ensures |r| == k
  {
    if k == 0 then [] else BigEndian(n / 256, k - 1) + [n % 256]
  }

  /** The number a big-endian byte string denotes. */
  function FromBigEndian(s: Text): (n: nat)
  {
    if s == [] then 0 else FromBigEndian(s[..|s| - 1]) * 256 + s[|s| - 1]
  }

  lemma {:induction false} FromBigEndianBound(s: Text)
    ensures FromBigEndian(s) < Pow256(|s|)
  {
    if s != [] {
      FromBigEndianBound(s[..|s| - 1]);
    }
  }

  lemma {:induction false} BigEndianRoundTrip(n: nat, k: nat)
    requires n < Pow256(k)
    ensures FromBigEndian(BigEndian(n, k)) == n
  {
    if k > 0 {
      BigEndianRoundTrip(n / 256, k - 1);
      var r := BigEndian(n, k);
      assert r[..|r| - 1] == BigEndian(n / 256, k - 1);
    }
  }

  /** The other direction: the integer codec is a bijection on k-byte strings. */
  lemma {:induction false} FromBigEndianRoundTrip(s: Text)
    ensures BigEndian(FromBigEndian(s), |s|) == s
  {
    if s != [] {
      var front, last := s[..|s| - 1], s[|s| - 1];
      FromBigEndianRoundTrip(front);
      var n := FromBigEndian(s);
      assert n / 256 == FromBigEndian(front) && n % 256 == last;
      assert s == front + [last];
    }
  }

  lemma Pow256Values()
    ensures Pow256(4) == 0x1_0000_0000
    ensures Pow256(8) == U64_MODULUS
    ensures Pow256(16) == 0x1_0000_0000_0000_0000_0000_0000_0000_0000
  {
    assert Pow256(2) == 0x1_0000;
    assert Pow256(4) == 0x1_0000_0000;
    assert Pow256(6) == 0x1_0000_0000_0000;
    assert Pow256(8) == U64_MODULUS;
    assert Pow256(10) == 0x1_0000_0000_0000_0000_0000;
    assert Pow256(12) == 0x1_0000_0000_0000_0000_0000_0000;
    assert Pow256(14) == 0x1_0000_0000_0000_0000_0000_0000_0000;
  }
}
