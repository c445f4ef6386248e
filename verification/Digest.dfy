/** Streaming SHA-256 (src/digest.cpp): the compression function is a parameter; buffering, padding and
    chaining are modelled as they are (section 5.1.1 of FIPS 180-4). */
module Digest {
  import opened Bytes

  /** The eight chaining words. */
  type Chaining = s: seq<u32> | |s| == 8 witness [0, 0, 0, 0, 0, 0, 0, 0]

  type Compression = (Chaining, Text) -> Chaining

  const INITIAL: Chaining := [0x6a09e667, 0xbb67ae85, 0x3c6ef372, 0xa54ff53a, 0x510e527f, 0x9b05688c, 0x1f83d9ab, 0x5be0cd19]

  // ---- the hash as a function of the whole message ----

  /** The chaining value after every whole block of the data. */
  function Fold(compress: Compression, state: Chaining, data: Text): Chaining
    decreases |data|
  {
    if |data| < 64 then state else Fold(compress, compress(state, data[..64]), data[64..])
  }

  function Zeros(k: nat): (r: Text)
    ensures |r| == k
  {
    seq(k, _ => 0)
  }

  /** How many zero bytes bring the length to eight short of a whole block. */
  function ZeroCount(length: nat): (k: nat)
    ensures (length + 1 + k) % 64 == 56 && k < 64
  {
    (119 - length % 64) % 64
  }

  /** A one bit, zeros, and the message length in bits. */
  function Padding(length: nat): (r: Text)
    ensures |r| == 9 + ZeroCount(length)
  {
    [0x80] + Zeros(ZeroCount(length)) + BigEndian(8 * length % U64_MODULUS, 8)
  }

  function Padded(message: Text): Text { message + Padding(|message|) }

  function WordBytes(w: u32): (r: Text)
    ensures |r| == 4
  {
    BigEndian(w, 4)
  }

  function Serialized(words: seq<u32>): (r: Text)
    ensures |r| == 4 * |words|
  {
    if words == [] then [] else Serialized(words[..|words| - 1]) + WordBytes(words[|words| - 1])
  }

  function Sha256(compress: Compression, message: Text): (r: Text)
    ensures |r| == 32
  {
    Serialized(Fold(compress, INITIAL, Padded(message)))
  }

  // ---- the padding ----

  /** The padded message is whole blocks, carries the message and its length, and uses the fewest zeros. */
  lemma PaddingIsStandard(message: Text, k: nat)
    requires |message| < 0x2000_0000_0000_0000
    ensures |Padded(message)| % 64 == 0 && message <= Padded(message) && Padded(message)[|message|] == 0x80
    ensures FromBigEndian(Padded(message)[|Padded(message)| - 8..]) == 8 * |message|
    ensures (|message| + 1 + k) % 64 == 56 ==> ZeroCount(|message|) <= k
  {
    hide BigEndian, FromBigEndian, Padded, ZeroCount;
    PaddedShape(message);
    LengthBytes(message);
    hide Pow256;
    LengthReadsBack(|message|);
    if (|message| + 1 + k) % 64 == 56 {
      LeastZeros(|message|, k);
    }
  }

  lemma LeastZeros(length: nat, k: nat)
    requires (length + 1 + k) % 64 == 56
    ensures ZeroCount(length) <= k
  {
  }

  lemma PaddedShape(message: Text)
    ensures |Padded(message)| % 64 == 0 && message <= Padded(message) && Padded(message)[|message|] == 0x80
  {
    hide BigEndian, ZeroCount, Zeros;
    var k := ZeroCount(|message|);
    assert (|message| + 1 + k) % 64 == 56 && |Padded(message)| == |message| + 1 + k + 8;
  }

  lemma LengthReadsBack(n: nat)
    requires n < 0x2000_0000_0000_0000
    ensures FromBigEndian(BigEndian(8 * n % U64_MODULUS, 8)) == 8 * n
  {
    hide BigEndian, FromBigEndian;
    Pow256Values();
    hide Pow256;
    BigEndianRoundTrip(8 * n, 8);
    assert 8 * n % U64_MODULUS == 8 * n;
  }

  lemma LengthBytes(message: Text)
    ensures |Padded(message)| >= 9
    ensures Padded(message)[|Padded(message)| - 8..] == BigEndian(8 * |message| % U64_MODULUS, 8)
  {
    hide BigEndian;
  }

  /** Two messages whose padded forms end alike have lengths that agree modulo 2^61. */
  lemma SameLengthBytes(a: Text, b: Text)
    requires Padded(a)[|Padded(a)| - 8..] == Padded(b)[|Padded(b)| - 8..]
    ensures 8 * |a| % U64_MODULUS == 8 * |b| % U64_MODULUS
  {
    hide Padded, BigEndian, FromBigEndian;
    LengthBytes(a);
    LengthBytes(b);
    Pow256Values();
    BigEndianRoundTrip(8 * |a| % U64_MODULUS, 8);
    BigEndianRoundTrip(8 * |b| % U64_MODULUS, 8);
  }

  lemma PaddedStarts(a: Text)
    ensures |Padded(a)| == |a| + 9 + ZeroCount(|a|) && Padded(a)[..|a|] == a
  {
  }

  /** The padding is injective for messages of any length whatever, even where the length field wraps. */
  lemma PaddingIsInjective(a: Text, b: Text)
    requires Padded(a) == Padded(b)
    ensures a == b
  {
    hide Padded;
    SameLengthBytes(a, b);
    PaddedStarts(a);
    PaddedStarts(b);
    CloseMultiples(|a|, |b|);
  }

  /** No padded message is the tail of another, below the length the standard allows. */
  lemma PaddingIsSuffixFree(a: Text, b: Text)
    requires |a| < 0x2000_0000_0000_0000 && |b| < 0x2000_0000_0000_0000
    requires |Padded(a)| <= |Padded(b)| && Padded(b)[|Padded(b)| - |Padded(a)|..] == Padded(a)
    ensures a == b
  {
    hide Padded, ZeroCount;
    var pa, pb := Padded(a), Padded(b);
    PaddedStarts(a);
    PaddedStarts(b);
    LastEight(pa, pb);
    SameLengthBytes(a, b);
    assert pa == pb;
    PaddingIsInjective(a, b);
  }

  lemma LastEight(x: Text, y: Text)
    requires 8 <= |x| <= |y| && y[|y| - |x|..] == x
    ensures x[|x| - 8..] == y[|y| - 8..]
  {
    assert y[|y| - 8..] == y[|y| - |x|..][|x| - 8..];
  }

  lemma CloseMultiples(x: int, y: int)
    requires 8 * x % U64_MODULUS == 8 * y % U64_MODULUS && -128 < x - y < 128
    ensures x == y
  {
  }

  // ---- chaining ----

  /** Whole blocks and what follows them can be chained one after the other. */
  lemma {:induction false} FoldSplit(compress: Compression, state: Chaining, x: Text, y: Text)
    requires |x| % 64 == 0
    ensures Fold(compress, state, x + y) == Fold(compress, Fold(compress, state, x), y)
    decreases |x|
  {
    if x == [] {
      assert x + y == y;
    } else {
      assert (x + y)[..64] == x[..64] && (x + y)[64..] == x[64..] + y;
      FoldSplit(compress, compress(state, x[..64]), x[64..], y);
    }
  }

  /** What has not yet been compressed. */
  function Tail(fed: Text): (r: Text)
    ensures |r| == |fed| % 64
  {
    fed[|fed| - |fed| % 64..]
  }

  function Whole(fed: Text): (r: Text)
    ensures |r| % 64 == 0 && r + Tail(fed) == fed
  {
    fed[..|fed| - |fed| % 64]
  }

  /** Bytes that do not fill the block only join the tail. */
  lemma TailGrows(compress: Compression, state: Chaining, fed: Text, more: Text)
    requires |fed| % 64 + |more| < 64
    ensures Tail(fed + more) == Tail(fed) + more
    ensures Fold(compress, state, fed + more) == Fold(compress, state, fed)
  {
    hide Fold;
    var w, t := Whole(fed), Tail(fed);
    WholeAndTail(fed, more);
    hide Whole, Tail;
    FoldSplit(compress, state, w, t);
    FoldSplit(compress, state, w, t + more);
    NoWholeBlock(compress, Fold(compress, state, w), t);
    NoWholeBlock(compress, Fold(compress, state, w), t + more);
  }

  lemma NoWholeBlock(compress: Compression, state: Chaining, x: Text)
    requires |x| < 64
    ensures Fold(compress, state, x) == state
  {
  }

  lemma WholeAndTail(fed: Text, more: Text)
    ensures fed == Whole(fed) + Tail(fed) && fed + more == Whole(fed) + (Tail(fed) + more)
    ensures |Whole(fed)| % 64 == 0 && |Tail(fed)| == |fed| % 64
    ensures |fed| % 64 + |more| < 64 ==> Tail(fed + more) == Tail(fed) + more
  {
    assert fed == Whole(fed) + Tail(fed);
    if |fed| % 64 + |more| < 64 {
      assert |fed + more| % 64 == |fed| % 64 + |more|;
    }
  }

  /** Bytes that fill the block exactly are compressed together with the tail. */
  lemma BlockFills(compress: Compression, state: Chaining, fed: Text, more: Text)
    requires |fed| % 64 + |more| == 64
    ensures Tail(fed + more) == []
    ensures Fold(compress, state, fed + more) == compress(Fold(compress, state, fed), Tail(fed) + more)
  {
    var w, t := Whole(fed), Tail(fed);
    var block := t + more;
    assert fed + more == w + block;
    FoldSplit(compress, state, w, t);
    FoldSplit(compress, state, w, block);
    OneBlock(compress, Fold(compress, state, w), block);
  }

  lemma OneBlock(compress: Compression, state: Chaining, block: Text)
    requires |block| == 64
    ensures Fold(compress, state, block) == compress(state, block)
  {
    assert block[..64] == block && block[64..] == [];
  }

  // ---- the streaming hasher ----

  lemma PieceOf(start: Text, data: Text, from: nat, to: nat)
    requires from <= to <= |data|
    ensures start + data[..from] + data[from..to] == start + data[..to]
  {
  }

  class Hasher {
    const compress: Compression
    var state: Chaining
    const buffer: array<byte>
    var buffered: nat
    var totalBytes: u64
    var finalized: bool
    /** Every byte appended so far, padding included. */
    ghost var fed: Text

    /** The chaining words cover every whole block fed, and the buffer holds what is left. */
    ghost predicate Holds()
      reads this`state, this`buffered, this`fed, buffer
    {
      && buffer.Length == 64
      && buffered == |fed| % 64
      && buffer[..buffered] == Tail(fed)
      && state == Fold(compress, INITIAL, fed)
    }

    ghost predicate Valid()
      reads this`state, this`buffered, this`fed, this`totalBytes, buffer
    {
      Holds() && totalBytes == |fed| % U64_MODULUS
    }

    constructor (compress: Compression)
      ensures Valid() && fresh(buffer) && this.compress == compress && fed == [] && !finalized
    {
      this.compress := compress;
      state := INITIAL;
      buffer := new byte[64];
      buffered, totalBytes, finalized := 0, 0, false;
      fed := [];
    }

    /** Copies into the buffer from where it stands. */
    method Fill(data: Text)
      requires buffer.Length == 64 && buffered + |data| <= 64
      modifies this`buffered, buffer
      ensures buffered == old(buffered) + |data| && buffer[..buffered] == old(buffer[..buffered]) + data
    {
      forall i | 0 <= i < |data| {
        buffer[buffered + i] := data[i];
      }
      buffered := buffered + |data|;
    }

    /** Bytes that complete, or fail to complete, a block already begun. */
    method TopUp(data: Text) returns (cursor: nat)
      requires Holds() && buffered > 0
      modifies this`state, this`buffered, this`fed, buffer
      ensures Holds() && cursor <= |data| && fed == old(fed) + data[..cursor] && (cursor < |data| ==> buffered == 0)
    {
      hide Fold, Tail;
      var needed := 64 - buffered;
      cursor := if |data| < needed then |data| else needed;
      var taken := data[..cursor];
      ghost var start := fed;
      Fill(taken);
      fed := fed + taken;
      if buffered == 64 {
        BlockFills(compress, INITIAL, start, taken);
        assert buffer[..64] == buffer[..];
        state := compress(state, buffer[..]);
        buffered := 0;
        assert buffer[..0] == [];
      } else {
        TailGrows(compress, INITIAL, start, taken);
      }
    }

    /** A whole block straight from the input. */
    method CompressBlock(block: Text)
      requires Holds() && buffered == 0 && |block| == 64
      modifies this`state, this`fed
      ensures Holds() && buffered == 0 && fed == old(fed) + block
    {
      hide Fold, Tail;
      BlockFills(compress, INITIAL, fed, block);
      assert Tail(fed) + block == block;
      state := compress(state, block);
      fed := fed + block;
      assert buffer[..0] == [];
    }

    /** What does not fill a block stays in the buffer. */
    method Keep(rest: Text)
      requires Holds() && buffered == 0 && |rest| < 64
      modifies this`buffered, this`fed, buffer
      ensures Holds() && fed == old(fed) + rest
    {
      hide Fold, Tail;
      TailGrows(compress, INITIAL, fed, rest);
      assert buffer[..0] == [];
      Fill(rest);
      fed := fed + rest;
    }

    method Append(data: Text)
      requires Valid()
      modifies this`state, this`buffered, this`totalBytes, this`fed, buffer
      ensures Valid() && fed == old(fed) + data
    {
      hide Holds;
      ghost var start := fed;
      WrappedSum(|fed|, |data|);
      totalBytes := (totalBytes + |data|) % U64_MODULUS;
      var cursor := 0;
      if buffered > 0 {
        cursor := TopUp(data);
      }
      assert fed == start + data[..cursor];
      while |data| - cursor >= 64
        invariant Holds() && cursor <= |data| && fed == start + data[..cursor] && (cursor < |data| ==> buffered == 0)
        invariant totalBytes == (|start| + |data|) % U64_MODULUS
      {
        PieceOf(start, data, cursor, cursor + 64);
        CompressBlock(data[cursor..cursor + 64]);
        cursor := cursor + 64;
      }
      PieceOf(start, data, cursor, |data|);
      assert data[..|data|] == data;
      if cursor < |data| {
        assert data[cursor..|data|] == data[cursor..];
        Keep(data[cursor..]);
      }
    }

    method Update(data: Text)
      requires Valid() && !finalized
      modifies this`state, this`buffered, this`totalBytes, this`fed, buffer
      ensures Valid() && fed == old(fed) + data
    {
      Append(data);
    }

    /** The padding, fed through the same buffer: the loop ends with 56 bytes waiting. */
    method Pad()
      requires Valid()
      modifies this`state, this`buffered, this`totalBytes, this`fed, buffer
      ensures Valid() && buffered == 56 && fed == old(fed) + [0x80] + Zeros(ZeroCount(|old(fed)|))
    {
      hide Holds;
      ghost var message := fed;
      Append([0x80]);
      ghost var zeros: nat := 0;
      Counted();
      while buffered != 56
        invariant Valid() && buffered == |fed| % 64
        invariant zeros <= ZeroCount(|message|) && fed == message + [0x80] + Zeros(zeros)
        decreases ZeroCount(|message|) - zeros
      {
        assert Zeros(zeros) + [0] == Zeros(zeros + 1);
        Append([0]);
        Counted();
        zeros := zeros + 1;
      }
      LeastZeros(|message|, zeros);
    }

    lemma Counted()
      requires Holds()
      ensures buffered == |fed| % 64
    {
    }

    /** Pads, feeds the length, and returns the digest of everything updated so far, however it was cut. */
    method Finish() returns (digest: Text)
      requires Valid() && !finalized
      modifies this, buffer
      ensures digest == Sha256(compress, old(fed)) && finalized
      ensures Valid() && fed == Padded(old(fed)) && buffered == 0
    {
      hide Holds, Fold, Serialized, BigEndian, Padded, Zeros, ZeroCount;
      finalized := true;
      var totalBits := totalBytes * 8 % U64_MODULUS;
      LengthOfMessage(|fed|);
      var lengthBytes := LengthField(totalBits);
      ghost var message := fed;
      Pad();
      Counted();
      Append(lengthBytes);
      Counted();
      PaddingParts(message);
      Chained();
      digest := WriteState();
    }

    lemma Chained()
      requires Holds()
      ensures state == Fold(compress, INITIAL, fed)
    {
    }

    method WriteState() returns (digest: Text)
      requires Valid()
      ensures digest == Serialized(state)
    {
      digest := [];
      for index := 0 to 8
        invariant digest == Serialized(state[..index])
      {
        var w := state[index];
        ShiftedBytes(w);
        digest := digest + [w / 0x100_0000 % 256, w / 0x1_0000 % 256, w / 0x100 % 256, w % 256];
        assert state[..index + 1][..index] == state[..index];
      }
      assert state[..8] == state;
    }
  }

  lemma PaddingParts(message: Text)
    ensures Padded(message) == message + [0x80] + Zeros(ZeroCount(|message|)) + BigEndian(8 * |message| % U64_MODULUS, 8)
    ensures |Padded(message)| % 64 == 0
  {
    hide BigEndian, Zeros;
    RegroupMiddle(message, [0x80], Zeros(ZeroCount(|message|)), BigEndian(8 * |message| % U64_MODULUS, 8));
    BlockCount(|message|, ZeroCount(|message|));
  }

  lemma BlockCount(length: nat, zeros: nat)
    requires (length + 1 + zeros) % 64 == 56
    ensures (length + (9 + zeros)) % 64 == 0
  {
  }

  lemma WrappedSum(a: nat, b: nat)
    ensures (a % U64_MODULUS + b) % U64_MODULUS == (a + b) % U64_MODULUS
  {
  }

  lemma LengthOfMessage(length: nat)
    ensures (length % U64_MODULUS) * 8 % U64_MODULUS == 8 * length % U64_MODULUS
  {
  }

  /** The four bytes taken by shifting and masking are the big-endian word. */
  lemma ShiftedBytes(w: u32)
    ensures WordBytes(w) == [w / 0x100_0000 % 256, w / 0x1_0000 % 256, w / 0x100 % 256, w % 256]
  {
    assert w / 256 / 256 == w / 0x1_0000 && w / 256 / 256 / 256 == w / 0x100_0000;
    assert BigEndian(w, 4) == BigEndian(w / 256 / 256, 2) + [w / 256 % 256] + [w % 256];
  }

  function ShiftRight(n: nat, k: nat): nat { if k == 0 then n else ShiftRight(n / 256, k - 1) }

  lemma {:induction false} BigEndianFromRight(n: nat, k: nat, index: nat)
    requires index < k
    ensures BigEndian(n, k)[k - 1 - index] == ShiftRight(n, index) % 256
  {
    if index > 0 {
      BigEndianFromRight(n / 256, k - 1, index - 1);
    }
  }

  /** The length field is filled from its last byte backwards. */
  method LengthField(totalBits: u64) returns (bytes: Text)
    ensures bytes == BigEndian(totalBits, 8)
  {
    hide BigEndian;
    var field := new byte[8];
    for index := 0 to 8
      invariant forall k :: 8 - index <= k < 8 ==> field[k] == BigEndian(totalBits, 8)[k]
    {
      BigEndianFromRight(totalBits, 8, index);
      field[7 - index] := ShiftRight(totalBits, index) % 256;
    }
    bytes := field[..];
  }

  // ---- any cut, and collisions ----

  function Joined(pieces: seq<Text>): Text {
    if pieces == [] then [] else Joined(pieces[..|pieces| - 1]) + pieces[|pieces| - 1]
  }

  /** However a message is cut into updates, the digest is that of the message. */
  method HashPieces(compress: Compression, pieces: seq<Text>) returns (digest: Text)
    ensures digest == Sha256(compress, Joined(pieces))
  {
    hide Sha256;
    var hasher := new Hasher(compress);
    for i := 0 to |pieces|
      invariant fresh(hasher) && fresh(hasher.buffer) && hasher.Valid() && !hasher.finalized
      invariant hasher.fed == Joined(pieces[..i])
    {
      hasher.Update(pieces[i]);
      assert pieces[..i + 1][..i] == pieces[..i];
    }
    assert pieces[..|pieces|] == pieces;
    digest := hasher.Finish();
  }

  /** Two different inputs of the compression function with the same result. */
  predicate Collision(compress: Compression, s: Chaining, x: Text, t: Chaining, y: Text) {
    |x| == |y| == 64 && (s, x) != (t, y) && compress(s, x) == compress(t, y)
  }

  ghost predicate HasCollision(compress: Compression) {
    exists s: Chaining, x: Text, t: Chaining, y: Text :: Collision(compress, s, x, t, y)
  }

  lemma LastBlock(compress: Compression, state: Chaining, data: Text)
    requires |data| % 64 == 0 && |data| >= 64
    ensures var n := |data| - 64; Fold(compress, state, data) == compress(Fold(compress, state, data[..n]), data[n..])
  {
    hide Fold;
    var n := |data| - 64;
    assert data == data[..n] + data[n..];
    FoldSplit(compress, state, data[..n], data[n..]);
    OneBlock(compress, Fold(compress, state, data[..n]), data[n..]);
  }

  /** Whole-block inputs that chain to the same value: a collision, or the shorter is the tail of the longer. */
  lemma {:induction false} FoldCommits(compress: Compression, state: Chaining, a: Text, b: Text)
    requires |a| % 64 == 0 && |b| % 64 == 0 && |a| <= |b|
    requires Fold(compress, state, a) == Fold(compress, state, b)
    ensures HasCollision(compress) || b[|b| - |a|..] == a
    decreases |a|
  {
    hide Fold;
    if a == [] {
      assert b[|b| - |a|..] == [];
    } else {
      var m, n := |a| - 64, |b| - 64;
      LastBlock(compress, state, a);
      LastBlock(compress, state, b);
      var s, t := Fold(compress, state, a[..m]), Fold(compress, state, b[..n]);
      if s == t && a[m..] == b[n..] {
        FoldCommits(compress, state, a[..m], b[..n]);
        TailsJoin(a, b);
      } else {
        assert Collision(compress, s, a[m..], t, b[n..]);
      }
    }
  }

  lemma TailsJoin(a: Text, b: Text)
    requires 64 <= |a| <= |b| && a[|a| - 64..] == b[|b| - 64..]
    ensures b[..|b| - 64][|b| - |a|..] == a[..|a| - 64] ==> b[|b| - |a|..] == a
  {
    assert b[|b| - |a|..] == b[..|b| - 64][|b| - |a|..] + b[|b| - 64..];
    assert a == a[..|a| - 64] + a[|a| - 64..];
  }

  lemma {:induction false} SerializedInjective(v: seq<u32>, w: seq<u32>)
    requires |v| == |w| && Serialized(v) == Serialized(w)
    ensures v == w
    decreases |v|
  {
    hide WordBytes;
    if v != [] {
      var n := |v| - 1;
      assert Serialized(v)[..4 * n] == Serialized(v[..n]) && Serialized(w)[..4 * n] == Serialized(w[..n]);
      assert Serialized(v)[4 * n..] == WordBytes(v[n]) && Serialized(w)[4 * n..] == WordBytes(w[n]);
      SerializedInjective(v[..n], w[..n]);
      WordInjective(v[n], w[n]);
      assert v == v[..n] + [v[n]] && w == w[..n] + [w[n]];
    }
  }

  lemma WordInjective(v: u32, w: u32)
    requires WordBytes(v) == WordBytes(w)
    ensures v == w
  {
    Pow256Values();
    BigEndianRoundTrip(v, 4);
    BigEndianRoundTrip(w, 4);
  }

  /** Two messages with the same digest are the same message, or the compression function has a collision. */
  lemma DigestCommits(compress: Compression, a: Text, b: Text)
    requires |a| < 0x2000_0000_0000_0000 && |b| < 0x2000_0000_0000_0000
    requires Sha256(compress, a) == Sha256(compress, b)
    ensures a == b || HasCollision(compress)
  {
    hide Fold, Padded, Serialized, HasCollision;
    SerializedInjective(Fold(compress, INITIAL, Padded(a)), Fold(compress, INITIAL, Padded(b)));
    PaddingIsStandard(a, 0);
    PaddingIsStandard(b, 0);
    if |Padded(a)| <= |Padded(b)| {
      FoldCommits(compress, INITIAL, Padded(a), Padded(b));
      if Padded(b)[|Padded(b)| - |Padded(a)|..] == Padded(a) {
        PaddingIsSuffixFree(a, b);
      }
    } else {
      FoldCommits(compress, INITIAL, Padded(b), Padded(a));
      if Padded(a)[|Padded(a)| - |Padded(b)|..] == Padded(b) {
        PaddingIsSuffixFree(b, a);
      }
    }
  }
}
