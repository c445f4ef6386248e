/** The bytes of a journal: record payloads, hash-chained records, and part headers
    (src/persistence.cpp, include/fabric_observatory/persistence.hpp). */
module JournalFormat {
  import opened Bytes
  import opened Canonical
  import opened Observations

  /** A SHA-256 value. */
  type Hash32 = t: Text | |t| == 32 witness seq(32, _ => 0)

  /** The two hash functions, of which nothing is assumed but the size of their results. */
  datatype Hashes = Hashes(sha: Text -> Hash32, crc: Text -> u32)

  const HEADER_BYTES := 128
  const RECORD_HEADER_BYTES := 116
  const FORMAT_VERSION := 1
  const MAGIC: Text := Ascii("FABOBSJ1")

  const OBSERVATION_KIND: byte := 1
  const RESTART_KIND: byte := 2
  const SNAPSHOT_KIND: byte := 3

  // ---- payloads ----

  const RECORD_TAG: Text := Ascii("observation-record")
  const RESTART_TAG: Text := Ascii("restart-marker")
  const SNAPSHOT_TAG: Text := Ascii("snapshot-marker")

  function EncodeRecord(r: ObservationRecord): Text {
    PutTag(RECORD_TAG) + [1] + Observations.Encode(r.observation) + PutI64(r.receivedAt) + PutBool(r.recovered) + PutU64(r.recoveryEpoch)
  }

  function DecodeRecord(payload: Text, limits: Limits, derive: Text -> u128): Result<ObservationRecord> {
    match GetTag(payload, RECORD_TAG)
    case Err(c) => Err(c)
    case Ok((_, s1)) =>
      match ExpectU8(s1, 1)
      case Err(c) => Err(c)
      case Ok((_, s2)) =>
        match Observations.Decode(s2, limits, derive)
        case Err(c) => Err(c)
        case Ok((o, s3)) =>
          match GetI64(s3)
          case Err(c) => Err(c)
          case Ok((receivedAt, s4)) =>
            match GetBool(s4)
            case Err(c) => Err(c)
            case Ok((recovered, s5)) =>
              match GetU64(s5)
              case Err(c) => Err(c)
              case Ok((epoch, left)) =>
                if left != [] then Err(Corrupt) else Ok(ObservationRecord(o, receivedAt, recovered, epoch))
  }

  lemma ExpectPut(b: byte, rest: Text)
    ensures ExpectU8([b] + rest, b) == Ok(((), rest))
  {
    assert ([b] + rest)[1..] == rest;
  }

  lemma RecordTail(receivedAt: i64, recovered: bool, epoch: u64)
    ensures var s3 := PutI64(receivedAt) + PutBool(recovered) + PutU64(epoch);
            && GetI64(s3) == Ok((receivedAt, PutBool(recovered) + PutU64(epoch)))
            && GetBool(PutBool(recovered) + PutU64(epoch)) == Ok((recovered, PutU64(epoch)))
            && GetU64(PutU64(epoch)) == Ok((epoch, []))
  {
    assert PutI64(receivedAt) + PutBool(recovered) + PutU64(epoch) == PutI64(receivedAt) + (PutBool(recovered) + PutU64(epoch));
    GetPutI64(receivedAt, PutBool(recovered) + PutU64(epoch));
    GetPutBool(recovered, PutU64(epoch));
    GetPutU64(epoch, []);
    assert PutU64(epoch) + [] == PutU64(epoch);
  }

  /** A record payload decodes to the record it encodes. */
  lemma DecodeEncodeRecord(r: ObservationRecord, limits: Limits, derive: Text -> u128)
    requires limits.Sized() && WellBuilt(r.observation, limits, derive)
    ensures DecodeRecord(EncodeRecord(r), limits, derive) == Ok(r)
  {
    hide Observations.Encode, Observations.Decode, WellBuilt, PutI64, PutU64, PutBool, GetI64, GetU64, GetBool, PutTag, GetTag, ExpectU8;
    var s3 := PutI64(r.receivedAt) + PutBool(r.recovered) + PutU64(r.recoveryEpoch);
    var s2 := Observations.Encode(r.observation) + s3;
    assert EncodeRecord(r) == PutTag(RECORD_TAG) + ([1] + s2);
    GetPutTag(RECORD_TAG, [1] + s2);
    ExpectPut(1, s2);
    DecodeEncode(r.observation, s3, limits, derive);
    RecordTail(r.receivedAt, r.recovered, r.recoveryEpoch);
  }

  datatype RestartMarker = RestartMarker(epoch: u64, count: u32)

  function EncodeRestart(m: RestartMarker, wallClock: i64): Text {
    PutTag(RESTART_TAG) + [1] + PutU64(m.epoch) + PutU32(m.count) + PutI64(wallClock)
  }

  /** Recovery reads the epoch and the count and ignores what follows them. */
  function DecodeRestart(payload: Text): Result<RestartMarker> {
    match GetTag(payload, RESTART_TAG)
    case Err(c) => Err(c)
    case Ok((_, s1)) =>
      match ExpectU8(s1, 1)
      case Err(c) => Err(c)
      case Ok((_, s2)) =>
        match GetU64(s2)
        case Err(c) => Err(c)
        case Ok((epoch, s3)) =>
          match GetU32(s3)
          case Err(c) => Err(c)
          case Ok((count, _)) => Ok(RestartMarker(epoch, count))
  }

  lemma DecodeEncodeRestart(m: RestartMarker, wallClock: i64)
    ensures DecodeRestart(EncodeRestart(m, wallClock)) == Ok(m)
  {
    hide PutI64, PutU64, PutU32, GetU32, GetU64, PutTag, GetTag, ExpectU8;
    var s3 := PutU32(m.count) + PutI64(wallClock);
    var s2 := PutU64(m.epoch) + s3;
    assert EncodeRestart(m, wallClock) == PutTag(RESTART_TAG) + ([1] + s2);
    GetPutTag(RESTART_TAG, [1] + s2);
    ExpectPut(1, s2);
    GetPutU64(m.epoch, s3);
    GetPutU32(m.count, PutI64(wallClock));
  }

  datatype SnapshotMarker = SnapshotMarker(id: Text, generation: u64, epoch: u64, publishedAt: i64)

  function EncodeSnapshot(m: SnapshotMarker): Text {
    PutTag(SNAPSHOT_TAG) + [1] + PutBytes(m.id) + PutU64(m.generation) + PutU64(m.epoch) + PutI64(m.publishedAt)
  }

  function DecodeSnapshot(payload: Text): Result<SnapshotMarker> {
    match GetTag(payload, SNAPSHOT_TAG)
    case Err(c) => Err(c)
    case Ok((_, s1)) =>
      match ExpectU8(s1, 1)
      case Err(c) => Err(c)
      case Ok((_, s2)) =>
        match GetBytes(s2)
        case Err(c) => Err(c)
        case Ok((id, s3)) =>
          match GetU64(s3)
          case Err(c) => Err(c)
          case Ok((generation, s4)) =>
            match GetU64(s4)
            case Err(c) => Err(c)
            case Ok((epoch, s5)) =>
              match GetI64(s5)
              case Err(c) => Err(c)
              case Ok((publishedAt, _)) =>
                if |id| != 32 then Err(Corrupt) else Ok(SnapshotMarker(id, generation, epoch, publishedAt))
  }

  lemma DecodeEncodeSnapshot(m: SnapshotMarker)
    requires |m.id| == 32
    ensures DecodeSnapshot(EncodeSnapshot(m)) == Ok(m)
  {
    hide PutI64, PutU64, PutBytes, GetBytes, GetU64, GetI64, PutTag, GetTag, ExpectU8;
    var s5 := PutI64(m.publishedAt);
    var s4 := PutU64(m.epoch) + s5;
    var s3 := PutU64(m.generation) + s4;
    var s2 := PutBytes(m.id) + s3;
    assert EncodeSnapshot(m) == PutTag(SNAPSHOT_TAG) + ([1] + s2);
    GetPutTag(SNAPSHOT_TAG, [1] + s2);
    ExpectPut(1, s2);
    GetPutBytes(m.id, s3);
    GetPutU64(m.generation, s4);
    GetPutU64(m.epoch, s5);
    GetPutI64(m.publishedAt, []);
    assert PutI64(m.publishedAt) + [] == s5;
  }

  // ---- records and their chain ----

  /** One record: its kind, its payload, and its sequence within the session that wrote it. */
  datatype Entry = Entry(kind: byte, payload: Text, sequence: u64)

  function ChainText(previous: Hash32, content: Hash32, kind: byte, sequence: u64): Text {
    previous + content + [kind] + PutU64(sequence)
  }

  function NextChain(h: Hashes, previous: Hash32, e: Entry): Hash32 {
    h.sha(ChainText(previous, h.sha(e.payload), e.kind, e.sequence))
  }

  function ChainAfter(h: Hashes, seed: Hash32, es: seq<Entry>): Hash32 {
    if es == [] then seed else NextChain(h, ChainAfter(h, seed, es[..|es| - 1]), es[|es| - 1])
  }

  function RecordHeader(h: Hashes, previous: Hash32, e: Entry): (r: Text)
    ensures |r| == RECORD_HEADER_BYTES
  {
    PutU32(|e.payload| % 0x1_0000_0000) + PutU32(h.crc(e.payload)) + [e.kind, 0, 0, 0] + PutU64(e.sequence)
    + previous + h.sha(e.payload) + NextChain(h, previous, e)
  }

  function RecordBytes(h: Hashes, previous: Hash32, e: Entry): (r: Text)
    ensures |r| == RECORD_HEADER_BYTES + |e.payload|
  {
    RecordHeader(h, previous, e) + e.payload
  }

  function RecordsBytes(h: Hashes, seed: Hash32, es: seq<Entry>): Text {
    if es == [] then []
    else RecordsBytes(h, seed, es[..|es| - 1]) + RecordBytes(h, ChainAfter(h, seed, es[..|es| - 1]), es[|es| - 1])
  }

  function HeaderBody(fabric: u128, chain: Hash32): (r: Text)
    ensures |r| == HEADER_BYTES - 4
  {
    MAGIC + PutU32(FORMAT_VERSION) + PutU32(HEADER_BYTES) + BigEndian(fabric, 16) + PutU64(0) + chain + seq(52, _ => 0)
  }

  function HeaderBytes(h: Hashes, fabric: u128, chain: Hash32): (r: Text)
    ensures |r| == HEADER_BYTES
  {
    HeaderBody(fabric, chain) + PutU32(h.crc(HeaderBody(fabric, chain)))
  }

  /** One file of the journal: the chain value its header carries, and its records. */
  datatype Part = Part(seed: Hash32, entries: seq<Entry>)

  function PartBytes(h: Hashes, fabric: u128, p: Part): Text { HeaderBytes(h, fabric, p.seed) + RecordsBytes(h, p.seed, p.entries) }

  function EndOf(h: Hashes, p: Part): Hash32 { ChainAfter(h, p.seed, p.entries) }

  function ChainSeed(h: Hashes, fabric: u128): Hash32 { h.sha(Ascii("fabric-observatory/journal/1") + BigEndian(fabric, 16)) }

  // ---- the same from the front ----

  lemma {:induction false} ChainFromFront(h: Hashes, seed: Hash32, e: Entry, es: seq<Entry>)
    ensures ChainAfter(h, seed, [e] + es) == ChainAfter(h, NextChain(h, seed, e), es)
  {
    hide NextChain;
    if es == [] {
      assert [e] + es == [e] && [e][..0] == [];
      assert ChainAfter(h, seed, []) == seed;
    } else {
      ChainFromFront(h, seed, e, es[..|es| - 1]);
      assert ([e] + es)[..|es|] == [e] + es[..|es| - 1];
    }
  }

  lemma {:induction false} RecordsFromFront(h: Hashes, seed: Hash32, e: Entry, es: seq<Entry>)
    ensures RecordsBytes(h, seed, [e] + es) == RecordBytes(h, seed, e) + RecordsBytes(h, NextChain(h, seed, e), es)
  {
    hide NextChain, RecordBytes;
    if es == [] {
      assert [e] + es == [e] && [e][..0] == [];
      assert RecordsBytes(h, seed, []) == [];
    } else {
      var front, last := es[..|es| - 1], es[|es| - 1];
      RecordsFromFront(h, seed, e, front);
      ChainFromFront(h, seed, e, front);
      assert ([e] + es)[..|es|] == [e] + front;
    }
  }

  lemma RecordsPush(h: Hashes, seed: Hash32, es: seq<Entry>, e: Entry)
    ensures RecordsBytes(h, seed, es + [e]) == RecordsBytes(h, seed, es) + RecordBytes(h, ChainAfter(h, seed, es), e)
    ensures ChainAfter(h, seed, es + [e]) == NextChain(h, ChainAfter(h, seed, es), e)
  {
    hide NextChain, RecordBytes;
    assert (es + [e])[..|es|] == es;
  }

  // ---- reading the fields back ----

  datatype RawHeader = RawHeader(length: u32, crc: u32, kind: byte, sequence: u64, previous: Hash32, content: Hash32, chain: Hash32)

  function NumberAt(s: Text, at: nat, size: nat): nat
    requires at + size <= |s|
  {
    FromBigEndian(s[at..at + size])
  }

  function U32At(s: Text, at: nat): u32
    requires at + 4 <= |s|
  {
    FromBigEndianBound(s[at..at + 4]);
    Pow256Values();
    NumberAt(s, at, 4)
  }

  function U64At(s: Text, at: nat): u64
    requires at + 8 <= |s|
  {
    FromBigEndianBound(s[at..at + 8]);
    Pow256Values();
    NumberAt(s, at, 8)
  }

  function RawOf(s: Text): RawHeader
    requires |s| >= RECORD_HEADER_BYTES
  {
    RawHeader(U32At(s, 0), U32At(s, 4), s[8], U64At(s, 12), s[20..52], s[52..84], s[84..116])
  }

  lemma FieldOfHeader(h: Hashes, previous: Hash32, e: Entry, rest: Text)
    ensures var s := RecordHeader(h, previous, e) + rest;
            && s[0..4] == PutU32(|e.payload| % 0x1_0000_0000) && s[4..8] == PutU32(h.crc(e.payload)) && s[8] == e.kind
            && s[12..20] == PutU64(e.sequence) && s[20..52] == previous && s[52..84] == h.sha(e.payload)
            && s[84..116] == NextChain(h, previous, e)
  {
    hide NextChain, PutU32, PutU64;
    FieldSizes(|e.payload| % 0x1_0000_0000, h.crc(e.payload), e.sequence);
  }

  lemma FieldSizes(a: u32, b: u32, c: u64)
    ensures |PutU32(a)| == 4 && |PutU32(b)| == 4 && |PutU64(c)| == 8
  {
  }

  lemma RawOfHeader(h: Hashes, previous: Hash32, e: Entry, rest: Text)
    ensures RawOf(RecordHeader(h, previous, e) + rest)
         == RawHeader(|e.payload| % 0x1_0000_0000, h.crc(e.payload), e.kind, e.sequence, previous, h.sha(e.payload), NextChain(h, previous, e))
  {
    hide NextChain, RecordHeader, BigEndian, FromBigEndian;
    FieldOfHeader(h, previous, e, rest);
    Pow256Values();
    BigEndianRoundTrip(|e.payload| % 0x1_0000_0000, 4);
    BigEndianRoundTrip(h.crc(e.payload), 4);
    BigEndianRoundTrip(e.sequence, 8);
  }

  lemma FieldsOfPartHeader(h: Hashes, fabric: u128, chain: Hash32, rest: Text)
    ensures var s := HeaderBytes(h, fabric, chain) + rest;
            && s[..8] == MAGIC && U32At(s, 8) == FORMAT_VERSION && U32At(s, 12) == HEADER_BYTES
            && NumberAt(s, 16, 16) == fabric && s[40..72] == chain
            && s[..124] == HeaderBody(fabric, chain) && U32At(s, 124) == h.crc(HeaderBody(fabric, chain))
  {
    hide BigEndian, FromBigEndian;
    var s := HeaderBytes(h, fabric, chain) + rest;
    PartHeaderSlices(h, fabric, chain, rest);
    Pow256Values();
    BigEndianRoundTrip(FORMAT_VERSION, 4);
    BigEndianRoundTrip(HEADER_BYTES, 4);
    BigEndianRoundTrip(fabric, 16);
    BigEndianRoundTrip(h.crc(HeaderBody(fabric, chain)), 4);
  }

  lemma PartHeaderSlices(h: Hashes, fabric: u128, chain: Hash32, rest: Text)
    ensures var s := HeaderBytes(h, fabric, chain) + rest;
            && s[..8] == MAGIC && s[8..12] == PutU32(FORMAT_VERSION) && s[12..16] == PutU32(HEADER_BYTES)
            && s[16..32] == BigEndian(fabric, 16) && s[40..72] == chain
            && s[..124] == HeaderBody(fabric, chain) && s[124..128] == PutU32(h.crc(HeaderBody(fabric, chain)))
  {
    hide BigEndian;
    var s, body := HeaderBytes(h, fabric, chain) + rest, HeaderBody(fabric, chain);
    assert s[..124] == body;
    assert s[..8] == body[..8] == MAGIC;
    assert s[8..12] == body[8..12] == PutU32(FORMAT_VERSION);
    assert s[12..16] == body[12..16] == PutU32(HEADER_BYTES);
    assert s[16..32] == body[16..32] == BigEndian(fabric, 16);
    assert s[40..72] == body[40..72] == chain;
  }

  // ---- what a chain value commits to ----

  lemma ChainTextInjective(p1: Hash32, c1: Hash32, k1: byte, s1: u64, p2: Hash32, c2: Hash32, k2: byte, s2: u64)
    requires ChainText(p1, c1, k1, s1) == ChainText(p2, c2, k2, s2)
    ensures p1 == p2 && c1 == c2 && k1 == k2 && s1 == s2
  {
    hide BigEndian;
    var a, b := ChainText(p1, c1, k1, s1), ChainText(p2, c2, k2, s2);
    assert p1 == a[..32] && p2 == b[..32];
    assert c1 == a[32..64] && c2 == b[32..64];
    assert k1 == a[64] && k2 == b[64];
    assert PutU64(s1) == a[65..73] && PutU64(s2) == b[65..73];
    Pow256Values();
    BigEndianRoundTrip(s1, 8);
    BigEndianRoundTrip(s2, 8);
  }

  predicate Collides(h: Hashes, x: Text, y: Text) { x != y && h.sha(x) == h.sha(y) }

  /** Two record runs of equal length that end in the same chain value start from the same value and agree
      on every kind, sequence and payload, or here are two texts with the same hash. */
  lemma {:induction false} ChainCommits(h: Hashes, a: Hash32, b: Hash32, xs: seq<Entry>, ys: seq<Entry>) returns (x: Text, y: Text)
    requires |xs| == |ys| && ChainAfter(h, a, xs) == ChainAfter(h, b, ys)
    ensures (a == b && xs == ys) || Collides(h, x, y)
  {
    x, y := [], [];
    if xs != [] {
      var n := |xs| - 1;
      var p, q := ChainAfter(h, a, xs[..n]), ChainAfter(h, b, ys[..n]);
      x := ChainText(p, h.sha(xs[n].payload), xs[n].kind, xs[n].sequence);
      y := ChainText(q, h.sha(ys[n].payload), ys[n].kind, ys[n].sequence);
      if x == y {
        ChainTextInjective(p, h.sha(xs[n].payload), xs[n].kind, xs[n].sequence, q, h.sha(ys[n].payload), ys[n].kind, ys[n].sequence);
        x, y := xs[n].payload, ys[n].payload;
        if x == y {
          x, y := ChainCommits(h, a, b, xs[..n], ys[..n]);
          if !Collides(h, x, y) {
            assert xs == xs[..n] + [xs[n]] && ys == ys[..n] + [ys[n]];
          }
        }
      }
    }
  }
}
