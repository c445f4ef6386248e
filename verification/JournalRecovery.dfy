/** Reading a journal back: every part, every record, and what recovery concludes from damage
    (src/persistence.cpp). */
module JournalRecovery {
  import opened Bytes
  import opened Canonical
  import opened JournalFormat
  import opened Observations

  datatype Options = Options(
    fabric: u128,
    maxBytes: u64,
    maxFiles: u32,
    maxRecordBytes: u64,
    maxRecovered: u32,
    limits: Limits)

  datatype Fault =
    | HeaderTruncated | BadMagic | BadHeaderSize | HeaderCrc | PartChainMismatch
    | RecordHeaderTruncated | RecordLength | ChainLink | RecordPayloadTruncated | RecordCrc | RecordContent | RecordChain
    | RecordInvalid | RecoveryBound | RestartInvalid | SnapshotInvalid | UnknownKind

  datatype Diagnostic = Diagnostic(offset: nat, fault: Fault)

  /** The recovery report, the recovered state, and the scan's own control state. */
  datatype Recovery = Recovery(
    fileBytes: nat,
    recordsRead: nat,
    recordsRejected: nat,
    tailBytes: nat,
    restartMarkers: nat,
    snapshotMarkers: nat,
    partsRecovered: nat,
    corrupt: bool,
    truncated: bool,
    diagnostics: seq<Diagnostic>,
    records: seq<ObservationRecord>,
    snapshots: seq<SnapshotMarker>,
    restart: RestartMarker,
    running: Option<Hash32>,
    chain: Option<Hash32>,
    stop: bool)

  const NOTHING_YET: Recovery := Recovery(0, 0, 0, 0, 0, 0, 0, false, false, [], [], [], RestartMarker(0, 0), None, None, false)

  function Diagnose(st: Recovery, offset: nat, fault: Fault): Recovery {
    st.(diagnostics := st.diagnostics + [Diagnostic(offset, fault)])
  }

  function Damage(st: Recovery, offset: nat, fault: Fault): Recovery {
    Diagnose(st, offset, fault).(corrupt := true, stop := true)
  }

  /** The part ends inside a record: everything from the start of that record on is unusable. */
  function CutShort(st: Recovery, offset: nat, fault: Fault, left: nat, newest: bool): Recovery {
    Diagnose(st, offset, fault).(tailBytes := st.tailBytes + left, truncated := true, corrupt := st.corrupt || !newest, stop := true)
  }

  function Reject(st: Recovery, offset: nat, fault: Fault): Recovery {
    Diagnose(st, offset, fault).(recordsRejected := st.recordsRejected + 1)
  }

  /** What a verified record contributes. */
  function Interpret(o: Options, derive: Text -> u128, st: Recovery, offset: nat, kind: byte, payload: Text): Recovery {
    if kind == OBSERVATION_KIND then
      match DecodeRecord(payload, o.limits, derive)
      case Err(_) => Reject(st, offset, RecordInvalid)
      case Ok(r) =>
        if |st.records| >= o.maxRecovered then Diagnose(st, offset, RecoveryBound).(truncated := true, stop := true)
        else st.(records := st.records + [r])
    else if kind == RESTART_KIND then
      match DecodeRestart(payload)
      case Err(_) => Reject(st, offset, RestartInvalid)
      case Ok(m) => st.(restartMarkers := st.restartMarkers + 1, restart := m)
    else if kind == SNAPSHOT_KIND then
      match DecodeSnapshot(payload)
      case Err(_) => Reject(st, offset, SnapshotInvalid)
      case Ok(m) => st.(snapshots := st.snapshots + [m], snapshotMarkers := st.snapshotMarkers + 1)
    else Reject(st, offset, UnknownKind)
  }

  /** The record at the front of rest: verified in the order length, link, payload, checksum, digest, chain.
      The second result is how many bytes it took, 0 when the scan stops here. */
  function ScanRecord(o: Options, h: Hashes, derive: Text -> u128, st: Recovery, newest: bool, offset: nat, rest: Text): (r: (Recovery, nat))
    ensures r.1 <= |rest|
  {
    if |rest| < RECORD_HEADER_BYTES then (CutShort(st, offset, RecordHeaderTruncated, |rest|, newest), 0)
    else
      var raw := RawOf(rest);
      if raw.length == 0 || raw.length > o.maxRecordBytes then (Damage(st, offset, RecordLength), 0)
      else if st.running != Some(raw.previous) then (Damage(st, offset, ChainLink), 0)
      else if |rest| < RECORD_HEADER_BYTES + raw.length then (CutShort(st, offset, RecordPayloadTruncated, |rest|, newest), 0)
      else
        var payload := rest[RECORD_HEADER_BYTES..RECORD_HEADER_BYTES + raw.length];
        var read := st.(recordsRead := st.recordsRead + 1);
        if h.crc(payload) != raw.crc then (Damage(read, offset, RecordCrc), 0)
        else if h.sha(payload) != raw.content then (Damage(read, offset, RecordContent), 0)
        else if NextChain(h, raw.previous, Entry(raw.kind, payload, raw.sequence)) != raw.chain then (Damage(read, offset, RecordChain), 0)
        else
          (Interpret(o, derive, read.(running := Some(raw.chain), chain := Some(raw.chain)), offset, raw.kind, payload),
           RECORD_HEADER_BYTES + raw.length)
  }

  /** The records of one part, from offset on. */
  function ScanRecords(o: Options, h: Hashes, derive: Text -> u128, st: Recovery, newest: bool, offset: nat, rest: Text): Recovery
    decreases |rest|
  {
    if st.stop || rest == [] then st
    else
      var (st1, used) := ScanRecord(o, h, derive, st, newest, offset, rest);
      if used == 0 then st1 else ScanRecords(o, h, derive, st1, newest, offset + used, rest[used..])
  }

  datatype HeaderCheck = Usable(st: Recovery) | Broken(st: Recovery) | Refused(code: StatusCode)

  /** A part's header: damage ends the scan, another format or another fabric ends the open. */
  function CheckHeader(o: Options, h: Hashes, st: Recovery, bytes: Text): HeaderCheck {
    if |bytes| < HEADER_BYTES then Broken(Damage(st, 0, HeaderTruncated))
    else if bytes[..8] != MAGIC then Broken(Damage(st, 0, BadMagic))
    else if U32At(bytes, 8) != FORMAT_VERSION then Refused(VersionMismatch)
    else if U32At(bytes, 12) != HEADER_BYTES then Broken(Damage(st, 0, BadHeaderSize))
    else if U32At(bytes, 124) != h.crc(bytes[..124]) then Broken(Damage(st, 0, HeaderCrc))
    else if o.fabric != 0 && NumberAt(bytes, 16, 16) != o.fabric then Refused(StatusCode.FabricMismatch)
    else
      var chain: Hash32 := bytes[40..72];
      match st.running
      case None => Usable(st.(running := Some(chain)))
      case Some(c) => if c != chain then Broken(Damage(st, 0, PartChainMismatch)) else Usable(st)
  }

  function ScanPart(o: Options, h: Hashes, derive: Text -> u128, st: Recovery, newest: bool, bytes: Text): Result<Recovery> {
    match CheckHeader(o, h, st.(partsRecovered := st.partsRecovered + 1), bytes)
    case Refused(c) => Err(c)
    case Broken(st1) => Ok(st1)
    case Usable(st1) =>
      if |bytes| < HEADER_BYTES then Ok(st1)
      else
        var st2 := ScanRecords(o, h, derive, st1, newest, HEADER_BYTES, bytes[HEADER_BYTES..]);
        Ok(st2.(fileBytes := st2.fileBytes + |bytes|))
  }

  /** All parts, oldest first; the last one is the newest. */
  function ScanParts(o: Options, h: Hashes, derive: Text -> u128, st: Recovery, parts: seq<Text>): Result<Recovery>
    decreases |parts|
  {
    if parts == [] || st.stop then Ok(st)
    else match ScanPart(o, h, derive, st, |parts| == 1, parts[0])
      case Err(c) => Err(c)
      case Ok(st1) => ScanParts(o, h, derive, st1, parts[1..])
  }

  /** The rotated parts present, from index downwards, then the active file, which is slot 0. */
  function PartsFrom(files: map<nat, Text>, index: nat): seq<Text> {
    if index == 0 then (if 0 in files then [files[0]] else [])
    else (if index in files then [files[index]] else []) + PartsFrom(files, index - 1)
  }

  function Recover(o: Options, h: Hashes, derive: Text -> u128, files: map<nat, Text>): Result<Recovery> {
    ScanParts(o, h, derive, NOTHING_YET, PartsFrom(files, o.maxFiles))
  }

  // ---- the same, as the loops the program runs ----

  method ListParts(files: map<nat, Text>, maxFiles: u32) returns (parts: seq<Text>)
    ensures parts == PartsFrom(files, maxFiles)
  {
    parts := [];
    var index: nat := maxFiles;
    while index >= 1
      invariant parts + PartsFrom(files, index) == PartsFrom(files, maxFiles)
    {
      if index in files {
        parts := parts + [files[index]];
      }
      index := index - 1;
    }
    if 0 in files {
      parts := parts + [files[0]];
    }
  }

  method ReadRecords(o: Options, h: Hashes, derive: Text -> u128, start: Recovery, newest: bool, bytes: Text) returns (st: Recovery)
    requires |bytes| >= HEADER_BYTES
    ensures st == ScanRecords(o, h, derive, start, newest, HEADER_BYTES, bytes[HEADER_BYTES..])
  {
    hide ScanRecord;
    st := start;
    var offset := HEADER_BYTES;
    while !st.stop && offset < |bytes|
      invariant HEADER_BYTES <= offset <= |bytes|
      invariant ScanRecords(o, h, derive, st, newest, offset, bytes[offset..])
             == ScanRecords(o, h, derive, start, newest, HEADER_BYTES, bytes[HEADER_BYTES..])
      decreases |bytes| - offset
    {
      var (next, used) := ScanRecord(o, h, derive, st, newest, offset, bytes[offset..]);
      assert bytes[offset..][used..] == bytes[offset + used..];
      st := next;
      if used == 0 {
        return;
      }
      offset := offset + used;
    }
  }

  method RecoverParts(o: Options, h: Hashes, derive: Text -> u128, files: map<nat, Text>) returns (r: Result<Recovery>)
    ensures r == Recover(o, h, derive, files)
  {
    hide CheckHeader, ScanRecords, PartsFrom;
    var parts := ListParts(files, o.maxFiles);
    var st := NOTHING_YET;
    var index := 0;
    while index < |parts| && !st.stop
      invariant index <= |parts|
      invariant ScanParts(o, h, derive, st, parts[index..]) == ScanParts(o, h, derive, NOTHING_YET, parts)
      decreases |parts| - index
    {
      assert parts[index..][1..] == parts[index + 1..];
      var bytes := parts[index];
      match CheckHeader(o, h, st.(partsRecovered := st.partsRecovered + 1), bytes) {
        case Refused(c) => return Err(c);
        case Broken(next) => st := next;
        case Usable(next) =>
          st := next;
          if |bytes| >= HEADER_BYTES {
            st := ReadRecords(o, h, derive, next, index + 1 == |parts|, bytes);
            st := st.(fileBytes := st.fileBytes + |bytes|);
          }
      }
      index := index + 1;
    }
    r := Ok(st);
  }

  // ---- reading what was written ----

  /** A record recovery can read: not empty, within the bound, and small enough for its length field. */
  predicate Readable(o: Options, e: Entry) {
    0 < |e.payload| <= o.maxRecordBytes && |e.payload| < 0x1_0000_0000
  }

  ghost predicate AllReadable(o: Options, es: seq<Entry>) { forall i :: 0 <= i < |es| ==> Readable(o, es[i]) }

  // ---- the observation records among what was written ----

  datatype Item = Item(kind: byte, payload: Text)

  function Strip(es: seq<Entry>): (r: seq<Item>)
    ensures |r| == |es|
  {
    seq(|es|, i requires 0 <= i < |es| => Item(es[i].kind, es[i].payload))
  }

  /** The observation records among some items, in order; undecodable ones are skipped. */
  function RecordsIn(o: Options, derive: Text -> u128, items: seq<Item>): seq<ObservationRecord> {
    if items == [] then []
    else
      var before, last := RecordsIn(o, derive, items[..|items| - 1]), items[|items| - 1];
      if last.kind == OBSERVATION_KIND && DecodeRecord(last.payload, o.limits, derive).Ok?
      then before + [DecodeRecord(last.payload, o.limits, derive).value] else before
  }

  lemma {:induction false} RecordsInAppend(o: Options, derive: Text -> u128, a: seq<Item>, b: seq<Item>)
    ensures RecordsIn(o, derive, a + b) == RecordsIn(o, derive, a) + RecordsIn(o, derive, b)
  {
    hide DecodeRecord;
    if b == [] {
      assert a + b == a;
    } else {
      RecordsInAppend(o, derive, a, b[..|b| - 1]);
      assert (a + b)[..|a + b| - 1] == a + b[..|b| - 1];
    }
  }

  lemma NoRecords(o: Options, derive: Text -> u128)
    ensures RecordsIn(o, derive, []) == []
  {
  }

  lemma StripFirst(es: seq<Entry>)
    requires es != []
    ensures Strip(es) == [Item(es[0].kind, es[0].payload)] + Strip(es[1..])
  {
  }

  lemma RecordsInFirst(o: Options, derive: Text -> u128, es: seq<Entry>)
    requires es != []
    ensures RecordsIn(o, derive, Strip(es))
         == RecordsIn(o, derive, [Item(es[0].kind, es[0].payload)]) + RecordsIn(o, derive, Strip(es[1..]))
  {
    hide RecordsIn, Strip;
    StripFirst(es);
    RecordsInAppend(o, derive, [Item(es[0].kind, es[0].payload)], Strip(es[1..]));
  }

  lemma RecordsInPrefix(o: Options, derive: Text -> u128, es: seq<Entry>, k: nat)
    requires k <= |es|
    ensures |RecordsIn(o, derive, Strip(es[..k]))| <= |RecordsIn(o, derive, Strip(es))|
  {
    hide RecordsIn;
    assert Strip(es) == Strip(es[..k]) + Strip(es[k..]);
    RecordsInAppend(o, derive, Strip(es[..k]), Strip(es[k..]));
  }

  /** Recovery's view of one good record. */
  function Absorb(o: Options, h: Hashes, derive: Text -> u128, st: Recovery, offset: nat, previous: Hash32, e: Entry): Recovery {
    var next := NextChain(h, previous, e);
    Interpret(o, derive, st.(recordsRead := st.recordsRead + 1, running := Some(next), chain := Some(next)), offset, e.kind, e.payload)
  }

  lemma ScanGoodRecord(o: Options, h: Hashes, derive: Text -> u128, st: Recovery, newest: bool, offset: nat, previous: Hash32, e: Entry, rest: Text)
    requires st.running == Some(previous) && Readable(o, e)
    ensures ScanRecord(o, h, derive, st, newest, offset, RecordBytes(h, previous, e) + rest)
         == (Absorb(o, h, derive, st, offset, previous, e), RECORD_HEADER_BYTES + |e.payload|)
  {
    hide Interpret, RecordHeader, NextChain, RawOf;
    var s := RecordBytes(h, previous, e) + rest;
    assert s == RecordHeader(h, previous, e) + (e.payload + rest);
    RawOfHeader(h, previous, e, e.payload + rest);
    assert s[RECORD_HEADER_BYTES..RECORD_HEADER_BYTES + |e.payload|] == e.payload;
  }

  /** All the records of a run, absorbed in order; a stop ends it. */
  function AbsorbAll(o: Options, h: Hashes, derive: Text -> u128, st: Recovery, offset: nat, previous: Hash32, es: seq<Entry>): Recovery
    decreases |es|
  {
    if es == [] || st.stop then st
    else
      AbsorbAll(o, h, derive, Absorb(o, h, derive, st, offset, previous, es[0]),
                offset + RECORD_HEADER_BYTES + |es[0].payload|, NextChain(h, previous, es[0]), es[1..])
  }

  function RecordsSize(es: seq<Entry>): nat {
    if es == [] then 0 else RecordsSize(es[..|es| - 1]) + RECORD_HEADER_BYTES + |es[|es| - 1].payload|
  }

  lemma {:induction false} SizeOfRecords(h: Hashes, seed: Hash32, es: seq<Entry>)
    ensures |RecordsBytes(h, seed, es)| == RecordsSize(es)
  {
    hide RecordHeader;
    if es != [] {
      SizeOfRecords(h, seed, es[..|es| - 1]);
    }
  }

  lemma {:induction false} SizeFromFront(e: Entry, es: seq<Entry>)
    ensures RecordsSize([e] + es) == RECORD_HEADER_BYTES + |e.payload| + RecordsSize(es)
  {
    if es == [] {
      assert [e] + es == [e] && [e][..0] == [];
      assert RecordsSize([]) == 0;
    } else {
      SizeFromFront(e, es[..|es| - 1]);
      assert ([e] + es)[..|es|] == [e] + es[..|es| - 1];
    }
  }

  lemma AbsorbRunning(o: Options, h: Hashes, derive: Text -> u128, st: Recovery, offset: nat, previous: Hash32, e: Entry)
    ensures Absorb(o, h, derive, st, offset, previous, e).running == Some(NextChain(h, previous, e))
    ensures Absorb(o, h, derive, st, offset, previous, e).chain == Some(NextChain(h, previous, e))
    ensures Absorb(o, h, derive, st, offset, previous, e).recordsRead == st.recordsRead + 1
    ensures var t := Absorb(o, h, derive, st, offset, previous, e);
            t.corrupt == st.corrupt && t.tailBytes == st.tailBytes && t.fileBytes == st.fileBytes
            && t.partsRecovered == st.partsRecovered && (t.stop ==> st.stop || t.truncated)
  {
    hide DecodeRecord, DecodeRestart, DecodeSnapshot;
  }

  /** Scanning written records absorbs each of them and goes on with whatever follows. */
  lemma {:induction false} ScanGoodRecords(o: Options, h: Hashes, derive: Text -> u128, st: Recovery, newest: bool, offset: nat, previous: Hash32, es: seq<Entry>, tail: Text)
    requires st.running == Some(previous) && AllReadable(o, es)
    ensures var st1 := AbsorbAll(o, h, derive, st, offset, previous, es);
            && ScanRecords(o, h, derive, st, newest, offset, RecordsBytes(h, previous, es) + tail)
               == ScanRecords(o, h, derive, st1, newest, offset + RecordsSize(es), tail)
            && (!st1.stop ==> st1.running == Some(ChainAfter(h, previous, es)))
    decreases |es|
  {
    hide ScanRecord, Absorb, NextChain, RecordBytes;
    if es == [] {
      assert RecordsBytes(h, previous, es) + tail == tail;
    } else if !st.stop {
      var e, rest := es[0], es[1..];
      assert es == [e] + rest;
      RecordsFromFront(h, previous, e, rest);
      ChainFromFront(h, previous, e, rest);
      SizeFromFront(e, rest);
      var next := NextChain(h, previous, e);
      var after := RecordsBytes(h, next, rest) + tail;
      var s := RecordsBytes(h, previous, es) + tail;
      assert s == RecordBytes(h, previous, e) + after;
      ScanGoodRecord(o, h, derive, st, newest, offset, previous, e, after);
      AbsorbRunning(o, h, derive, st, offset, previous, e);
      var used := RECORD_HEADER_BYTES + |e.payload|;
      RecordSize(h, previous, e);
      assert s[used..] == after;
      ScanGoodRecords(o, h, derive, Absorb(o, h, derive, st, offset, previous, e), newest, offset + used, next, rest, tail);
    }
  }

  lemma RecordSize(h: Hashes, previous: Hash32, e: Entry)
    ensures |RecordBytes(h, previous, e)| == RECORD_HEADER_BYTES + |e.payload|
  {
  }

  lemma ScanGoodHeader(o: Options, h: Hashes, st: Recovery, p: Part, rest: Text)
    requires st.running == None || st.running == Some(p.seed)
    ensures CheckHeader(o, h, st, HeaderBytes(h, o.fabric, p.seed) + rest) == Usable(st.(running := Some(p.seed)))
  {
    hide HeaderBytes, HeaderBody, U32At, NumberAt;
    FieldsOfPartHeader(h, o.fabric, p.seed, rest);
  }

  function AbsorbPart(o: Options, h: Hashes, derive: Text -> u128, st: Recovery, p: Part): Recovery {
    var begun := st.(partsRecovered := st.partsRecovered + 1, running := Some(p.seed));
    var read := AbsorbAll(o, h, derive, begun, HEADER_BYTES, p.seed, p.entries);
    read.(fileBytes := read.fileBytes + HEADER_BYTES + RecordsSize(p.entries))
  }

  lemma ScanGoodPart(o: Options, h: Hashes, derive: Text -> u128, st: Recovery, newest: bool, p: Part)
    requires st.running == None || st.running == Some(p.seed)
    requires AllReadable(o, p.entries)
    ensures ScanPart(o, h, derive, st, newest, PartBytes(h, o.fabric, p)) == Ok(AbsorbPart(o, h, derive, st, p))
    ensures var st1 := AbsorbPart(o, h, derive, st, p); !st1.stop ==> st1.running == Some(EndOf(h, p))
    ensures |PartBytes(h, o.fabric, p)| == HEADER_BYTES + RecordsSize(p.entries)
  {
    hide CheckHeader, HeaderBytes, RecordsBytes, RecordsSize, ChainAfter, ScanRecords, AbsorbAll;
    var begun := st.(partsRecovered := st.partsRecovered + 1);
    ScanGoodHeader(o, h, begun, p, RecordsBytes(h, p.seed, p.entries));
    var st1 := begun.(running := Some(p.seed));
    ScanGoodRecords(o, h, derive, st1, newest, HEADER_BYTES, p.seed, p.entries, []);
    assert RecordsBytes(h, p.seed, p.entries) + [] == RecordsBytes(h, p.seed, p.entries);
    SizeOfRecords(h, p.seed, p.entries);
    HeaderSize(h, o.fabric, p.seed);
    var bytes := PartBytes(h, o.fabric, p);
    assert bytes[HEADER_BYTES..] == RecordsBytes(h, p.seed, p.entries);
    ScanNothing(o, h, derive, AbsorbAll(o, h, derive, st1, HEADER_BYTES, p.seed, p.entries), newest, HEADER_BYTES + RecordsSize(p.entries));
  }

  lemma ScanNothing(o: Options, h: Hashes, derive: Text -> u128, st: Recovery, newest: bool, offset: nat)
    ensures ScanRecords(o, h, derive, st, newest, offset, []) == st
  {
  }

  lemma HeaderSize(h: Hashes, fabric: u128, seed: Hash32)
    ensures |HeaderBytes(h, fabric, seed)| == HEADER_BYTES
  {
  }

  /** Each part's header carries on the chain of the part before it. */
  ghost predicate Linked(h: Hashes, parts: seq<Part>) {
    forall i :: 0 < i < |parts| ==> parts[i].seed == EndOf(h, parts[i - 1])
  }

  ghost predicate PartsReadable(o: Options, parts: seq<Part>) {
    forall i :: 0 <= i < |parts| ==> AllReadable(o, parts[i].entries)
  }

  function AbsorbParts(o: Options, h: Hashes, derive: Text -> u128, st: Recovery, parts: seq<Part>): Recovery
    decreases |parts|
  {
    if parts == [] || st.stop then st else AbsorbParts(o, h, derive, AbsorbPart(o, h, derive, st, parts[0]), parts[1..])
  }

  function BytesOf(o: Options, h: Hashes, parts: seq<Part>): (r: seq<Text>)
    ensures |r| == |parts|
  {
    seq(|parts|, i requires 0 <= i < |parts| => PartBytes(h, o.fabric, parts[i]))
  }

  /** Scanning written parts absorbs each of them in turn: no checksum, digest, length, chain or header check
      refuses what was written, and only the recovery bound can end the scan. */
  lemma {:induction false} ScanGoodParts(o: Options, h: Hashes, derive: Text -> u128, st: Recovery, parts: seq<Part>)
    requires Linked(h, parts) && PartsReadable(o, parts)
    requires parts != [] && !st.stop ==> st.running == None || st.running == Some(parts[0].seed)
    ensures ScanParts(o, h, derive, st, BytesOf(o, h, parts)) == Ok(AbsorbParts(o, h, derive, st, parts))
    decreases |parts|
  {
    hide ScanPart, AbsorbPart, PartBytes, EndOf;
    if parts != [] && !st.stop {
      ScanGoodPart(o, h, derive, st, |parts| == 1, parts[0]);
      assert BytesOf(o, h, parts)[1..] == BytesOf(o, h, parts[1..]);
      ScanGoodParts(o, h, derive, AbsorbPart(o, h, derive, st, parts[0]), parts[1..]);
    }
  }

  // ---- cutting a part anywhere ----

  /** How many whole records lie before the cut. */
  function WholeRecords(es: seq<Entry>, cut: nat): (k: nat)
    ensures k <= |es|
  {
    if es == [] then 0
    else if RecordsSize(es) <= cut then |es|
    else WholeRecords(es[..|es| - 1], cut)
  }

  lemma {:induction false} WholeRecordsFacts(es: seq<Entry>, cut: nat)
    ensures var k := WholeRecords(es, cut);
            && RecordsSize(es[..k]) <= cut
            && (k < |es| ==> cut < RecordsSize(es[..k]) + RECORD_HEADER_BYTES + |es[k].payload|)
  {
    if es != [] {
      if RecordsSize(es) <= cut {
        assert es[..|es|] == es;
      } else {
        var front := es[..|es| - 1];
        WholeRecordsFacts(front, cut);
        var k := WholeRecords(front, cut);
        assert front[..k] == es[..k];
        if k == |front| {
          assert es[..k] == front;
        } else {
          assert front[k] == es[k];
        }
      }
    } else {
      assert es[..0] == [];
    }
  }

  lemma {:induction false} RecordsSplit(h: Hashes, seed: Hash32, es: seq<Entry>, k: nat)
    requires k < |es|
    ensures exists more :: RecordsBytes(h, seed, es)
                           == RecordsBytes(h, seed, es[..k]) + RecordBytes(h, ChainAfter(h, seed, es[..k]), es[k]) + more
    decreases |es|
  {
    hide RecordBytes;
    var front, last := es[..|es| - 1], es[|es| - 1];
    if k == |front| {
      assert RecordsBytes(h, seed, es)
          == RecordsBytes(h, seed, es[..k]) + RecordBytes(h, ChainAfter(h, seed, es[..k]), es[k]) + [];
    } else {
      RecordsSplit(h, seed, front, k);
      assert front[..k] == es[..k] && front[k] == es[k];
      var more :| RecordsBytes(h, seed, front)
               == RecordsBytes(h, seed, front[..k]) + RecordBytes(h, ChainAfter(h, seed, front[..k]), front[k]) + more;
      var end := RecordBytes(h, ChainAfter(h, seed, front), last);
      assert RecordsBytes(h, seed, es)
          == RecordsBytes(h, seed, es[..k]) + RecordBytes(h, ChainAfter(h, seed, es[..k]), es[k]) + (more + end);
    }
  }

  /** A proper beginning of a record is recognised as cut short, never as damaged. */
  lemma ScanCutRecord(o: Options, h: Hashes, derive: Text -> u128, st: Recovery, offset: nat, previous: Hash32, e: Entry, n: nat)
    requires st.running == Some(previous) && Readable(o, e) && 0 < n < RECORD_HEADER_BYTES + |e.payload|
    requires n <= |RecordBytes(h, previous, e)|
    ensures ScanRecord(o, h, derive, st, true, offset, RecordBytes(h, previous, e)[..n])
         == (CutShort(st, offset, if n < RECORD_HEADER_BYTES then RecordHeaderTruncated else RecordPayloadTruncated, n, true), 0)
  {
    hide Interpret, RecordHeader, NextChain, RawOf;
    var s := RecordBytes(h, previous, e)[..n];
    if n >= RECORD_HEADER_BYTES {
      var part := e.payload[..n - RECORD_HEADER_BYTES];
      assert s == RecordHeader(h, previous, e) + part;
      RawOfHeader(h, previous, e, part);
    }
  }

  /** The bytes of a clean part up to a cut: the whole records before it, then a proper beginning of the next. */
  lemma CutRecords(h: Hashes, seed: Hash32, es: seq<Entry>, cut: nat)
    requires cut <= RecordsSize(es)
    ensures var k := WholeRecords(es, cut);
            var kept := RecordsSize(es[..k]);
            && |RecordsBytes(h, seed, es)| == RecordsSize(es)
            && kept <= cut
            && (cut > kept ==> k < |es| && cut - kept < RECORD_HEADER_BYTES + |es[k].payload|
                               && |RecordBytes(h, ChainAfter(h, seed, es[..k]), es[k])| == RECORD_HEADER_BYTES + |es[k].payload|)
            && RecordsBytes(h, seed, es)[..cut]
               == RecordsBytes(h, seed, es[..k])
                  + (if cut > kept then RecordBytes(h, ChainAfter(h, seed, es[..k]), es[k])[..cut - kept] else [])
  {
    hide RecordBytes, RecordsBytes, ChainAfter;
    var k := WholeRecords(es, cut);
    WholeRecordsFacts(es, cut);
    SizeOfRecords(h, seed, es);
    SizeOfRecords(h, seed, es[..k]);
    var all, head := RecordsBytes(h, seed, es), RecordsBytes(h, seed, es[..k]);
    if k < |es| {
      RecordsSplit(h, seed, es, k);
      var next := RecordBytes(h, ChainAfter(h, seed, es[..k]), es[k]);
      RecordSize(h, ChainAfter(h, seed, es[..k]), es[k]);
      var more :| all == head + next + more;
      assert all[..cut] == head + next[..cut - |head|];
    } else {
      assert es[..k] == es;
      assert all[..cut] == head;
    }
  }

  /** Truncation at every byte: cutting a clean one-part journal at any offset from the header's end on
      recovers exactly the records lying wholly before the cut; the report says truncated exactly when the
      cut is off a record boundary, never says corrupt, and header, valid records and unusable tail add up
      to the bytes that are left. */
  lemma TruncationAnywhere(o: Options, h: Hashes, derive: Text -> u128, p: Part, cut: nat)
    requires AllReadable(o, p.entries) && o.maxFiles >= 1 && |RecordsIn(o, derive, Strip(p.entries))| <= o.maxRecovered
    requires HEADER_BYTES <= cut <= |PartBytes(h, o.fabric, p)|
    ensures var k := WholeRecords(p.entries, cut - HEADER_BYTES);
            var kept := HEADER_BYTES + RecordsSize(p.entries[..k]);
            var whole := AbsorbPart(o, h, derive, NOTHING_YET, Part(p.seed, p.entries[..k]));
            && Recover(o, h, derive, map[0 := PartBytes(h, o.fabric, p)[..cut]]).Ok?
            && var r := Recover(o, h, derive, map[0 := PartBytes(h, o.fabric, p)[..cut]]).value;
            && r.records == whole.records && r.recordsRead == k && r.recordsRejected == whole.recordsRejected
            && r.snapshots == whole.snapshots && r.restart == whole.restart && r.chain == whole.chain
            && (r.truncated <==> cut != kept)
            && !r.corrupt
            && kept + r.tailBytes == cut == r.fileBytes
  {
    hide ScanRecords, CheckHeader, RecordsBytes, HeaderBytes, AbsorbAll, RecordsSize, PartsFrom, ChainAfter, RecordsIn, Strip;
    var k := WholeRecords(p.entries, cut - HEADER_BYTES);
    var es := p.entries[..k];
    var kept := RecordsSize(es);
    var bytes := PartBytes(h, o.fabric, p)[..cut];
    HeaderSize(h, o.fabric, p.seed);
    SizeOfRecords(h, p.seed, p.entries);
    CutRecords(h, p.seed, p.entries, cut - HEADER_BYTES);
    var body := RecordsBytes(h, p.seed, p.entries)[..cut - HEADER_BYTES];
    assert bytes == HeaderBytes(h, o.fabric, p.seed) + body;
    assert bytes[HEADER_BYTES..] == body;
    OnlyActive(bytes, o.maxFiles);
    var begun := NOTHING_YET.(partsRecovered := 1);
    ScanGoodHeader(o, h, begun, p, body);
    var st0 := begun.(running := Some(p.seed));
    var st1 := AbsorbAll(o, h, derive, st0, HEADER_BYTES, p.seed, es);
    var tail := if cut - HEADER_BYTES > kept then RecordBytes(h, ChainAfter(h, p.seed, es), p.entries[k])[..cut - HEADER_BYTES - kept] else [];
    ScanGoodRecords(o, h, derive, st0, true, HEADER_BYTES, p.seed, es, tail);
    RecordsInPrefix(o, derive, p.entries, k);
    AbsorbsWithoutStop(o, h, derive, st0, HEADER_BYTES, p.seed, es);
    ScanTail(o, h, derive, st1, HEADER_BYTES + kept, ChainAfter(h, p.seed, es), p.entries, k, tail);
    ScanOnePart(o, h, derive, bytes);
  }

  lemma OnlyActive(bytes: Text, n: nat)
    ensures PartsFrom(map[0 := bytes], n) == [bytes]
  {
  }

  lemma ScanOnePart(o: Options, h: Hashes, derive: Text -> u128, bytes: Text)
    ensures ScanParts(o, h, derive, NOTHING_YET, [bytes]) == ScanPart(o, h, derive, NOTHING_YET, true, bytes)
  {
    hide ScanPart;
    assert [bytes][1..] == [];
  }

  /** Absorbing keeps a clean scan clean while the recovery bound has room for the observations in it. */
  lemma {:induction false} AbsorbsWithoutStop(o: Options, h: Hashes, derive: Text -> u128, st: Recovery, offset: nat, previous: Hash32, es: seq<Entry>)
    requires !st.stop && !st.truncated && |st.records| + |RecordsIn(o, derive, Strip(es))| <= o.maxRecovered
    ensures var r := AbsorbAll(o, h, derive, st, offset, previous, es);
            && !r.stop && !r.truncated && r.corrupt == st.corrupt && r.tailBytes == st.tailBytes && r.fileBytes == st.fileBytes
            && r.partsRecovered == st.partsRecovered && r.recordsRead == st.recordsRead + |es|
            && r.records == st.records + RecordsIn(o, derive, Strip(es))
            && (es != [] ==> r.chain == Some(ChainAfter(h, previous, es)))
            && (es == [] ==> r.chain == st.chain)
    decreases |es|
  {
    hide NextChain, RecordsIn, Strip;
    if es == [] {
      assert Strip(es) == [];
      NoRecords(o, derive);
    } else {
      assert es == [es[0]] + es[1..];
      ChainFromFront(h, previous, es[0], es[1..]);
      RecordsInFirst(o, derive, es);
      AbsorbStep(o, h, derive, st, offset, previous, es[0]);
      hide Absorb;
      AbsorbsWithoutStop(o, h, derive, Absorb(o, h, derive, st, offset, previous, es[0]),
                         offset + RECORD_HEADER_BYTES + |es[0].payload|, NextChain(h, previous, es[0]), es[1..]);
      if es[1..] == [] {
        assert ChainAfter(h, NextChain(h, previous, es[0]), es[1..]) == NextChain(h, previous, es[0]);
      }
      Regroup(st.records, RecordsIn(o, derive, [Item(es[0].kind, es[0].payload)]), RecordsIn(o, derive, Strip(es[1..])));
    }
  }

  lemma AbsorbStep(o: Options, h: Hashes, derive: Text -> u128, st: Recovery, offset: nat, previous: Hash32, e: Entry)
    requires !st.stop && !st.truncated && |st.records| + |RecordsIn(o, derive, [Item(e.kind, e.payload)])| <= o.maxRecovered
    ensures var r := Absorb(o, h, derive, st, offset, previous, e);
            && !r.stop && !r.truncated && r.corrupt == st.corrupt && r.tailBytes == st.tailBytes && r.fileBytes == st.fileBytes
            && r.partsRecovered == st.partsRecovered && r.recordsRead == st.recordsRead + 1
            && r.records == st.records + RecordsIn(o, derive, [Item(e.kind, e.payload)])
            && r.chain == Some(NextChain(h, previous, e)) && r.running == r.chain
  {
    hide DecodeRecord, DecodeRestart, DecodeSnapshot, NextChain, RecordsIn;
    RecordsOfOne(o, derive, Item(e.kind, e.payload));
  }

  lemma RecordsOfOne(o: Options, derive: Text -> u128, x: Item)
    ensures RecordsIn(o, derive, [x])
         == if x.kind == OBSERVATION_KIND && DecodeRecord(x.payload, o.limits, derive).Ok?
            then [DecodeRecord(x.payload, o.limits, derive).value] else []
  {
    hide DecodeRecord;
    assert [x][..0] == [];
  }

  lemma ScanTail(o: Options, h: Hashes, derive: Text -> u128, st: Recovery, offset: nat, previous: Hash32, es: seq<Entry>, k: nat, tail: Text)
    requires !st.stop && !st.truncated && st.running == Some(previous) && AllReadable(o, es) && k <= |es|
    requires tail != [] ==> k < |es| && |tail| < RECORD_HEADER_BYTES + |es[k].payload| && |tail| <= |RecordBytes(h, previous, es[k])|
                            && tail == RecordBytes(h, previous, es[k])[..|tail|]
    ensures var r := ScanRecords(o, h, derive, st, true, offset, tail);
            && r.records == st.records && r.recordsRead == st.recordsRead && r.recordsRejected == st.recordsRejected
            && r.snapshots == st.snapshots && r.restart == st.restart && r.chain == st.chain && r.fileBytes == st.fileBytes
            && (r.truncated <==> tail != []) && r.corrupt == st.corrupt && r.tailBytes == st.tailBytes + |tail|
  {
    hide ScanRecord, RecordBytes;
    if tail != [] {
      ScanCutRecord(o, h, derive, st, offset, previous, es[k], |tail|);
    }
  }
}
