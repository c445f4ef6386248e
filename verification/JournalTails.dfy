/** What becomes of records that are appended after an open that could not read its journal to the end
    (src/persistence.cpp). */
module JournalTails {
  import opened Bytes
  import opened JournalFormat
  import opened JournalRecovery
  import opened Journals
  import opened Observations

  // ---- a scan that stops before the end never looks further ----

  /** The rest is too short for the record it begins with. */
  predicate EndsInside(o: Options, st: Recovery, rest: Text) {
    || |rest| < RECORD_HEADER_BYTES
    || (var raw := RawOf(rest);
        && 0 < raw.length <= o.maxRecordBytes && st.running == Some(raw.previous)
        && |rest| < RECORD_HEADER_BYTES + raw.length)
  }

  lemma SameRaw(rest: Text, more: Text)
    requires |rest| >= RECORD_HEADER_BYTES
    ensures RawOf(rest + more) == RawOf(rest)
  {
    var s := rest + more;
    assert s[20..52] == rest[20..52] && s[52..84] == rest[52..84] && s[84..116] == rest[84..116];
    assert s[0..4] == rest[0..4] && s[4..8] == rest[4..8] && s[12..20] == rest[12..20];
  }

  lemma SameRecord(o: Options, h: Hashes, derive: Text -> u128, st: Recovery, newest: bool, offset: nat, rest: Text, more: Text)
    requires !EndsInside(o, st, rest)
    ensures ScanRecord(o, h, derive, st, newest, offset, rest + more) == ScanRecord(o, h, derive, st, newest, offset, rest)
  {
    hide RawOf, Interpret, NextChain;
    SameRaw(rest, more);
    var n := RawOf(rest).length;
    if |rest| >= RECORD_HEADER_BYTES + n {
      assert (rest + more)[RECORD_HEADER_BYTES..RECORD_HEADER_BYTES + n] == rest[RECORD_HEADER_BYTES..RECORD_HEADER_BYTES + n];
    }
  }

  lemma TailOfRecord(o: Options, h: Hashes, derive: Text -> u128, st: Recovery, newest: bool, offset: nat, rest: Text)
    ensures var (st1, used) := ScanRecord(o, h, derive, st, newest, offset, rest);
            && st1.tailBytes == st.tailBytes + (if EndsInside(o, st, rest) then |rest| else 0)
            && (EndsInside(o, st, rest) ==> used == 0)
            && (used == 0 ==> st1.stop)
  {
    hide RawOf, NextChain, Interpret;
    if !EndsInside(o, st, rest) {
      var raw := RawOf(rest);
      var read := st.(recordsRead := st.recordsRead + 1, running := Some(raw.chain), chain := Some(raw.chain));
      if |rest| >= RECORD_HEADER_BYTES + raw.length {
        InterpretTail(o, derive, read, offset, raw.kind, rest[RECORD_HEADER_BYTES..RECORD_HEADER_BYTES + raw.length]);
      }
    }
  }

  lemma InterpretTail(o: Options, derive: Text -> u128, st: Recovery, offset: nat, kind: byte, payload: Text)
    ensures Interpret(o, derive, st, offset, kind, payload).tailBytes == st.tailBytes
  {
    hide DecodeRecord, DecodeRestart, DecodeSnapshot;
  }

  lemma {:induction false} TailGrows(o: Options, h: Hashes, derive: Text -> u128, st: Recovery, newest: bool, offset: nat, rest: Text)
    ensures ScanRecords(o, h, derive, st, newest, offset, rest).tailBytes >= st.tailBytes
    decreases |rest|
  {
    hide ScanRecord, EndsInside;
    if !st.stop && rest != [] {
      TailOfRecord(o, h, derive, st, newest, offset, rest);
      var (st1, used) := ScanRecord(o, h, derive, st, newest, offset, rest);
      if used != 0 {
        TailGrows(o, h, derive, st1, newest, offset + used, rest[used..]);
      }
    }
  }

  lemma {:induction false} SameRecords(o: Options, h: Hashes, derive: Text -> u128, st: Recovery, newest: bool, offset: nat, rest: Text, more: Text)
    requires var r := ScanRecords(o, h, derive, st, newest, offset, rest); r.stop && r.tailBytes == st.tailBytes
    ensures ScanRecords(o, h, derive, st, newest, offset, rest + more) == ScanRecords(o, h, derive, st, newest, offset, rest)
    decreases |rest|
  {
    hide ScanRecord, EndsInside;
    if !st.stop && rest != [] {
      TailOfRecord(o, h, derive, st, newest, offset, rest);
      var (st1, used) := ScanRecord(o, h, derive, st, newest, offset, rest);
      if used != 0 {
        TailGrows(o, h, derive, st1, newest, offset + used, rest[used..]);
      }
      SameRecord(o, h, derive, st, newest, offset, rest, more);
      if used != 0 {
        SameRecords(o, h, derive, st1, newest, offset + used, rest[used..], more);
        assert (rest + more)[used..] == rest[used..] + more;
      }
    }
  }

  lemma SameHeader(o: Options, h: Hashes, st: Recovery, bytes: Text, more: Text)
    requires |bytes| >= HEADER_BYTES
    ensures CheckHeader(o, h, st, bytes + more) == CheckHeader(o, h, st, bytes)
  {
    var s := bytes + more;
    assert s[..8] == bytes[..8] && s[..124] == bytes[..124] && s[40..72] == bytes[40..72];
    assert s[8..12] == bytes[8..12] && s[12..16] == bytes[12..16] && s[124..128] == bytes[124..128] && s[16..32] == bytes[16..32];
  }

  /** The same recovery, but for the number of bytes the files have. */
  predicate SameButBytes(a: Recovery, b: Recovery) { b == a.(fileBytes := b.fileBytes) }

  lemma SamePart(o: Options, h: Hashes, derive: Text -> u128, st: Recovery, bytes: Text, more: Text)
    requires |bytes| >= HEADER_BYTES && ScanPart(o, h, derive, st, true, bytes).Ok?
    requires var r := ScanPart(o, h, derive, st, true, bytes).value; r.stop && r.tailBytes == st.tailBytes
    ensures var r := ScanPart(o, h, derive, st, true, bytes + more);
            r.Ok? && SameButBytes(ScanPart(o, h, derive, st, true, bytes).value, r.value)
  {
    hide ScanRecords, CheckHeader;
    var begun := st.(partsRecovered := st.partsRecovered + 1);
    SameHeader(o, h, begun, bytes, more);
    HeaderTail(o, h, begun, bytes);
    match CheckHeader(o, h, begun, bytes)
    case Usable(st1) =>
      SameRecords(o, h, derive, st1, true, HEADER_BYTES, bytes[HEADER_BYTES..], more);
      assert (bytes + more)[HEADER_BYTES..] == bytes[HEADER_BYTES..] + more;
    case _ =>
  }

  lemma HeaderTail(o: Options, h: Hashes, st: Recovery, bytes: Text)
    ensures match CheckHeader(o, h, st, bytes)
            case Usable(st1) => st1.tailBytes == st.tailBytes
            case Broken(st1) => st1.tailBytes == st.tailBytes
            case Refused(_) => true
  {
  }

  lemma PartTail(o: Options, h: Hashes, derive: Text -> u128, st: Recovery, newest: bool, bytes: Text)
    requires ScanPart(o, h, derive, st, newest, bytes).Ok?
    ensures ScanPart(o, h, derive, st, newest, bytes).value.tailBytes >= st.tailBytes
  {
    hide CheckHeader, ScanRecords;
    var begun := st.(partsRecovered := st.partsRecovered + 1);
    HeaderTail(o, h, begun, bytes);
    match CheckHeader(o, h, begun, bytes)
    case Usable(st1) =>
      if |bytes| >= HEADER_BYTES {
        TailGrows(o, h, derive, st1, newest, HEADER_BYTES, bytes[HEADER_BYTES..]);
      }
    case _ =>
  }

  lemma {:induction false} PartsTail(o: Options, h: Hashes, derive: Text -> u128, st: Recovery, parts: seq<Text>)
    requires ScanParts(o, h, derive, st, parts).Ok?
    ensures ScanParts(o, h, derive, st, parts).value.tailBytes >= st.tailBytes
    decreases |parts|
  {
    hide ScanPart;
    if parts != [] && !st.stop {
      PartTail(o, h, derive, st, |parts| == 1, parts[0]);
      PartsTail(o, h, derive, ScanPart(o, h, derive, st, |parts| == 1, parts[0]).value, parts[1..]);
    }
  }

  function Grown(parts: seq<Text>, more: Text): seq<Text>
    requires parts != []
  {
    parts[|parts| - 1 := parts[|parts| - 1] + more]
  }

  lemma {:induction false} SameParts(o: Options, h: Hashes, derive: Text -> u128, st: Recovery, parts: seq<Text>, more: Text)
    requires parts != [] && |parts[|parts| - 1]| >= HEADER_BYTES && ScanParts(o, h, derive, st, parts).Ok?
    requires var r := ScanParts(o, h, derive, st, parts).value; r.stop && r.tailBytes == st.tailBytes
    ensures var r := ScanParts(o, h, derive, st, Grown(parts, more));
            r.Ok? && SameButBytes(ScanParts(o, h, derive, st, parts).value, r.value)
    decreases |parts|
  {
    hide ScanPart;
    if !st.stop {
      var st1 := ScanPart(o, h, derive, st, |parts| == 1, parts[0]).value;
      PartTail(o, h, derive, st, |parts| == 1, parts[0]);
      PartsTail(o, h, derive, st1, parts[1..]);
      if |parts| == 1 {
        NoMoreParts(o, h, derive, st1);
        assert parts[1..] == [] && Grown(parts, more)[1..] == [];
        SamePart(o, h, derive, st, parts[0], more);
        NoMoreParts(o, h, derive, ScanPart(o, h, derive, st, true, parts[0] + more).value);
      } else {
        if st1.stop {
          assert ScanParts(o, h, derive, st1, parts[1..]) == Ok(st1);
        }
        SameParts(o, h, derive, st1, parts[1..], more);
        assert Grown(parts, more)[1..] == Grown(parts[1..], more);
      }
    }
  }

  lemma NoMoreParts(o: Options, h: Hashes, derive: Text -> u128, st: Recovery)
    ensures ScanParts(o, h, derive, st, []) == Ok(st)
  {
  }

  lemma {:induction false} GrownFiles(files: map<nat, Text>, n: nat, more: Text)
    requires 0 in files
    ensures PartsFrom(files, n) != [] && PartsFrom(files, n)[|PartsFrom(files, n)| - 1] == files[0]
    ensures PartsFrom(files[0 := files[0] + more], n) == Grown(PartsFrom(files, n), more)
  {
    if n > 0 {
      GrownFiles(files, n - 1, more);
    }
  }

  /** When recovery stopped for anything but a record cut short (for damage, or at its bound), open still
      succeeds and appends to the active file; and every later recovery stops at the same place and finds
      the same, so that nothing appended from then on is ever read back. */
  lemma AppendedAfterStopIsLost(o: Options, h: Hashes, derive: Text -> u128, files: map<nat, Text>, more: Text)
    requires 0 in files && |files[0]| >= HEADER_BYTES && Recover(o, h, derive, files).Ok?
    requires var r := Recover(o, h, derive, files).value; r.stop && r.tailBytes == 0
    ensures var r := Recover(o, h, derive, files[0 := files[0] + more]);
            r.Ok? && SameButBytes(Recover(o, h, derive, files).value, r.value)
    ensures o.maxBytes >= HEADER_BYTES + RECORD_HEADER_BYTES && o.maxFiles > 0 && o.maxRecordBytes <= o.maxBytes ==>
              OpenOn(o, h, derive, files).Ok? && OpenOn(o, h, derive, files[0 := files[0] + more]).Ok?
  {
    hide ScanParts, PartsFrom;
    GrownFiles(files, o.maxFiles, more);
    SameParts(o, h, derive, NOTHING_YET, PartsFrom(files, o.maxFiles), more);
  }

  // ---- appending after a record that was cut short ----

  /** The bytes of the cut record are taken for the beginning of one, which what was appended completes. Unless it
      completes it to the very record that was cut, or to a text with the same hash, the scan stops there. */
  lemma AppendedAfterCut(o: Options, h: Hashes, derive: Text -> u128, st: Recovery, newest: bool, offset: nat, previous: Hash32, e: Entry, n: nat, more: Text)
    requires st.running == Some(previous) && Readable(o, e) && RECORD_HEADER_BYTES <= n < RECORD_HEADER_BYTES + |e.payload|
    requires n <= |RecordBytes(h, previous, e)| && n + |more| >= RECORD_HEADER_BYTES + |e.payload|
    ensures var s := RecordBytes(h, previous, e)[..n] + more;
            var payload := s[RECORD_HEADER_BYTES..RECORD_HEADER_BYTES + |e.payload|];
            var read := st.(recordsRead := st.recordsRead + 1);
            || payload == e.payload
            || (payload != e.payload && h.sha(payload) == h.sha(e.payload))
            || ScanRecord(o, h, derive, st, newest, offset, s) == (Damage(read, offset, RecordCrc), 0)
            || ScanRecord(o, h, derive, st, newest, offset, s) == (Damage(read, offset, RecordContent), 0)
  {
    hide Interpret, RecordHeader, NextChain, RawOf;
    var begun := e.payload[..n - RECORD_HEADER_BYTES];
    var s := RecordBytes(h, previous, e)[..n] + more;
    assert RecordBytes(h, previous, e)[..n] == RecordHeader(h, previous, e) + begun;
    assert s == RecordHeader(h, previous, e) + (begun + more);
    RawOfHeader(h, previous, e, begun + more);
  }
}
