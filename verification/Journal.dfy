/** The journal: an append-only log over a bounded number of numbered parts (src/persistence.cpp). */
module Journals {
  import opened Bytes
  import opened Canonical
  import opened JournalFormat
  import opened JournalRecovery
  import opened Observations

  // ---- the log, as a value ----

  /** The parts on disk, oldest first; the last one is active. sequence counts the active part's records
      written in this session. */
  datatype Log = Log(parts: seq<Part>, sequence: u64)

  function Active(log: Log): Part
    requires log.parts != []
  {
    log.parts[|log.parts| - 1]
  }

  function PartSize(p: Part): nat { HEADER_BYTES + RecordsSize(p.entries) }

  /** The program subtracts in 64-bit unsigned arithmetic. */
  predicate MustRotate(o: Options, size: nat, total: nat) {
    size > HEADER_BYTES && total > (o.maxBytes - size) % U64_MODULUS
  }

  function RotateLog(o: Options, h: Hashes, log: Log): Log
    requires log.parts != []
  {
    var kept := if o.maxFiles <= 1 then []
                else if |log.parts| >= o.maxFiles then log.parts[|log.parts| - (o.maxFiles - 1)..]
                else log.parts;
    Log(kept + [Part(EndOf(h, Active(log)), [])], 0)
  }

  function Push(log: Log, kind: byte, payload: Text): Log
    requires log.parts != []
  {
    var n, sequence := |log.parts| - 1, (log.sequence + 1) % U64_MODULUS;
    Log(log.parts[n := Part(log.parts[n].seed, log.parts[n].entries + [Entry(kind, payload, sequence)])], sequence)
  }

  function AppendTo(o: Options, h: Hashes, log: Log, kind: byte, payload: Text): Result<Log>
    requires log.parts != []
  {
    if |payload| > o.maxRecordBytes || RECORD_HEADER_BYTES + |payload| >= U64_MODULUS then Err(TooLarge)
    else
      var room := if MustRotate(o, PartSize(Active(log)), RECORD_HEADER_BYTES + |payload|) then RotateLog(o, h, log) else log;
      Ok(Push(room, kind, payload))
  }

  /** Slot 0 is the active file, slot i the part rotated i times. */
  function InSlot(parts: seq<Part>, i: nat): Part
    requires i < |parts|
  {
    parts[|parts| - 1 - i]
  }

  function FilesOf(o: Options, h: Hashes, parts: seq<Part>): map<nat, Text> {
    map i: nat | i < |parts| :: PartBytes(h, o.fabric, InSlot(parts, i))
  }

  const ZERO_HASH: Hash32 :=
    [0, 0, 0, 0, 0, 0, 0, 0, 0, 0, 0, 0, 0, 0, 0, 0,
     0, 0, 0, 0, 0, 0, 0, 0, 0, 0, 0, 0, 0, 0, 0, 0]

  /** What open leaves behind: the files, the chain value to continue, the active size, the recovery. */
  datatype Opened = Opened(files: map<nat, Text>, chain: Hash32, size: nat, recovery: Recovery)

  function OpenOn(o: Options, h: Hashes, derive: Text -> u128, files: map<nat, Text>): Result<Opened> {
    if o.maxBytes < HEADER_BYTES + RECORD_HEADER_BYTES || o.maxFiles == 0 || o.maxRecordBytes > o.maxBytes then Err(InvalidArgument)
    else match Recover(o, h, derive, files)
      case Err(c) => Err(c)
      case Ok(r) =>
        if 0 !in files then
          var seed := ChainSeed(h, o.fabric);
          Ok(Opened(files[0 := HeaderBytes(h, o.fabric, seed)], seed, HEADER_BYTES, r))
        else if |files[0]| < HEADER_BYTES then Err(Corrupt)
        else Ok(Opened(files, if r.chain.Some? then r.chain.value else ZERO_HASH, |files[0]|, r))
  }

  lemma PushedBytes(o: Options, h: Hashes, log: Log, kind: byte, payload: Text)
    requires log.parts != []
    ensures var l := Push(log, kind, payload);
            var e := Entry(kind, payload, l.sequence);
            && FilesOf(o, h, l.parts) == FilesOf(o, h, log.parts)[0 := PartBytes(h, o.fabric, Active(log)) + RecordBytes(h, EndOf(h, Active(log)), e)]
            && EndOf(h, Active(l)) == NextChain(h, EndOf(h, Active(log)), e)
            && PartSize(Active(l)) == PartSize(Active(log)) + RECORD_HEADER_BYTES + |payload|
  {
    hide RecordBytes, RecordsBytes, HeaderBytes, NextChain, ChainAfter, RecordsSize;
    var l := Push(log, kind, payload);
    var e := Entry(kind, payload, l.sequence);
    var p := Active(log);
    RecordsPush(h, p.seed, p.entries, e);
    SizePush(p.entries, e);
    assert PartBytes(h, o.fabric, Active(l)) == PartBytes(h, o.fabric, p) + RecordBytes(h, EndOf(h, p), e);
    forall i: nat | 0 < i < |log.parts| ensures InSlot(l.parts, i) == InSlot(log.parts, i) {
    }
  }

  lemma SizePush(es: seq<Entry>, e: Entry)
    ensures RecordsSize(es + [e]) == RecordsSize(es) + RECORD_HEADER_BYTES + |e.payload|
  {
    assert (es + [e])[..|es|] == es;
  }

  lemma BytesAreSize(h: Hashes, fabric: u128, p: Part)
    ensures |PartBytes(h, fabric, p)| == PartSize(p)
  {
    HeaderSize(h, fabric, p.seed);
    SizeOfRecords(h, p.seed, p.entries);
  }

  // ---- renaming parts ----

  function At(files: map<nat, Text>, j: nat): Option<Text> { if j in files then Some(files[j]) else None }

  function Moved(files: map<nat, Text>, from: nat, to: nat): map<nat, Text> {
    if from in files then (files - {from})[to := files[from]] else files
  }

  /** Slots above index + 1 have been moved up by one, index + 1 is free, the rest is untouched. */
  ghost predicate ShiftedTo(now: map<nat, Text>, was: map<nat, Text>, max: nat, index: nat) {
    && index + 1 < max
    && forall j: nat :: At(now, j) == Shifted(was, max, index, j)
  }

  function Shifted(was: map<nat, Text>, max: nat, index: nat, j: nat): Option<Text> {
    if j <= index then At(was, j) else if j == index + 1 || j >= max then None else At(was, j - 1)
  }

  /** All the way: slot 0 is free, every other slot holds what the slot below it held. */
  function ShiftedUp(was: map<nat, Text>, max: nat, j: nat): Option<Text> {
    if j == 0 || j >= max then None else At(was, j - 1)
  }

  lemma ShiftBegins(was: map<nat, Text>, max: nat)
    requires max > 1 && forall j :: j in was ==> j < max
    ensures ShiftedTo(was - {max - 1}, was, max, max - 2)
  {
  }

  lemma MovedAt(files: map<nat, Text>, from: nat, to: nat, j: nat)
    requires from != to && to !in files
    ensures At(Moved(files, from, to), j) == if j == from then None else if j == to then At(files, from) else At(files, j)
  {
  }

  lemma RemovedFree(files: map<nat, Text>, j: nat)
    requires At(files, j) == None
    ensures files - {j} == files && j !in files
  {
  }

  lemma ShiftStep(now: map<nat, Text>, was: map<nat, Text>, max: nat, index: nat)
    requires ShiftedTo(now, was, max, index) && index >= 1
    ensures ShiftedTo(Moved(now - {index + 1}, index, index + 1), was, max, index - 1)
  {
    hide At, Moved;
    RemovedFree(now, index + 1);
    var after := Moved(now, index, index + 1);
    forall j: nat ensures At(after, j) == Shifted(was, max, index - 1, j) {
      MovedAt(now, index, index + 1, j);
    }
  }

  lemma ShiftEnds(now: map<nat, Text>, was: map<nat, Text>, max: nat)
    requires ShiftedTo(now, was, max, 0)
    ensures forall j: nat :: At(Moved(now - {1}, 0, 1), j) == ShiftedUp(was, max, j)
  {
    hide At, Moved;
    RemovedFree(now, 1);
    forall j: nat ensures At(Moved(now, 0, 1), j) == ShiftedUp(was, max, j) {
      MovedAt(now, 0, 1, j);
    }
  }

  lemma HeaderIsTaken(o: Options, h: Hashes, seed: Hash32)
    ensures forall st: Recovery :: CheckHeader(o, h, st, HeaderBytes(h, o.fabric, seed))
              == if st.running == None || st.running == Some(seed) then Usable(st.(running := Some(seed)))
                 else Broken(Damage(st, 0, PartChainMismatch))
  {
    hide HeaderBytes, HeaderBody, U32At, NumberAt;
    FieldsOfPartHeader(h, o.fabric, seed, []);
    assert HeaderBytes(h, o.fabric, seed) + [] == HeaderBytes(h, o.fabric, seed);
  }

  class Journal {
    const options: Options
    const hashes: Hashes
    var files: map<nat, Text>
    var chain: Hash32
    var fileSequence: u64
    var currentBytes: nat
    var recordsWritten: nat
    var rotations: nat

    /** The files are exactly the parts of the log, and the fields say where its end is. */
    ghost predicate Holds(log: Log)
      reads this
    {
      && log.parts != [] && |log.parts| <= options.maxFiles
      && files == FilesOf(options, hashes, log.parts)
      && chain == EndOf(hashes, Active(log))
      && fileSequence == log.sequence
      && currentBytes == PartSize(Active(log))
    }

    constructor (o: Options, h: Hashes, found: Opened)
      ensures options == o && hashes == h && files == found.files && chain == found.chain
      ensures fileSequence == 0 && currentBytes == found.size
    {
      options, hashes, files, chain := o, h, found.files, found.chain;
      fileSequence, currentBytes, recordsWritten, rotations := 0, found.size, 0, 0;
    }

    /** The active file becomes an empty part: recovery takes it up exactly where the chain stands, and from
        any other chain value calls it damaged. */
    method WriteHeader()
      modifies this`files
      ensures files == old(files)[0 := PartBytes(hashes, options.fabric, Part(chain, []))] && |files[0]| == HEADER_BYTES
      ensures forall st: Recovery :: CheckHeader(options, hashes, st, files[0])
                == if st.running == None || st.running == Some(chain) then Usable(st.(running := Some(chain)))
                   else Broken(Damage(st, 0, PartChainMismatch))
    {
      EmptyPart(hashes, options.fabric, chain);
      HeaderIsTaken(options, hashes, chain);
      HeaderSize(hashes, options.fabric, chain);
      files := files[0 := HeaderBytes(hashes, options.fabric, chain)];
    }

    method Remove(slot: nat)
      modifies this`files
      ensures files == old(files) - {slot}
    {
      files := files - {slot};
    }

    method Rename(from: nat, to: nat)
      modifies this`files
      ensures files == Moved(old(files), from, to)
    {
      if from in files {
        var bytes := files[from];
        files := files - {from};
        files := files[to := bytes];
      }
    }

    /** Every slot moved up by one, the last one dropped, slot 0 left empty. */
    method ShiftParts()
      requires options.maxFiles > 1
      requires forall j :: j in files ==> j < options.maxFiles
      modifies this`files
      ensures forall j: nat :: At(files, j) == ShiftedUp(old(files), options.maxFiles, j)
    {
      hide At, Moved;
      Remove(options.maxFiles - 1);
      var index: nat := options.maxFiles - 2;
      ShiftBegins(old(files), options.maxFiles);
      while index >= 1
        invariant ShiftedTo(files, old(files), options.maxFiles, index)
      {
        ShiftStep(files, old(files), options.maxFiles, index);
        Remove(index + 1);
        Rename(index, index + 1);
        index := index - 1;
      }
      ShiftEnds(files, old(files), options.maxFiles);
      Remove(1);
      Rename(0, 1);
    }

    method Rotate(ghost log: Log)
      requires Holds(log)
      modifies this
      ensures Holds(RotateLog(options, hashes, log)) && chain == old(chain)
      ensures rotations == old(rotations) + 1 && recordsWritten == old(recordsWritten)
    {
      hide PartBytes, EndOf, RecordsSize, RotateLog, CheckHeader;
      EmptyPart(hashes, options.fabric, chain);
      rotations := rotations + 1;
      if options.maxFiles > 1 {
        ShiftParts();
      }
      WriteHeader();
      currentBytes := HEADER_BYTES;
      fileSequence := 0;
      RotatedFiles(options, hashes, log, old(files), files);
      RotatedActive(options, hashes, log);
    }

    /** write_record. */
    method WriteRecord(kind: byte, payload: Text, ghost log: Log) returns (r: Result<()>)
      requires Holds(log)
      modifies this
      ensures match AppendTo(options, hashes, log, kind, payload)
              case Ok(l) => r.Ok? && Holds(l) && recordsWritten == old(recordsWritten) + 1
              case Err(c) => r == Err(c) && Holds(log) && files == old(files)
    {
      hide FilesOf, EndOf, RecordHeader, NextChain, PartSize, RotateLog;
      if |payload| > options.maxRecordBytes {
        return Err(TooLarge);
      }
      var total := RECORD_HEADER_BYTES + |payload|;
      if total >= U64_MODULUS {
        return Err(TooLarge);
      }
      ghost var room := log;
      if currentBytes > HEADER_BYTES && total > (options.maxBytes - currentBytes) % U64_MODULUS {
        room := RotateLog(options, hashes, log);
        Rotate(log);
      }
      var sequence := (fileSequence + 1) % U64_MODULUS;
      var e := Entry(kind, payload, sequence);
      PushedBytes(options, hashes, room, kind, payload);
      ActiveFile(options, hashes, room);
      files := files[0 := files[0] + RecordHeader(hashes, chain, e) + payload];
      RecordBytesParts(hashes, chain, e, FilesOf(options, hashes, room.parts)[0]);
      chain := NextChain(hashes, chain, e);
      fileSequence := sequence;
      recordsWritten := recordsWritten + 1;
      currentBytes := currentBytes + total;
      r := Ok(());
    }
  }

  lemma RecordBytesParts(h: Hashes, chain: Hash32, e: Entry, before: Text)
    ensures before + RecordHeader(h, chain, e) + e.payload == before + RecordBytes(h, chain, e)
  {
    hide RecordHeader;
  }

  lemma ActiveFile(o: Options, h: Hashes, log: Log)
    requires log.parts != []
    ensures 0 in FilesOf(o, h, log.parts) && FilesOf(o, h, log.parts)[0] == PartBytes(h, o.fabric, Active(log))
  {
    hide PartBytes;
  }

  lemma EmptyPart(h: Hashes, fabric: u128, seed: Hash32)
    ensures PartBytes(h, fabric, Part(seed, [])) == HeaderBytes(h, fabric, seed)
    ensures EndOf(h, Part(seed, [])) == seed && PartSize(Part(seed, [])) == HEADER_BYTES
  {
    assert RecordsBytes(h, seed, []) == [];
  }

  lemma RotatedActive(o: Options, h: Hashes, log: Log)
    requires log.parts != []
    ensures var l := RotateLog(o, h, log);
            EndOf(h, Active(l)) == EndOf(h, Active(log)) && PartSize(Active(l)) == HEADER_BYTES && l.sequence == 0
            && (o.maxFiles >= 1 ==> |l.parts| <= o.maxFiles)
  {
    hide EndOf, RecordsSize;
    EmptyPart(h, o.fabric, EndOf(h, Active(log)));
  }

  lemma SameFiles(a: map<nat, Text>, b: map<nat, Text>)
    requires forall j: nat :: At(a, j) == At(b, j)
    ensures a == b
  {
    forall j: nat ensures (j in a <==> j in b) && (j in a ==> a[j] == b[j]) {
      assert At(a, j) == At(b, j);
    }
  }

  lemma RotatedFiles(o: Options, h: Hashes, log: Log, before: map<nat, Text>, after: map<nat, Text>)
    requires log.parts != [] && 1 <= |log.parts| <= o.maxFiles
    requires before == FilesOf(o, h, log.parts)
    requires 0 in after && after[0] == HeaderBytes(h, o.fabric, EndOf(h, Active(log)))
    requires o.maxFiles > 1 ==> forall j: nat :: j > 0 ==> At(after, j) == ShiftedUp(before, o.maxFiles, j)
    requires o.maxFiles <= 1 ==> after.Keys == {0}
    ensures after == FilesOf(o, h, RotateLog(o, h, log).parts)
  {
    hide PartBytes, EndOf, HeaderBytes;
    var l := RotateLog(o, h, log);
    EmptyPart(h, o.fabric, EndOf(h, Active(log)));
    var target := FilesOf(o, h, l.parts);
    forall j: nat ensures At(after, j) == At(target, j) {
      assert j > 0 && |l.parts| > j ==> InSlot(l.parts, j) == InSlot(log.parts, j - 1);
    }
    SameFiles(after, target);
  }

  // ---- opening ----

  method Open(o: Options, h: Hashes, derive: Text -> u128, files: map<nat, Text>) returns (r: Result<(Journal, Recovery)>)
    ensures match OpenOn(o, h, derive, files)
            case Err(c) => r == Err(c)
            case Ok(found) => r.Ok? && r.value.1 == found.recovery && fresh(r.value.0)
                               && r.value.0.options == o && r.value.0.hashes == h && r.value.0.files == found.files
                               && r.value.0.chain == found.chain && r.value.0.fileSequence == 0
                               && r.value.0.currentBytes == found.size
  {
    hide Recover, HeaderBytes;
    if o.maxBytes < HEADER_BYTES + RECORD_HEADER_BYTES {
      return Err(InvalidArgument);
    }
    if o.maxFiles == 0 {
      return Err(InvalidArgument);
    }
    if o.maxRecordBytes > o.maxBytes {
      return Err(InvalidArgument);
    }
    var recovered := RecoverParts(o, h, derive, files);
    if recovered.Err? {
      return Err(recovered.code);
    }
    var recovery := recovered.value;
    var found: Opened;
    if 0 !in files {
      var seed := ChainSeed(h, o.fabric);
      found := Opened(files[0 := HeaderBytes(h, o.fabric, seed)], seed, HEADER_BYTES, recovery);
    } else {
      if |files[0]| < HEADER_BYTES {
        return Err(Corrupt);
      }
      found := Opened(files, if recovery.chain.Some? then recovery.chain.value else ZERO_HASH, |files[0]|, recovery);
    }
    var journal := new Journal(o, h, found);
    r := Ok((journal, recovery));
  }

  // ---- compaction ----

  function CompactEntries(records: seq<ObservationRecord>): (r: seq<Entry>)
    ensures |r| == |records|
  {
    seq(|records|, i requires 0 <= i < |records| => Entry(OBSERVATION_KIND, EncodeRecord(records[i]), (i + 1) % U64_MODULUS))
  }

  /** compact: the recovered records rewritten as one fresh part. */
  method Compact(o: Options, h: Hashes, records: seq<ObservationRecord>) returns (r: Result<Text>)
    ensures (exists i :: 0 <= i < |records| && |EncodeRecord(records[i])| > o.maxRecordBytes) ==> r == Err(TooLarge)
    ensures !(exists i :: 0 <= i < |records| && |EncodeRecord(records[i])| > o.maxRecordBytes)
        ==> r == Ok(PartBytes(h, o.fabric, Part(ChainSeed(h, o.fabric), CompactEntries(records))))
  {
    hide EncodeRecord, RecordHeader, HeaderBytes, NextChain, RecordsBytes, ChainAfter;
    var seed := ChainSeed(h, o.fabric);
    var es := CompactEntries(records);
    var target := HeaderBytes(h, o.fabric, seed);
    var chain: Hash32 := seed;
    var sequence := 0;
    EmptyPart(h, o.fabric, seed);
    assert es[..0] == [];
    for i := 0 to |records|
      invariant target == PartBytes(h, o.fabric, Part(seed, es[..i])) && chain == EndOf(h, Part(seed, es[..i]))
      invariant sequence == i % U64_MODULUS
      invariant forall k :: 0 <= k < i ==> |EncodeRecord(records[k])| <= o.maxRecordBytes
    {
      var payload := EncodeRecord(records[i]);
      if |payload| > o.maxRecordBytes {
        return Err(TooLarge);
      }
      sequence := (sequence + 1) % U64_MODULUS;
      var e := Entry(OBSERVATION_KIND, payload, sequence);
      assert e == es[i] && es[..i + 1] == es[..i] + [e];
      RecordsPush(h, seed, es[..i], e);
      RecordBytesParts(h, chain, e, target);
      target := target + RecordHeader(h, chain, e) + payload;
      assert target == PartBytes(h, o.fabric, Part(seed, es[..i + 1]));
      chain := NextChain(h, chain, e);
    }
    assert es[..|records|] == es;
    r := Ok(target);
  }
}
