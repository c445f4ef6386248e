/** Whole histories of a journal: any number of sessions and rotations, and what reopening gives back
    (src/persistence.cpp, docs/persistence.md). */
module JournalRuns {
  import opened Bytes
  import opened Canonical
  import opened JournalFormat
  import opened JournalRecovery
  import opened Journals
  import opened Observations

  // ---- what a runtime writes ----

  datatype Written =
    | WroteRecord(record: ObservationRecord)
    | WroteRestart(restart: RestartMarker, wallClock: i64)
    | WroteSnapshot(snapshot: SnapshotMarker)

  function ItemOf(w: Written): Item {
    match w
    case WroteRecord(r) => Item(OBSERVATION_KIND, EncodeRecord(r))
    case WroteRestart(m, clock) => Item(RESTART_KIND, EncodeRestart(m, clock))
    case WroteSnapshot(m) => Item(SNAPSHOT_KIND, EncodeSnapshot(m))
  }

  /** Something this runtime could hand to the journal, within its record bound. */
  ghost predicate Writable(o: Options, derive: Text -> u128, w: Written) {
    && |ItemOf(w).payload| <= o.maxRecordBytes
    && (w.WroteRecord? ==> WellBuilt(w.record.observation, o.limits, derive))
    && (w.WroteSnapshot? ==> |w.snapshot.id| == 32)
  }

  /** The options open accepts, with record sizes that fit the 32-bit length field. */
  ghost predicate Sane(o: Options) {
    && o.limits.Sized()
    && o.maxFiles >= 1 && HEADER_BYTES + RECORD_HEADER_BYTES <= o.maxBytes
    && o.maxRecordBytes <= o.maxBytes && o.maxRecordBytes < 0x1_0000_0000
  }

  lemma PayloadsAreNotEmpty(w: Written)
    ensures |ItemOf(w).payload| > 0
  {
    hide Observations.Encode, PutI64, PutU64, PutU32, PutBytes, PutBool;
  }

  // ---- the log of a history ----

  function Write(o: Options, h: Hashes, log: Log, w: Written): Log
    requires log.parts != []
  {
    match AppendTo(o, h, log, ItemOf(w).kind, ItemOf(w).payload) case Ok(l) => l case Err(_) => log
  }

  function WriteAll(o: Options, h: Hashes, log: Log, ws: seq<Written>): (r: Log)
    requires log.parts != []
    ensures r.parts != []
  {
    if ws == [] then log else Write(o, h, WriteAll(o, h, log, ws[..|ws| - 1]), ws[|ws| - 1])
  }

  function Fresh(o: Options, h: Hashes): Log { Log([Part(ChainSeed(h, o.fabric), [])], 0) }

  /** Sessions one after another on the same files; each starts counting its records from one again. */
  function Sessions(o: Options, h: Hashes, ss: seq<seq<Written>>): (r: Log)
    ensures r.parts != []
  {
    if ss == [] then Fresh(o, h)
    else WriteAll(o, h, Log(Sessions(o, h, ss[..|ss| - 1]).parts, 0), ss[|ss| - 1])
  }

  function AllWritten(ss: seq<seq<Written>>): seq<Written> {
    if ss == [] then [] else AllWritten(ss[..|ss| - 1]) + ss[|ss| - 1]
  }

  function Items(ws: seq<Written>): (r: seq<Item>)
    ensures |r| == |ws|
  {
    seq(|ws|, i requires 0 <= i < |ws| => ItemOf(ws[i]))
  }

  /** Everything the parts hold, oldest first. */
  function Flat(parts: seq<Part>): seq<Item> {
    if parts == [] then [] else Flat(parts[..|parts| - 1]) + Strip(parts[|parts| - 1].entries)
  }

  ghost predicate SuffixOf<T(!new)>(a: seq<T>, b: seq<T>) { |a| <= |b| && b[|b| - |a|..] == a }

  // ---- the invariant of every history ----

  ghost predicate Good(o: Options, h: Hashes, log: Log) {
    && log.parts != [] && |log.parts| <= o.maxFiles
    && Linked(h, log.parts)
    && PartsReadable(o, log.parts)
    && (HEADER_BYTES + RECORD_HEADER_BYTES + o.maxRecordBytes <= o.maxBytes ==>
          forall i :: 0 <= i < |log.parts| ==> PartSize(log.parts[i]) <= o.maxBytes)
  }

  lemma FreshIsGood(o: Options, h: Hashes)
    requires Sane(o)
    ensures Good(o, h, Fresh(o, h)) && Flat(Fresh(o, h).parts) == []
  {
    assert RecordsSize([]) == 0;
    assert Fresh(o, h).parts[..0] == [];
    assert Flat([]) == [];
  }

  lemma RotateIsGood(o: Options, h: Hashes, log: Log)
    requires Sane(o) && Good(o, h, log)
    ensures Good(o, h, RotateLog(o, h, log))
  {
    hide EndOf, RecordsSize, AllReadable;
    EmptyPart(h, o.fabric, EndOf(h, Active(log)));
    NothingReadable(o);
  }

  lemma NothingReadable(o: Options)
    ensures AllReadable(o, [])
  {
  }

  lemma PushIsGood(o: Options, h: Hashes, log: Log, kind: byte, payload: Text)
    requires Good(o, h, log) && Readable(o, Entry(kind, payload, 0))
    requires HEADER_BYTES + RECORD_HEADER_BYTES + o.maxRecordBytes <= o.maxBytes
         ==> PartSize(Active(log)) + RECORD_HEADER_BYTES + |payload| <= o.maxBytes
    ensures Good(o, h, Push(log, kind, payload))
  {
    hide EndOf, RecordsSize;
    var l := Push(log, kind, payload);
    var n := |log.parts| - 1;
    SizePush(log.parts[n].entries, Entry(kind, payload, l.sequence));
    forall i | 0 <= i < |l.parts| ensures AllReadable(o, l.parts[i].entries) {
      assert AllReadable(o, log.parts[i].entries);
    }
    forall i | 0 < i < |l.parts| ensures l.parts[i].seed == EndOf(h, l.parts[i - 1]) {
      assert log.parts[i].seed == EndOf(h, log.parts[i - 1]);
    }
  }

  lemma WriteIsGood(o: Options, h: Hashes, derive: Text -> u128, log: Log, w: Written)
    requires Sane(o) && Good(o, h, log) && Writable(o, derive, w)
    ensures Good(o, h, Write(o, h, log, w))
    ensures AppendTo(o, h, log, ItemOf(w).kind, ItemOf(w).payload).Ok?
  {
    hide Good, ItemOf, RotateLog, Push, PartSize;
    var item := ItemOf(w);
    PayloadsAreNotEmpty(w);
    GoodSizes(o, h, log);
    var size := PartSize(Active(log));
    if MustRotate(o, size, RECORD_HEADER_BYTES + |item.payload|) {
      RotateIsGood(o, h, log);
      RotatedActive(o, h, log);
      PushIsGood(o, h, RotateLog(o, h, log), item.kind, item.payload);
    } else {
      PushIsGood(o, h, log, item.kind, item.payload);
    }
  }

  lemma GoodSizes(o: Options, h: Hashes, log: Log)
    requires Good(o, h, log)
    ensures log.parts != []
    ensures PartSize(Active(log)) >= HEADER_BYTES
    ensures HEADER_BYTES + RECORD_HEADER_BYTES + o.maxRecordBytes <= o.maxBytes ==> PartSize(Active(log)) <= o.maxBytes
    ensures RotateLog(o, h, log).parts != []
  {
  }

  lemma {:induction false} FlatAppend(a: seq<Part>, b: seq<Part>)
    ensures Flat(a + b) == Flat(a) + Flat(b)
  {
    hide Strip;
    if b == [] {
      assert a + b == a;
    } else {
      FlatAppend(a, b[..|b| - 1]);
      assert (a + b)[..|a + b| - 1] == a + b[..|b| - 1];
      Regroup(Flat(a), Flat(b[..|b| - 1]), Strip(b[|b| - 1].entries));
    }
  }

  lemma RotateKeepsSuffix(o: Options, h: Hashes, log: Log)
    requires log.parts != []
    ensures SuffixOf(Flat(RotateLog(o, h, log).parts), Flat(log.parts))
  {
    hide EndOf, Flat, SuffixOf;
    var kept := if o.maxFiles <= 1 then []
                else if |log.parts| >= o.maxFiles then log.parts[|log.parts| - (o.maxFiles - 1)..]
                else log.parts;
    var blank := Part(EndOf(h, Active(log)), []);
    var gone := log.parts[..|log.parts| - |kept|];
    assert log.parts == gone + kept;
    FlatAppend(gone, kept);
    FlatAppend(kept, [blank]);
    FlatOfBlank(blank);
    assert Flat(kept) + [] == Flat(kept);
    EndIsSuffix(Flat(gone), Flat(kept));
  }

  lemma FlatOfBlank(blank: Part)
    requires blank.entries == []
    ensures Flat([blank]) == []
  {
    assert [blank][..0] == [];
    assert Flat([]) == [];
  }

  lemma EndIsSuffix<T(!new)>(a: seq<T>, b: seq<T>)
    ensures SuffixOf(b, a + b)
  {
  }

  lemma PushFlat(log: Log, kind: byte, payload: Text)
    requires log.parts != []
    ensures Flat(Push(log, kind, payload).parts) == Flat(log.parts) + [Item(kind, payload)]
  {
    var n := |log.parts| - 1;
    assert Push(log, kind, payload).parts[..n] == log.parts[..n];
  }

  lemma WriteFlat(o: Options, h: Hashes, derive: Text -> u128, log: Log, w: Written)
    requires Sane(o) && Good(o, h, log) && Writable(o, derive, w)
    ensures SuffixOf(Flat(Write(o, h, log, w).parts), Flat(log.parts) + [ItemOf(w)])
    ensures Flat(Write(o, h, log, w).parts) != []
  {
    hide Good, ItemOf, RotateLog, Push, MustRotate, Flat, PartSize;
    GoodSizes(o, h, log);
    WriteIsGood(o, h, derive, log, w);
    var item := ItemOf(w);
    PushFlat(log, item.kind, item.payload);
    RotateKeepsSuffix(o, h, log);
    PushFlat(RotateLog(o, h, log), item.kind, item.payload);
  }

  ghost predicate AllWritable(o: Options, derive: Text -> u128, ws: seq<Written>) { forall w :: w in ws ==> Writable(o, derive, w) }

  lemma SuffixChain<T(!new)>(a: seq<T>, b: seq<T>, c: seq<T>, x: T)
    requires SuffixOf(a, b + [x]) && SuffixOf(b, c)
    ensures SuffixOf(a, c + [x])
  {
    var k := |c| - |b|;
    assert (c + [x])[k..] == b + [x];
    assert (c + [x])[|c| + 1 - |a|..] == (c + [x])[k..][|b| + 1 - |a|..];
  }

  lemma {:induction false} WriteAllFacts(o: Options, h: Hashes, derive: Text -> u128, log: Log, ws: seq<Written>, before: seq<Item>)
    requires Sane(o) && Good(o, h, log) && AllWritable(o, derive, ws) && SuffixOf(Flat(log.parts), before)
    ensures var l := WriteAll(o, h, log, ws);
            && Good(o, h, l) && SuffixOf(Flat(l.parts), before + Items(ws))
            && (ws != [] ==> Flat(l.parts) != [])
  {
    hide Write, Good, Flat, Writable, ItemOf;
    if ws == [] {
      assert before + Items(ws) == before;
    } else {
      var front, w := ws[..|ws| - 1], ws[|ws| - 1];
      assert ws == front + [w];
      GoodSizes(o, h, log);
      WriteAllFacts(o, h, derive, log, front, before);
      var mid := WriteAll(o, h, log, front);
      WriteIsGood(o, h, derive, mid, w);
      WriteFlat(o, h, derive, mid, w);
      SuffixChain(Flat(Write(o, h, mid, w).parts), Flat(mid.parts), before + Items(front), ItemOf(w));
      assert before + Items(front) + [ItemOf(w)] == before + Items(ws);
    }
  }

  lemma {:induction false} ItemsAppend(a: seq<Written>, b: seq<Written>)
    ensures Items(a + b) == Items(a) + Items(b)
  {
    hide ItemOf;
    forall i | 0 <= i < |a + b| ensures Items(a + b)[i] == (Items(a) + Items(b))[i] {
    }
  }

  lemma SequenceIsFree(o: Options, h: Hashes, log: Log)
    requires Good(o, h, log)
    ensures Good(o, h, Log(log.parts, 0))
  {
  }

  lemma {:induction false} SessionsFacts(o: Options, h: Hashes, derive: Text -> u128, ss: seq<seq<Written>>)
    requires Sane(o) && AllWritable(o, derive, AllWritten(ss))
    ensures var l := Sessions(o, h, ss);
            && Good(o, h, l) && SuffixOf(Flat(l.parts), Items(AllWritten(ss)))
            && (ss != [] && ss[|ss| - 1] != [] ==> Flat(l.parts) != [])
  {
    hide WriteAll, Good, Flat, Writable;
    if ss == [] {
      FreshIsGood(o, h);
    } else {
      var front, last := ss[..|ss| - 1], ss[|ss| - 1];
      SessionsFacts(o, h, derive, front);
      var l := Sessions(o, h, front);
      SequenceIsFree(o, h, l);
      WriteAllFacts(o, h, derive, Log(l.parts, 0), last, Items(AllWritten(front)));
      ItemsAppend(AllWritten(front), last);
    }
  }

  // ---- what recovery makes of the parts ----

  /** A scan in good standing: nothing lost, and the chain value to continue, if any record was seen. */
  ghost predicate Clean(o: Options, derive: Text -> u128, st: Recovery, items: seq<Item>, end: Hash32) {
    && !st.stop && !st.truncated && !st.corrupt && st.tailBytes == 0
    && st.recordsRead == |items| && st.records == RecordsIn(o, derive, items)
    && st.chain == (if items == [] then None else Some(end))
  }

  lemma AbsorbPartClean(o: Options, h: Hashes, derive: Text -> u128, st: Recovery, items: seq<Item>, p: Part)
    requires Clean(o, derive, st, items, p.seed) && |RecordsIn(o, derive, items + Strip(p.entries))| <= o.maxRecovered
    ensures Clean(o, derive, AbsorbPart(o, h, derive, st, p), items + Strip(p.entries), EndOf(h, p))
  {
    hide AbsorbAll, RecordsIn, RecordsSize, NextChain;
    var begun := st.(partsRecovered := st.partsRecovered + 1, running := Some(p.seed));
    RecordsInAppend(o, derive, items, Strip(p.entries));
    AbsorbsWithoutStop(o, h, derive, begun, HEADER_BYTES, p.seed, p.entries);
    if p.entries == [] {
      assert items + Strip(p.entries) == items;
    }
  }

  lemma {:induction false} FlatFromFront(p: Part, parts: seq<Part>)
    ensures Flat([p] + parts) == Strip(p.entries) + Flat(parts)
  {
    FlatAppend([p], parts);
    assert [p][..0] == [];
    assert Flat([]) == [];
  }

  lemma CleanRuns(o: Options, derive: Text -> u128, st: Recovery, items: seq<Item>, end: Hash32)
    requires Clean(o, derive, st, items, end)
    ensures !st.stop
  {
  }

  lemma FlatOfNone()
    ensures Flat([]) == []
  {
  }

  lemma {:induction false} AbsorbPartsClean(o: Options, h: Hashes, derive: Text -> u128, st: Recovery, items: seq<Item>, parts: seq<Part>)
    requires parts != [] && Linked(h, parts)
    requires Clean(o, derive, st, items, parts[0].seed) && |RecordsIn(o, derive, items + Flat(parts))| <= o.maxRecovered
    ensures Clean(o, derive, AbsorbParts(o, h, derive, st, parts), items + Flat(parts), EndOf(h, parts[|parts| - 1]))
    decreases |parts|
  {
    hide AbsorbPart, EndOf, Clean, Flat, Strip, RecordsIn;
    var p, rest := parts[0], parts[1..];
    assert parts == [p] + rest;
    FlatFromFront(p, rest);
    assert items + Flat(parts) == items + Strip(p.entries) + Flat(rest);
    CleanRuns(o, derive, st, items, p.seed);
    RecordsInAppend(o, derive, items + Strip(p.entries), Flat(rest));
    AbsorbPartClean(o, h, derive, st, items, p);
    var st1 := AbsorbPart(o, h, derive, st, p);
    if rest == [] {
      FlatOfNone();
      assert items + Flat(parts) == items + Strip(p.entries);
    } else {
      AbsorbPartsClean(o, h, derive, st1, items + Strip(p.entries), rest);
    }
  }

  lemma {:induction false} PartsListed(o: Options, h: Hashes, parts: seq<Part>, n: nat)
    requires parts != [] && n + 1 >= |parts|
    ensures PartsFrom(FilesOf(o, h, parts), n) == BytesOf(o, h, parts)
  {
    PartsListedUpTo(o, h, parts, n);
    var k := Min(n + 1, |parts|);
    assert parts[|parts| - k..] == parts;
  }

  lemma {:induction false} PartsListedUpTo(o: Options, h: Hashes, parts: seq<Part>, n: nat)
    requires parts != []
    ensures PartsFrom(FilesOf(o, h, parts), n) == BytesOf(o, h, parts[|parts| - Min(n + 1, |parts|)..])
  {
    hide PartBytes;
    var files := FilesOf(o, h, parts);
    if n == 0 {
      assert InSlot(parts, 0) == parts[|parts| - 1];
      assert parts[|parts| - 1..] == [parts[|parts| - 1]];
    } else {
      PartsListedUpTo(o, h, parts, n - 1);
      if n < |parts| {
        var from := |parts| - 1 - n;
        assert parts[from..] == [parts[from]] + parts[from + 1..];
        assert BytesOf(o, h, parts[from..]) == [PartBytes(h, o.fabric, parts[from])] + BytesOf(o, h, parts[from + 1..]);
        assert InSlot(parts, n) == parts[from];
      }
    }
  }

  /** Reopening: recovery reads every record of every part and nothing else, finds no damage, and open
      continues where the log ends, if and only if some part holds a record. (A journal with nothing but
      its header is reopened on the all-zero chain value.) */
  lemma ReopenFindsTheLog(o: Options, h: Hashes, derive: Text -> u128, log: Log)
    requires Sane(o) && Good(o, h, log) && |RecordsIn(o, derive, Flat(log.parts))| <= o.maxRecovered
    ensures OpenOn(o, h, derive, FilesOf(o, h, log.parts)).Ok?
    ensures var found := OpenOn(o, h, derive, FilesOf(o, h, log.parts)).value;
            && found.files == FilesOf(o, h, log.parts) && found.size == PartSize(Active(log))
            && found.recovery.records == RecordsIn(o, derive, Flat(log.parts))
            && found.recovery.recordsRead == |Flat(log.parts)|
            && !found.recovery.corrupt && !found.recovery.truncated && found.recovery.tailBytes == 0
            && (found.chain == EndOf(h, Active(log)) <==> Flat(log.parts) != [] || EndOf(h, Active(log)) == ZERO_HASH)
  {
    hide AbsorbParts, FilesOf, EndOf, PartBytes, RecordsIn, Flat, RecordsSize, ScanParts, PartsFrom;
    var parts := log.parts;
    PartsListed(o, h, parts, o.maxFiles);
    ScanGoodParts(o, h, derive, NOTHING_YET, parts);
    NoRecords(o, derive);
    assert [] + Flat(parts) == Flat(parts);
    AbsorbPartsClean(o, h, derive, NOTHING_YET, [], parts);
    ActiveFile(o, h, log);
    BytesAreSize(h, o.fabric, Active(log));
  }

  /** The object open hands out on those files therefore stands at the end of the log: the contract of
      WriteRecord applies to it again. */
  lemma ReopenedJournalHolds(j: Journal, derive: Text -> u128, log: Log)
    requires Sane(j.options) && Good(j.options, j.hashes, log) && Flat(log.parts) != []
    requires |RecordsIn(j.options, derive, Flat(log.parts))| <= j.options.maxRecovered
    requires OpenOn(j.options, j.hashes, derive, FilesOf(j.options, j.hashes, log.parts)).Ok?
    requires var found := OpenOn(j.options, j.hashes, derive, FilesOf(j.options, j.hashes, log.parts)).value;
             j.files == found.files && j.chain == found.chain && j.fileSequence == 0 && j.currentBytes == found.size
    ensures j.Holds(Log(log.parts, 0))
  {
    hide OpenOn, FilesOf, EndOf, PartSize, Flat, Linked, PartsReadable;
    ReopenFindsTheLog(j.options, j.hashes, derive, log);
  }

  function RecordsOf(ws: seq<Written>): seq<ObservationRecord> {
    if ws == [] then []
    else
      var before, last := RecordsOf(ws[..|ws| - 1]), ws[|ws| - 1];
      if last.WroteRecord? then before + [last.record] else before
  }

  lemma {:induction false} WrittenRecordsDecode(o: Options, derive: Text -> u128, ws: seq<Written>)
    requires o.limits.Sized() && AllWritable(o, derive, ws)
    ensures RecordsIn(o, derive, Items(ws)) == RecordsOf(ws)
  {
    hide EncodeRecord, DecodeRecord, EncodeRestart, EncodeSnapshot;
    if ws != [] {
      var front, w := ws[..|ws| - 1], ws[|ws| - 1];
      assert ws == front + [w];
      WrittenRecordsDecode(o, derive, front);
      assert Items(ws)[..|ws| - 1] == Items(front);
      assert Writable(o, derive, w);
      if w.WroteRecord? {
        DecodeEncodeRecord(w.record, o.limits, derive);
      }
    }
  }

  lemma SuffixOfItems(a: seq<Item>, ws: seq<Written>)
    requires SuffixOf(a, Items(ws))
    ensures a == Items(ws[|ws| - |a|..])
  {
  }

  /** The next session can be opened on the files of this log and continues exactly where it ends. */
  ghost predicate Reopens(o: Options, h: Hashes, derive: Text -> u128, log: Log)
    requires log.parts != []
  {
    var files := FilesOf(o, h, log.parts);
    && OpenOn(o, h, derive, files).Ok?
    && var found := OpenOn(o, h, derive, files).value;
    && found.files == files && found.chain == EndOf(h, Active(log)) && found.size == PartSize(Active(log))
    && !found.recovery.corrupt && !found.recovery.truncated && found.recovery.tailBytes == 0
  }

  /** Whenever a session starts, the observations that are still in the remaining parts fit the recovery
      bound, however many were ever written and whatever else the parts hold. */
  ghost predicate FitsRecovery(o: Options, h: Hashes, derive: Text -> u128, ss: seq<seq<Written>>) {
    forall i :: 0 < i <= |ss| ==> |RecordsIn(o, derive, Flat(Sessions(o, h, ss[..i]).parts))| <= o.maxRecovered
  }

  lemma {:induction false} AllWrittenPrefix(o: Options, derive: Text -> u128, ss: seq<seq<Written>>, i: nat)
    requires AllWritable(o, derive, AllWritten(ss)) && i <= |ss|
    ensures AllWritable(o, derive, AllWritten(ss[..i]))
    decreases |ss|
  {
    hide Writable;
    if i < |ss| {
      AllWrittenPrefix(o, derive, ss[..|ss| - 1], i);
      assert ss[..|ss| - 1][..i] == ss[..i];
    } else {
      assert ss[..i] == ss;
    }
  }

  lemma SessionReopens(o: Options, h: Hashes, derive: Text -> u128, ss: seq<seq<Written>>)
    requires Sane(o) && AllWritable(o, derive, AllWritten(ss)) && ss != [] && ss[|ss| - 1] != []
    requires |RecordsIn(o, derive, Flat(Sessions(o, h, ss).parts))| <= o.maxRecovered
    ensures Reopens(o, h, derive, Sessions(o, h, ss))
  {
    hide Sessions, Flat, OpenOn, FilesOf, RecordsIn, EndOf, PartSize, Writable, Good;
    SessionsFacts(o, h, derive, ss);
    ReopenFindsTheLog(o, h, derive, Sessions(o, h, ss));
  }

  lemma EverySessionReopens(o: Options, h: Hashes, derive: Text -> u128, ss: seq<seq<Written>>)
    requires Sane(o) && AllWritable(o, derive, AllWritten(ss)) && FitsRecovery(o, h, derive, ss)
    requires forall i :: 0 <= i < |ss| ==> ss[i] != []
    ensures forall i :: 0 < i <= |ss| ==> Reopens(o, h, derive, Sessions(o, h, ss[..i]))
  {
    hide Sessions, Flat, RecordsIn, Writable, Reopens;
    forall i | 0 < i <= |ss| ensures Reopens(o, h, derive, Sessions(o, h, ss[..i])) {
      AllWrittenPrefix(o, derive, ss, i);
      SessionReopens(o, h, derive, ss[..i]);
    }
  }

  /** The journal round trip. After any number of sessions, each leaving at least one record, with any
      number of rotations: every session could be opened where the one before it ended; the parts are
      contiguous and at most maxFiles, each within maxBytes (given room for one largest record per part);
      and reopening gives back exactly the newest writes, in write order, from the oldest part not yet
      deleted on, undamaged, ready to be continued. */
  lemma JournalRoundTrip(o: Options, h: Hashes, derive: Text -> u128, ss: seq<seq<Written>>)
    requires Sane(o) && AllWritable(o, derive, AllWritten(ss))
    requires ss != [] && forall i :: 0 <= i < |ss| ==> ss[i] != []
    requires FitsRecovery(o, h, derive, ss)
    ensures forall i :: 0 < i <= |ss| ==> Reopens(o, h, derive, Sessions(o, h, ss[..i]))
    ensures var log := Sessions(o, h, ss);
            var files, ws := FilesOf(o, h, log.parts), AllWritten(ss);
            && (forall i: nat :: i in files <==> i < |log.parts|) && 1 <= |log.parts| <= o.maxFiles
            && (HEADER_BYTES + RECORD_HEADER_BYTES + o.maxRecordBytes <= o.maxBytes ==>
                  forall i :: i in files ==> |files[i]| <= o.maxBytes)
            && 0 < |Flat(log.parts)| <= |ws|
            && var newest := ws[|ws| - |Flat(log.parts)|..];
            && Flat(log.parts) == Items(newest)
            && OpenOn(o, h, derive, files).Ok?
            && var found := OpenOn(o, h, derive, files).value;
            && found.recovery.records == RecordsOf(newest) && found.recovery.recordsRead == |newest|
  {
    hide Sessions, Flat, OpenOn, FilesOf, RecordsIn, RecordsOf, Items, EndOf, PartSize, Writable, Good, Reopens;
    var log, ws := Sessions(o, h, ss), AllWritten(ss);
    EverySessionReopens(o, h, derive, ss);
    assert ss[..|ss|] == ss;
    assert |RecordsIn(o, derive, Flat(log.parts))| <= o.maxRecovered;
    hide FitsRecovery;
    SessionsFacts(o, h, derive, ss);
    var kept := Flat(log.parts);
    var newest := ws[|ws| - |kept|..];
    SuffixOfItems(kept, ws);
    ReopenFindsTheLog(o, h, derive, log);
    WrittenRecordsDecode(o, derive, newest);
    FilesAreParts(o, h, log);
  }

  lemma FilesAreParts(o: Options, h: Hashes, log: Log)
    requires Good(o, h, log)
    ensures var files := FilesOf(o, h, log.parts);
            && (forall i: nat :: i in files <==> i < |log.parts|) && 1 <= |log.parts| <= o.maxFiles
            && (HEADER_BYTES + RECORD_HEADER_BYTES + o.maxRecordBytes <= o.maxBytes ==>
                  forall i :: i in files ==> |files[i]| <= o.maxBytes)
  {
    hide PartBytes, PartSize, Linked, PartsReadable;
    forall i: nat | i < |log.parts| ensures |PartBytes(h, o.fabric, InSlot(log.parts, i))| == PartSize(InSlot(log.parts, i)) {
      BytesAreSize(h, o.fabric, InSlot(log.parts, i));
    }
  }

  // ---- the recovery bound, exactly ----

  /** Up to here the scan has these observations behind it, and it stops for nothing but the bound. */
  ghost predicate Bounded(o: Options, st: Recovery, rs: seq<ObservationRecord>) {
    && st.records == Upto(rs, o.maxRecovered) && !st.corrupt
    && (st.stop <==> |rs| > o.maxRecovered) && (st.truncated <==> |rs| > o.maxRecovered)
  }

  lemma AbsorbBounded(o: Options, h: Hashes, derive: Text -> u128, st: Recovery, offset: nat, previous: Hash32, e: Entry, rs: seq<ObservationRecord>)
    requires Bounded(o, st, rs) && !st.stop
    ensures Bounded(o, Absorb(o, h, derive, st, offset, previous, e), rs + RecordsIn(o, derive, [Item(e.kind, e.payload)]))
  {
    hide DecodeRecord, DecodeRestart, DecodeSnapshot, NextChain, RecordsIn;
    RecordsOfOne(o, derive, Item(e.kind, e.payload));
    assert rs + [] == rs;
  }

  lemma StoppedStays(o: Options, st: Recovery, rs: seq<ObservationRecord>, more: seq<ObservationRecord>)
    requires Bounded(o, st, rs) && st.stop
    ensures Bounded(o, st, rs + more)
  {
  }

  lemma {:induction false} AbsorbAllBounded(o: Options, h: Hashes, derive: Text -> u128, st: Recovery, offset: nat, previous: Hash32, es: seq<Entry>, rs: seq<ObservationRecord>)
    requires Bounded(o, st, rs)
    ensures Bounded(o, AbsorbAll(o, h, derive, st, offset, previous, es), rs + RecordsIn(o, derive, Strip(es)))
    decreases |es|
  {
    hide NextChain, RecordsIn, Strip, Bounded, Absorb;
    if st.stop {
      StoppedStays(o, st, rs, RecordsIn(o, derive, Strip(es)));
    } else if es == [] {
      assert Strip(es) == [];
      NoRecords(o, derive);
      assert rs + [] == rs;
    } else {
      var first := RecordsIn(o, derive, [Item(es[0].kind, es[0].payload)]);
      RecordsInFirst(o, derive, es);
      AbsorbBounded(o, h, derive, st, offset, previous, es[0], rs);
      AbsorbAllBounded(o, h, derive, Absorb(o, h, derive, st, offset, previous, es[0]),
                       offset + RECORD_HEADER_BYTES + |es[0].payload|, NextChain(h, previous, es[0]), es[1..], rs + first);
      Regroup(rs, first, RecordsIn(o, derive, Strip(es[1..])));
    }
  }

  lemma AbsorbPartBounded(o: Options, h: Hashes, derive: Text -> u128, st: Recovery, p: Part, rs: seq<ObservationRecord>)
    requires Bounded(o, st, rs)
    ensures Bounded(o, AbsorbPart(o, h, derive, st, p), rs + RecordsIn(o, derive, Strip(p.entries)))
  {
    hide AbsorbAll, RecordsIn, Strip, RecordsSize;
    AbsorbAllBounded(o, h, derive, st.(partsRecovered := st.partsRecovered + 1, running := Some(p.seed)), HEADER_BYTES, p.seed, p.entries, rs);
  }

  lemma {:induction false} AbsorbPartsBounded(o: Options, h: Hashes, derive: Text -> u128, st: Recovery, parts: seq<Part>, rs: seq<ObservationRecord>)
    requires Bounded(o, st, rs)
    ensures Bounded(o, AbsorbParts(o, h, derive, st, parts), rs + RecordsIn(o, derive, Flat(parts)))
    decreases |parts|
  {
    hide AbsorbPart, RecordsIn, Strip, Flat, Bounded;
    if st.stop {
      StoppedStays(o, st, rs, RecordsIn(o, derive, Flat(parts)));
    } else if parts == [] {
      FlatOfNone();
      NoRecords(o, derive);
      assert rs + [] == rs;
    } else {
      var p, rest := parts[0], parts[1..];
      assert parts == [p] + rest;
      FlatFromFront(p, rest);
      RecordsInAppend(o, derive, Strip(p.entries), Flat(rest));
      AbsorbPartBounded(o, h, derive, st, p, rs);
      AbsorbPartsBounded(o, h, derive, AbsorbPart(o, h, derive, st, p), rest, rs + RecordsIn(o, derive, Strip(p.entries)));
      Regroup(rs, RecordsIn(o, derive, Strip(p.entries)), RecordsIn(o, derive, Flat(rest)));
    }
  }

  /** Recovering any log: the oldest observations up to the bound come back, in order, never reported as
      corrupt; and it is reported as truncated exactly when there are more of them than the bound. */
  lemma RecoveryBoundIsExact(o: Options, h: Hashes, derive: Text -> u128, log: Log)
    requires Sane(o) && Good(o, h, log)
    ensures var files, rs := FilesOf(o, h, log.parts), RecordsIn(o, derive, Flat(log.parts));
            && Recover(o, h, derive, files).Ok?
            && var r := Recover(o, h, derive, files).value;
            && r.records == Upto(rs, o.maxRecovered) && !r.corrupt
            && (r.truncated <==> |rs| > o.maxRecovered)
  {
    hide AbsorbParts, FilesOf, EndOf, PartBytes, RecordsIn, Flat, RecordsSize, ScanParts, PartsFrom;
    PartsListed(o, h, log.parts, o.maxFiles);
    ScanGoodParts(o, h, derive, NOTHING_YET, log.parts);
    AbsorbPartsBounded(o, h, derive, NOTHING_YET, log.parts, []);
    assert [] + RecordsIn(o, derive, Flat(log.parts)) == RecordsIn(o, derive, Flat(log.parts));
  }

  // ---- the size bound, exactly ----

  /** Without room for one largest record, the bound on part sizes fails: a record of the permitted size
      makes a part larger than maxBytes, */
  lemma LargestRecordOverflows(o: Options, h: Hashes, kind: byte, payload: Text)
    requires Sane(o) && |payload| == o.maxRecordBytes
    ensures AppendTo(o, h, Fresh(o, h), kind, payload).Ok?
    ensures var l := AppendTo(o, h, Fresh(o, h), kind, payload).value;
            l.parts != []
            && (PartSize(Active(l)) <= o.maxBytes <==> HEADER_BYTES + RECORD_HEADER_BYTES + o.maxRecordBytes <= o.maxBytes)
  {
    hide RecordsSize;
    var log := Fresh(o, h);
    EmptyPart(h, o.fabric, ChainSeed(h, o.fabric));
    PushedBytes(o, h, log, kind, payload);
  }

  /** and from then on the unsigned subtraction wraps, so that part is never rotated again, up to 2^64. */
  lemma OversizedPartsOnlyGrow(o: Options, size: nat, total: nat)
    requires o.maxBytes < size && size + total <= o.maxBytes + U64_MODULUS
    ensures !MustRotate(o, size, total)
  {
  }

  // ---- a journal with nothing but a header ----

  /** Appending after reopening such a journal links the record to the wrong chain value, and recovery
      refuses it, unless the seed happens to be the zero value. */
  lemma HeaderOnlyReopenLosesRecords(o: Options, h: Hashes, derive: Text -> u128, e: Entry)
    requires Sane(o) && Readable(o, e) && ChainSeed(h, o.fabric) != ZERO_HASH
    ensures var files := map[0 := HeaderBytes(h, o.fabric, ChainSeed(h, o.fabric)) + RecordBytes(h, ZERO_HASH, e)];
            Recover(o, h, derive, files)
            == Ok(Damage(NOTHING_YET.(partsRecovered := 1, running := Some(ChainSeed(h, o.fabric))), HEADER_BYTES, ChainLink)
                  .(fileBytes := HEADER_BYTES + RECORD_HEADER_BYTES + |e.payload|))
    ensures OpenOn(o, h, derive, FilesOf(o, h, Fresh(o, h).parts)).Ok?
            && OpenOn(o, h, derive, FilesOf(o, h, Fresh(o, h).parts)).value.chain == ZERO_HASH
  {
    hide OpenOn, Recover, HeaderBytes, RecordBytes, FilesOf, Fresh;
    RecoverWrongLink(o, h, derive, e);
    ReopenedHeaderOnly(o, h, derive);
  }

  lemma RecoverWrongLink(o: Options, h: Hashes, derive: Text -> u128, e: Entry)
    requires Sane(o) && Readable(o, e) && ChainSeed(h, o.fabric) != ZERO_HASH
    ensures var files := map[0 := HeaderBytes(h, o.fabric, ChainSeed(h, o.fabric)) + RecordBytes(h, ZERO_HASH, e)];
            Recover(o, h, derive, files)
            == Ok(Damage(NOTHING_YET.(partsRecovered := 1, running := Some(ChainSeed(h, o.fabric))), HEADER_BYTES, ChainLink)
                  .(fileBytes := HEADER_BYTES + RECORD_HEADER_BYTES + |e.payload|))
  {
    hide HeaderBytes, RecordHeader, CheckHeader, PartsFrom, NextChain, ScanRecords, ChainSeed, ScanParts;
    var seed := ChainSeed(h, o.fabric);
    var record := RecordBytes(h, ZERO_HASH, e);
    var bytes := HeaderBytes(h, o.fabric, seed) + record;
    HeaderSize(h, o.fabric, seed);
    RecordSize(h, ZERO_HASH, e);
    OnlyActive(bytes, o.maxFiles);
    ScanOnePart(o, h, derive, bytes);
    var begun := NOTHING_YET.(partsRecovered := 1);
    ScanGoodHeader(o, h, begun, Part(seed, []), record);
    assert bytes[HEADER_BYTES..] == record;
    WrongLink(o, h, derive, begun.(running := Some(seed)), true, HEADER_BYTES, ZERO_HASH, e);
  }

  lemma WrongLink(o: Options, h: Hashes, derive: Text -> u128, st: Recovery, newest: bool, offset: nat, previous: Hash32, e: Entry)
    requires st.running != Some(previous) && Readable(o, e) && !st.stop
    ensures ScanRecords(o, h, derive, st, newest, offset, RecordBytes(h, previous, e)) == Damage(st, offset, ChainLink)
  {
    hide Interpret, RecordHeader, NextChain, RawOf;
    RawOfHeader(h, previous, e, e.payload);
  }

  lemma ReopenedHeaderOnly(o: Options, h: Hashes, derive: Text -> u128)
    requires Sane(o)
    ensures OpenOn(o, h, derive, FilesOf(o, h, Fresh(o, h).parts)).Ok?
    ensures OpenOn(o, h, derive, FilesOf(o, h, Fresh(o, h).parts)).value.chain == ZERO_HASH
  {
    hide AbsorbParts, FilesOf, EndOf, PartBytes, RecordsIn, Flat, RecordsSize, ScanParts, PartsFrom;
    var log := Fresh(o, h);
    FreshIsGood(o, h);
    PartsListed(o, h, log.parts, o.maxFiles);
    ScanGoodParts(o, h, derive, NOTHING_YET, log.parts);
    NoRecords(o, derive);
    assert [] + Flat(log.parts) == [];
    AbsorbPartsClean(o, h, derive, NOTHING_YET, [], log.parts);
    ActiveFile(o, h, log);
    BytesAreSize(h, o.fabric, Active(log));
  }
}
