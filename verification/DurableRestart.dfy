/** A restart through the journal: what opening its files gives back, and how the engine that starts from it
    decides (src/persistence.cpp, src/observatory.cpp). */
module DurableRestart {
  import opened Bytes
  import opened Observations
  import opened Observatories
  import opened Interleaving
  import opened JournalFormat
  import opened JournalRecovery
  import opened JournalRuns
  import opened Journals
  import Rebuilt
  import Restart
  import Runs
  import Verdicts

  /** A history of sessions that can be opened again and again. */
  ghost predicate History(o: Options, h: Hashes, derive: Text -> u128, ss: seq<seq<Written>>) {
    && Sane(o) && AllWritable(o, derive, AllWritten(ss))
    && ss != [] && (forall i :: 0 <= i < |ss| ==> ss[i] != [])
    && FitsRecovery(o, h, derive, ss)
  }

  /** The observations that rotation has left, oldest first. */
  function Kept(o: Options, h: Hashes, ss: seq<seq<Written>>): seq<ObservationRecord> {
    RecordsOf(Suffix(AllWritten(ss), |Flat(Sessions(o, h, ss).parts)|))
  }

  lemma {:induction false} WrittenNonNil(o: Options, derive: Text -> u128, ws: seq<Written>)
    requires AllWritable(o, derive, ws)
    ensures Rebuilt.AllNonNil(RecordsOf(ws))
  {
    hide Writable;
    if ws != [] {
      var front, last := ws[..|ws| - 1], ws[|ws| - 1];
      assert last in ws && forall w :: w in front ==> w in ws;
      WrittenNonNil(o, derive, front);
      if last.WroteRecord? {
        WritableNonNil(o, derive, last);
      }
    }
  }

  lemma WritableNonNil(o: Options, derive: Text -> u128, w: Written)
    requires Writable(o, derive, w) && w.WroteRecord?
    ensures w.record.observation.incarnation != 0
  {
    hide ItemOf;
    assert Validate(w.record.observation, o.limits).Ok?;
  }

  lemma Reopened(o: Options, h: Hashes, derive: Text -> u128, ss: seq<seq<Written>>)
    requires History(o, h, derive, ss)
    ensures var files := FilesOf(o, h, Sessions(o, h, ss).parts);
            OpenOn(o, h, derive, files).Ok? && OpenOn(o, h, derive, files).value.recovery.records == Kept(o, h, ss)
    ensures Rebuilt.AllNonNil(Kept(o, h, ss))
  {
    hide Sessions, Flat, OpenOn, FilesOf, RecordsIn, RecordsOf, Items, EndOf, PartSize, Writable, Reopens, FitsRecovery;
    JournalRoundTrip(o, h, derive, ss);
    var ws, n := AllWritten(ss), |Flat(Sessions(o, h, ss).parts)|;
    assert Suffix(ws, n) == ws[|ws| - n..];
    WrittenNonNil(o, derive, Suffix(ws, n));
  }

  /** End to end: whatever sessions and rotations a journal has been through, opening its files recovers exactly
      the observations that are left of it; and the engine opened on them decides like a running one on
      everything s may send next if and only if the lineage can be rebuilt from those. */
  lemma RestartThroughTheJournal(o: Options, h: Hashes, derive: Text -> u128, ss: seq<seq<Written>>, cfg: Config, digest: Observation -> Digest,
                                 live: Evidence, s: u128, restart: u64)
    requires History(o, h, derive, ss) && s in live.sources && Rebuilt.InRecovery(Kept(o, h, ss), s) != []
    requires |Seen(live.incarnations, s)| + cfg.maxIncarnations + 2 < U64_MODULUS
    ensures var files := FilesOf(o, h, Sessions(o, h, ss).parts);
            && OpenOn(o, h, derive, files).Ok?
            && OpenOn(o, h, derive, files).value.recovery.records == Kept(o, h, ss)
            && var back := Restart.Recovered(cfg, restart, OpenOn(o, h, derive, files).value.recovery.records);
            && s in back.sources
            && (Verdicts.DecideAlike(cfg, digest, live, back, s) <==> Rebuilt.Rebuildable(cfg, digest, live, Kept(o, h, ss), s))
  {
    hide Sessions, OpenOn, FilesOf, Kept, History, Restart.Recovered, Verdicts.DecideAlike, Rebuilt.Rebuildable, Rebuilt.InRecovery;
    Reopened(o, h, derive, ss);
    Rebuilt.AnyJournalDecides(cfg, digest, live, Kept(o, h, ss), s, restart);
  }

  /** The sessions journalled the run w, after all that the run started from, and nothing has been deleted. */
  ghost predicate Journalled(o: Options, h: Hashes, ss: seq<seq<Written>>, cfg: Config, digest: Observation -> Digest, epoch: u64, e: Evidence,
                             journal: seq<ObservationRecord>, w: seq<Arrival>) {
    Rebuilt.StartsFrom(cfg, e, journal) && Kept(o, h, ss) == journal + Restart.JournalOf(cfg, digest, epoch, e, w)
  }

  /** And while nothing has been deleted from the journal, that is decided by the observations accepted, over any
      number of earlier restarts. */
  lemma WholeRunThroughTheJournal(o: Options, h: Hashes, derive: Text -> u128, ss: seq<seq<Written>>, cfg: Config, digest: Observation -> Digest,
                                  epoch: u64, e: Evidence, journal: seq<ObservationRecord>, w: seq<Arrival>, s: u128, restart: u64)
    requires History(o, h, derive, ss) && Journalled(o, h, ss, cfg, digest, epoch, e, journal, w)
    requires Run(cfg, digest, epoch, e, w).evicted == e.evicted && cfg.maxIncarnations < 0x1_0000_0000
    requires Runs.AcceptedOf(cfg, digest, epoch, e, w, s) != []
    ensures var files, accepted := FilesOf(o, h, Sessions(o, h, ss).parts), Runs.AcceptedOf(cfg, digest, epoch, e, w, s);
            && OpenOn(o, h, derive, files).Ok?
            && var all, live := OpenOn(o, h, derive, files).value.recovery.records, Run(cfg, digest, epoch, e, w);
            var back := Restart.Recovered(cfg, restart, all);
            var rs, last := Rebuilt.InRecovery(all, s), accepted[|accepted| - 1].observation;
            && s in live.sources && s in back.sources
            && (Verdicts.DecideAlike(cfg, digest, live, back, s)
                <==> && Rebuilt.LastLeads(rs, last)
                     && (Rebuilt.LeadersWithin(rs, last.epoch) || Rebuilt.Unreached(cfg, live, last.generation))
                     && Rebuilt.SameRecent(cfg.maxIncarnations, Rebuilt.HeardBoots(Rebuilt.InRecovery(journal, s), accepted),
                                           Rebuilt.BootsOfRecords(rs)))
  {
    hide Sessions, OpenOn, FilesOf, Kept, History, Restart.Recovered, Restart.JournalOf, Run, Runs.AcceptedOf, Verdicts.DecideAlike,
      Rebuilt.InRecovery, Rebuilt.StartsFrom, Rebuilt.LastLeads, Rebuilt.LeadersWithin, Rebuilt.Unreached, Rebuilt.SameRecent;
    Reopened(o, h, derive, ss);
    Rebuilt.RestartDecides(cfg, digest, epoch, e, journal, w, s, restart);
  }
}
