# Fabric Observatory: a verified model

Fabric Observatory collects observations that independent sources make about a fabric (its sites, racks,
devices, ports, links and paths), keeps them as evidence, journals them, and composes the evidence into
snapshots that say what is known, stale, incomplete or in conflict. This project models that runtime in
Dafny and proves what it is for. Run `dafny verify dfyconfig.toml` to check everything.

The model follows the program's own structure:

- **Evidence engine** (`Observatory.dfy`, `Interleaving.dfy`, `Capacity.dfy`, `Runs.dfy`, `Replay.dfy`,
  `Restart.dfy`, `Verdicts.dfy`, `Rebuilt.dfy`, `Assertions.dfy`, `Forgetting.dfy`, `Heartbeats.dfy`).
  `class Observatory` holds the mutable tables and runs the fence machine branch by branch; each method is
  proved equal to a function on the value `Evidence`, and the whole-run theorems are about that function.
  Receive instants are part of the input. The content digest is a parameter: a function of the observation,
  with no assumption that it is injective.
- **View composition** (`Truth.dfy`, `Snapshots.dfy`, `Views.dfy`, `ViewStability.dfy`, `Retention.dfy`). The
  loops of `Snapshot::build` are proved against `Snapshots.Build`; the theorems say what a view means, and
  what it does not depend on.
- **Journal** (`JournalFormat.dfy`, `JournalRecovery.dfy`, `Journal.dfy`, `JournalRuns.dfy`,
  `JournalTails.dfy`, `DurableRestart.dfy`). The file system is a map from part numbers to bytes. SHA-256 and
  CRC-32C are parameters with results of fixed size; tamper results read "equal, or here are two texts with
  the same hash".
- **Codecs** (`Canonical.dfy`, `Values.dfy`, `Ids.dfy`, `Observations.dfy`; `JsonText.dfy`, `JsonParser.dfy`,
  `JsonGrammar.dfy`, `JsonAccepts.dfy`, `JsonValues.dfy`). Printers and bounded parsers, as functions and as the
  stateful encoder, decoder, parser and writer of the program. Reals are their 64 bits.
- **Ingest pipeline** (`Pipeline.dfy`). Every block under a lock is one atomic step of a submitter, a worker,
  a cancel or a shutdown; the theorems range over all schedules.
- **Observed topology** (`Hierarchy.dfy`). The ancestor walk and the explicit-stack traversal over an
  arbitrary parent relation, cycles included.
- **Time and hashing** (`Times.dfy`, `Digest.dfy`, `Checksum.dfy`). The civil calendar, the RFC 3339 text
  form, SHA-256 buffering and padding, and the table-driven CRC-32C.

`Bytes.dfy`, `Ordering.dfy` and `Hex.dfy` hold what the others share: fixed-width integers, byte strings,
results, stable sorting, and hexadecimal text.

## Where the code does less than its comments say

Each of these is a theorem here: exactly when the code does what it promises, or a family of inputs for which
it does not, and mostly both.

- Reopening a journal that holds nothing but a header leaves the chain value zero
  (src/persistence.cpp:535-537, 277-285): `ReopenFindsTheLog`, `HeaderOnlyReopenLosesRecords`. In the program
  a restart marker follows every open, and that marker is the record that gets lost.
- `max_bytes - current_bytes_` is unsigned (src/persistence.cpp:319-320). Parts stay within `max_bytes` if
  and only if one largest record fits a part: `LargestRecordOverflows`, `OversizedPartsOnlyGrow`.
- The rebuild at open (src/observatory.cpp:104-160) takes maxima in boot-identity order and never lowers an
  epoch when the generation rises, although its comment says fencing behaves exactly as before. `RestartDecides`
  says when it does, for any number of incarnations and restarts; `RestartRefusesNextGeneration` and
  `RestartShutsOutTheBoot` are runs for which it does not; `ClaimsAfterRestart` adds the claims.
- A boot pushed out of its source's window is accepted again (src/observatory.cpp:682-684):
  `ForgottenIsAcceptedAgain` says when, and `ForgottenBootReturns` is a run, whatever the window.
- After recovery stopped for damage or at its bound, the journal is opened and appended to all the same
  (src/persistence.cpp:276-285), and nothing appended is ever recovered: `AppendedAfterStopIsLost`.
- The fence table is bounded (src/observatory.cpp:250), and the view reads fences only from it
  (src/snapshot.cpp:382-387), so an overflow lets a fenced claim assert again. `TableIsLastFences` says which
  fences are forgotten, `ForgottenFenceAsserts` gives the run, whatever the bound.
- Recovered records are not evicted at open (src/observatory.cpp:95-102): by `EvidenceIsConserved` the bound
  holds if and only if it held at the start or anything has been accepted since.
- Dropping claims over the per-aspect bound (src/snapshot.cpp:502-535) can hide a disagreement. The verdict
  is conflicting if and only if two asserting claims that disagree are both among the kept ones:
  `RetainMeaning`, `TruncatedVerdict`, `ConflictIsShown`; `TruncationCanHideConflict` gives the observations.
- Recovery keeps the oldest observations when a journal holds more than its bound (src/persistence.cpp:646):
  `RecoveryBoundIsExact`.
- Two records with identical content are told apart by arrival index (src/snapshot.cpp:334):
  `TwinsMakeArrangementMatter`.
- `parse_utc` multiplies seconds into nanoseconds without an overflow check (src/time.cpp:184-185): the text
  round trip holds if and only if the instant is at least -9223372036000000000, `FormatParseRoundTrip`.
- A decoded value passes validation when the limits admit any value at all: with a depth or node bound of
  zero `Value::decode` still accepts scalars (src/value.cpp:432-536): `DecodingIsBoundedIff`.

## Model

| member | source | states |
|---|---|---|
| Capacity.IngestLocal | src/observatory.cpp:446-710 | With strict generation fencing off, no table bound reached by this step and no shared digest across sources, one ingest commutes with restricting the evidence to its source, has the same outcome there, and changes no table entry of any other source |
| Capacity.InterleavingIndependence | src/observatory.cpp:446-710 | Two interleavings of the same per-source streams, from the same state, end with the same records, refusals, fenced claims, revisions and lineages of every source, up to the order of the tables, as long as no table bound or eviction is reached; and if none is reached in one order, none is in the other |
| Heartbeats.StrictFencingSeesOrder | src/observatory.cpp:550-560 | Without the condition on strict generation fencing it fails: two observations of two sources, with no bound reached, end in different evidence in the two orders |
| Capacity.IdleMeansFits | src/observatory.cpp:196-306 | A run ends as it would with room for everything if and only if what it would leave with that room fits every bound, or was not added to; and then nothing was evicted |
| Capacity.TablesBelowBounds | src/observatory.cpp:196-306 | A run that ends with every table below its bound and nothing evicted never reached a bound |
| Capacity.FittingRunsAreIdle | src/observatory.cpp:196-306 | A condition on the input alone, before the run, under which no bound is reached |
| Runs.RunKeyed | src/observatory.cpp:196-251 | In every reachable state content has at most one refusal, a claim at most one fence, and a source is filed under its own identity |
| Runs.NothingIsKeyed | src/observatory.cpp:60-165 | Those keys hold on nothing, where the first run starts |
| Runs.RegisterKeyed | src/observatory.cpp:386-438 | and registering a source keeps them |
| Runs.InterleavingsShowOneView | README.md:90-96 | The headline claim: two interleavings of the same per-source streams, with no bound reached and no two retained records of one digest, are composed into the same snapshot |
| Runs.StampedOnce | src/observatory.cpp:658-680 | When each content reaches the engine with one receive instant, no two retained records share a digest |
| Runs.EvidenceIsConserved | src/observatory.cpp:253-306 | Over any run: initial plus accepted equals retained plus evicted; the evidence bound holds afterwards if and only if it held before or anything was accepted, even if open recovered more than it; eviction always raises the truncation flag, which never falls |
| Runs.LineageOnlyMovesForward | src/observatory.cpp:511-572 | Over any run from any state, among the accepted observations of a source generations never fall, epochs never fall within a generation, and sequences strictly rise while one incarnation holds the source |
| Replay.ReplayIsNoop | src/observatory.cpp:511-539 | Ingesting a retained observation again, at any instant and whichever branch refuses it, leaves records, index, refusals, fenced claims, revisions and lineages unchanged, as long as its incarnation is current or still in the window |
| Replay.ForgottenIsAcceptedAgain | src/observatory.cpp:679-688 | A retained observation that passes the other fences is accepted a second time if and only if its incarnation is neither current nor in the window |
| Heartbeats.ForgottenBootReturns | src/observatory.cpp:679-688 | Whatever the window holds: after two more incarnations of one source than that, from nothing, the first one's observation is still retained, is accepted a second time, and is then retained twice |
| Replay.ReplayAfterAnyRun | src/observatory.cpp:446-710 | After any run that accepts no more incarnations per source than the window holds, whatever it refuses, replaying any retained observation at any time is a no-op |
| Replay.NothingIsHeld | src/observatory.cpp:60-165 | What replay needs of the windows holds on nothing, where the first run starts |
| Replay.RegisterHolds | src/observatory.cpp:386-438 | and registering a source keeps it |
| Restart.Open | src/observatory.cpp:60-165 | Open marks the journalled records as recovered at the next restart epoch, indexes them and rebuilds the lineages with the loop of the program |
| Restart.RebuildLineages | src/observatory.cpp:118-160 | The rebuilding loop, with its windowed incarnation list, is the fold the restart theorems are about |
| Verdicts.DecideAlikeMeaning | src/observatory.cpp:511-572 | Two states of the engine give the same verdict on every observation a source may send next if and only if they agree on its boot, its sequence, its generation, on its epoch as far as any observation gets to the epoch fence, on the boots it had before, and on what is a duplicate of its last turn |
| Rebuilt.RebuiltLineage | src/observatory.cpp:104-160 | What opening on any journal rebuilds of a source, exactly: the largest incarnation, sequence and generation journalled, the largest epoch among the records that no larger generation precedes in recovery order, and a window of the last incarnations by identity |
| Rebuilt.AnyJournalDecides | src/observatory.cpp:104-160 | For any running engine and any journal, whatever was evicted or deleted: the engine opened on it decides alike on everything a source may send next if and only if the lineage can be rebuilt from what the journal holds |
| Rebuilt.RestartDecides | src/observatory.cpp:104-160 | The restart theorem, for any number of incarnations and of earlier restarts: after a run that evicted nothing, both decide alike on everything a source may send next if and only if no incarnation or sequence journalled of it exceeds that of its last observation, no record that leads in recovery order has a larger epoch (unless no observation gets as far as the epoch fence), and the last incarnations to start are the last by identity |
| Rebuilt.RestartDecidesInRoom | src/observatory.cpp:104-160 | While the window has room for every incarnation of the source, its part of that condition holds |
| Rebuilt.LineageSurvives | src/observatory.cpp:104-160 | Incarnation, sequence, generation and epoch survive a restart together if and only if the last observation has the largest incarnation and sequence and no leading record a larger epoch |
| Rebuilt.NothingNewDecides | src/observatory.cpp:104-160 | A further restart changes no verdict on a source that was not heard in between |
| Rebuilt.UnheardStarts | src/observatory.cpp:60-165 | What the restart theorem asks of a start holds of registered but unheard sources |
| Rebuilt.RecoveredStarts | src/observatory.cpp:60-165 | of what opening on any journal leaves |
| Rebuilt.RegisterStarts | src/observatory.cpp:386-438 | and after any registration |
| Rebuilt.ClaimsAfterRestart | src/observatory.cpp:104-160 | Declared scopes and revisions are not rebuilt: right after a restart a claim meets another verdict if and only if the running engine would have refused it as out of scope or as an older revision, and then it passes |
| Rebuilt.OneBootLineageSurvives | src/observatory.cpp:139-147 | For a source that used one incarnation the fields the fences look at survive a restart if and only if no accepted epoch was higher than the last; the rebuilt epoch is never below an accepted one |
| Rebuilt.RestartDecidesAlike | src/observatory.cpp:104-160 | For such a source every next observation meets the same verdict before and after the restart if and only if no accepted epoch was higher than the last, or no observation gets as far as the epoch fence |
| Heartbeats.RestartRefusesNextGeneration | src/observatory.cpp:139-147 | A run that fails it: a source moves to its next generation and starts its epochs over, and what it says next is accepted by the running engine and refused as stale by the one opened on the journal |
| Heartbeats.RestartShutsOutTheBoot | src/observatory.cpp:106-131 | Another: a source reboots into a smaller identity, and the engine opened on the journal refuses the running incarnation |
| Restart.RecoveredIsHeld | src/observatory.cpp:118-160 | Evidence recovered from journalled records whose incarnations fit the windows has them all in the windows, and every sequence within the rebuilt one: what replay needs of a start |
| Restart.RecoveredIsKeyed | src/observatory.cpp:118-160 | Recovered evidence files every source under its own identity, with no refusal and no fence |
| Restart.ReplayAfterRestart | src/observatory.cpp:60-165 | So over a restart and any run after it, as long as the incarnations journalled and accepted fit the windows, replaying any retained observation is a no-op |
| DurableRestart.RestartThroughTheJournal | src/observatory.cpp:60-165 | End to end, over any sessions and rotations: opening the files recovers exactly the observations left in them, and the engine opened on them decides like a running one if and only if the lineage can be rebuilt from those |
| DurableRestart.WholeRunThroughTheJournal | src/observatory.cpp:60-165 | And while nothing has been deleted from the journal, if and only if the condition of the restart theorem holds of the observations accepted |
| Assertions.AssertionsPassedTheFences | src/observatory.cpp:580-639 | From recovered evidence only, with recovered evidence never fresh, as long as the fences recorded so far fit the fence table (in particular while it is not full), every assertive claim of the published view is backed by a record accepted in this run whose claim passed every claim fence at ingest |
| Assertions.TableIsLastFences | src/observatory.cpp:230-251 | After any run the fence table is exactly the last of all the fences recorded, as many as its bound; it has forgotten none if and only if they were no more than the bound |
| Forgetting.ForgottenFenceAsserts | src/observatory.cpp:574-656 | Whatever the bound: one accepted observation whose refused claims are one more than the fence table holds leads to a view that asserts the first refused claim, although no claim behind it passed the fences |
| Assertions.OldestFenceIsForgotten | src/observatory.cpp:250 | A full fence table drops its oldest fence for a new one, and the view no longer finds it |
| Observatories.Observatory.IngestLocked | src/observatory.cpp:446-509 | The object after one ingest, and its outcome, are the engine function of its fields before; counters and journal grow by exactly what the disposition says; the index keeps pointing at the first record of each digest |
| Observatories.Observatory.LineageStage | src/observatory.cpp:511-572 | Incarnation, sequence, duplicate, generation and epoch fences in the order of the program |
| Observatories.Observatory.ClaimStage | src/observatory.cpp:574-710 | Claim fences, refusal when every claim is fenced, and otherwise acceptance |
| Observatories.Observatory.FenceClaims | src/observatory.cpp:580-639 | The claim loop: refused claims are recorded once each with the first refusal remembered, accepted claims move the bounded revision table |
| Observatories.Observatory.AcceptObservation | src/observatory.cpp:658-710 | Acceptance journals and appends the stamped record, evicts, pushes the incarnation window and moves the lineage |
| Observatories.Observatory.RecordRejection | src/observatory.cpp:196-228 | Only the first refusal of content that is not retained is kept, in a bounded list |
| Observatories.Observatory.RecordFencedClaim | src/observatory.cpp:230-251 | One fence per observation, subject and aspect is kept, in a bounded list |
| Observatories.Observatory.RegisterSource | src/observatory.cpp:386-438 | Registration succeeds or fails as specified and a failure changes nothing |
| Observatories.Observatory.EvictEvidence | src/observatory.cpp:253-306 | Eviction in place: order, mark, keep the rest, rebuild the index, count |
| Observatories.EvictDropsLeast | src/observatory.cpp:253-306 | Eviction restores the bound, removes exactly the batch it should, keeps the rest in their old order, and drops nothing that is later in the eviction order than anything it keeps |
| Observatories.DroppedAreLeast | src/observatory.cpp:261-291 | The marked positions are as many as intended, in range, and least in the eviction order |
| Observatories.IndexIsFirst | src/observatory.cpp:300-303 | The index holds exactly the digests retained and points at a record with that digest |
| Truth.FreshnessMeaning | src/snapshot.cpp:194-214 | Fresh means that the exact age is within the window and the evidence was not recovered (unless allowed); nothing becomes fresh again later |
| Truth.EvaluateTruth | src/snapshot.cpp:216-295 | The loops, maps and early exits of the evaluation compute Evaluate |
| Truth.KnownMeaning | src/snapshot.cpp:216-295 | Known with value v if and only if something asserts, every asserting claim says v, and the asserting sources meet the required count and authority; a value is reported only when known |
| Truth.ConflictingMeaning | src/snapshot.cpp:252-285 | Conflicting if and only if two asserting claims differ in value |
| Truth.EvaluateMembers | src/snapshot.cpp:216-295 | The evaluation depends on which claims there are, not on their order or repetition |
| Snapshots.BuildSnapshot | src/snapshot.cpp:297-615 | The whole build as nested loops over evidence, buckets and aspects computes Build |
| Snapshots.ScanGenerations | src/snapshot.cpp:337-350 | The generation and epoch scans |
| Snapshots.ScanCursors | src/snapshot.cpp:352-360 | The scan for the current incarnation of each source |
| Snapshots.FillBuckets | src/snapshot.cpp:402-461 | The double loop over records and claims, with the subject bound and the working set cap |
| Snapshots.FlagOlder | src/snapshot.cpp:478-499 | The map of latest statements and the flagging pass |
| Views.PlacedBucketsHold | src/snapshot.cpp:402-461 | A subject has a bucket unless the bound was reached before its first mention, and the bucket holds, per aspect and in order, exactly what was said, up to the working set cap |
| Views.CursorIsLatest | src/snapshot.cpp:352-360 | The current incarnation of a source is the one received last, the larger identity breaking ties, whatever the order of the records |
| Views.OneLatestPerSpeaker | src/snapshot.cpp:478-499 | Per source and incarnation exactly one statement is left as it is, none of the others is later, and all the others are flagged |
| Views.OneCurrentClaimPerSource | src/snapshot.cpp:478-499 | In every snapshot a source has at most one current claim per subject and aspect |
| Views.OneSidePerSource | src/snapshot.cpp:252-285 | So a source stands in at most one conflict group |
| Views.AssertionsAreBacked | src/snapshot.cpp:402-461 | Every assertive claim of a snapshot is what a retained record says: of the newest generation and epoch, of the incarnation of its source heard from last, fresh, and not fenced |
| Views.AssertiveMeaning | src/snapshot.cpp:402-461 | A claim of a retained record is classified as assertive if and only if it is supported, of the newest generation and epoch, of the incarnation of its source heard from last, fresh, and not fenced |
| Views.EveryClaimIsShown | src/snapshot.cpp:402-615 | Every claim of a retained record shows up under its subject and aspect, classified as the evidence implies, if its subject has a place in the view and no more is said about its aspect than the view keeps |
| Views.AspectIsShown | src/snapshot.cpp:463-565 | Its aspect shows everything judged about it, cut to the claim bound, with the truth and agreed value that evaluation gives |
| ViewStability.ViewIgnoresArrangement | src/snapshot.cpp:311-611 | The snapshot is the same for every permutation of records, refusals, fenced claims and sources, including which subjects and claims the bounds drop, when no two records share a digest and keys are unique |
| ViewStability.TwinsMakeArrangementMatter | src/snapshot.cpp:319-335 | For a request of two records with the same one-claim content but different receipt, swapping their arrival changes the snapshot, so the digest condition cannot be dropped |
| ViewStability.TwinsAreOrderedByArrival | src/snapshot.cpp:319-335 | In the canonical order of any records, those of equal content keep their arrival order |
| ViewStability.ClaimRecordOrderIsTotal | include/fabric_observatory/snapshot.hpp:82-83 | The defaulted comparison of claim records is a total order that ties only equal records, so the sorts of the build have one outcome |
| Retention.RetainMeaning | src/snapshot.cpp:502-535 | The claims an aspect keeps are exactly those with fewer than the bound before them in rank, ties in rank going by the defaulted comparison |
| Retention.TruncatedVerdict | src/snapshot.cpp:502-540 | What the verdict of a truncated list is: that of the claims with fewer than the bound before them; unknown, unsupported, stale and conflicting each as an if-and-only-if over those claims |
| Retention.ConflictIsShown | src/snapshot.cpp:502-540 | An aspect of a snapshot reads as conflicting if and only if two claims that disagree both assert and both have fewer than the bound before them |
| Retention.TruncationKeepsTruth | src/snapshot.cpp:502-540 | While the claim bound has room for every current and fresh claim, cutting the list leaves the whole evaluation as it was if and only if something is kept at all and a supported claim, if there was one, is kept; one asserting claim settles both |
| Retention.TruncationCanHideConflict | src/snapshot.cpp:502-540 | That room is needed whatever the bound: of b + 1 fresh, current observations of different sources, the last one dissenting, a snapshot that keeps b claims calls the aspect known and one that keeps b + 1 calls it conflicting |
| Retention.WitnessIsValid | src/observation.cpp:414-479 | Each of these observations passes validation |
| ViewStability.KnownOnlyFades | src/snapshot.cpp:194-295 | With the same evidence and no claim truncation, a later evaluation instant never turns a known value into another known value or into a conflict |
| ViewStability.KnownStaysSupported | src/snapshot.cpp:216-240 | What was known never becomes unknown or unsupported by waiting |
| JournalFormat.DecodeEncodeRecord | src/persistence.cpp:132-177 | An observation record payload decodes to the record it encodes |
| JournalFormat.DecodeEncodeRestart | src/persistence.cpp:398-408 | A restart marker payload decodes to the marker it encodes |
| JournalFormat.DecodeEncodeSnapshot | src/persistence.cpp:410-420 | A snapshot marker payload decodes to the marker it encodes |
| JournalFormat.ChainCommits | src/persistence.cpp:82-95 | Two record runs of equal length that end in the same chain value start from the same value and agree on every kind, sequence and payload, or two texts with the same hash are returned |
| JournalRecovery.RecoverParts | src/persistence.cpp:440-732 | The recovery loops over parts and records, with every error and damage branch, compute Recover |
| JournalRecovery.ScanGoodParts | src/persistence.cpp:546-634 | Scanning written, linked parts absorbs each of them in order: no header, length, link, checksum, digest or chain check refuses anything, and only the recovery bound can end the scan |
| JournalRecovery.TruncationAnywhere | src/persistence.cpp:546-605 | Cutting a clean one-part journal at any byte from 128 on recovers exactly the records wholly before the cut, reports truncation exactly off a record boundary, never reports corruption, and header, valid records and tail add up to the file |
| Journals.Open | src/persistence.cpp:212-286 | Open recovers, then continues the newest part where recovery ended, or starts a fresh one |
| Journals.Journal.WriteHeader | src/persistence.cpp:288-304 | The active file becomes an empty part: recovery takes it up if and only if it stands at the chain value being continued, or at none, and otherwise reports a part that does not follow |
| Journals.Journal.WriteRecord | src/persistence.cpp:306-354 | A record is appended to the log, after a rotation when due, or refused without a change to any file; the object keeps standing at the end of the log |
| Journals.Journal.Rotate | src/persistence.cpp:356-389 | Rotation shifts the parts, drops the oldest and starts a part that continues the chain |
| Journals.Journal.ShiftParts | src/persistence.cpp:361-378 | The rename loop moves every slot up by one and drops the last |
| Journals.Compact | src/persistence.cpp:734-798 | Compaction writes the recovered records as one fresh, linked part, or refuses an oversized record |
| JournalRuns.ReopenFindsTheLog | src/persistence.cpp:440-732 | Reopening a written log whose observations fit the recovery bound reads every record of every part and nothing else, finds no damage, and continues the chain if and only if some part holds a record |
| JournalRuns.ReopenedJournalHolds | src/persistence.cpp:212-286 | The reopened object stands at the end of the log, so writing continues under the same contract |
| JournalRuns.RecoveryBoundIsExact | src/persistence.cpp:640-655 | Recovering any written log returns its oldest observations up to the bound, never reports corruption, and reports truncation if and only if there are more of them than the bound; markers do not count |
| JournalTails.AppendedAfterStopIsLost | src/persistence.cpp:254-286 | When recovery stopped for damage or at its bound, open succeeds and appends, and every later recovery finds the same as before, so nothing appended is ever read back |
| JournalTails.AppendedAfterCut | src/persistence.cpp:254-286 | What is appended after a cut record completes it: unless to the very record that was cut or to a text with the same hash, the scan stops there as damaged |
| JournalRuns.JournalRoundTrip | src/persistence.cpp:306-389 | After any number of sessions and rotations, with the observations in the remaining parts within the recovery bound at each open: every session opens where the last one ended, there are at most max_files contiguous parts, each within max_bytes when a largest record fits, and reopening returns exactly the newest writes in write order, undamaged |
| JournalRuns.LargestRecordOverflows | src/persistence.cpp:313-325 | A fresh part holds a largest record within max_bytes if and only if 128 + 116 + max_record_bytes is at most max_bytes |
| JournalRuns.OversizedPartsOnlyGrow | src/persistence.cpp:319-320 | Past max_bytes the unsigned subtraction wraps and the part is not rotated again |
| JournalRuns.HeaderOnlyReopenLosesRecords | src/persistence.cpp:535-537 | A record appended after reopening a header-only journal is refused by recovery as a broken chain |
| JsonText.ParseWritten | src/json.cpp:77-137 | Parsing the compact or pretty text of a value gives it back, for every value within the limits (grammar of sections 4 to 7 of RFC 8259) |
| JsonText.ReadWritten | src/json.cpp:160-282 | A written value is read back at any depth and node count that leaves room, leaving exactly what followed it |
| JsonAccepts.ParserRecognisesGrammar | src/json.cpp:143-461 | The parser accepts a text if and only if the grammar derives it within the limits (with surrogate escapes paired), and every derivation means the value returned (sections 2 to 9 of RFC 8259) |
| JsonGrammar.AcceptedIsGrammatical | src/json.cpp:143-461 | Soundness: an accepted text has a derivation, which means what was returned |
| JsonAccepts.GrammaticalIsAccepted | src/json.cpp:143-461 | Completeness: a text with a derivation within the limits is accepted |
| JsonText.ReadEscaped | src/json.cpp:36-75 | Escaping and reading a string is the identity on arbitrary bytes |
| JsonText.Utf8IsShortest | src/json.cpp:396-412 | What is appended for a code point is its shortest UTF-8 sequence (section 3 of RFC 3629) and decodes to it |
| JsonText.SurrogatePairReads | src/json.cpp:327-352 | Every supplementary code point written as a surrogate pair reads as its UTF-8 sequence |
| JsonText.LoneSurrogateRefused | src/json.cpp:334-351 | A high surrogate is read if and only if an escaped low surrogate follows, whatever else does, and a low surrogate on its own is never read; both are refused as malformed |
| JsonParser.Parser.ParseAll | src/json.cpp:143-158 | The parser object, run from the start, returns what the grammar function says of its input |
| JsonParser.Parser.ParseValue | src/json.cpp:160-191 | Depth and node limits and the dispatch on the first character |
| JsonParser.Parser.ParseObject | src/json.cpp:201-247 | The member loop with its limits and separators |
| JsonParser.Parser.ParseArray | src/json.cpp:249-282 | The element loop with its limits and separators |
| JsonParser.Parser.ParseString | src/json.cpp:284-371 | The string loop with its escapes, limits and refusals |
| JsonParser.Parser.ParseHex4 | src/json.cpp:373-394 | The four digit loop of a unicode escape |
| JsonParser.Parser.ParseNumber | src/json.cpp:414-461 | The token is scanned by the grammar and handed to the library |
| JsonParser.Writer.WriteJson | src/json.cpp:77-137 | The writer appends the text of the value, compact or indented |
| JsonParser.Writer.AppendString | src/json.cpp:36-75 | The writer appends the quoted, escaped string |
| JsonValues.FromToJson | src/json.cpp:537-683 | Converting a bounded value to its tagged envelope and back gives the value |
| JsonValues.IntegersAreExact | src/json.cpp:557-579 | Signed and unsigned 64-bit integers survive as decimal text to the last bit |
| Hex.HexDecodeEncode | src/util.cpp:73-103 | Hexadecimal text of any bytes decodes to them |
| JsonValues.ValueTravelsAsText | src/json.cpp:526-685 | A value written as JSON text and parsed arrives as that value when its envelope is within the JSON limits |
| JsonValues.BuildJson | src/json.cpp:644-685 | The conversion loops compute the envelope |
| JsonValues.ReadJson | src/json.cpp:537-642 | The converting recursion, its tags, loops and errors |
| Canonical.GetPutU64 | src/canonical.cpp:30-122 | A 64-bit word is read back from what was written, leaving the rest |
| Canonical.GetPutI64 | src/canonical.cpp:35-130 | A signed word is read back across the two's complement cast |
| Canonical.GetPutBytes | src/canonical.cpp:45-155 | A length-prefixed byte string is read back, leaving the rest |
| Canonical.GetPutTag | src/canonical.cpp:54-180 | An expected tag is recognised and consumed exactly |
| Canonical.WordsAreBigEndian | src/canonical.cpp:23-33 | Two 32-bit halves written by shifting are one big-endian 64-bit number |
| Canonical.CanonicalEncoder.U64 | src/canonical.cpp:30-33 | The encoder appends the big-endian word |
| Canonical.CanonicalEncoder.Tag | src/canonical.cpp:54-57 | The encoder appends the tag |
| Canonical.CanonicalDecoder.TakeBytes | src/canonical.cpp:67-78 | Taking past the end poisons the decoder, and a poisoned decoder yields nothing more |
| Canonical.CanonicalDecoder.U64 | src/canonical.cpp:112-122 | The shift-and-or loop reads the big-endian word or poisons |
| Canonical.CanonicalDecoder.GetBlob | src/canonical.cpp:144-155 | A length beyond what is left poisons the decoder; otherwise exactly that many bytes are consumed |
| Canonical.CanonicalDecoder.Tag | src/canonical.cpp:165-180 | A different tag poisons the decoder |
| Canonical.CanonicalDecoder.Expect | src/canonical.cpp:182-192 | A different byte poisons the decoder |
| Values.BuildList | src/value.cpp:156-183 | The accumulation loop computes the bounded list constructor |
| Values.BuildMap | src/value.cpp:185-225 | Sorting, duplicate search and accumulation compute the bounded map constructor |
| Values.MakeListBounded | src/value.cpp:156-183 | The list constructor succeeds if and only if the list of bounded parts passes validation |
| Values.MakeMapBounded | src/value.cpp:185-225 | What the map constructor accepts is sorted by unique keys and passes validation, and it leaves such a map as it is |
| Values.CompareLaws | src/value.cpp:538-593 | The comparison is zero exactly on equal values and antisymmetric |
| Values.CompareTransitive | src/value.cpp:538-593 | The comparison is transitive over nested lists and maps |
| Values.ValueOrderIsTotal | src/value.cpp:538-593 | So it is a total order that ties only equal values, as the conflict grouping needs |
| Values.Encode | src/value.cpp:393-430 | The encoding recursion appends the canonical bytes |
| Values.Decode | src/value.cpp:432-536 | The decoding recursion moves the cursor over exactly the bytes of the value, or poisons |
| Values.DecodeEncodeValue | src/value.cpp:393-536 | Decoding an encoded bounded value followed by anything returns the value and leaves exactly what followed |
| Values.EncodeValuePrefixFree | src/value.cpp:393-430 | No encoding is a prefix of another, so it determines the value |
| Values.DecodedValueIsBounded | src/value.cpp:432-536 | Whatever bytes arrive, a decoded value passes validation and is in normal form |
| Values.DecodingIsBoundedIff | src/value.cpp:432-461 | Every decoded value passes validation if and only if the limits admit one level and one node |
| Ids.LinkHasNoDirection | src/ids.cpp:134-150 | A link has the same identity from either end |
| Ids.PortRoundTrip | src/ids.cpp:92-132 | Port text parses to the port |
| Ids.ParseIndexLoop | src/ids.cpp:110-131 | The digit loop catches 64-bit overflow digit by digit and then narrows |
| Ids.LinkRoundTrip | src/ids.cpp:152-175 | Link text parses to the link |
| Ids.HexU128RoundTrip | src/ids.cpp:65-90 | The 32 digit form of an identifier parses to it |
| Ids.TypedTextRoundTrip | src/ids.cpp:342-435 | The typed text of a well-formed identity of any kind parses to it |
| Ids.ParsedIsWellFormed | src/ids.cpp:365-435 | Whatever text arrives, a parsed identity is one the builders can produce |
| Ids.CompareSubjectLaws | include/fabric_observatory/ids.hpp:277-305 | The order of subjects ties only equal subjects and is antisymmetric |
| Observations.EncodeTo | src/observation.cpp:208-244 | The encoder receives exactly the canonical bytes |
| Observations.DecodeFrom | src/observation.cpp:246-405 | The decoding loops, checks and error codes of the program |
| Observations.DecodeEncodeSubject | src/observation.cpp:28-70 | An entity reference decodes to the subject it encodes, re-deriving the identifier from the typed text |
| Observations.DecodeEncode | src/observation.cpp:208-405 | Decoding an encoded canonical, valid observation followed by anything returns it and leaves exactly what followed |
| Observations.EncodePrefixFree | src/observation.cpp:208-244 | The encoding is injective and prefix-free |
| Observations.DecodedIsWellBuilt | src/observation.cpp:246-405 | Whatever bytes arrive, a decoded observation passes validation and is in canonical order |
| Pipelines.EveryStateIsSafe | src/ingest.cpp:67-139 | In every state of every schedule: each source is ingested in the order it was enqueued, queues respect their capacity, enqueued equals queued plus in flight plus outcomes plus discarded, and the engine state is a run over what was ingested |
| Pipelines.ShutdownAccounts | src/ingest.cpp:153-197 | After a shutdown everything enqueued has an outcome or was counted as discarded; when nothing asked for discarding, everything was ingested, each source in its own order |
| Pipelines.SchedulesShowOneView | include/fabric_observatory/ingest.hpp:67-76 | Two schedules in which every source enqueued the same sequence, with the clock reading the same at each of its observations, drained without discarding, end in the same published view, as long as no table bound is reached |
| Pipelines.CapacityBounds | src/ingest.cpp:36-48 | Over the workers a pipeline opens with, all shards together queue no more than the effective bound, or one item per shard |
| Pipelines.IngestPipeline.SubmitBlock | src/ingest.cpp:73-86 | A submission is enqueued, refused as stopping, or refused as full, and the invariant of all schedules is kept |
| Pipelines.IngestPipeline.CountSubmitBlock | src/ingest.cpp:88-90 | The invariant of all schedules is kept, no queue, worker or evidence moves, and submitted plus what is still to be counted is what was enqueued |
| Pipelines.IngestPipeline.TakeBlock | src/ingest.cpp:97-117 | A worker discards and leaves, leaves, or takes the front item, and the invariant of all schedules is kept |
| Pipelines.IngestPipeline.IngestBlock | src/ingest.cpp:119-122 | The item ingested is the next one of its source in the order of submission, and the engine state is the run over everything ingested; the invariant of all schedules is kept |
| Pipelines.IngestPipeline.CountItemBlock | src/ingest.cpp:123-138 | The outcome of the item is counted under its own disposition, and the invariant of all schedules is kept |
| Pipelines.IngestPipeline.CancelBlock | src/ingest.cpp:141-151 | From then on the shard accepts nothing, its queue is still there, and a waiting worker wakes up, discards all of it and leaves; the invariant of all schedules is kept |
| Pipelines.IngestPipeline.StopBlock | src/ingest.cpp:162-170 | From then on the shard accepts nothing and a waiting worker wakes up; when draining, it goes on with the front of the queue and discards nothing; the invariant of all schedules is kept |
| Hierarchy.DepthFromRoot | src/query.cpp:92-116 | For any parent function, cycles included, the walk returns the least distance up to the root if that is within the bound, and nothing otherwise |
| Hierarchy.TraversalMeaning | src/query.cpp:290-339 | The recursive preorder lists a subject at depth d if and only if d is within the bound and its d-th ancestor is a selected root, and lists none twice |
| Hierarchy.ListedDepthIsLeast | src/query.cpp:92-116 | A listed depth is the least distance from the subject to its root |
| Hierarchy.ListedDepthFits | src/query.cpp:290-339 | However large the depth bound, the depth of a child of a listed subject is at most the number of subjects, so that its 32-bit counter does not wrap |
| Hierarchy.Traverse | src/query.cpp:293-339 | The explicit stack with its visited set emits the first limit nodes of that preorder, reports no cycle, and says truncated exactly when something was left out |
| Hierarchy.ExecuteHierarchy | src/query.cpp:226-339 | The scan, root selection, limits, unattached list and counters of the query, on any list of distinct subjects |
| Hierarchy.SnapshotSubjectsAreDistinct | src/snapshot.cpp:463-565 | The subjects of every snapshot Build returns are distinct, so the query applies to every snapshot |
| Times.SaturatingDifferenceIsClamp | include/fabric_observatory/time.hpp:76-85 | The unsigned subtraction yields the exact difference clamped to 0 and 2^63-1 |
| Times.SaturatingDifferenceMonotone | include/fabric_observatory/time.hpp:76-85 | An age only grows with the evaluation instant |
| Times.FloorMeaning | src/time.cpp:21-31 | Truncated division corrected by the sign gives the floored quotient and a remainder within the divisor |
| Times.EpochIsNewYear1970 | src/time.cpp:41-53 | Day 0 is 1970-01-01 |
| Times.CivilFollowsCalendar | src/time.cpp:41-53 | For every day count the next day is the Gregorian next day, and every date is valid |
| Times.DaysFromCivilInverts | src/time.cpp:55-63 | The day count of the date of a day is that day |
| Times.CivilFromDaysInverts | src/time.cpp:41-63 | The date of the day count of a valid date is that date |
| Times.YearsHaveFourDigits | src/time.cpp:96-117 | Every instant of 64-bit nanoseconds falls in a year of four digits |
| Times.FormatParseRoundTrip | src/time.cpp:96-186 | Parsing the formatted text gives the instant back if and only if it is at least -9223372036000000000; below that the multiplication overflows (format of section 5.6 of RFC 3339) |
| Times.ParseUnsigned | src/time.cpp:77-86 | The fixed-width digit loop |
| Times.ParseUtcText | src/time.cpp:119-186 | The parser of bare integers and timestamps, with its checks in source order |
| Digest.Hasher.Append | src/digest.cpp:109-136 | After any append the chaining words cover every whole block fed and the buffer holds the remainder |
| Digest.Hasher.Pad | src/digest.cpp:165-173 | The padding loop terminates with 56 bytes buffered |
| Digest.Hasher.Finish | src/digest.cpp:152-181 | The digest is that of everything fed, padded, and the buffer is empty at the end |
| Digest.HashPieces | src/digest.cpp:138-150 | However a message is cut into updates, the digest is that of the concatenation |
| Digest.PaddingIsStandard | src/digest.cpp:156-174 | Below 2^61 bytes the padded message is whole blocks, begins with the message and a one bit, uses the fewest zeros and ends in the length in bits (section 5.1.1 of FIPS 180-4) |
| Digest.PaddingIsInjective | src/digest.cpp:156-174 | Different messages of any length have different padded forms, even where the length field wraps |
| Digest.PaddingIsSuffixFree | src/digest.cpp:156-174 | Below 2^61 bytes no padded message is the tail of another |
| Digest.DigestCommits | src/digest.cpp:219-223 | Two messages with the same digest are equal, or the compression function has a collision |
| Checksum.BuildTable | src/digest.cpp:233-246 | The table holds eight register steps of every byte |
| Checksum.TableStepIsBits | src/digest.cpp:250-258 | One table lookup is eight steps of the shift register on the message bits |
| Checksum.Crc32c.Update | src/digest.cpp:250-258 | After any updates the state is the remainder of everything fed |
| Checksum.Crc32c.Value | include/fabric_observatory/digest.hpp:78 | The value is the checksum of everything fed |
| Checksum.NearbyDamageIsDetected | include/fabric_observatory/digest.hpp:71-82 | Replacing up to four neighbouring bytes anywhere in a message changes the checksum |

## Left out

- `std::FILE`, `fsync`, partial writes and write failures: files are a map from part numbers to bytes and every write is whole.
- The numeric content of the SHA-256 rounds (src/digest.cpp:62-107): the compression function is a parameter; likewise the journal and the engine take their hashes as parameters.
- Double printing and scanning (`to_chars`, `from_chars`): a pair of functions; round trips are stated for the numbers that pair carries.
- The clock: receive instants are part of the input, and in the pipeline of the step that ingests.
- Weak memory and condition variable wakeups: each block under a lock is one atomic step. The unlocked read of `running_` in `submit` (src/ingest.cpp:68-70) is not a separate step.
- Explanation, summary and display text: an explanation is the datatype of the values it prints. The lists of refusals and fenced claims are ordered by their unique leading keys (observation; observation, subject, aspect), which decide the program's order before any text is compared.
- Publication, history, diffs, the query filter, lock audit, status names and policy validation; policy name and digest; snapshot statistics, content digest and canonical summary; the domain of an aspect, which is a function of its name.
- `Observation::to_json` and `from_json` (src/observation.cpp:478-763) and metadata as JSON: `value_to_json` and `value_from_json` are modelled.
- `PathId::from_hops` (src/ids.cpp:177-201): a path is an identifier here.
- Counters other than the 64-bit fields the algorithms compare are unbounded integers.
- Ingest batches, which call the modelled ingest once per observation, and the publication option of ingest.
- `std::sort` is a stable sort here. Where ties could show, the order is proved to tie only equal elements, or the program breaks the tie by index.
- Observations.Canonicalize: sorts in place in the program (src/observation.cpp:190-206), a function on values here.
- Sessions: a session is a list of writes between two opens; the marker that open itself appends is one of them.
- Observatories.Observatory.IngestLocked: does not model a failing journal append, nor the publication after an ingest; every append succeeds.
- Observatories.Observatory.AcceptObservation: does not model a failing journal append.
- Snapshots.BuildSnapshot: leaves out the snapshot statistics, the content digest and the canonical summary.
- Restart.Open: leaves out the restart count, the restart marker it journals and the first publication; what reading the journal gives is a parameter, which DurableRestart fills in.
- Assertions.OldestFenceIsForgotten: is about the table alone; Forgetting.ForgottenFenceAsserts is the run.
- Rebuilt.RestartDecides: with evicted or deleted records the condition is that of Rebuilt.AnyJournalDecides, which compares the live lineage with what is left of the journal; it is not expressed by the accepted observations alone.
- JsonAccepts.ParserRecognisesGrammar: the bytes of a string are not required to be UTF-8, as the program does not check that; which texts scan as which doubles is the library's part.
- JsonText.ParseWritten: numbers are carried only if the library's printed text is scanned back and is a JSON number.
- Hierarchy.ExecuteHierarchy: leaves out the digest of the result.
- Journals.Compact: states the file it writes; the output path and its failure cases are left out.
