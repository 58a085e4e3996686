# credSync, modelled and proved

credSync is an offline-first sync engine: a client state machine without I/O, a server that serves an
append-only change log, and a simulated world that loses, repeats and delays messages, restarts devices and
lies about commits. The repository samples that world by seeds. This project states what the samples look for
and proves it of every run.

What is modelled, module by module:

- `Wire`, `Ids`, `Digest`, `Migrate`, `Rng`, `Pressure`, `Splice`: the wire types and limits, the id and digest
  codecs, the incremental 128-bit scope digest, migration chains, the seeded generator with rejection sampling,
  load shedding, and batch filling by splicing.
- `Storage`: the device database and its three transaction verdicts (commit, fail before commit, commit and
  report failure).
- `EngineSpec` and `Engine`: the client engine, once as transition functions and once as the object that updates
  its fields around each transaction; every method is proved to be its transition.
- `EngineDigest`, `EngineRuns`, `EngineOutbox`, `EngineHealth`: facts about whole runs of one device.
- `EngineCuts`: what a device can tell of where a batch was cut in two.
- `Replay`, `ServerSpec`, `ServerIndex`, `Compaction`, `Server`: the change log as a value, the answers a plain
  scan of it gives, and the indexed server object proved to give the same ones.
- `PullChannel`, `PushChannel`, `World`, `Checkers`: the whole system as steps and its inductive invariant; every
  device in it is a run of the engine.
- `Network`, `Convergence`, `Drain`, `Bootstrap`: what the simulated network's queues guarantee, and what
  happens when nothing goes wrong.
- `Watermark`, `Dedupe`, `Forward`: the two concurrent server protocols, as interleaved effects of any number
  of participants.

The hashes (`Digest.Xxh3`, `Dedupe.Blake3`), the compressor, the encoders passed to the splice, host migration
steps and the check that a document is well shaped are uninterpreted: nothing relies on collisions being absent.
`EngineSpec.Event` and `World.Step` list everything a run may do. Push traffic may be lost, repeated and
reordered without limit; pull requests too; pull answers queue in order for each device, may be lost and may be
delivered again, which `Network` shows is what the simulated queues produce.

## What the proofs found

- A tombstone stays in the simulated server's row history as though it were a live version. Its `rows_at` and
  the durable-effects check therefore disagree with a correct client as soon as some row's latest change is a
  delete, and only then; its digest may disagree from then on, and does unless two different sums coincide
  (`ServerSpec.HistoryMatchesReplay`, `ServerSpec.TombstoneMisleads`, `Checkers.ChecksPass`). A rebuild does not
  cure such a report: the rebuilt device holds the right rows and is reported again for as long as the two sums
  differ (`Bootstrap.LastPageReports`).
- A rebuild clears rows of registered entities only. A row of any other entity, which an apply accepts, stays
  stored while the digest restarts at zero (`EngineRuns.RebuildClears`, `EngineRuns.RowOutlivesRebuild`).
- A bootstrap serves each row's latest change only. An append-only row delivered by one page, deleted, and written
  again before the next keeps the bootstrap from finishing until the row is deleted again, although a pull takes
  the same log (`Bootstrap.AppendOnlyStuck`, and for any growing logs `Bootstrap.NeverFinishes`; when a page lands,
  exactly, is `Bootstrap.PageLandsIff`).
- A quarantined change moves the digest and the version the batch's later changes meet, but no stored row. The
  digest then stands for versions that are not stored, exactly when some row's latest change was quarantined at
  another version than the one stored (`EngineDigest.NoDriftMeans`, `EngineDigest.DigestStaysExact`). So a device
  can tell where a batch was cut in two. An append-only row left so before the cut shows it in what is accepted,
  and no other row does (`EngineCuts.CutNeverShowsIff`, `EngineCuts.QuarantineSeesTheCut`); any row left so shows it
  in the digest once the second part touches it, unless two sums coincide (`EngineCuts.CutDigestIff`,
  `EngineCuts.DigestSeesTheCut`). Stored rows and cursors never show it (`EngineCuts.PartsLeaveTheSame`).
- Queueing a command id a second time breaks the outbox accounts; nothing in the engine refuses it
  (`EngineOutbox.EnqueueKeepsAccounts`).
- The documentation of `forward` says a retry after a failed host call finds the recorded outcome. Nothing has
  been recorded by then and the host is asked again (`Forward.UnansweredAskIsRepeated`).
- The engine does not keep its cursors monotone by itself. An empty batch sets the cursor it carries without any
  check, and nothing else takes a cursor back (`EngineRuns.CursorGoesBack`): two honest answers swapped do
  (`PullChannel.SwappedAnswersGoBack`), and so does any answer under a row limit of zero
  (`PullChannel.NoRowsGoesBack`). In the simulated world answers reach a device in the order they were asked for
  and the limit is four, and there no run takes a cursor back (`World.DevicesHoldReplay`).
- The convergence check compares a scope's cursor with the head of the whole log, so one write to any other scope
  has it report every device, however well it has converged (`Checkers.ConvergenceMeans`,
  `Checkers.OtherScopeReported`). The simulated world has one scope.
- The simulated restart does not hand the health record back to the engine. Each such restart allows three more
  divergence reports, and that bound is reached (`EngineHealth.EscalationIsBounded`,
  `EngineHealth.BoundIsReached`); the engine's own documentation asks hosts to hand it back.

## Model

| member | source | states |
|---|---|---|
| EngineRuns.RunRefinesReference | credsync-core/src/engine.rs:278-463 | Over any run from an empty device (any batches in any order, changes that must be quarantined included, rebuilds, restarts, queued commands, answers; commits, failures and lying commits) the stored rows and cursors are those of a reference machine without staging, overlays, digests or memory, and memory equals storage for every scope not suspect |
| EngineRuns.RunDigestsExact | credsync-core/src/engine.rs:278-463 | Over any such run whose batches keep to their scope's rows and need no quarantine, every scope's stored digest is the from-scratch sum over its stored rows |
| EngineCuts.BoundariesIrrelevant | credsync-core/src/engine.rs:278-427 | A batch is accepted if and only if both of its parts are when it is cut in two, and then the same rows and cursor are left, however the landed transactions were reported, as long as an accepted first part leaves no append-only row's latest change in quarantine at a version other than the one stored; rows that are not append-only may be quarantined freely |
| EngineCuts.CutNeverShowsIff | credsync-core/src/apply.rs:240-379 | That is the exact condition: however the batch goes on, the cut changes no acceptance, if and only if the changes before it leave no append-only row so, or are refused themselves |
| EngineCuts.QuarantineSeesTheCut | credsync-core/src/apply.rs:240-379 | Two changes of one append-only row, the first of which must be quarantined, are refused as one batch and accepted as two |
| EngineCuts.PartsLeaveTheSame | credsync-core/src/engine.rs:278-427 | Accepted both ways, a batch leaves the same rows and cursors whatever is quarantined in either part |
| EngineCuts.CutDigestIff | credsync-core/src/apply.rs:343-379 | Accepted both ways by any device, with any digest to start from and any quarantine in either part, a batch leaves the same rows, cursors, quarantine and other scopes' digests; its own scope's digest is the same if and only if the versions staged and the versions stored before the cut sum alike over the rows the second part touches |
| EngineCuts.NoDriftSumsAlike | credsync-core/src/apply.rs:343-379 | They sum alike when the second part touches no row whose latest change before the cut was quarantined at a version other than the one stored |
| EngineCuts.DigestNeverShowsIff | credsync-core/src/apply.rs:343-379 | However the batch goes on, accepted both ways, the cut changes no digest, if and only if every row's version staged and version stored before the cut hash alike, or the changes before it are refused |
| EngineCuts.DigestSeesTheCut | credsync-core/src/apply.rs:343-379 | From an empty device, a change set aside and a reachable write of the same row, not append-only, are accepted both ways and leave the same digest if and only if the version set aside hashes to zero |
| EngineRuns.LandedMeansAccepted | credsync-core/src/engine.rs:278-427 | A batch lands if and only if its transaction does not fail outright, it passes the ordering checks, and it gives no append-only row a second version |
| EngineRuns.CursorGoesBack | credsync-core/src/engine.rs:390-427 | An apply takes a stored cursor back if and only if its batch is empty, carries a lower cursor, and its transaction lands |
| EngineRuns.StagedAllAccepts | credsync-core/src/apply.rs:251-332 | Staging refuses a consistent batch exactly when it would give an append-only row a version other than the one the rows and the batch's earlier changes, quarantined ones included, have made of it |
| EngineRuns.RebuildClears | credsync-core/src/engine.rs:669-702 | A rebuild's clear leaves none of the scope's rows if and only if every such row's entity is registered under the scope |
| EngineRuns.RebuildDigest | credsync-core/src/engine.rs:669-702 | After a landed rebuild the digest is right if and only if what the clear left of the scope sums to zero |
| EngineRuns.RowOutlivesRebuild | credsync-core/src/engine.rs:669-702 | A pull of one row of an entity nobody registered and then a rebuild leave that row stored under a cursor and digest that start over, so the digest is wrong unless the row hashes to zero |
| EngineRuns.ApplyKeepsOthers | credsync-core/src/engine.rs:278-427 | Applying one scope's batch, quarantine included, leaves every other scope's digest exact |
| EngineRuns.FailuresAreDoubted | credsync-core/src/engine.rs:429-463 | Whatever its transaction really did, an apply told it failed trusts neither scope nor queue any more, and one told it landed trusts the scope it wrote and counts the batch's changes |
| EngineRuns.RebuildFailuresAreDoubted | credsync-core/src/engine.rs:669-702 | The same of a rebuild, which starts the scope over, and of clearing a scope's health |
| EngineDigest.ApplyRefines | credsync-core/src/engine.rs:278-427 | One apply of any batch under any storage behaviour: nothing stored moves, or the rows are the replay of the changes whose documents can be stored, the others are set aside in order and the cursor is the batch's; success is reported exactly when the write landed and was acknowledged, and divergence exactly when the digests are compared and differ |
| EngineDigest.CleanApplyRefines | credsync-core/src/engine.rs:278-427 | With nothing to quarantine the rows are the replay of the whole batch and the stored digest stays the exact sum |
| EngineDigest.DigestStaysExact | credsync-core/src/apply.rs:343-379 | With quarantined changes an exact digest stays exact if and only if the versions staged and the versions stored sum alike |
| EngineDigest.NoDriftMeans | credsync-core/src/apply.rs:343-379 | Those versions are the same if and only if no row's latest change in the batch was quarantined at a version other than the one stored |
| EngineDigest.StagedAllTracks | credsync-core/src/apply.rs:275-332 | The incremental digest, read-your-own-writes included, stays equal to the sum over the staged rows |
| EngineDigest.StagedOpsReplay | credsync-core/src/apply.rs:251-379 | The staged operations replay the changes that can be stored and set the rest aside in order, and the overlay tracks every version, quarantined ones included |
| EngineDigest.ReplayVersionsLocal | credsync-core/src/engine.rs:470-510 | Migrating documents changes no row's identity or version, so digests agree across schemas |
| EngineDigest.LocalizedMeans | credsync-core/src/engine.rs:470-510 | A change under another schema than its entity's registered one becomes the document the host's steps take it to, under the registered schema, if that is well shaped and within the size limit; any other change is taken as it is |
| EngineDigest.LocalizedStops | credsync-core/src/engine.rs:470-510 | Why a change is set aside: its document is newer than the app, stops on its way up, or comes out unfit to be stored |
| EngineDigest.RowHoldsMigrated | credsync-core/src/engine.rs:278-510 | A stored row has its latest change's version and that change's document, taken by the host's steps to the registered schema when it was written under another |
| EngineSpec.BatchFaultMeaning | credsync-core/src/apply.rs:182-223 | A batch passes the ordering checks if and only if it ascends strictly past the cursor, is consistent, and its next cursor covers it |
| EngineSpec.BatchFaultNames | credsync-core/src/apply.rs:182-223 | A refused batch is refused for its first fault, named with the numbers that clash, or for a next cursor below its last change |
| EngineRuns.StagedAllRefuses | credsync-core/src/apply.rs:251-332 | Staging refuses for the first change that overwrites an append-only row, named with the version held and the one brought |
| Engine.ValidateOrdering | credsync-core/src/apply.rs:182-223 | The running check returns the first fault in the order the checks are made |
| Engine.StageChange | credsync-core/src/apply.rs:251-332 | Staging over the overlay reads each row exactly as though the batch's earlier changes were committed |
| Engine.StageQuarantine | credsync-core/src/apply.rs:343-379 | A quarantined change moves the digest and the overlay, and stores the change instead of the row |
| Engine.Engine.ApplyBatch | credsync-core/src/engine.rs:223-238 | The object's whole new state, database and result are those of the apply transition, digests compared only when the batch says nothing more is left |
| Engine.Engine.ApplyBootstrap | credsync-core/src/engine.rs:259-272 | The same transition, counted as a rebuild |
| Engine.Engine.ApplyChanges | credsync-core/src/engine.rs:278-463 | Validate, stage, one transaction, and only then memory; on a reported failure the scope and the outbox become suspect |
| Engine.Engine.RefreshIfSuspect | credsync-core/src/engine.rs:537-578 | A suspect scope's cursor and digest are read back from storage, or forgotten when storage has none |
| Engine.Engine.BeginRebootstrap | credsync-core/src/engine.rs:662-702 | One transaction clears the registered rows and resets cursor and digest |
| Engine.Engine.Taint | credsync-core/src/engine.rs:639-660 | The third attempt gives the scope up and reports it; earlier ones taint it |
| Engine.Engine.RestoreScopeHealth | credsync-core/src/engine.rs:727-742 | The health a recorded pair restores to |
| EngineOutbox.EnqueueRefuses | credsync-core/src/registry.rs:140-169 | A command is refused, before anything is written, if and only if its name is registered for nothing, or for an entity nobody registered, or for one the server alone writes, and is told which; any other is queued last, in storage and in memory as the transaction went |
| EngineOutbox.ServerOwnedNeverQueued | credsync-core/src/engine.rs:785-817 | Over any run of a new device no command for a server-owned entity is ever queued, in memory or in storage, or sent |
| Engine.Engine.Enqueue | credsync-core/src/engine.rs:785-817 | The object's whole new state, database and result are those of the queueing transition: refused before anything is written, persisted before it is in memory, suspect when the write was reported lost |
| Engine.Engine.BuildPush | credsync-core/src/engine.rs:862-964 | The request is the greedy longest fitting prefix of the migratable queue, in order; held commands looked at are reported and stay queued |
| Engine.Engine.FillPush | credsync-core/src/engine.rs:884-948 | At every iteration, rollback included, the buffer is the bracketed comma-joined encoding of the chosen commands |
| Engine.Engine.ApplyResults | credsync-core/src/engine.rs:1030-1138 | One record for each answered command, written with its draft in one transaction before memory shrinks |
| EngineOutbox.NothingIsLost | credsync-core/src/engine.rs:594-602 | In every state of any run the ids ever committed are the disjoint union of queued and resolved, each resolved once; nothing resolved is later changed or lost |
| EngineOutbox.ResultsSettle | credsync-core/src/engine.rs:1030-1138 | Any response settles exactly the queued commands it answers, by its first answer to each, or nothing; what is recorded is the answer's own status, with its number when applied and its reason when rejected |
| EngineOutbox.ResultsTold | credsync-core/src/engine.rs:1030-1138 | The caller is given exactly what was recorded, every answer is recorded or counted as unknown, and the queue in memory is distrusted if and only if the call failed |
| EngineOutbox.DraftsSurvive | credsync-core/src/engine.rs:1073-1092 | A queued command for an owner-draft entity first answered as superseded has its payload among the recovered drafts in the same transaction |
| EngineOutbox.OnlyRescued | credsync-core/src/engine.rs:1073-1092 | And no other draft is recovered by a response |
| EngineOutbox.EnqueueKeepsAccounts | credsync-core/src/engine.rs:804-816 | Queueing keeps the accounts if and only if the id was never committed before |
| EngineOutbox.PushCountMeans | credsync-core/src/engine.rs:884-948 | As many of the sendable commands go as fit together, at most 256 of them, in one mebibyte and in the compressed budget; the first always does, and one more never would |
| EngineOutbox.PushIsValid | credsync-protocol/src/wire.rs:392-409 | Every request built from well-formed commands holds at most 256 of them in one mebibyte and passes the server's checks, although its first command always goes |
| EngineOutbox.ValidatePushMeans | credsync-protocol/src/wire.rs:392-409 | A request is refused if and only if it holds more than 256 commands or they encode to more than a mebibyte, in that order, with the numbers |
| EngineOutbox.OutgoingMeans | credsync-core/src/engine.rs:976-1012 | What is pushed for a command is the command itself, or for one authored under another schema the payload the host's steps take its own to, if that is well shaped and within the size limit |
| EngineOutbox.SentOrHeld | credsync-core/src/engine.rs:884-948 | Every queued command can be sent or is held, and each held one is reported with its schema and the reason |
| Wire.OneCommandFits | credsync-protocol/src/limits.rs:17-57 | The field limits bound one command's encoding far below the request limit |
| Wire.EncodeInjective | credsync-protocol/src/canonical.rs:35-53 | No two commands encode alike: every field is recovered from the bytes, whatever quotes, commas or braces the texts hold |
| EngineHealth.EscalationIsBounded | credsync-core/src/engine.rs:370-404 | Until it is cleared, a scope reports at most three divergences and is given up at most once, and that much again for each restart that does not hand the record back, over any run and any storage behaviour |
| EngineHealth.BoundIsReached | credsync-core/src/engine.rs:704-742 | For every number of such restarts some run reports exactly that many divergences |
| EngineHealth.RestartGivesBack | credsync-core/src/engine.rs:704-742 | After any run whose commits are reported honestly, earlier restarts that lost the record included, a restart that hands the record back gives a scope the health it had if and only if memory did not hold it healthy against a recorded attempt, and one that does not if and only if the scope was healthy |
| EngineHealth.GivenUpStays | credsync-core/src/engine.rs:443-457 | A scope given up stays given up for as long as no restart loses the record |
| EngineHealth.RecordRestoresMemory | credsync-core/src/engine.rs:704-742 | After any run whose commits are reported honestly the recorded pair restores to the health in memory if and only if memory does not hold the scope healthy against a recorded attempt, which it never does unless an earlier restart failed to hand the record back |
| EngineHealth.MoveEscalates | credsync-core/src/scope.rs:88-111 | A judgement moves health and its record together, never past the third attempt |
| EngineHealth.AppliedJudges | credsync-core/src/engine.rs:365-457 | What an acknowledged apply makes of health, record and reports, exactly: a compared digest that differs counts unless the scope waits for a rebuild or was given up, the third time gives it up, one that agrees heals a waiting scope, nothing else moves; what is told is each change set aside in order, then the divergence with the client's and the server's digest, then the surrender |
| Storage.SimStorage.Transact | credsync-sim/src/fakes.rs:364-395 | All of the operations or none, with a report that may not match, under each of the three verdicts; the verdict is used up |
| Storage.Db.Staged | credsync-sim/src/fakes.rs:238-350 | Staging on a copy performs the operations in order and leaves the original alone |
| Digest.DigestTracks | credsync-protocol/src/integrity.rs:134-150 | Adding a row not held and removing one that is keep the accumulator equal to the sum over the rows |
| Digest.DigestReplaces | credsync-protocol/src/integrity.rs:154-164 | One update replaces a row's contribution |
| Digest.SumSplit | credsync-protocol/src/integrity.rs:124-177 | The sum does not depend on the order rows are taken in |
| Digest.FromRows | credsync-protocol/src/integrity.rs:168-177 | The from-scratch digest is the sum over the rows listed, in any order |
| Digest.HexU128 | credsync-protocol/src/integrity.rs:82-103 | Byte by byte formatting gives the 32 digits of the value, leading zeros kept |
| Digest.HexRoundTrip | credsync-core/src/engine.rs:558-567 | The digest text reads back to the same 128-bit value, and every 32-digit text is some digest's |
| Digest.FrameInjective | credsync-protocol/src/integrity.rs:105-122 | No two rows are hashed over the same bytes |
| Digest.RowsCollide | credsync-protocol/src/integrity.rs:105-122 | Two rows, or two versions of one, hash alike only where the 128-bit hash itself collides |
| Dedupe.ChecksumsCollide | credsync-protocol/src/integrity.rs:59-77 | Two payloads share a checksum only where the hash collides |
| Ids.Parse | credsync-protocol/src/ids.rs:297-335 | Accepts exactly the canonical texts of version 7 ids (section 4 and section 5.7 of RFC 9562), naming the fault otherwise |
| Ids.Print | credsync-protocol/src/ids.rs:350-361 | Writes the canonical text |
| Ids.RoundTrip | credsync-protocol/src/ids.rs:297-361 | Parsing a printed id gives it back, and printing a parsed text gives it back |
| Ids.AuthoredIdsDistinct | credsync-sim/src/world.rs:740-748 | Device and counter are recovered from the id, so no two authored commands share one |
| Splice.FillBatch | credsync-server/src/pull.rs:136-203 | The in-place splice returns what re-encoding every candidate list would |
| Splice.Choose | credsync-server/src/pull.rs:145-181 | At every iteration, rollback included, the buffer is the encoding of the chosen changes; what is chosen is the greedy prefix |
| Splice.FilledProperties | credsync-server/src/pull.rs:136-203 | A batch holds as many of the candidates as compress to the budget together, the first always and one more never, says nothing is left exactly when nothing is, and carries a checksum over just its own changes |
| Splice.GreedyIsLongestFitting | credsync-server/src/pull.rs:145-181 | The greedy count is the longest fitting prefix, and no other count is |
| Migrate.Composition | credsync-core/src/migrate.rs:168-235 | Migrating a to c succeeds exactly when a to b and then b to c does, with the same document, never a half-migrated one |
| Migrate.PlanPredictsRun | credsync-core/src/migrate.rs:168-198 | A plan refuses exactly the chains that would fail for a missing or downward step |
| Migrate.MigratedMeans | credsync-core/src/migrate.rs:200-235 | A migration succeeds with a document if and only if the host's own steps, one a version and each applied to what the one before made, take the value to it |
| Migrate.MigratedStops | credsync-core/src/migrate.rs:200-235 | It fails for a lower target, or at the first version without a step or with a step that fails on the document that reached it, named with that version and the host's reason |
| Migrate.OneStep | credsync-core/src/migrate.rs:200-235 | One version up is the host's step and nothing else, and none is the document itself |
| Migrate.Migrations.MigrateValue | credsync-core/src/migrate.rs:200-235 | The loop computes the chain, naming the first step that fails |
| Rng.Unbiased | credsync-sim/src/rng.rs:81-92 | For every n each residue below n has the same number of accepted 32-bit draws |
| Rng.RotateSwaps | credsync-sim/src/rng.rs:58-67 | The rotation swaps a word's low bits with the rest, losing none |
| Rng.Rng.Below | credsync-sim/src/rng.rs:81-92 | The sampling loop ends from every state and returns the residue of the first accepted draw |
| Rng.SamplingEnds | credsync-sim/src/rng.rs:58-67 | From any state of the generator some draw reaches any threshold, since its period is full |
| Pressure.Pressure.AcceptCount | credsync-sim/src/pressure.rs:148-161 | All that is offered when not shedding; otherwise the largest number that goes into it `severity` times over, but at least one whenever any is offered; the rest are counted as deferred |
| Pressure.Pressure.BudgetBytes | credsync-sim/src/pressure.rs:125-134 | The normal budget when not shedding; otherwise the largest that goes into it `severity` times over, but never below the floor |
| Watermark.WatermarkSafety | credsync-server/src/db.rs:225-364 | Over all interleavings nothing at or below a watermark ever returned is in flight, then or later; a query bounded by it reads every row its range will ever hold, none of which changes; the recorded watermark only grows |
| Watermark.PageFrozen | credsync-server/src/db.rs:436-484 | A page bounded by a recorded watermark reads the same rows ever after |
| Watermark.UnlockedWriterIsUnsafe | credsync-server/src/db.rs:207-224 | One writer that inserts without the lock makes a returned watermark unsafe |
| Forward.Agreement | credsync-server/src/host.rs:177-233 | For any number of concurrent calls the record is written once and every decided or replayed result equals it; it says what the host answered for that payload: applied with the host's number, rejected in the host's own words, or superseded, and nothing else |
| Forward.LosersFindAWinner | credsync-server/src/dedupe.rs:226-291 | A call that lost the insert always finds the record that won |
| Forward.ClassifyMeans | credsync-server/src/host.rs:177-203 | A call asks the host if and only if nothing is recorded under its id, replays the record made for its body, and is refused as unverifiable when the record is for another |
| Forward.RereadMeans | credsync-server/src/dedupe.rs:226-291 | A call that lost the insert hands back the winner's record as its own if the bodies agree, and errs if not |
| Forward.RecordedIffInserted | credsync-server/src/host.rs:205-233 | Over any run an id has a record if and only if some call that had the host's answer has inserted for it |
| Forward.HostAskedIffNotInserted | credsync-server/src/host.rs:177-203 | In any run a call is put to the host if and only if no insert for its id came before it was classified |
| Forward.UnansweredAskIsRepeated | credsync-server/src/host.rs:200-203 | In any run a failed ask leaves the table as it was, and every later call on that id is put to the host again until an insert lands |
| Dedupe.ResultTable.Record | credsync-server/src/dedupe.rs:226-291 | Insert if absent: an existing record is never overwritten, and a loser with another body is refused |
| Replay.ReplayIsLast | credsync-sim/src/server.rs:386-404 | A row is decided by the last change to it alone |
| ServerSpec.HistoryMatchesReplay | credsync-sim/src/server.rs:366-386 | The history index describes a client's rows if and only if no row's latest change is a delete |
| ServerSpec.TombstoneMisleads | credsync-sim/src/server.rs:782-787 | An upsert and a delete of one row leave the index holding it and the client not |
| ServerSpec.PullIsHonest | credsync-sim/src/server.rs:272-355 | A guarded pull gives a contiguous committed stretch just past the cursor and says nothing is left if and only if it reaches the end of the scope's log; it is empty only when nothing more has committed, and when it says nothing is left it carries the digest of exactly the log it reaches to |
| ServerSpec.UnguardedSkips | credsync-sim/src/server.rs:127-137 | Without the guard a write held open is skipped for good: the answer's cursor passes it, and no answer from there on holds it, however the log grows, whatever commits, guarded or not |
| ServerSpec.GuardedCandidates | credsync-sim/src/server.rs:301-316 | With the guard the candidates are the next committed stretch under the row limit |
| ServerIndex.HistoryIsScan | credsync-sim/src/server.rs:386-404 | A row's own history answers what a scan of the scope's log would |
| ServerIndex.IndicesPickScopeLog | credsync-sim/src/server.rs:287-300 | The scope index picks out exactly the scope's log, in order |
| ServerIndex.RowsPush | credsync-sim/src/server.rs:637-657 | The live rows stay the replay of the whole log |
| ServerIndex.CommitKeepsAgreement | credsync-sim/src/server.rs:170-187 | Commits in any order change no index |
| ServerIndex.PartitionPoint | credsync-sim/src/server.rs:289-294 | Binary search finds the count of leading items below the cursor |
| ServerIndex.EverythingCommits | credsync-sim/src/world.rs:243-252 | With no new holds every held write has committed after as many steps as the longest hold |
| Compaction.Compact | credsync-sim/src/server.rs:426-462 | Latest per row, filtered and sorted, is the compacted log |
| Server.Server.Pull | credsync-sim/src/server.rs:272-355 | The answer by index and binary search is the answer by the plain log |
| Server.Server.Bootstrap | credsync-sim/src/server.rs:406-490 | The page by map and sort is the page by the plain log |
| Server.Server.VisibleHead | credsync-sim/src/server.rs:212-230 | The end of the longest committed prefix of the scope |
| Server.Server.RowVersionAt | credsync-sim/src/server.rs:388-404 | The version of the last change to the row at or below the cursor, by linear scan |
| Server.Server.RowsAt | credsync-sim/src/server.rs:366-386 | Every row the log up to the cursor touches, once each, at its last version |
| Server.Server.ScopeDigest | credsync-sim/src/server.rs:204-210 | The digest over the history as far as the visible head |
| Server.Server.AdvanceCommits | credsync-sim/src/server.rs:170-187 | Exactly the writes whose delay has run out become visible; the indexes still agree |
| Server.Server.Append | credsync-sim/src/server.rs:637-653 | One upsert under the next number, held open if the next write was to be; every index still agrees |
| Server.Server.ExternalDelete | credsync-sim/src/server.rs:746-788 | A tombstone joins log, index and history and the row leaves the live rows |
| Server.Server.ApplyCommand | credsync-sim/src/server.rs:528-634 | A replay changes nothing; otherwise exactly one record and at most one entry, as the dedupe rule and the draw decide |
| ServerSpec.DecidedMeans | credsync-sim/src/server.rs:528-634 | An id recorded for this body is answered with its record and changes nothing; one recorded for another body is rejected as unverifiable; a new command is rejected for an unregistered name, and otherwise applied under the next number, superseded, or rejected as late, as the draw decides |
| Server.Server.PushPrefix | credsync-sim/src/server.rs:509-526 | The commands accepted are answered in order; the rest are not answered and change nothing |
| PullChannel.DeliveryKeepsDevice | credsync-sim/src/world.rs:562-612 | Delivering any queued answer, once or again, under any storage behaviour keeps the device's rows the replay of the log up to its cursor, and never takes the cursor back |
| PullChannel.AnswerKeepsDevice | credsync-sim/src/world.rs:434-465 | An answer pulled from any cursor the device ever sent may join the queue at any time |
| PullChannel.GrowthKeepsDevice | credsync-sim/src/server.rs:656-701 | Appends and commits on the server disturb no device and no answer in flight |
| PullChannel.CorruptRefused | credsync-sim/src/world.rs:763-784 | A batch with its last change repeated is refused before anything is staged |
| PullChannel.DivergenceMeans | credsync-core/src/engine.rs:365-404 | A committed honest delivery reports divergence if and only if its answer reached the end of the log it was cut from and the sum over the replay differs from the sum over the history of exactly that log |
| PullChannel.AnswerCarries | credsync-server/src/pull.rs:136-203 | Every answer, wherever it stops, carries the digest of the history of all that has committed and a checksum over just the changes it holds |
| PullChannel.NoFalseDivergence | credsync-core/src/engine.rs:223-238 | While no row's latest change up to the cursor an answer brings is a delete, its delivery, however late or repeated, reports no divergence |
| PullChannel.SwappedAnswersGoBack | credsync-sim/src/world.rs:562-612 | Two honest answers delivered in the order they were given leave the cursor at the last entry; swapped, they leave it at the start with the rows still held |
| PullChannel.NoRowsGoesBack | credsync-sim/src/server.rs:272-355 | Under a row limit of zero an answer takes every device standing past the cursor it was asked from back to it |
| PushChannel.DecidedSound | credsync-sim/src/server.rs:528-634 | Under one payload an id, a command is replayed or decided afresh, never taken for a mutation, and log and table keep telling one story |
| PushChannel.PushedSound | credsync-sim/src/server.rs:509-526 | A prefix answered keeps every earlier record and entry and names the commands answered, in order |
| PushChannel.AnswerKeepsQueue | credsync-core/src/engine.rs:1030-1138 | Any answer, late or repeated, leaves every verdict the device records the server's, in status, number and reason |
| World.InvStep | credsync-sim/src/world.rs:259-316 | Every step of the system keeps the whole invariant |
| World.DeviceIsRun | credsync-sim/src/world.rs:259-316 | In every reachable state each device is where some run of the engine from a new device leaves it, so what holds over every run of the engine holds of every device in the world |
| World.NoneForServerOwned | credsync-sim/src/world.rs:259-316 | For one, no device in the world ever queues a command for a server-owned entity |
| World.DevicesHoldReplay | credsync-sim/src/world.rs:259-316 | In every reachable state each device's rows are the replay of its scope's log up to its cursor, its digest is the sum over them, everything at or below the cursor has committed, and the cursor is never lower later |
| World.RunDivergenceMeans | credsync-core/src/engine.rs:365-404 | In any run an applied answer is reported as divergence if and only if it reaches the end of the scope's log as it stood when the answer was cut, and the sum over the rows it leaves differs from the sum over the server's history of the same log |
| World.NoRunDiverges | credsync-core/src/engine.rs:365-404 | So no answer in any run is, while no row's latest change up to the cursor it brings is a delete |
| World.UpsertsOnly | credsync-sim/src/server.rs:746-788 | No prefix of a log leaves a row deleted if and only if the log holds no delete |
| World.ExactlyOnce | credsync-sim/src/server.rs:528-653 | Whatever is lost, repeated or reordered, every verdict a device records is the server's for good, in status, number and reason; the command has one entry at most, and a recorded server_seq is that of the entry it wrote |
| World.NeverAppendedTwice | credsync-sim/src/server.rs:528-653 | No command id ever has two log entries |
| World.NoDeviceLosesACommand | credsync-sim/src/invariant.rs:270-315 | In every reachable state what a device committed is queued or resolved, never both, and every resolved owner-draft command the server superseded has its payload among the device's recovered drafts |
| Checkers.ChecksPass | credsync-sim/src/invariant.rs:443-592 | In every reachable state the applied-state, cursor-bounds, no-loss and idempotency checks pass, and the durable-effects check passes if and only if no row's latest change below the cursor is a delete |
| Checkers.ChecksPassLater | credsync-sim/src/invariant.rs:148-315 | Between any two states of a run no cursor goes back or goes, no seen outcome changes or goes, and everything queued or resolved is still one of the two |
| Checkers.CheckRun | credsync-sim/src/world.rs:305-316 | The simulator's checks after every step of any run report something, over the whole run, if and only if at some step a device's cursor had a row below it whose latest change was a delete |
| Checkers.UpsertsNeverGo | credsync-sim/src/server.rs:746-788 | A scope log of upserts only is never such a step, so there the checks are silent |
| Checkers.Invariants.CheckConvergence | credsync-sim/src/invariant.rs:317-390 | Silent exactly when every device has a digest or the server nothing, has reached the head of the whole log, and has the server's digest |
| Checkers.ConvergenceMeans | credsync-sim/src/invariant.rs:317-390 | In every reachable state the convergence check passes a device if and only if it has caught up with what may be seen of its scope, digest included, and the last number given out in any scope was given out in that one and has committed |
| Checkers.CaughtUpMeans | credsync-sim/src/server.rs:204-210 | A device at the visible head of its scope has the server's digest if and only if the live rows and the history of what may be seen sum alike |
| Checkers.OtherScopeReported | credsync-sim/src/invariant.rs:317-390 | One write to any other scope has the check report every device of this one, caught up or not |
| Checkers.Durable | credsync-sim/src/invariant.rs:195-270 | The checker is silent exactly when no id is recorded twice and every outcome seen before stands |
| Checkers.OutcomesStand | credsync-sim/src/invariant.rs:87-109 | What the checker remembers of a device's outcomes stands if and only if every record still has one of the same kind: applied, superseded or dead-lettered |
| Checkers.Invariants.CheckNoLoss | credsync-sim/src/invariant.rs:280-315 | Silent exactly when nothing is both queued and resolved and everything ever queued is one of them |
| Checkers.Invariants.CheckCursorMonotonic | credsync-sim/src/invariant.rs:153-184 | Silent exactly when the cursor neither moved back nor vanished |
| Checkers.Invariants.CheckAppliedState | credsync-sim/src/invariant.rs:456-502 | Silent exactly when every stored row has the version expected of it |
| Checkers.Invariants.CheckDurableEffects | credsync-sim/src/invariant.rs:513-558 | Silent exactly when every row the history implies is stored at that version |
| Network.Network.Step | credsync-sim/src/world.rs:467-579 | Whatever is dropped, sent twice or held back, answers are delivered in the order of the steps they were asked in |
| Network.Network.DeliverDue | credsync-sim/src/world.rs:562-579 | Due answers go out in queue order and the rest keep theirs |
| Convergence.WalkDelivers | credsync-server/src/pull.rs:136-203 | Under any positive row limits, budgets and compressor a walk has been given exactly the stretch of the log it moved over, with no gap and no repeat |
| Convergence.WalkCompletes | credsync-sim/src/server.rs:272-355 | As many rounds as entries left deliver everything that has committed |
| Convergence.RoundProgress | credsync-sim/src/world.rs:229-256 | A fault-free round never takes a device back, never changes whether the rest of the log is clean (gives no append-only row another version than the log has given it by then), and while it is and anything is left moves strictly on |
| Convergence.QuietSystemReachesEnd | credsync-sim/src/invariant.rs:317-390 | Once everything has committed, as many fault-free rounds as entries left bring a sound device to the end of the log if and only if the rest of the log was clean |
| Convergence.QuietSystemConverges | credsync-sim/src/invariant.rs:317-390 | When it was, the device ends with the server's rows, and with its digest whenever no row's latest change is a delete |
| Convergence.QuietSystemCompares | credsync-sim/src/invariant.rs:317-390 | The last answer of such rounds says nothing is left and is compared: accepted, and reported as divergence if and only if the live rows and the history of the whole log do not sum alike |
| Drain.RoundResolves | credsync-sim/src/server.rs:509-526 | A fault-free push round resolves the first commands the server looked at, at least one if any can be sent, and disturbs no other |
| Drain.OutboxDrains | credsync-sim/src/pressure.rs:148-161 | However hard the server sheds, after as many rounds as there are sendable commands only the held ones are left, in order |
| Bootstrap.BootstrapBuildsLiveRows | credsync-sim/src/server.rs:406-490 | From an emptied scope of a device that may hold other scopes' rows, with writes, deletes and commits between pages and page transactions failing or lying, the landed page that says nothing is left leaves exactly the live rows of the log it was cut from, their digest, and every other row untouched |
| Bootstrap.RebuildHeals | credsync-core/src/engine.rs:662-702 | A landed rebuild and such a bootstrap bring any device there, whatever it held and whatever its digest was, when all rows it held of the scope are registered under it |
| Bootstrap.LastPageReports | credsync-core/src/engine.rs:259-272 | Its last page, acknowledged, reports divergence if and only if those live rows and the server's history do not sum alike, so never while no row's latest change is a delete |
| Bootstrap.PageLandsIff | credsync-core/src/apply.rs:251-332 | A page lands if and only if its transaction does not fail outright and it puts no other version over an append-only row the device holds |
| Bootstrap.PageServesLatest | credsync-sim/src/server.rs:406-490 | A page holds, in order, exactly the latest changes of the rows past the cursor asked from and up to its own, deletes left out from the start, and all there are when it says nothing is left |
| Bootstrap.BootstrapEnds | credsync-sim/src/server.rs:406-490 | From an emptied scope, over a log that stands still and with nothing failing, some page among one more than there are entries lands and says nothing is left, whatever the budgets |
| Bootstrap.NeverFinishes | credsync-sim/src/server.rs:406-490 | A device part way through a bootstrap that holds an append-only row which every log a page is cut from writes anew, by the row's latest change and past the device's cursor, never finishes, however those logs grow and whatever the budgets and storage do, and keeps the row as it was |
| Bootstrap.AppendOnlyStuck | credsync-sim/src/server.rs:406-490 | An append-only row written, deleted and written again at another version is taken by a pull, and stops a bootstrap whose first page went out between the two writes over that log and any it grows into, until the row is deleted again |
| Bootstrap.PageAdvances | credsync-core/src/engine.rs:259-272 | Applying a page settles every row whose latest change is at or below the new cursor |
| Bootstrap.GrowthKeepsPartWay | credsync-sim/src/server.rs:412-420 | The log growing between pages unsettles no row already settled |

## Left out

- JWT verification, the blocklist, the router and start-up: authorization plumbing and I/O.
- The SQL driver, the schema migration loop and lock timeouts in seconds: `Watermark` keeps the lock, sequence and commit meaning only, with writers inside an explicit transaction.
- Real hashes, compressors and JSON parsing: uninterpreted functions; documents are their canonical bytes.
- Clocks, skew, entropy, traces, seeds and fault probabilities: the steps allow every choice they could make.
- Failing reads: the simulated storage never fails a read, so reload errors and unreadable storage are not modelled.
- Integer widths: counters, cursors and sequence numbers are unbounded, apart from the 128-bit digest, the 32 and 64-bit generator, the saturating attempt count and the length bounds in `Wire`.
- Reason and detail texts: errors are values; reasons are the literal strings where the server fixes them.
- Digest text that is not 32 lowercase digits reads as the empty digest; the wire type does not admit such text.
- Several scopes in one pull request: one call answers one scope, and `World` devices subscribe to one scope of a log shared by many.
- Map iteration order: rows are visited in any order, and the digest is proved not to depend on it.
- World: a relation over steps rather than an object; its queues as an object are `Network.Network`, and a device's queue there is a sequence.
- World: no bootstrap or rebuild step, because the simulated world takes none; `Bootstrap` covers them with no pull answer in flight.
- PushChannel.DecidedSound: assumes one payload an id, which a fixed registry gives; a mutated replay overwrites the simulated server's record and is outside the verdict-stability claims.
- EngineRuns.RunDigestsExact: assumes no change is quarantined, because a quarantined row moves the digest and is not stored as a row; what holds then is `EngineDigest.DigestStaysExact`.
- Engine.Engine.RefreshIfSuspect: a read of the scope's state that fails, after which the source keeps the scope suspect and refuses the call, is not modelled, because no storage here fails a read.
- The policy check as a method: its claim about drafts is in `World.NoDeviceLosesACommand`.
- Version negotiation, last-write-wins, bounded string and number constructors: settled by one branch each.
