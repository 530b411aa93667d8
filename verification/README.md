# Datagrep: verified models

A Dafny model of the parts of datagrep that carry its guarantees, and proofs of those guarantees.
Each module below stands for one piece of the system. Code that updates objects in place is a class
or a method proved equal to a function of the old state; code shared between tasks is a state
machine whose steps are single accesses to shared memory; and the results are lemmas over every
input or every run.

`dafny verify dfyconfig.toml` checks the whole project (Dafny 4.11).

## What is modelled

- **Result store** (`Store`, `StoreLoop`, `StoreObject`, `StoreRuns`, `StoreSchemas`, `Windows`,
  `Spill`, `Budget`):
  batches become chunks of a list; old chunks move to a spill file, the first chunk may be
  re-encoded, and all stores share one byte budget. `StoreRuns` joins the writer task with the real
  converter and follows it from payloads to windows; `StoreSchemas` says which schema the chunks have.
- **Feeder** (`FeederRuns`, `Feeder`): pulls batches from a cursor into a two-slot channel
  and can be parked, resumed and stopped at any moment.
- **Connection pool** (`Pool`, `Connection`, `Session`, `SessionRuns`): permits, idle stack, dialling, leasing,
  reaping, shutdown, each connection's own command loop, and reap timers under every interleaving.
- **Safety gate** (`SafetyGate`, `SafetyReads`, `SafetyClearing`, `SafetyRuns`, `SafetyLevels`): challenges, single-use
  grants, expiry, eviction and level changes, what one ceremony clears, what counts as a read, and any
  number of callers interleaved at the gate's lock.
- **Column conversion** (`Columns`, `Converter`, `Calendar`, `CalendarText`): kind inference, typed
  columns and reading them back, dictionaries, dates and times and their text.
- **Elasticsearch driver** (`SearchCursor`, `Updates`, `UpdateMeaning`, `UpdateAcceptance`, `UpdateRoutes`,
  `ScriptText`, `Bulk`, `Reports`, `Filter`, `Listing`, `PercentCoding`): paging, updates by two routes and the script text
  they send, guarded bulk writes and their reports, filters, keyset listing, path segments.
- **Values** (`FieldPath`, `Documents`, `SchemaTrie`, `Values`, `Json`, `JsonText`, `JsonReading`,
  `Decimal`, `Utf8`, `TextOrder`, `Sequences`, `Wrappers`): paths, documents, schema inference, and what the
  others share.

Clocks, file-system outcomes, server answers, the parser of query languages, memory sizes and the
texts of foreign formats are parameters, so a result holds for every behaviour of theirs that its
preconditions allow.

## Where the obvious statement is false

- The two update routes agree exactly when no assigned value is an object: `RoutesAgreeExactly`
  gives the condition and `RoutesPart` the document that tells them apart.
- The partial document lets through an overlap that the script refuses exactly when the paths are
  related and no set is visible to a later one: `RoutesAcceptDifferently`, `PartialDocExactly`, and
  two assignments that do it in `OverlapSlipsThrough`.
- The order of the sets of an accepted update matters exactly when its paths are related:
  `OrderMattersExactly`.
- A compiled Or keeps its meaning exactly when it has a part, an In exactly when its list holds no
  null, a comparison exactly when its bound is not written as null: `OrExactly`, `InExactly`,
  `CompareExactly`.
- One ceremony clears every statement it listed exactly when the gate has room for all the grants, 64
  of them: `CeremonyClearsExactly`; `SatisfiedClearsExactly` says which bindings are lost and
  `OneTooMany` shows a challenge that loses one.
- A binding stands for one text with its parameters only among texts without NUL characters:
  `BindingTells`, `NulCollides`.
- A parked feeder can still start one pull exactly when it had passed its pause check and nothing
  that has already happened will hold it up: `ParkedPullExactly`, and a run in `ParkedFeederPulls`.
- The table chunks of a store share one schema exactly unless its first batch of rows was left behind
  other payloads while a dictionary was chosen: `OneSchemaExactly`, and a run in
  `DocsFirstSplitSchemas`.
- Idle connections and reap timers match up exactly as `SettledExactly` says. `NoTimerExactly` says when
  a listed connection has no timer, `ReapHitsExactly` when a reap closes a connection whose own timer
  has not run out, and `DrainLeavesExactly` which timers outlive a shutdown; `LateListingRun` and
  `StaleReapRun` are runs in which they do not match although nobody is half way through anything.
- A feeder that is done has not always read its cursor to the end: `SentIsPrefix` says that otherwise the
  store was gone, and `ClosedBeforeReading` is such a run.
- Delivered and remaining hits add up to the limit exactly unless a partial answer brings more than
  remains: `StepKeepsLimit`.
- Printing a parsed path gives the text back exactly when no index has a leading zero: `PrintOfParse`.
- Columns of a Null or Uuid kind lose later cells without counting them: `LaterBatchLosesUncounted`.
- A plan of a script without statements asks for nothing while admitting it asks for a write:
  `PlanCoversScript` gives the exact condition.

## Model

| member | source | states |
|---|---|---|
| `StoreRuns.StoreHoldsTheStream` | crates/datagrep-core/src/store.rs:585-681 | After any payloads, with any budget room, write failures, re-encodings and spills in between: the chunks are a gap-free cache of exactly the accepted payloads' rows, each payload's at its own place; column c of a table row shows the row's own cell c as the column's kind keeps it, and null past the row's end, a document or pair shows itself; the spill file is sound, and accepted is every payload with rows up to the first whose wait for room was cancelled |
| `StoreRuns.FirstRowsComeBack` | crates/datagrep-core/src/convert.rs:269-330 | The first accepted batch of rows fixes one kind per declared field, or per cell of its first row, and in the store every cell of that batch in a column whose kind is not Text reads back as it was |
| `StoreRuns.RunSettles` | crates/datagrep-core/src/store.rs:627-634 | After any payloads spilling goes by the converter's schema once two batches of rows were converted, and by none before |
| `StoreRuns.SynthesizedNames` | crates/datagrep-core/src/store.rs:702-715 | Without declared columns there is one text column per cell of the first row, named col and its number |
| `StoreRuns.ReadWindow` | crates/datagrep-core/src/store.rs:465-534 | After any run of the writer, a window whose spilled chunks can be read is exactly that stretch of the accepted rows, which show the payloads row by row and cell by cell; slices are right and in order even when some reads fail, and the window is ready exactly when all it asked for came or the result is complete |
| `StoreRuns.LeaseIsResidentBytes` | crates/datagrep-core/src/store.rs:627-668 | Between batches what the lease holds, the resident byte count and the sum of the chunks' bytes are one number |
| `StoreRuns.BatchRows` | crates/datagrep-core/src/convert.rs:304-330 | A record built from rows has as many rows and reads as they do under its kinds, whichever columns use a dictionary; `Converter.BatchCells` says which cell a column shows |
| `StoreRuns.ReencodedRows` | crates/datagrep-core/src/store.rs:642-650 | The one record replaced after settling shows the same rows as the record it replaces |
| `StoreRuns.SameRowsFor` | crates/datagrep-core/src/store.rs:642-650 | Replacing by position is right: if the first chunk is still a table when re-encoded records arrive, it holds the first converted batch |
| `StoreLoop.TurnKeeps` | crates/datagrep-core/src/store.rs:595-670 | One turn of the writer adds exactly the batch's rows at the end or, when cancelled, none, and leaves the books balanced |
| `StoreLoop.AdmittingKeeps` | crates/datagrep-core/src/store.rs:777-818 | Waiting for room, however often it spills or parks, changes no row, and ends with exactly the batch's bytes reserved or nothing |
| `StoreLoop.HotWindowKeeps` | crates/datagrep-core/src/store.rs:821-840 | Shrinking the hot window changes no row and keeps the byte counts equal |
| `StoreLoop.HotWindowEnds` | crates/datagrep-core/src/store.rs:821-840 | The loop ends with resident bytes and rows within their limits, or with a spill attempt that failed; then the feeder is told to wait unless nothing is settled yet or the result is complete. A window within its limits is left alone |
| `Store.SpillFailsExactly` | crates/datagrep-core/src/store.rs:843-890 | A spill attempt fails exactly when spilling is off or unsettled, no chunk is a table of the settled schema, there is no file and none can be created, or the write fails or would pass the limit |
| `Store.SpillTakesOldest` | crates/datagrep-core/src/store.rs:843-908 | A spill that succeeds moves out the first chunk that is a table of the settled schema, and no other |
| `StoreLoop.AdmittingMovesOut` | crates/datagrep-core/src/store.rs:777-818 | A record still resident after waiting is the one that was there before |
| `Store.PublishShows` | crates/datagrep-core/src/store.rs:642-661 | Publishing appends the batch's rows and replaces records without changing the rows they hold |
| `Store.PublishBooks` | crates/datagrep-core/src/store.rs:642-661 | Bytes paid for at admission are on the books after publishing, and re-encoding leaves the accounted bytes alone |
| `Store.SpillShows` | crates/datagrep-core/src/store.rs:843-908 | Whatever the file system does, a spill attempt changes no row of the store |
| `Store.SpillBooks` | crates/datagrep-core/src/store.rs:891-908 | A spill gives back to the lease exactly the bytes that left memory; a failed one gives back nothing |
| `StoreObject.ResultStore.Publish` | crates/datagrep-core/src/store.rs:642-668 | The in-place update is the publishing function |
| `StoreObject.ResultStore.SpillOne` | crates/datagrep-core/src/store.rs:843-908 | The in-place update is the spilling function, including which chunk is chosen and every way to fail |
| `StoreObject.ResultStore.EnforceHotWindow` | crates/datagrep-core/src/store.rs:821-840 | The loop is the hot-window function, and it terminates |
| `StoreObject.ResultStore.Admit` | crates/datagrep-core/src/store.rs:777-818 | The loop is the admission function |
| `Windows.ExactlyOneChunk` | crates/datagrep-core/src/store.rs:291-303 | A row is in a chunk exactly when it is below the row count, and then in one only |
| `Windows.ChunkOf` | crates/datagrep-core/src/store.rs:291-303 | The binary search finds a chunk exactly for the rows the store has, and it is the one that covers the row |
| `Windows.ResidentRowsExactly` | crates/datagrep-core/src/store.rs:305-311 | The count of resident rows is the number of rows that lie in a chunk in memory |
| `Windows.GetRows` | crates/datagrep-core/src/store.rs:465-534 | Slices come in order and each holds exactly its own rows of the flat sequence; a chunk in memory, and a spilled one whose file can be opened, brings exactly its rows of the window, and when every read works together they are the whole window. Ready exactly when all that was asked for came or the result is complete; capped, cancelled or failed exactly when the window is short in that phase; partial or pending exactly when it is short while loading or parked, with a slice or with none, and then the feeder is resumed |
| `Spill.AppendKeeps` | crates/datagrep-core/src/spill.rs:115-147 | An append succeeds exactly when the write does and the byte limit holds, and is refused exactly when it would pass the limit; a failed write leaves table and count as they were; otherwise the new chunk holds exactly the written bytes |
| `Spill.AppendedReadsBack` | crates/datagrep-core/src/spill.rs:192-210 | A record appended once reads back as itself after any later appends, failed ones included |
| `Spill.ReadsStay` | crates/datagrep-core/src/spill.rs:192-210 | Growing the file changes the outcome of no earlier read |
| `Spill.SpillWriter.Append` | crates/datagrep-core/src/spill.rs:115-147 | The in-place append is the append function and keeps the file sound |
| `Spill.SpillWriter.Read` | crates/datagrep-core/src/spill.rs:192-210 | Reading seeks the located bytes; an unknown index is an error |
| `Budget.BudgetConserved` | crates/datagrep-core/src/store.rs:82-169 | Over every interleaving of any number of stores: used equals held plus in flight, never passes the limit, and the min clamp never bites |
| `Budget.BudgetComesBack` | crates/datagrep-core/src/store.rs:162-169 | Once every lease has been dropped nothing is used |
| `Budget.NoWakeupIsLost` | crates/datagrep-core/src/store.rs:99-106 | A store asleep although its chunk would fit has been notified, or another store is between its subtract and its notify |
| `Budget.MeasureIsWhole` | crates/datagrep-core/src/store.rs:99-105 | What a release subtracts is what was asked for |
| `Budget.ReservesAlone` | crates/datagrep-core/src/store.rs:82-97 | With room and nobody in between, a store that asks gets its bytes and the counter shows them |
| `Budget.WaitsForRoom` | crates/datagrep-core/src/store.rs:777-818 | Without room a store that asks goes to sleep and cannot wake up until it is told |
| `Budget.GivesUp` | crates/datagrep-core/src/store.rs:777-818 | A store that stops waiting holds what it held |
| `Budget.LooksAgain` | crates/datagrep-core/src/store.rs:777-818 | Once it was told it registers and looks again |
| `Budget.GivesBackAlone` | crates/datagrep-core/src/store.rs:99-106 | A release lowers lease and counter by the smaller of what was asked and held, and tells every store that listens |
| `Budget.DropsAlone` | crates/datagrep-core/src/store.rs:162-169 | A dropped lease returns all it holds and is gone |
| `Budget.GlobalBudget.TryReserve` | crates/datagrep-core/src/store.rs:82-97 | The loop is the swap function, whatever the other tasks leave in the counter between a look and a swap and whichever swaps fail for no reason |
| `Budget.SwappedOnce` | crates/datagrep-core/src/store.rs:82-97 | However the others interfere there is a value the counter had that decides: the bytes are added to it once when they fit on it, and otherwise nothing is added |
| `Budget.SwappedAlone` | crates/datagrep-core/src/store.rs:82-97 | With nobody in between a reservation succeeds exactly when the bytes fit, whatever swaps fail for no reason |
| `Budget.BudgetLease.TryReserve` | crates/datagrep-core/src/store.rs:144-151 | What the swap adds to the shared count, whatever the other tasks do meanwhile, is added to the lease, or nothing is to either |
| `Budget.BudgetLease.Release` | crates/datagrep-core/src/store.rs:153-159 | Lease and shared count fall together by the smaller of what was asked and what is held |
| `Budget.BudgetLease.Drop` | crates/datagrep-core/src/store.rs:162-169 | Dropping the lease returns everything it holds |
| `FeederRuns.SentIsPrefix` | crates/datagrep-core/src/feeder.rs:289-381 | For every cursor, cap and schedule of park, resume and stop: what was sent is a prefix of the cursor's rows, the row counter is what was sent or is on its way, the cap is never passed, and capped means exactly the cap; done means that all that was pulled was sent up to the cap and that the cursor had ended or the store was gone, and each other ending has its own cause |
| `FeederRuns.ClosedBeforeReading` | crates/datagrep-core/src/feeder.rs:322-328 | A run that ends done without having asked for a row, because the store went away |
| `FeederRuns.PullsAreBounded` | crates/datagrep-core/src/feeder.rs:316-327 | The cursor is asked at most two times more than the store has received, and what waits in the channel is what was sent after that, in order |
| `FeederRuns.ComesToPull` | crates/datagrep-core/src/feeder.rs:289-335 | With nothing to wait for the feeder comes from the top of its loop to exactly one pull |
| `FeederRuns.PullCourse` | crates/datagrep-core/src/feeder.rs:341-381 | A pull that brings rows sends them, cut at the cap, and starts over or ends capped; any other answer ends the feeder as the cursor ended |
| `FeederRuns.ParkCourse` | crates/datagrep-core/src/feeder.rs:297-312 | A paused feeder goes to sleep before it asks for a slot, and a resume wakes it |
| `FeederRuns.StopCourse` | crates/datagrep-core/src/feeder.rs:289-335 | A cancelled feeder ends wherever it waits: at the top of the loop, asleep, for a slot, or for its answer |
| `FeederRuns.OthersCourse` | crates/datagrep-core/src/feeder.rs:155-176 | A stop cancels and wakes the feeder, a park pauses and wakes it, and the store takes batches in the order they were sent |
| `FeederRuns.NoResumeIsLost` | crates/datagrep-core/src/feeder.rs:297-312 | A feeder asleep in the pause loop is paused, has been notified, or a resumer is between its store and its notify |
| `FeederRuns.ParkedPullExactly` | crates/datagrep-core/src/feeder.rs:297-346 | From any reachable parked state: before a resume at most one more pull starts, and some schedule starts one exactly when the feeder had passed the pause flag and no cancel, wake-up or closed channel that has already happened is still ahead of it |
| `FeederRuns.ParkedFeederPulls` | crates/datagrep-core/src/feeder.rs:155-160 | A run in which a feeder parked after it read the pause flag still makes its first pull |
| `FeederRuns.ParkingStopsPulls` | crates/datagrep-core/src/feeder.rs:155-164 | Over the whole time it has been parked a feeder has started at most one pull |
| `Feeder.PullLoop` | crates/datagrep-core/src/feeder.rs:275-381 | The loop delivers the stream up to the cap and no further, ends as the cursor did unless the cap came first, every fetch hint stays in range, the first is the policy's, and each later one follows from the one before, its time, and the bytes and rows it brought |
| `Feeder.NextRowsExactly` | crates/datagrep-core/src/feeder.rs:89-95 | Outside the window the next hint is the largest that at the measured speed would not take longer than the target, brought into the policy's range; inside it the hint stays |
| `Feeder.CapByBytesExactly` | crates/datagrep-core/src/feeder.rs:97-103 | The byte cap gives the smaller of the hint and of the most rows of that width that fit a batch, brought into the policy's range |
| `Feeder.FirstHintExactly` | crates/datagrep-core/src/feeder.rs:275-280 | The first hint is the policy's start, at most its largest fetch, and one row if the start is none and the smallest fetch is not |
| `Feeder.NextRowsFollowsTheClock` | crates/datagrep-core/src/feeder.rs:89-95 | Inside the window the hint stays; outside it a fetch no faster than the target never raises it and one no slower never lowers it, up to the fixed bounds |
| `Feeder.CapByBytesFits` | crates/datagrep-core/src/feeder.rs:97-103 | A hint lowered by the byte cap fits the batch size at that width unless it is the smallest fetch |
| `Feeder.TruncatePayload` | crates/datagrep-core/src/feeder.rs:384-404 | Keeps the smaller of the counts, leaves short payloads and graph edges alone |
| `Feeder.TruncateTwice` | crates/datagrep-core/src/feeder.rs:384-393 | Cutting twice is cutting once at the smaller place |
| `Pool.PoolIsBounded` | crates/datagrep-core/src/session.rs:443-472 | Over every run: idle, leased and dialling never exceed max(1, max_size), permits are conserved, ids are unique and each connection is in one place |
| `Pool.PoolRunsNothingAfterFatal` | crates/datagrep-core/src/session.rs:216-265 | Whatever the pool does with a connection, no command runs on it after a fatal result |
| `Pool.ReapSparesHeld` | crates/datagrep-core/src/session.rs:521-532 | The reaper closes only what is idle at that moment; held connections are untouched |
| `Pool.ShutdownStopsAll` | crates/datagrep-core/src/session.rs:480-489 | After a shutdown no permit is handed out and every connection's task has been told to stop |
| `Pool.LeaseFromStack` | crates/datagrep-core/src/session.rs:443-464 | With a usable connection on top of the stack a caller is given that one, and nothing else changes |
| `Pool.GivenBack` | crates/datagrep-core/src/session.rs:500-519 | A usable connection given back is on top of the stack and its permit is free |
| `Pool.FirstLease` | crates/datagrep-core/src/session.rs:534-590 | A new pool, whatever its size, hands out a connection that is open for commands |
| `Pool.PoisonedPassedOver` | crates/datagrep-core/src/session.rs:455-464 | A poisoned connection on top is closed and passed over, and the caller keeps its permit |
| `Pool.LeaseByDialling` | crates/datagrep-core/src/session.rs:534-590 | With nothing on the stack a caller leases a fresh connection under a new id, cancelled only if the session is |
| `Pool.DialThatFails` | crates/datagrep-core/src/session.rs:534-590 | A dial that fails gives the permit back and leaves only its number used |
| `Pool.LeaseThatCloses` | crates/datagrep-core/src/session.rs:500-505 | A lease that ends poisoned, or after the session was cancelled, closes its connection and frees the permit |
| `Pool.ShutdownCourse` | crates/datagrep-core/src/session.rs:480-489 | A shutdown stops every connection, closes the semaphore and empties the stack, whatever is out |
| `Connection.NothingAfterFatal` | crates/datagrep-core/src/session.rs:216-270 | Commands run in the order accepted, each at most once, at most one waiting; a fatal one is the last, and the poison flag is up exactly when a command ended fatally and its reply has gone out |
| `Connection.OneCommand` | crates/datagrep-core/src/session.rs:216-265 | A command sent to an idle connection runs and is answered; afterwards it is idle again, or poisoned and closing if the command ended fatally |
| `Connection.CancelledStartsNothing` | crates/datagrep-core/src/session.rs:219-227 | Once cancelled a connection starts no further command, whatever is sent to it |
| `Connection.ClosingStartsNothing` | crates/datagrep-core/src/session.rs:258-270 | Once closing it runs nothing more and can always be closed, and then accepts nothing |
| `Connection.RunConnection` | crates/datagrep-core/src/session.rs:216-265 | The loop runs commands up to the first fatal result, cancellation or last handle, and reports poison exactly for a fatal end |
| `Session.Session.AcquireIdle` | crates/datagrep-core/src/session.rs:455-464 | Poisoned connections on top are closed in order until a usable one, or nothing, is left |
| `Session.UsableSplits` | crates/datagrep-core/src/session.rs:455-464 | What was on the stack is what is left, what was handed out and what was closed; only poisoned ones are closed |
| `Session.Session.TakeIdle` | crates/datagrep-core/src/session.rs:491-498 | Takes the connection on top and disarms its timer, leaving every other timer as it was |
| `Session.Session.Arm` | crates/datagrep-core/src/session.rs:506-514 | First half of a release: a timer with a key of its own, before the connection is on the list |
| `Session.Session.Push` | crates/datagrep-core/src/session.rs:515-518 | Second half: the connection on top; if everything else matched, entries and timers match exactly when its timer is still live |
| `Session.PushArmsExactly` | crates/datagrep-core/src/session.rs:506-518 | Listing a connection completes the match of entries and timers exactly if its timer has not run |
| `Session.Session.Release` | crates/datagrep-core/src/session.rs:500-519 | With nothing in between: a usable connection goes on top with its own timer; a poisoned or cancelled one is closed |
| `Session.Session.ReleaseTooLate` | crates/datagrep-core/src/session.rs:506-518 | A timer that runs between the two halves closes nothing and leaves the connection listed with no timer |
| `SessionRuns.NoTimerExactly` | crates/datagrep-core/src/session.rs:491-532 | Over every run of any callers: a listed connection has no live timer exactly while its own reap is pending, or once that reap ran between its arming and its listing |
| `SessionRuns.ReapHitsExactly` | crates/datagrep-core/src/session.rs:521-532 | A pending reap closes another entry than its timer's exactly if the connection was taken since the timer ran out and is listed again; that entry's own timer has not run out and stays behind |
| `SessionRuns.OrphansExactly` | crates/datagrep-core/src/session.rs:506-532 | A live timer has no current entry exactly if another timer's reap closed it, and then its connection is closed |
| `SessionRuns.SettledExactly` | crates/datagrep-core/src/session.rs:480-532 | Entries and live timers match up exactly when nothing listed is being reaped or has lost its timer, no timer was left by a reap, and no release is half way through |
| `SessionRuns.DrainLeavesExactly` | crates/datagrep-core/src/session.rs:480-489 | After a shutdown has closed the list the live timers are exactly those of releases half way through and those left by a reap |
| `SessionRuns.LateListingRun` | crates/datagrep-core/src/session.rs:506-518 | A run that ends with everybody done and a listed connection without a timer |
| `SessionRuns.StaleReapRun` | crates/datagrep-core/src/session.rs:491-532 | A run in which a late reap closes a connection just given back, and its new timer outlives it and the shutdown |
| `SessionRuns.GivesBack` | crates/datagrep-core/src/session.rs:500-519 | With nothing in between a lease given back is on top of the list with a live timer of its own, and a closed one is gone for good |
| `SessionRuns.TakesTop` | crates/datagrep-core/src/session.rs:491-498 | The connection on top is taken and its timer disarmed; a dialled one gets a new id |
| `Session.Session.Reap` | crates/datagrep-core/src/session.rs:521-532 | Closes the connection if it is idle at that moment, leaving the others in order, and otherwise changes nothing |
| `Session.Session.Fire` | crates/datagrep-core/src/session.rs:506-532 | A timer that runs at once closes the connection it is for if that is idle; where entries and timers matched it is, and they match afterwards |
| `Session.Session.Drain` | crates/datagrep-core/src/session.rs:480-489 | Everything idle is closed, in order, and exactly the timers of those entries are cancelled |
| `SafetyRuns.AdmissionsAreEarned` | crates/datagrep-core/src/safety.rs:183-247 | Over every run of any callers: each gated request let through was earned by its own binding of an earlier satisfied challenge, with sufficient evidence for the requirement of the level that call read, a grant younger than two minutes, a challenge cleared within five, and no level change since it was minted |
| `SafetyRuns.WritesAreEarned` | crates/datagrep-core/src/safety.rs:221-247 | Over every run: what passed without a challenge passed at the silent rung, or at a write rung and executes nothing that writes; whatever else was let through spent proof at an authentication rung, and at least an acknowledgement at a warning one |
| `SafetyRuns.PassesExactly` | crates/datagrep-core/src/safety.rs:221-226 | A request is let through at once exactly at the silent rung, or at a write rung when it executes nothing that writes; otherwise it looks for a grant |
| `SafetyRuns.RefusalAsks` | crates/datagrep-core/src/safety.rs:228-247 | A request that finds no grant is refused with a challenge for it alone that asks for a warning or an authentication, as its rung says |
| `SafetyRuns.PlanCourse` | crates/datagrep-core/src/safety.rs:125-164 | A plan asks for the strictest thing any of its statements needs, and mints a challenge bound to each of them, and to the whole script when there are several, exactly when that is something |
| `SafetyRuns.MintCourse` | crates/datagrep-core/src/safety.rs:274-290 | Minting draws the next id and posts the challenge with it |
| `SafetyReads.ReadExactly` | crates/datagrep-core/src/safety.rs:297-334 | The gate takes a request for a read exactly when what it executes, an analyzed EXPLAIN peeled off, is no mutation and no DDL, and a script with a statement all of whose statements are reads that stay in their database |
| `SafetyReads.PlanAsks` | crates/datagrep-core/src/safety.rs:126-147 | A plan asks for authentication or a warning exactly when its rung does for everything and there is a statement, or for writes and some statement is not a read |
| `SafetyRuns.ChallengesClearOnce` | crates/datagrep-core/src/safety.rs:183-219 | A challenge is satisfied at most once; at most 16 are pending and at most 64 grants are held |
| `SafetyRuns.TakeKeeps` | crates/datagrep-core/src/safety.rs:228-239 | Using up a grant keeps the whole history accounted for |
| `SafetyRuns.SatisfyKeeps` | crates/datagrep-core/src/safety.rs:183-219 | Satisfying a challenge keeps the whole history accounted for |
| `SafetyRuns.PostKeeps` | crates/datagrep-core/src/safety.rs:274-290 | Posting a challenge keeps ids unique and the pending list bounded |
| `SafetyClearing.SatisfiedClearsExactly` | crates/datagrep-core/src/safety.rs:206-239 | Until the grants expire, a satisfied challenge lets one of its bindings through exactly when it is among its newest 64 |
| `SafetyClearing.LongScriptLosesFirst` | crates/datagrep-core/src/safety.rs:125-219 | The plan of a script of 64 or more statements, once satisfied, refuses its first statement unless that is repeated |
| `SafetyClearing.OneTooMany` | crates/datagrep-core/src/safety.rs:206-217 | A challenge with 65 bindings whose first one is refused right after it was satisfied |
| `SafetyClearing.NewestAreTaken` | crates/datagrep-core/src/safety.rs:206-239 | The newest 64 bindings are let through in any order, one request each, at no more than the challenge's strength and in time |
| `SafetyClearing.CeremonyClearsExactly` | crates/datagrep-core/src/safety.rs:183-247 | Asking for every binding of a satisfied challenge in turn, in any order, succeeds throughout exactly when there are at most 64 of them |
| `SafetyClearing.ClearedExactly` | crates/datagrep-core/src/safety.rs:183-205 | A challenge is cleared exactly when it is pending, not five minutes old, and the evidence is enough for it |
| `SafetyClearing.PostedExactly` | crates/datagrep-core/src/safety.rs:274-290 | Posting a challenge keeps it and the newest fifteen of the pending ones that are not five minutes old |
| `SafetyClearing.BindingTells` | crates/datagrep-core/src/safety.rs:351-358 | For texts without NUL two requests share a binding exactly when they read the same once trimmed and printed: one confirmation clears one statement and no other |
| `SafetyClearing.NulCollides` | crates/datagrep-core/src/safety.rs:351-358 | A text that holds a NUL shares the binding of a shorter text with parameters |
| `SafetyGate.PlanCoversEach` | crates/datagrep-core/src/safety.rs:126-147 | A plan asks for at least what each statement needs |
| `SafetyGate.PlanCoversScript` | crates/datagrep-core/src/safety.rs:126-163 | It is also enough for the script as a whole exactly when the script has a statement or the level asks nothing of writes |
| `SafetyGate.TextIsRead` | crates/datagrep-core/src/safety.rs:297-315 | The loop says read exactly when there is a statement and every one of them is a read that stays in its database |
| `SafetyGate.SafetyGate.SetLevel` | crates/datagrep-core/src/safety.rs:114-122 | Changing the level clears challenges and grants; setting the same one changes nothing |
| `SafetyGate.SafetyGate.Prune` | crates/datagrep-core/src/safety.rs:54-62 | Keeps exactly the entries younger than their lifetime, in order |
| `SafetyGate.SafetyGate.Mint` | crates/datagrep-core/src/safety.rs:274-290 | Draws the next id and posts the challenge, dropping the oldest past sixteen |
| `SafetyGate.SafetyGate.Satisfy` | crates/datagrep-core/src/safety.rs:183-219 | Removes the first challenge with the id and gives one grant per binding, or leaves both lists as pruned |
| `SafetyGate.SafetyGate.Take` | crates/datagrep-core/src/safety.rs:228-239 | Uses up the first grant for the binding that is strong enough |
| `SafetyGate.SafetyGate.Plan` | crates/datagrep-core/src/safety.rs:125-164 | Mints a challenge exactly when some statement needs one, bound to each statement and to the whole script when there are several |
| `SafetyGate.SafetyGate.Admit` | crates/datagrep-core/src/safety.rs:221-247 | With nobody else at the lock: passes ungated or granted requests and mints a challenge for the rest |
| `SafetyLevels.AuthenticationExactly` | crates/datagrep-api/src/safety.rs:123-142 | An authentication rung is cleared exactly by the connection's name or by a device named with a non-blank character |
| `SafetyLevels.SatisfiesDownward` | crates/datagrep-api/src/safety.rs:133-142 | Evidence for a requirement is evidence for every weaker one and never weaker than it |
| `SafetyLevels.BlankExactly` | crates/datagrep-core/src/safety.rs:297-310 | Blank are the 25 characters of Unicode white space and no others |
| `SafetyLevels.TrimIs` | crates/datagrep-core/src/safety.rs:297-310 | Trimming cuts blanks off both ends and nothing else, and leaves none there |
| `Converter.ChunksShareOneSchema` | crates/datagrep-core/src/convert.rs:93-143 | After any batches every chunk shown, re-encoded ones included, is exactly what its own rows give under the kinds and dictionaries in force, so all share the converter's one schema |
| `StoreSchemas.OneSchemaExactly` | crates/datagrep-core/src/store.rs:642-661 | After any payloads the table chunks in memory share the converter's schema exactly unless a first batch of rows that was not the first chunk is still in memory and a dictionary was chosen |
| `StoreSchemas.RunPlaced` | crates/datagrep-core/src/store.rs:642-661 | Every record in memory is its own payload's rows under the kinds in force, with the dictionaries in force unless it was left behind |
| `StoreSchemas.DocsFirstSplitSchemas` | crates/datagrep-core/src/store.rs:642-661 | A document before seventeen equal strings leaves two table chunks with two schemas |
| `Converter.ReencodeIsBuild` | crates/datagrep-core/src/convert.rs:180-203 | Re-encoding a record built without dictionaries gives the record built with them; the empty fallback is never taken |
| `Converter.DictionariesKeepCells` | crates/datagrep-core/src/convert.rs:180-203 | A cell reads the same whichever columns use a dictionary |
| `Converter.BatchCells` | crates/datagrep-core/src/convert.rs:304-346 | Cell c of row k of a built batch reads as the row's own cell c as the column's kind keeps it, or as null past the row's end |
| `Converter.ConvertedCells` | crates/datagrep-core/src/convert.rs:93-143 | The batch a conversion hands out has every row, a column named after each declared field, and in it that cell of each row |
| `Converter.FirstBatchCells` | crates/datagrep-core/src/convert.rs:93-143 | The first batch fixes the kinds, and a column whose kind is not Text gives back every cell of it |
| `Converter.ConvertCountsExactly` | crates/datagrep-core/src/convert.rs:304-330 | A conversion counts coerced cells exactly when some column that counts could not hold its cell of some row |
| `Converter.DictionaryExactly` | crates/datagrep-core/src/convert.rs:145-177 | A column gets a dictionary exactly when it holds strings, at least 16 rows were sampled, under a tenth of them distinct, and the distinct ones never passed a tenth of the rows seen so far |
| `Converter.BatchIsWhole` | crates/datagrep-core/src/convert.rs:304-341 | Building never takes the empty-chunk way out, and its schema depends on kinds and dictionaries alone |
| `Converter.BatchConverter.Convert` | crates/datagrep-core/src/convert.rs:93-143 | The in-place update is the conversion step |
| `Converter.BatchConverter.Sample` | crates/datagrep-core/src/convert.rs:145-162 | The in-place update is the sampling step |
| `Converter.BatchConverter.Settle` | crates/datagrep-core/src/convert.rs:164-177 | The in-place update is the settling step |
| `Columns.MergeLaws` | crates/datagrep-core/src/convert.rs:221-230 | Merging kinds is associative, commutative and idempotent, with Null as identity and Text absorbing |
| `Columns.KindIgnoresOrder` | crates/datagrep-core/src/convert.rs:269-302 | A column's kind does not depend on the order of its rows |
| `Columns.DecideKind` | crates/datagrep-core/src/convert.rs:288-300 | The loop that stops early at Text gives the kind of the whole column |
| `Columns.FixingBatchIsLossless` | crates/datagrep-core/src/convert.rs:348-444 | For the batch that fixes the kinds nothing is counted as coerced and every cell of a non-Text column reads back |
| `Columns.FixedKindExactly` | crates/datagrep-core/src/convert.rs:221-302 | A first batch gives a column a typed kind exactly when the declared type stands for it, or for nothing and some cell is of it, and every cell is of it or null |
| `Columns.RemainsExactly` | crates/datagrep-core/src/convert.rs:348-475 | What a column of each kind keeps of each kind of cell: the cell itself, a timestamp in the column's zone, its text, or null |
| `Columns.ReadBack` | crates/datagrep-cli/src/value_text.rs:10-66 | For any batch and any kind, exactly what reading each cell gives |
| `Columns.CountsExactly` | crates/datagrep-core/src/convert.rs:348-444 | For the kinds that count, the count is zero exactly when every cell could be held; Null, Uuid and text columns never count |
| `Columns.LaterBatchLosesUncounted` | crates/datagrep-core/src/convert.rs:370-417 | In a later batch a cell that does not fit becomes null; it goes uncounted exactly in Null and Uuid columns |
| `Columns.CanonicalZone` | crates/datagrep-cli/src/value_text.rs:75-81 | Offset zones come back as named ones, a zone named UTC as UTC |
| `Columns.DictDecodes` | crates/datagrep-core/src/convert.rs:191-199 | Reading through a dictionary gives back every text and null, and no text is stored twice |
| `Columns.BuildColumn` | crates/datagrep-core/src/convert.rs:348-444 | Each kind's loop keeps what it can hold, nulls the rest, and counts as stated |
| `Columns.BuildDictionary` | crates/datagrep-core/src/convert.rs:419-429 | The builder's loop gives the dictionary whose decoding is proved |
| `Calendar.DateOfInverts` | crates/datagrep-core/src/convert.rs:597-609 | Every day number prints as a valid proleptic Gregorian date whose own day number it is |
| `Calendar.DateOfDayNumber` | crates/datagrep-core/src/convert.rs:597-609 | Every valid date is the date of its day number |
| `Calendar.DateOfSuccessor` | crates/datagrep-core/src/convert.rs:597-609 | Consecutive day numbers print as consecutive calendar dates |
| `Calendar.DayNumberCounts` | crates/datagrep-core/src/convert.rs:597-609 | The independent day count starts at 1970-01-01 and grows by one per calendar day |
| `Calendar.DayNumberInjective` | crates/datagrep-core/src/convert.rs:597-609 | Different valid dates have different day numbers |
| `Calendar.YearOfEraLocates` | crates/datagrep-core/src/convert.rs:601-604 | The division trick finds the year of the era for every day of it |
| `Calendar.ClockOfInverts` | crates/datagrep-core/src/convert.rs:611-620 | Every nanosecond count prints as a valid time of day that counts back to it modulo a day |
| `Calendar.SplitMicrosRecomposes` | crates/datagrep-core/src/convert.rs:475-480 | For every 64-bit microsecond count the day fits 32 bits, and date plus time give the count back |
| `Calendar.SplitMicrosInjective` | crates/datagrep-core/src/convert.rs:475-480 | Different counts split into different dates and times of day |
| `CalendarText.TimestampTells` | crates/datagrep-core/src/convert.rs:475-493 | Two timestamps with the same text are the same instant in the same zone, negative and five-digit years and fractions included |
| `CalendarText.DayTells` | crates/datagrep-core/src/convert.rs:597-609 | Two days print the same exactly when they are the same day |
| `CalendarText.ClockTells` | crates/datagrep-core/src/convert.rs:611-620 | Two times print the same exactly when they are the same nanosecond of a day |
| `CalendarText.DateReads` | crates/datagrep-core/src/convert.rs:597-609 | A date reads as year, month and day, two digits each for month and day and at least four characters for the year, and the digits are their numbers |
| `CalendarText.TimeReads` | crates/datagrep-core/src/convert.rs:611-620 | A time reads as hour, minute and second in two digits each, with nine digits of fraction exactly when it is not whole |
| `CalendarText.OffsetReads` | crates/datagrep-core/src/convert.rs:256-267 | An offset reads as its sign, its hours and its minutes |
| `CalendarText.TimestampReads` | crates/datagrep-core/src/convert.rs:475-493 | A timestamp reads as the date and time of its instant, with a T between them and its zone after |
| `SearchCursor.DrainIsExact` | crates/datagrep-drv-elasticsearch/src/cursor.rs:567-690 | Draining a fresh cursor over a fixed ordered snapshot, under any hints and byte sizes, gives the first min(limit, total) hits, once each, in order |
| `SearchCursor.DrainTerminates` | crates/datagrep-drv-elasticsearch/src/cursor.rs:652-668 | After one call more than there are hits the scan is over |
| `SearchCursor.RunDelivers` | crates/datagrep-drv-elasticsearch/src/cursor.rs:567-690 | At every moment what came is the next stretch of the snapshot, and delivered plus remaining is the limit |
| `SearchCursor.ResumeContinues` | crates/datagrep-drv-elasticsearch/src/cursor.rs:124-190 | Stopping at any page and continuing from the token gives the same hits as not stopping, with the counters carried over |
| `SearchCursor.ResumeKeepsPosition` | crates/datagrep-drv-elasticsearch/src/cursor.rs:692-706 | A token restores exactly the position, what is owed, and the context unless a fresh one is given |
| `SearchCursor.ContextReleasedExactlyOnce` | crates/datagrep-drv-elasticsearch/src/cursor.rs:412-430 | Whatever the server answers and whenever the cursor is closed, by the time it is dropped it has given back exactly one context, the id it went by last; only an empty id is not given back |
| `SearchCursor.StepKeepsLimit` | crates/datagrep-drv-elasticsearch/src/cursor.rs:657-663 | Delivered plus remaining stays constant exactly unless a partial answer brings more than remains; then the scan ends with the excess delivered |
| `SearchCursor.FetchesTheLeast` | crates/datagrep-drv-elasticsearch/src/cursor.rs:575-668 | On a healthy server a call of an unfinished scan delivers exactly the least of the hint brought into 1 to 10000, the byte cap if one is set, what the limit still allows, and the hits left; the scan is over when the limit is used up or fewer hits were left than the others allow |
| `SearchCursor.CapFollowsBytes` | crates/datagrep-drv-elasticsearch/src/cursor.rs:665-670 | A page of more than one hit over the byte hint sets the cap to the largest page, from 1 to 10000, that fits the hint at that average size; one under half the hint lifts it, and any other leaves it |
| `SearchCursor.FaultsExactly` | crates/datagrep-drv-elasticsearch/src/cursor.rs:567-640 | A call fails exactly when the cursor is closed, the search fails, or shards failed and no hit came; a failed scan is over and holds no context |
| `SearchCursor.ResumableExactly` | crates/datagrep-drv-elasticsearch/src/cursor.rs:692-706 | When no answer names an empty id, a scan can be resumed exactly when it is neither over nor closed and has delivered something; the token names the context still held and both counters |
| `SearchCursor.Cursor.NextBatch` | crates/datagrep-drv-elasticsearch/src/cursor.rs:567-690 | The in-place update is the paging step, on every error path too |
| `SearchCursor.Cursor.CloseCursor` | crates/datagrep-drv-elasticsearch/src/cursor.rs:712-717 | Closing gives the context back and refuses further calls |
| `UpdateAcceptance.ScriptAccepts` | crates/datagrep-drv-elasticsearch/src/mutate.rs:483-495 | The script route accepts exactly the pairwise unrelated lists of expressible paths |
| `UpdateAcceptance.PartialDocExactly` | crates/datagrep-drv-elasticsearch/src/mutate.rs:565-587 | The partial document accepts exactly the writable lists in which no path conflicts with the document so far and no set is visible to a later one, and builds those paths set in order |
| `UpdateAcceptance.InsertShows` | crates/datagrep-drv-elasticsearch/src/mutate.rs:565-587 | After an insertion a path conflicts exactly if it did before or the insertion is visible to it: related, and not free space inside an inserted object |
| `UpdateAcceptance.RoutesAcceptDifferently` | crates/datagrep-drv-elasticsearch/src/mutate.rs:390-495 | What the script accepts the partial document accepts; an expressible list is accepted by the partial document and refused by the script exactly when its paths are related and no set is visible to a later one |
| `UpdateAcceptance.OverlapSlipsThrough` | crates/datagrep-drv-elasticsearch/src/mutate.rs:565-587 | Setting a to {c: 1} and then a.b to 2 is accepted by the partial document, refused by the script, and refused by both the other way round |
| `UpdateAcceptance.UpdateAccepts` | crates/datagrep-drv-elasticsearch/src/mutate.rs:390-421 | Exactly which updates the dispatch accepts, with a removal among the sets and without, and which route they take |
| `UpdateRoutes.RoutesAgreeOn` | crates/datagrep-drv-elasticsearch/src/mutate.rs:423-481 | For a list both routes accept and a given document, they leave the same document exactly when merging each value into what is stored at its path is the same as putting it there |
| `UpdateRoutes.RoutesAgreeExactly` | crates/datagrep-drv-elasticsearch/src/mutate.rs:390-481 | The partial document and the script leave every document the same exactly when no assigned value is an object |
| `UpdateRoutes.RoutesPart` | crates/datagrep-drv-elasticsearch/src/mutate.rs:423-481 | With an object value there is a document the two routes change differently |
| `UpdateRoutes.UpdateIsEdits` | crates/datagrep-drv-elasticsearch/src/mutate.rs:390-421 | Every accepted update does exactly the edits its sets ask for, in their order: put and removed by script, merged in by partial document |
| `UpdateRoutes.UpdateReads` | crates/datagrep-drv-elasticsearch/src/mutate.rs:390-421 | After an accepted update a set path unrelated to the others reads its value, put or merged with what was stored, a removed one is absent, and every path unrelated to all is as before |
| `UpdateRoutes.AcceptedStandAlone` | crates/datagrep-drv-elasticsearch/src/mutate.rs:390-495 | By script, or with no object among the values, the paths of an accepted update are all unrelated |
| `UpdateRoutes.UpdateOrder` | crates/datagrep-drv-elasticsearch/src/mutate.rs:390-421 | With unrelated paths any order of the sets is accepted and gives the same document |
| `UpdateRoutes.OrderMattersExactly` | crates/datagrep-drv-elasticsearch/src/mutate.rs:390-421 | An accepted update is accepted in every order of its sets exactly when its paths are unrelated |
| `UpdateMeaning.ScriptRuns` | crates/datagrep-drv-elasticsearch/src/mutate.rs:432-481 | The generated script never throws and sets, then removes, exactly its paths on any document |
| `UpdateMeaning.PartialDocMerges` | crates/datagrep-drv-elasticsearch/src/mutate.rs:423-430 | Merging an accepted partial document into any document merges its values in at their paths, one by one, objects and overlaps included |
| `UpdateMeaning.MergeOfInsert` | crates/datagrep-drv-elasticsearch/src/mutate.rs:565-587 | Inserting one path into a partial document adds one merge at that path to what merging it does |
| `UpdateMeaning.EditsCommute` | crates/datagrep-drv-elasticsearch/src/mutate.rs:483-495 | Edits at unrelated paths commute |
| `UpdateMeaning.OrderDoesNotMatter` | crates/datagrep-drv-elasticsearch/src/mutate.rs:483-495 | Any rearrangement of pairwise unrelated edits gives the same document |
| `Updates.BuildPartialDoc` | crates/datagrep-drv-elasticsearch/src/mutate.rs:423-430 | The loop is the partial-document function, errors included |
| `Updates.BuildScriptBody` | crates/datagrep-drv-elasticsearch/src/mutate.rs:432-481 | The loops produce the script function's lines and parameters, errors included |
| `Updates.AddAssignments` | crates/datagrep-drv-elasticsearch/src/mutate.rs:440-460 | Assignment lines and parameters in order, each path checked against all before it |
| `Updates.AddRemovals` | crates/datagrep-drv-elasticsearch/src/mutate.rs:462-474 | Removal lines follow the assignments, each path checked against all before it |
| `Updates.RefusePathOverlap` | crates/datagrep-drv-elasticsearch/src/mutate.rs:483-495 | Refuses exactly a path comparable to one seen before |
| `Updates.SetsToUpdateBody` | crates/datagrep-drv-elasticsearch/src/mutate.rs:390-421 | The dispatch between the two routes, with every refusal |
| `Updates.ComparableExactly` | crates/datagrep-drv-elasticsearch/src/mutate.rs:483-495 | Two paths overlap exactly when one is a prefix of the other |
| `Updates.SetNamesExactly` | crates/datagrep-drv-elasticsearch/src/mutate.rs:506-540 | A path can be set exactly when it has a step, no step is a position, and it does not begin with an envelope field; each refusal has its own error |
| `ScriptText.LineReadsBack` | crates/datagrep-drv-elasticsearch/src/mutate.rs:432-481 | Every statement the generator writes reads back from its text as itself |
| `ScriptText.ScriptReadsBack` | crates/datagrep-drv-elasticsearch/src/mutate.rs:432-481 | The script's text, cut at its line breaks, says exactly the statements it was made of, in order |
| `ScriptText.BodyReadsBack` | crates/datagrep-drv-elasticsearch/src/mutate.rs:423-481 | The JSON around it reads back as the document to merge, or as every statement and every value of the script |
| `ScriptText.AcceptedReadsBack` | crates/datagrep-drv-elasticsearch/src/mutate.rs:390-481 | Every accepted update reads back from the body sent for it: no name in a path can change what the script says |
| `Values.ToJsonExactly` | crates/datagrep-drv-elasticsearch/src/value.rs:175-220 | The JSON form of a value is the one JSON value that stands for it: numbers as they are, timestamps as milliseconds rounded towards zero, and of a repeated key the last value |
| `Bulk.GuardExactly` | crates/datagrep-drv-elasticsearch/src/mutate.rs:311-375 | A guard is accepted exactly from one sequence number and one primary term, in either order |
| `Bulk.PrintParsesExactly` | crates/datagrep-drv-elasticsearch/src/mutate.rs:891-897 | A printed number parses back, with a plus sign in front or without, exactly when it fits 64 bits |
| `Bulk.UpdateGuardSurvives` | crates/datagrep-drv-elasticsearch/src/mutate.rs:818-897 | Every accepted update goes out as two lines; the only value the first is the text of has exactly its index, id, routing, sequence number and primary term, and the second says its body |
| `Bulk.DeleteGuardSurvives` | crates/datagrep-drv-elasticsearch/src/mutate.rs:818-897 | Every accepted delete goes out as one line, the only reading of which is its address and guard |
| `Bulk.UpdateAddresses` | crates/datagrep-drv-elasticsearch/src/mutate.rs:44-75 | A single guarded update is sent to exactly its document: the path, cut at its slashes and decoded, names index, endpoint and id, and the parameters are the guard, the refresh, the routing and nothing else |
| `Bulk.DeleteAddresses` | crates/datagrep-drv-elasticsearch/src/mutate.rs:76-92 | ... and so is a delete |
| `Bulk.InsertFrames` | crates/datagrep-drv-elasticsearch/src/mutate.rs:830-850 | An insert goes out as an action that names its index, its id if it has one and its routing, and then its document |
| `Bulk.FramesExactly` | crates/datagrep-drv-elasticsearch/src/mutate.rs:818-889 | A write cannot be framed exactly when its operation is unknown, or it must be guarded and its guard cannot be read |
| `Bulk.BulkBodyFrames` | crates/datagrep-drv-elasticsearch/src/mutate.rs:793-863 | The body reads back as each write's one or two lines, in order, with no stray line break |
| `Bulk.CompileBulkBody` | crates/datagrep-drv-elasticsearch/src/mutate.rs:793-816 | The loop is the framing function, refusals and the size limit included |
| `Bulk.GuardFromExpect` | crates/datagrep-drv-elasticsearch/src/mutate.rs:311-375 | The loop is the guard function, every refusal included |
| `JsonReading.SerializeInjective` | crates/datagrep-drv-elasticsearch/src/mutate.rs:850-861 | No two JSON values have the same text |
| `JsonReading.ValueSplits` | crates/datagrep-drv-elasticsearch/src/mutate.rs:850-861 | Where a value ends and which value it is follows from the text alone, whatever separator comes next |
| `JsonText.SerializeOneLine` | crates/datagrep-drv-elasticsearch/src/mutate.rs:793-803 | Serialized JSON never holds a line break |
| `JsonText.EscapedReads` | crates/datagrep-drv-elasticsearch/src/mutate.rs:850-861 | Every character of a JSON string is written so that the rules of RFC 8259 read it back |
| `JsonText.ScalarForms` | crates/datagrep-drv-elasticsearch/src/mutate.rs:850-861 | The literal names and whole numbers are written as RFC 8259 has them |
| `Decimal.PrintThenValue` | crates/datagrep-drv-elasticsearch/src/mutate.rs:891-897 | Printing an unsigned number and parsing it gives it back |
| `Reports.SerialAccounting` | crates/datagrep-drv-elasticsearch/src/mutate.rs:723-788 | For anything the serial loop can produce, applied, failed and not attempted add up to the batch, and the notice names the failure |
| `Reports.ExecuteSerially` | crates/datagrep-drv-elasticsearch/src/connection.rs:560-580 | Writes are sent one after another up to and including the first failure |
| `Reports.BatchReport` | crates/datagrep-drv-elasticsearch/src/mutate.rs:723-788 | One row per write, in order, with the write's operation, index, id and routing, applied, failed or conflict as its outcome says and not attempted without one; the notice counts the applied writes and names the last failure |
| `Reports.BulkReport` | crates/datagrep-drv-elasticsearch/src/mutate.rs:900-975 | Accepted exactly when there is one item with an action per write. Row i carries write i's operation, index, id and routing, is applied exactly when status i is in 200..299 and a conflict exactly when it is 409; the notice's numbers are the numbers of items with such a status |
| `Filter.FilterExact` | crates/datagrep-drv-elasticsearch/src/filter.rs:103-180 | For every predicate whose Or nodes have parts, whose In lists hold no null and whose comparison bounds are not written as null, the compiled query matches exactly the documents the predicate holds of |
| `Filter.LikeIsWildcard` | crates/datagrep-drv-elasticsearch/src/filter.rs:166-180 | A text matches a LIKE pattern exactly when it matches the pattern's wildcard translation |
| `Filter.OrExactly` | crates/datagrep-drv-elasticsearch/src/filter.rs:141-143 | An Or of regular parts keeps its meaning exactly when it has a part |
| `Filter.InExactly` | crates/datagrep-drv-elasticsearch/src/filter.rs:114-118 | An In keeps its meaning exactly when its list holds no null |
| `Filter.ComparisonsMean` | crates/datagrep-drv-elasticsearch/src/filter.rs:110-113 | The four comparisons are those of one order, of numbers and of texts, and nothing else compares |
| `Filter.CompareExactly` | crates/datagrep-drv-elasticsearch/src/filter.rs:162-164 | A comparison keeps its meaning exactly when its bound is not written as null; otherwise a document with any value in the field is matched though the predicate does not hold of it |
| `Filter.OtherTestsKeep` | crates/datagrep-drv-elasticsearch/src/filter.rs:103-180 | Equality and its opposite, of null and of anything else, LIKE, and the tests for presence always keep their meaning |
| `Filter.AndNotKeep` | crates/datagrep-drv-elasticsearch/src/filter.rs:103-146 | An And of regular parts keeps its meaning with any number of them, none included, and so does the Not of one |
| `Filter.NullNoticeOnce` | crates/datagrep-drv-elasticsearch/src/filter.rs:152-160 | The null notice names every field tested for null, each once |
| `Filter.DroppedNoticeOnce` | crates/datagrep-drv-elasticsearch/src/filter.rs:41-60 | The dropped-position notice names every field whose path had a position in it, each once |
| `Filter.CompilesExactly` | crates/datagrep-drv-elasticsearch/src/filter.rs:41-60 | A predicate compiles exactly when every test in it has a field name, and otherwise the error is a path without one |
| `Filter.FieldNameExactly` | crates/datagrep-drv-elasticsearch/src/filter.rs:18-34 | The parts of a field name between its dots are the names in the path, in order, without positions and without empty names in front |
| `Filter.Compile` | crates/datagrep-drv-elasticsearch/src/filter.rs:103-146 | The recursive compiler with its accumulator is the compiling function |
| `Filter.TranslateLike` | crates/datagrep-drv-elasticsearch/src/filter.rs:166-180 | The loop is the wildcard translation |
| `Filter.FieldPathToEs` | crates/datagrep-drv-elasticsearch/src/filter.rs:18-40 | The loop joins field names with dots and drops array positions |
| `Listing.PagesIncrease` | crates/datagrep-drv-elasticsearch/src/catalog.rs:866-887 | Across all calls names strictly increase, even when the listing changes between them |
| `Listing.PagesDeliver` | crates/datagrep-drv-elasticsearch/src/catalog.rs:866-887 | A name in every call's listing has been delivered once paging is over |
| `Listing.PagesDeliverOnce` | crates/datagrep-drv-elasticsearch/src/catalog.rs:866-887 | ... exactly once |
| `Listing.FixedListing` | crates/datagrep-drv-elasticsearch/src/catalog.rs:866-887 | On a fixed listing the pages add up to the sorted, deduplicated names in finitely many calls |
| `Listing.PaginateByName` | crates/datagrep-drv-elasticsearch/src/catalog.rs:866-887 | The in-place sort, dedup, retain and truncate give the page function |
| `Listing.WantedNodesAre` | crates/datagrep-drv-elasticsearch/src/catalog.rs:866-887 | What is paged is strictly increasing and holds exactly the listed names after the last one delivered |
| `PercentCoding.DecodeOfEncode` | crates/datagrep-drv-elasticsearch/src/driver.rs:495-512 | Decoding an encoded segment gives back the text, for every text |
| `PercentCoding.EncodedInjective` | crates/datagrep-drv-elasticsearch/src/mutate.rs:1005-1020 | No two texts share an encoded form |
| `PercentCoding.EncodedIsSegmentText` | crates/datagrep-drv-elasticsearch/src/mutate.rs:1005-1020 | The output holds unreserved characters and %XX triples only |
| `PercentCoding.HexValueExactly` | crates/datagrep-drv-elasticsearch/src/driver.rs:495-512 | The decoder reads hex digits of either case and nothing else |
| `PercentCoding.UnreservedStays` | crates/datagrep-drv-elasticsearch/src/mutate.rs:1005-1020 | Exactly the letters, digits and the marks - . _ ~ stay themselves |
| `PercentCoding.EncodeSegment` | crates/datagrep-drv-elasticsearch/src/mutate.rs:1005-1020 | The loop is the encoding function |
| `PercentCoding.PercentDecode` | crates/datagrep-drv-elasticsearch/src/driver.rs:495-512 | The loop is the decoding function, malformed triples kept as they are and bytes that are no UTF-8 replaced |
| `Utf8.LossyOfText` | crates/datagrep-drv-elasticsearch/src/driver.rs:511-511 | Reading bytes leniently as UTF-8 loses nothing of a text's own bytes |
| `Utf8.TextInjective` | crates/datagrep-drv-elasticsearch/src/mutate.rs:1011-1017 | UTF-8 is injective on texts |
| `SchemaTrie.TrieCounts` | crates/datagrep-drv-mongo/src/catalog.rs:193-211 | After any documents with unique keys each node's present is how many carry the path, and each type count how many carry it with that type |
| `SchemaTrie.TrieSound` | crates/datagrep-api/src/catalog.rs:98-104 | Type counts stay distinct and sum to present at every node, repeated keys or not |
| `SchemaTrie.OrderDoesNotMatter` | crates/datagrep-drv-mongo/src/catalog.rs:193-211 | The counts do not depend on document order |
| `SchemaTrie.RecordDoc` | crates/datagrep-drv-mongo/src/catalog.rs:193-211 | The recursive loop is the recording function |
| `FieldPath.ParseOfPrint` | crates/datagrep-api/src/value.rs:208-285 | Parsing a printed path gives it back, for every well-formed path |
| `FieldPath.PrintOfParse` | crates/datagrep-api/src/value.rs:208-285 | Only texts of well-formed paths are accepted, and printing gives an accepted text back exactly when no index has a leading zero |
| `FieldPath.Parse` | crates/datagrep-api/src/value.rs:211-267 | The loop is the parsing function with every error and its byte position, and it terminates |
| `FieldPath.Print` | crates/datagrep-api/src/value.rs:270-285 | The loop is the printing function |
| `FieldPath.ReadSegment` | crates/datagrep-api/src/value.rs:219-254 | One segment is read as stated, errors included |
| `Documents.Document.Push` | crates/datagrep-api/src/value.rs:116-120 | A repeated key is kept in order and hides nothing; every other key reads as before |
| `Documents.Document.Get` | crates/datagrep-api/src/value.rs:122-124 | The first field with the key |
| `Documents.Document.FromFields` | crates/datagrep-api/src/value.rs:108-114 | The index of a field list is the first place of each key |
| `Documents.Document.GetPath` | crates/datagrep-api/src/value.rs:126-145 | The loop reads the value at a path, stopping at the first step that leads nowhere |
| `Documents.PathDescends` | crates/datagrep-api/src/value.rs:126-145 | Reading a path is descending the value tree from the document |

## Left out

- Scroll-mode paging: its continuation does not send the page size the short-page rule compares with.
- HTTP, authentication, asynchronous search polling and the servers themselves; a search is a fixed, strictly ordered list of hits, and exactness is claimed for complete answers (partial ones only keep the counters and the context).
- Arrow, Tokio, serde and file-system internals: columns are sequences of optional cells, a channel is a bounded queue, a notifier is a registered and a notified flag, a file is a byte sequence, and a spilled record is any encoding that decodes to itself.
- The parsing and classification of query languages: `Language` is three functions the results hold for.
- Machine-word limits of the counters (the challenge counter, row counts, dictionary keys) and the text form of challenge ids, which is one-to-one in the counter.
- Floating point: the tenth that decides dictionaries and the bytes per row are exact ratios.
- The texts of numbers, bytes, dates and nested values in text columns are a function parameter, so a text column is proved to hold whatever that function prints for them; dates, times and timestamps have their text modelled beside it.
- JSON forms of foreign values in updates and filters: the parameter `render`.
- Feeder.PullLoop: the loop of one task alone, without parking, cancelling or the channel; `FeederRuns` has those.
- Reports.BatchReport: the fields a row copies from the server's response are not modelled.
- The execution options of a request, which a binding ignores: requests that differ only there share one.
- Filter.FilterExact: a term whose value is written as null, a float that is not a finite number, is taken to match nothing, as such a value equals nothing; a server that refuses the query is not modelled.
- A session value that is dropped while leases are out; the shutdown path closes connections the same way.
- A dial that outlives its timeout: the abandoned attempt is not counted as a connection.
- The phase a store ends in, which is a direct translation of how its feeder ended.
- Graph payloads, which the store skips and the feeder only counts.
- Message wording, notices and tracing, except the counts and guards above.
- The adaptive fetch hint's convergence; each next hint is exact, the limit of many is not claimed.
- Insert statements and identity keys of mutations, async-search, and the mapping and template parsers of the catalog: thin code beside what is modelled.
- Updates.BuildPartialDoc: the nested document is built on values, not through a mutable reference into the map.
- SchemaTrie.RecordDoc: the trie's vectors are values that the recursion returns, so aliasing is not modelled.
- FeederRuns.ParkedPullExactly: polls of a waiting task are one shared access at a time, in the order the code looks; a task may poll again without being woken.
- FeederRuns.NoResumeIsLost: a state property; that a notified task eventually runs is the scheduler's and is not claimed.
- Budget.NoWakeupIsLost: likewise a state property, under a limit below the largest machine word.
- SafetyRuns.AdmissionsAreEarned: stated against the level that the admitting call itself read; the level may change between that read and the lock, as the code allows.
- Pool.PoolIsBounded: a connection being returned counts as leased until it is on the idle stack; its permit is given back after that.
- Windows.GetRows: a spilled chunk that cannot be read is skipped, as in the code, and costs only its own rows.
