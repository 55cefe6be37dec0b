# Notification platform: verified model

A Dafny model of the notification service's hard core: the `Store` contract and its
three drivers, the races between concurrent driver calls, cursor paging, the retry
tracker, the connection registry and its streams, the `Notify` fan-out and the
migration runner.

`dafny verify dfyconfig.toml` checks everything. Each source component is one module.

| module | models |
|---|---|
| `Domain`, `StoreApi` | records, status stamping, limits, the store's operations and answers |
| `Order` | sorting; the sorted listing of a finite set under a strict order is unique |
| `Decimal`, `CompositeKey` | cursor text, `decString`, the length-prefixed key and its parser |
| `Memory` | the reference driver: four maps, one class, and `MemStep`/`MemRun` as its meaning |
| `Postgres`, `EntDb` | the other two drivers, and their simulation of the reference |
| `History`, `Calls`, `EntDbRace`, `PostgresRace`, `DeviceRace` | concurrent driver calls, one atomic step per server request or SQL statement |
| `Effects` | the rows after a run of calls, told from the calls alone |
| `ReadRace` | queries whose statements or reads are separated by other calls |
| `Paging` | a client that follows `next_cursor` through `GetNotifications` |
| `Ledger`, `Ack` | the unread count told from the calls; `AckNotification` with other calls in between |
| `Retry`, `RetryRuns`, `RetryTracker` | the retry tracker and its goroutines as interleaved steps, whole runs of them, and the code |
| `Registry`, `Stream` | the connection registry over backing arrays, in-app `Send`, and `serve` |
| `Notifier` | `Notify` over the memory store |
| `Migrations` | `applyMigrations` with crashes and repeated starts |

## How to read it

Stateful components are classes whose methods are proved equal to a specification
function of their old state (`MemCreate`, `TrackSpec`, `Run`, ...). The theorems are
then about runs of those functions: every finite sequence of calls, or every
interleaving of atomic steps (`Behaviour`). Race machines carry a log of reference
executions next to the real state; the log only records, no step's outcome depends on it.

Assumptions, all explicit in the model:

- An id generated during a call is a parameter (`minted`) and is normally unused. What
  happens when an id *is* reused is settled exactly: every reachable memory state has at
  most one row per triple (`Filed`, `Memory.StepKeepsFiled`); `NoIdClash` is necessary and
  sufficient for the key indexes to stay exact (`Memory.StepKeepsConsistent`) and for
  Postgres to give memory's answer (`Postgres.StepAgrees`): memory overwrites the old row
  while Postgres refuses.
- EntDB never sends the caller's own id. Its simulation is of the call with the id
  cleared (`Cleared`); `EntDb.AgreesIffSameId` says exactly when that is memory's answer.
- One SQL statement, one EntDB request and one mutex-protected section are each atomic.
  The EntDB server enforces a unique composite key; Postgres enforces its two constraints.
- Strings are byte sequences, ordered byte-wise; `int64` values are bounded. Postgres
  orders `device_type` by the database collation (store/postgres/store.go:330), so its
  device list is the byte-wise one under the C collation, which the model assumes.
- Provider answers, clocks, timers, context cancellation and store faults are
  nondeterministic.

Results that differ from what the documentation suggests:

- The comment at notifier.go:49-50 promises a row per (user, channel). The code keys rows on
  (tenant, user, notification id), so a user gets one row; `Notifier.NotifyRows` states
  that.
- Following cursors loses rows that tie on created-at with a page's last row and sort after it
  (`Paging.WalkAccount`); nothing is lost exactly when no page cut falls inside
  a tie (`CleanCuts`). A cursor that is not positive is printed but refused
  (`Paging.WalkCompletesIff`).
- A retry loop evicts by (key, connection), not by identity. Live loops are safe
  from that exactly when no running loop shares their pair (`Retry.SafeIffNoRival`), and
  Ack followed by Track can break it (`Retry.AckThenTrackMakesRival`).
- A retry loop that stops because its parent context ended leaves its entry behind. A pair
  without a running loop is ignored by Track exactly when that has happened to it
  (`RetryRuns.IgnoredIffBlocked`), it stays so until an Ack, a CancelAll or an eviction of the
  pair (`RetryRuns.BlockedPersists`), and the situation is reachable
  (`RetryRuns.StoppedPairIgnoresTrack`).
- EntDB's `UpsertDevice` reads the row back after writing, so another call's token may be
  returned. A call is sure of memory's answer exactly when no other call for its triple
  carries a different token or last-active time (`DeviceRace.OwnAnswerAlwaysIff`).
- An acknowledgement follows the id, not the row. If a call in between reuses the id, the
  write goes to the new holder's row (`Ack.AckHitsTheHolder`).
- A Postgres query takes its page and its unread count at two moments. Its answer is
  memory's at a moment k between them exactly when the calls before k leave the page showing
  and the calls from k on add nothing to the unread count (`ReadRace.FitsMomentIff`). It may
  fit no moment (`ReadRace.TornAnswer`).
- An EntDB query lists the user's nodes and reads each again. The page is cut from the rows
  of the listing, each in the version of its own read (`ReadRace.PageOfTheListing`).
  `ReadRace.ReadsFitMomentIff` says which moments the answer fits; it may fit none
  (`ReadRace.TornReads`).
- `decString` of a negative number is the empty string (`Decimal.DecString`).

## Model

| member | source | states |
|---|---|---|
| `Domain.Stamp` | model.go:51-78 | a status write sets the status and exactly the one timestamp that belongs to it; identity, content, channel, creation time and the other timestamps stay |
| `Domain.ClampLimit` | store.go:81-90 | the effective page limit is between 1 and 100: a limit in that range is kept, a non-positive one means 20, a larger one 100 |
| `Domain.LessIff` | store/memory/store.go:133-138 | the string order, by index: the first position where the strings differ has the smaller byte, or the smaller string ends there |
| `Decimal.ParseOfFormat` | internal/server/handlers.go:290-299 | every printed int64 boundary, negative or not, parses back to itself |
| `Decimal.ParseIntIff` | internal/server/handlers.go:290-299 | over all byte strings the parser accepts exactly an optional sign followed by at least one digit whose value is an int64, and yields that value |
| `Decimal.DecString` | store/entdb/helpers.go:292-304 | the 20-byte buffer filled from the right holds the decimal digits of any non-negative int64 and never overflows; a negative argument gives the empty string |
| `CompositeKey.ParseIffEncode` | store/entdb/helpers.go:78-92 | a parser accepts exactly the encoder's image: for all byte strings, parsing yields a triple if and only if the string is that triple's key |
| `CompositeKey.EncodeInjective` | store/entdb/helpers.go:78-92 | two triples share a composite key only if they are equal |
| `CompositeKey.KeyText` | store/entdb/helpers.go:78-92 | the key's text: length, ':' and bytes of tenant, user and last part, in this order |
| `Order.ListsUnique` | store/memory/store.go:114-138 | a set has one sorted listing, so the page does not depend on map iteration order |
| `Order.Sort` | store/memory/store.go:133-138 | sorting rows handed out in any order yields that one listing |
| `Order.OrderBy` | store/postgres/store.go:226-274 | ORDER BY over a table yields that one listing |
| `Memory.MemoryStore.CreateNotification` | store/memory/store.go:57-72 | in any state the maps and the answer are the reference step's; rows stay filed, and exact indexes stay exact exactly when no id is reused |
| `Memory.MemoryStore.GetNotification` | store/memory/store.go:75-84 | a row is returned exactly when it exists under that tenant and user |
| `Memory.MemoryStore.UpdateStatus` | store/memory/store.go:87-105 | in any state the in-place field writes are one stamp of one row of that tenant, or not found and nothing changes; indexes stay as good as they were |
| `Memory.MemoryStore.ScanNotifications` | store/memory/store.go:112-130 | the range over the map in any order gathers exactly the wanted rows once each and counts exactly the unread ones |
| `Memory.MemoryStore.QueryUserNotifications` | store/memory/store.go:108-146 | page, cursor and unread count are functions of the stored rows alone |
| `Memory.MemoryStore.UpsertDevice` | store/memory/store.go:149-166 | inserts, or rotates token and last-active of the indexed row; rows stay filed, and exact indexes stay exact exactly when no id is reused |
| `Memory.MemoryStore.ListDevices` | store/memory/store.go:169-181 | the sorted listing of the user's devices, whatever the map order |
| `Memory.StepKeepsFiled` | store/memory/store.go:57-181 | every call, an id reused or not, keeps at most one row per triple, each found under its own triple and id, and no dangling index |
| `Memory.StepKeepsConsistent` | store/memory/store.go:57-105 | row maps and key indexes stay mutual inverses if and only if the call does not reuse an id |
| `Memory.RunKeepsConsistent` | store/memory/store.go:57-181 | over every run, absence of id clashes is exactly what keeps every state consistent |
| `Memory.RunKeepsRows` | store/memory/store.go:57-181 | over every run without id reuse no row is lost, identity, content and creation time never change, and a notification or device key keeps its id |
| `Memory.PageIsNewestPrefix` | store/memory/store.go:108-146 | the page holds stored wanted rows newest first, misses none newer than its last row, and has no cursor exactly when it is complete |
| `Memory.PageContents` | store/memory/store.go:108-146 | field by field: every item is a stored row of the query's tenant and user, unread if only those are asked for, older than the cursor; every other such row sorts after all items and then there is a cursor; items are ordered by time and then id, both descending; a page with a cursor is full and the cursor is its last item's time |
| `Memory.GetIff` | store/memory/store.go:75-84 | a read gives a row exactly when that row is stored under the id, tenant and user, and not found otherwise |
| `Memory.ListIsAscending` | store/memory/store.go:169-181 | devices come strictly ascending by type, byte by byte, and they are exactly the user's |
| `Postgres.PostgresStore.CreateNotification` | store/postgres/store.go:110-163 | insert, then select on conflict: created, existing id, or conflict on the primary key |
| `Postgres.PostgresStore.GetNotification` | store/postgres/store.go:166-190 | the row of that tenant, user and id, or not found |
| `Postgres.PostgresStore.UpdateStatus` | store/postgres/store.go:195-215 | replaces exactly the tenant's row with that id by its stamp and keeps both constraints; not found, and nothing changes, exactly when there is no such row |
| `Postgres.UpdateAgrees` | store/postgres/store.go:195-215 | the statement has memory's answer and leaves memory's rows |
| `Postgres.PostgresStore.QueryUserNotifications` | store/postgres/store.go:223-288 | the trimmed limit+1 fetch and the separate count |
| `Postgres.PostgresStore.UpsertDevice` | store/postgres/store.go:294-321 | insert or update in one statement, returning the row |
| `Postgres.PostgresStore.ListDevices` | store/postgres/store.go:325-350 | the sorted listing of the user's devices |
| `Postgres.UnreadCountAgrees` | store/postgres/store.go:276-285 | the separate count equals the reference's in every matching state |
| `Postgres.RefusedIff` | store/postgres/store.go:133-163 | an insert is refused exactly when the triple is new and the id is taken |
| `Postgres.FindAgrees` | store/postgres/store.go:223-288 | fetching only limit+1 ordered rows gives the reference's page, cursor and unread count |
| `Postgres.StepAgrees` | store/postgres/store.go:110-350 | one call answers as memory does if and only if no id is reused, and then the tables still hold memory's rows |
| `Postgres.RunAgrees` | store/postgres/store.go:110-350 | every finite run that reuses no id gets memory's answers and ends on memory's rows |
| `Postgres.RunAgreesIff` | store/postgres/store.go:110-350 | a run gets memory's answers throughout if and only if it reuses no id |
| `EntDb.EntDbStore.CreateNotification` | store/entdb/store.go:130-161 | commit, then lookup by key on a collision |
| `EntDb.EntDbStore.GetNotification` | store/entdb/store.go:166-187 | whichever of the two reads is answered, the row is returned exactly when it is the user's |
| `EntDb.EntDbStore.UpdateStatus` | store/entdb/store.go:198-227 | a tenant check, then a field update that touches the listed fields only |
| `EntDb.EntDbStore.ScanNodes` | store/entdb/store.go:239-275 | the loop over nodes in any order gathers the wanted rows once each and counts the unread ones |
| `EntDb.EntDbStore.QueryUserNotifications` | store/entdb/store.go:232-290 | page, cursor and unread count are functions of the nodes alone |
| `EntDb.EntDbStore.UpsertDevice` | store/entdb/store.go:305-340 | commit, or lookup and field update, then read back |
| `EntDb.UpsertMirrors` | store/entdb/store.go:305-363 | commit or rotation followed by the read-back answers with memory's device, so run alone the synthesized fallback is never returned; the nodes still mirror memory's rows |
| `EntDb.EntDbStore.ListDevices` | store/entdb/store.go:367-389 | the sorted listing of the user's device nodes |
| `EntDb.PayloadRoundTrip` | store/entdb/store.go:40-112 | converting to a payload and back loses nothing but the caller's id |
| `EntDb.PatchIsStamp` | store/entdb/store.go:198-227 | the status field mask on the payload has the effect of the reference's stamp |
| `EntDb.NotifKeyTaken` | store/entdb/helpers.go:97-113 | uniqueness of the encoded string is uniqueness of the triple, and lookup by key finds the indexed row |
| `EntDb.StepMirrors` | store/entdb/store.go:130-389 | one call answers as memory does on the call with its id cleared, and the nodes still mirror memory's rows |
| `EntDb.AgreesIffSameId` | store/entdb/store.go:130-161 | the answer is memory's on the call itself if and only if both would store the row under the same id |
| `EntDb.RunMirrors` | store/entdb/store.go:130-389 | every finite run gets memory's answers and ends on memory's rows |
| `History.HistoryExtends` | store/memory/store.go:57-72 | one more execution keeps the history a reference run in which each triple is inserted at most once |
| `History.TheInsert` | store/memory/store.go:57-72 | a history has exactly one insert of each new triple and every create of it answers with that row's id |
| `Calls.CallsLinearize` | store/entdb/store.go:130-227 | calls whose phases fit a reference history are linearized by it: finished ones got their answers, refused ones left no trace, none met an internal error |
| `EntDbRace.EveryBehaviourLinearizes` | store/entdb/store.go:130-227 | in every interleaving of commits, lookups, reads and field updates the calls form one reference run, finished calls got their answers in it, the nodes hold its rows, and the internal-error branches are unreachable |
| `EntDbRace.FinishedCallsComeFirst` | store/entdb/store.go:130-227 | the linearization respects real time: a call finished before another began precedes it |
| `EntDbRace.ExactlyOneCreator` | store/entdb/store.go:130-161 | once a caller for a new triple has finished, exactly one reports created, and every finished caller returns that row's id |
| `EntDbRace.BehavioursAreBounded` | store/entdb/store.go:130-227 | no behaviour takes more than two steps per call |
| `EntDbRace.UnansweredGoesOn` | store/entdb/store.go:130-227 | a call that is not answered can always take a step, whatever the others do |
| `PostgresRace.EveryBehaviourLinearizes` | store/postgres/store.go:133-215 | the same for insert-then-select and updates, primary-key conflicts included: the select always finds a row, and a call is refused only when a row of another triple holds its id, with no effect |
| `PostgresRace.FinishedCallsComeFirst` | store/postgres/store.go:133-215 | the linearization respects real time |
| `PostgresRace.ExactlyOneCreator` | store/postgres/store.go:133-155 | once a caller for a new triple has finished, one caller reports created and every finished caller returns that row's id |
| `PostgresRace.BehavioursAreBounded` | store/postgres/store.go:133-215 | no behaviour takes more than two steps per call |
| `PostgresRace.UnansweredGoesOn` | store/postgres/store.go:133-215 | a call that is not answered can always take a step |
| `DeviceRace.EveryBehaviourConverges` | store/entdb/store.go:305-340 | in every interleaving the rows are those of the reference run in write order, one node per triple |
| `DeviceRace.RowIsFirstAndLast` | store/entdb/store.go:305-340 | a row's id and creation time are those of the row there was at the start or else of the first write; its (token, last-active) pair comes whole from the last write |
| `DeviceRace.EveryReadIsARow` | store/entdb/store.go:305-363 | no call errors or returns the synthesized device; a finished call returned the whole row after some prefix of writes that includes its own |
| `DeviceRace.OneRowPerTriple` | store/entdb/store.go:305-363 | finished callers return the same row id if and only if they named the same triple |
| `DeviceRace.OwnAnswerIff` | store/entdb/store.go:346-363 | a call gets memory's answer if and only if the last write of its triple from its own write up to its read carries its own pair |
| `DeviceRace.OwnAnswerAlwaysIff` | store/entdb/store.go:305-363 | a call is sure to get memory's answer in every interleaving if and only if no other call for its triple carries a different pair |
| `DeviceRace.ReadBackMaySeeAnother` | store/entdb/store.go:346-363 | from any start and any set of calls, some interleaving makes a call return the pair of any given other call for its triple |
| `DeviceRace.BehavioursAreBounded` | store/entdb/store.go:305-363 | no behaviour takes more than four steps per call |
| `DeviceRace.UnfinishedGoesOn` | store/entdb/store.go:305-363 | a call that has not finished can always take a step |
| `Paging.DecodeOfPrinted` | internal/server/handlers.go:290-299 | a printed cursor is accepted back exactly when its boundary is positive |
| `Paging.CursorAcceptedIff` | internal/server/handlers.go:127-163 | over all byte strings a cursor is refused exactly when it is not empty and does not denote a positive int64; otherwise the answer is the store's page below that value, or the first page |
| `Paging.InboxContents` | internal/server/handlers.go:127-140 | the inbox is exactly the stored rows of the request's tenant and user, or the unread ones of them |
| `Paging.WalkFrom` | internal/server/handlers.go:127-163 | a client's walk from any accepted cursor completes exactly when all later cursors are positive, and has one outcome |
| `Paging.WalkCompletesIff` | internal/server/handlers.go:142-163 | some walk from the first page completes if and only if every cursor on the way is positive; positive timestamps suffice |
| `Paging.WalkAccount` | store/memory/store.go:112-145 | a completed walk takes at most max(1, ceil(n/limit)) pages and yields, in order and without duplicates, the inbox minus the rows skipped by ties; it is the whole inbox if and only if no cut splits a tie |
| `Paging.FullIffCleanCuts` | store/memory/store.go:112-145 | a walk over a sorted list yields all of it if and only if neighbours across every cut differ in created-at |
| `Paging.DistinctTimesLoseNothing` | store/memory/store.go:112-145 | with distinct timestamps every completed walk is the full inbox |
| `Paging.TieLosesOrRefuses` | internal/server/handlers.go:142-163 | two creates from an empty store with one timestamp: read one per page, the walk loses a row if the timestamp is positive and is refused otherwise |
| `Effects.RowsAreFromTheCalls` | store/memory/store.go:57-105 | after any run that reuses no id the store holds exactly the rows the calls tell: old rows with the last status and timestamps written to them, and for each triple the first create of it, rewritten by the calls that follow |
| `ReadRace.NetCounts` | store/memory/store.go:114-130 | over every run, reused ids included, the unread count moves by exactly what the calls add |
| `ReadRace.ShowsIff` | store/memory/store.go:108-146 | whether a query after a run yields a given page, decided from the calls |
| `ReadRace.TwoStatementsIff` | store/postgres/store.go:223-288 | with calls between the page and the count whose rows the tables still match, so none that reuses an id, page and cursor are memory's at the moment of the page and the count is off by exactly what the calls add; the answer is that moment's if and only if they add nothing |
| `ReadRace.FitsMomentIff` | store/postgres/store.go:223-288 | for every moment k between the statements, the answer is memory's at k if and only if the calls before k leave every row on the page as it was and every other wanted row below it, with one there exactly if there is a cursor, and the calls from k on leave the unread count unchanged |
| `ReadRace.TornAnswer` | store/postgres/store.go:276-285 | from any store, an unread row created between the statements that would be on the page gives an answer that no moment of the run has |
| `ReadRace.PageOfTheListing` | store/entdb/store.go:232-290 | with any calls between the listing and the re-reads, and with or without the unread filter, the page is cut from the rows there were at the listing, in that order, each rewritten by the calls before its own read, without those the filter drops in that version |
| `ReadRace.PageIsTheListingsIff` | store/entdb/store.go:232-290 | without the unread filter the page has the listing moment's rows, order and cursor, and is that moment's page if and only if, for each row on it, the last status and timestamp writes before its read leave it as it was |
| `ReadRace.UnreadOfReads` | store/entdb/store.go:248-262 | the unread count is the number of the user's listed rows whose last status before the read is not read: the listing's count plus the rows turned unread, minus those turned read |
| `ReadRace.ReadsFitMomentIff` | store/entdb/store.go:232-290 | for every moment k of the run, the answer is memory's at k if and only if the calls before k leave its page showing and move the unread count to what the reads found |
| `ReadRace.TornReads` | store/entdb/store.go:232-290 | for any page with two unread rows there are two status writes and read moments that give an answer no moment has |
| `Ledger.RunBalances` | store/memory/store.go:57-105 | a book kept from calls and answers alone agrees with the store's ids and statuses after every run |
| `Ledger.UnreadIsFromTheCalls` | store/memory/store.go:114-130 | after any run, every query's unread count is the number of distinct notification ids created for the user whose last written status is not read, whatever the query; Postgres's count agrees |
| `Ack.AckHitsTheHolder` | internal/server/handlers.go:175-207 | with any calls in between, reused ids included, the write goes to the row of the last call that took over the id: the caller's own row if and only if that holder is of the caller's tenant and user, another user's row of the tenant, or not found and no change for another tenant |
| `Ack.AckWritesOwnRowOnly` | internal/server/handlers.go:175-207 | when no call in between reuses an id, the handler changes only the caller's own row, and acknowledges if and only if the lookup found it |
| `Ack.ReusedIdMisdirectsAck` | internal/server/handlers.go:192-205 | from an empty store, a create under the looked-up id for another user of the tenant makes the acknowledgement mark that user's row read |
| `RetryTracker.RetryTracker.Track` | realtime/retry.go:49-68 | starts one loop per connection not already tracked, in order, and records it |
| `RetryRuns.TrackStartsEach` | realtime/retry.go:49-68 | after Track of any list every connection has an entry; each untracked one got exactly one new waiting loop of its pair and parent with no call made; every other entry and loop is unchanged; the new loops are as many as the distinct untracked connections |
| `RetryRuns.DoneParentsCancel` | realtime/retry.go:49-129 | in every interleaving a done parent context has cancelled all its loops, also those started later |
| `RetryTracker.RetryTracker.Ack` | realtime/retry.go:72-88 | cancels the entry's loop and removes the entry, and the key with its last entry |
| `RetryTracker.RetryTracker.CancelAll` | realtime/retry.go:91-100 | in any map order, cancels exactly the loops that own an entry and empties the table |
| `RetryRuns.CallbackCount` | realtime/retry.go:102-120 | in every interleaving a loop's callback has run once per timer fire and at most max times: exactly max if it ended by evicting, fewer if it stopped on its context |
| `RetryTracker.RetryTracker.Evict` | realtime/retry.go:121-128 | deletes the pair's entry, whoever owns it |
| `Retry.NextKeepsInv` | realtime/retry.go:49-129 | every step keeps: no empty inner map, entries belong to loops of their pair, evicting loops made exactly max calls and stopped ones fewer |
| `Retry.CleanBehavioursOwn` | realtime/retry.go:49-129 | in every interleaving without overlapping loops of one pair, every live loop owns its table entry |
| `Retry.AckCancels` | realtime/retry.go:72-88 | then Ack leaves no live loop for its pair, touches no other loop and removes exactly that entry |
| `Retry.CancelAllCancels` | realtime/retry.go:91-100 | then CancelAll leaves an empty table and no live loop |
| `Retry.SafeIffNoRival` | realtime/retry.go:121-128 | no schedule of the goroutines can take an entry from a live loop if and only if no running loop shares a live loop's pair |
| `Retry.RivalEvicts` | realtime/retry.go:121-128 | from any state with a running rival there is a schedule that evicts the live loop's entry |
| `Retry.AckThenTrackMakesRival` | realtime/retry.go:72-128 | Track, Ack, Track reaches such a state |
| `RetryRuns.EveryEntryHasItsLoop` | realtime/retry.go:49-129 | in every interleaving an entry's loop is running, or stopped on a done parent context |
| `RetryRuns.IgnoredIffBlocked` | realtime/retry.go:50-67 | a pair no loop runs for is ignored by Track if and only if its entry's loop stopped on a done parent, or retries are off |
| `RetryRuns.BlockedPersists` | realtime/retry.go:49-129 | such a pair stays ignored, and gets no loop, until an Ack of the pair, a CancelAll or an eviction of the pair, each of which ends it |
| `RetryRuns.StoppedPairIgnoresTrack` | realtime/retry.go:49-129 | Track, end of the parent context, stop, Track under a live context: reachable, and the last Track does nothing |
| `RetryRuns.BoundedBetweenTracks` | realtime/retry.go:102-129 | between Tracks the goroutines take at most the sum of their remaining steps, however other calls interleave |
| `RetryRuns.QuietMeansExited` | realtime/retry.go:102-129 | when no goroutine can move, all have exited |
| `Registry.Registry.Register` | realtime/registry.go:27-31 | appends into spare capacity or a larger array; no other user's slice changes; the table stays well formed exactly when the id is new |
| `Registry.Registry.Unregister` | realtime/registry.go:34-50 | the in-place swap-remove drops exactly the named connection, and the user with its last one |
| `Registry.Registry.Connections` | realtime/registry.go:55-65 | a fresh snapshot of the user's slice |
| `Registry.Registry.Get` | realtime/registry.go:68-79 | finds the connection exactly when its id is registered |
| `Registry.Registry.Count` | realtime/registry.go:82-86 | the number of the user's connections |
| `Registry.Registry.Push` | realtime/registry.go:91-99 | returns the number of snapshot connections with room, and queues the event on exactly those |
| `Registry.Registry.PushTo` | realtime/registry.go:103-109 | queues on the named connection if it has room; no other queue changes |
| `Registry.Registry.TrySend` | realtime/registry.go:111-119 | never blocks: queues at the end, or drops when full |
| `Registry.Conn.constructor` | realtime/conn.go:39-51 | a non-positive buffer size means the default |
| `Registry.AppendAdds` | realtime/registry.go:27-31 | registering adds exactly the connection, and keeps the table well formed if and only if its id is new |
| `Registry.RemoveAtRemoves` | realtime/registry.go:34-50 | swap-remove keeps the table well formed and removes exactly the connection in the slot |
| `Registry.HoldsExactlyCurrent` | realtime/registry.go:27-50 | from an empty registry, after any sequence of registrations with unique ids and removals, the table is well formed and holds exactly the connections registered and not unregistered since |
| `Registry.CountIsConnections` | realtime/registry.go:55-86 | a user's slice is exactly the user's registered connections, each once |
| `Registry.SnapshotStays` | realtime/registry.go:55-65 | through any sequence of later Register and Unregister calls the arrays hold what the specification says and an earlier snapshot is unchanged |
| `Registry.Send` | internal/server/inapp.go:57-76 | delivered if and only if some connection of the user had room, otherwise pending; the event is queued on exactly those with room; an error, and no queue changes, without registry or row |
| `Stream.EveryStreamIsInOrder` | internal/server/stream.go:72-133 | in every interleaving, taken followed by queued events are the accepted ones in order, queues are bounded, the stream starts with the heartbeat and carries a prefix of the accepted events, and the connection is registered exactly while serve runs |
| `Stream.PushStaysWithItsUser` | realtime/registry.go:91-99 | what a push still has to serve are distinct connections of its own user |
| `Stream.CountsAreConserved` | realtime/registry.go:91-119 | in every reachable state the pushes' delivered counts add up to the events the queues accepted |
| `Stream.PushServesEveryone` | realtime/registry.go:91-99 | every connection live for the user when a push starts is at any later moment still to be tried or has been tried by exactly one step |
| `Stream.AttemptOffers` | realtime/registry.go:91-119 | an attempt appends the push's event to that connection's queue if there is room, drops it otherwise, and touches no other connection |
| `Stream.DeliveredIsFoundRoom` | realtime/registry.go:91-99 | a push's count is the number of its attempts that found room |
| `Stream.SentGrowsBy` | internal/server/stream.go:100-131 | a stream's record grows only by its own successful sends: a heartbeat for the handshake and each tick, the held event otherwise |
| `Stream.FailedSendIsLast` | internal/server/stream.go:100-131 | after a failed send nothing more is sent and serve is returning |
| `Stream.PushGoesOn` | realtime/registry.go:91-99 | a push with connections left can always try the next |
| `Notifier.Notify` | notifier.go:82-136 | the nested loops perform exactly the row-major run of the pairs, up to the first store failure |
| `Notifier.NotifyUser` | notifier.go:89-133 | the inner loop performs one user's pairs |
| `Notifier.NotifyPair` | notifier.go:90-109 | one pair: create, then pending or dispatch |
| `Notifier.PairRows` | notifier.go:90-132 | one pair touches no other triple; unless it aborts, its triple's row is the one there was or the new one, with the status and timestamp of the provider's answer if there was a dispatch and its write was not lost |
| `Notifier.PendingCounts` | notifier.go:104-135 | on success the pending counter is exactly the number of pairs without a provider or an address, and the other two sum to the pairs a provider was called for |
| `Notifier.CountersCount` | notifier.go:88-135 | each counter on its own, over the pairs done: failed counts the provider errors, delivered the receipts whose status write succeeded, pending the pairs no provider was called for; on a failure the pairs done are those before the failing one |
| `Notifier.AbortsIff` | notifier.go:88-135 | the call fails exactly when some pair's create fails or a status write after a receipt does, and at the first such pair |
| `Notifier.AbortLeaves` | notifier.go:103-132 | a failed call leaves what the earlier pairs left, and the failing pair's row if its create succeeded |
| `Notifier.NothingPendsIff` | notifier.go:104-109 | nothing is pending exactly when for every requested user and channel the provider is registered and there is a non-empty override, or none and the channel is in-app for a non-empty user id |
| `Notifier.PairIndex` | notifier.go:89-90 | the pairs are row-major: users outside, channels inside |
| `Notifier.InAppPendsIff` | notifier.go:140-150 | a successful in-app call leaves nothing pending if and only if the provider is registered and every requested user's override, or else id, is not empty |
| `Notifier.NotifyRows` | notifier.go:82-136 | after a successful call each requested user has exactly one row; a new one has the first channel, the request's content and the id and time of the user's first pair, an old one keeps its creation; status and each timestamp come from the last writes; every other row is untouched |
| `Notifier.NewRowContent` | notifier.go:91-102 | a new row field by field; if no pair wrote it, it is pending with no other timestamp |
| `Notifier.LastWriteShows` | notifier.go:111-132 | the row has the status of the last pair that wrote it: failed after an error, the receipt's status, or delivered if that is unset, with that pair's time |
| `Notifier.RunLeavesOthers` | notifier.go:82-136 | other triples keep their rows even when the call aborts |
| `Notifier.SecondNotifyAddsNothing` | notifier.go:82-136 | the same request again adds no row, whatever the providers do, whichever are registered by then and whatever order or selection of channels the second call works with |
| `Notifier.RunConserves` | notifier.go:88-135 | on success the counters sum to the pairs and provider sends are exactly the dispatched ones; on failure they sum to the index of the failing pair |
| `Notifier.NotifyConserves` | notifier.go:88-135 | on success delivered, pending and failed sum to users times channels, and to less on failure |
| `Notifier.NoFaultNoAbort` | notifier.go:82-136 | over a store that does not fail the call never aborts |
| `Notifier.NoChannelsNoRows` | notifier.go:82-86 | with no effective channel nothing is stored or counted |
| `Migrations.ApplyMigrations` | store/postgres/migrations.go:80-136 | the loop performs exactly the recorded run, for any point of failure |
| `Migrations.RunSucceedsIff` | store/postgres/migrations.go:119-136 | from k recorded migrations a run succeeds exactly if it gets two statements for each one that is left, and then records all; otherwise it records exactly one for every two statements |
| `Migrations.EveryHistoryIsAPrefix` | store/postgres/migrations.go:80-136 | after any number of starts of older and newer binaries, each failing anywhere, the ledger is a prefix of the list and the schema is that prefix applied in order, possibly plus the next one unrecorded |
| `Migrations.SuccessIsComplete` | store/postgres/migrations.go:80-136 | after any history a successful run leaves the whole list applied and recorded, and a further run executes nothing |

## Left out

- The channel providers (email, SMS, push): HTTP wrappers; a provider's answer is arbitrary.
- Authentication, middleware, configuration, logging, server lifecycle, enum mapping and generated code: one-branch rules, read off the source directly.
- The push-token and data-change handlers, and the construction of a `NotifyRequest` from its message: straight-line forwarding.
- Trimming of ids in handlers: ids are taken as already trimmed.
- The session id stamped on streamed events: the same event object is shared by several connections, so a per-stream claim needs a heap race model.
- Tenant separation of live pushes: the registry is keyed by user id alone.
- Error-text inspection and UUID text forms: a malformed or unknown id is simply an id no row has.
- I/O errors of the drivers, except the store failures `Notify` reacts to.
- Device listings racing with writes: only the sequential answers are stated.
- ReadRace.FitsMomentIff: the calls in between reuse no id, as the tables could not follow memory otherwise.
- ReadRace.PageOfTheListing: the calls in between reuse no id, since the EntDB server assigns ids itself; the same holds for the other results on EntDB queries.
- Goroutines and mutexes as such: each locked section, queue operation and callback is one atomic step, and a callback has no effect on the tracker.
