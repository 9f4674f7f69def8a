# Verified model of storjscan

storjscan watches token transfers on Ethereum-like chains for a set of satellites and turns them into
payments. This project models its four stateful parts in Dafny and proves what they guarantee over whole
runs:

- **The scan protocol** (`LogStream`, `Scan`, `ScanProperties`, `ScanCoverage`, `ScanFailures`,
  `Cursor`, `CursorRuns`, `LossRuns`): one cursor per satellite and chain, block windows and address chunks, and the
  iterator that a concurrent producer feeds.
- **The SQL text pipeline** (`SqlFlatten`, `SqlRebind`, `SqlTokens`, `SqlRender`, `SqlLaws`): whitespace normalisation,
  placeholder numbering, and statements built from parts.
- **The wallet pool** (`Wallets`, `WalletRuns`): a table with unique addresses, batch inserts and two-step claims.
- **The caches and the payments** (`PriceCache`, `PriceRuns`, `HeaderCache`, `HeaderRuns`, `Payments`,
  `Conversions`, `PaymentRuns`, `Replies`).

`Common` holds shared types. Methods carry the loops and state changes of the program, each proved equal to a
function of its inputs and the old state; the lemmas are about those functions and about runs built from them.

## How the outside world is modelled

- What a node, the price client or the database does is a parameter: heads, refused queries, the chain that
  serves each single query, database faults, client answers. Nothing is assumed about them that a
  lemma does not list among its preconditions.
- The Go scheduler is a parameter too: `sched(k)` says how far the producer gets during the k-th call of `Next` and
  which ready case the select takes. All statements hold for every schedule and channel capacity. The
  subscription is the go-ethereum library's, which is not part of this model; of it, one fact is built into `Scan.Sent`:
  a subscription that ends with no error has sent every log.
- A chain is a sequence of blocks of logs (`Transfer` events of EIP-20, section "Events"). Filter bounds are inclusive
  at both ends, an absent end means the node's head, and an empty recipient rule matches everybody, as for
  `eth_getLogs` in the Ethereum JSON-RPC specification.
- Batch sizes are positive and calls of the events service are serialised: with other sizes the loops do not end, and
  the cursor map has no lock. Block numbers plus a batch size stay below 2^63, so loop counters are plain integers; the
  conversion of a caller's negative start to an unsigned number is modelled (`Common.ToUint64`).
- Times are nanoseconds since the zero time, and `Time.Sub` saturates.
- Each byte of a Go string is one character.
- `valuer` stands for the currency library's conversion of a token value at a price.

## Where the code and its description differ

- **A failed iteration is silent.** `processBatch` never asks the iterator for its error, and the deferred assignment to a
  local `err` does not reach the caller. One log that does not unpack hides all logs behind it in its batch:
  `CursorRuns.UndecodableLosesSilently` shows a call that succeeds with no events, on an intact subscription, and moves the
  cursor past a transfer. A batch is complete under every schedule exactly when nothing matches, or the subscription ends
  with no error and every matching log unpacks (`ScanProperties.BatchComplete`). The code also provides for a subscription that
  ends with an error, although nothing in the repository shows one that does; `LogStream.FailingOutcomes` says what it can lose.
- **The cursor can pass transfers that were not returned.** `CursorRuns.CallLossExact` gives the exact condition on a fixed
  chain: every matching log between the old and the new cursor unpacks, and none lies below the first block scanned. On chains
  whose matching logs all unpack this depends on the head and the start asked for only (`CursorRuns.StepLossExact`).
- **A failed conversion loses payments for good.** `AllPayments` moves the cursor before it looks up headers and prices. When
  that fails, the satellite gets an error and the transfers are not returned again (`PaymentRuns.FailedDialLoses`).
  `PaymentRuns.DeliveredExact` says exactly which runs deliver everything, `Conversions.ConversionExact` when a conversion
  fails.
- **A first start above the head scans nothing and still sets the cursor**, and so does a negative one, which wraps around.
  The next request begins at that cursor (`PaymentRuns.LateStartCounts`).
- **Overlapping lookups of one header can fail** although the header is then stored (`HeaderRuns.ConflictExact`).
- **The last query is open-ended** unless the range divides into whole windows, so a scan may return transfers above the head
  it has read (`ScanFailures.UpperExact`).
- **A boundary block is reported twice**, since consecutive windows share it (`ScanProperties.EndpointExact`).
- **Claims depend on isolation.** The update of a claim does not ask whether the row is still unclaimed.
  `WalletRuns.DoubleClaimExact` states exactly when an address is given out twice; under serializable isolation never
  (`WalletRuns.SerializableClaims`), with weaker isolation two claims that overlap may share an address
  (`WalletRuns.DoubleClaimWithoutIsolation`). The transaction library decides the isolation and is not part of this model.
- **"The first unclaimed wallet"** is any unclaimed wallet: the query has no order.
- **`Insert` answers with the wallet asked for**, also when the address was already taken, for example by another satellite
  (`Wallets.InsertMisleads`). `Wallets.InsertAnswerExact` says when the answer is the stored row.
- **Looking up an unclaimed wallet stops the program**: `Get` dereferences the claimed time without a check. Over every run
  it succeeds exactly for the addresses that were given out (`WalletRuns.GetExact`).
- **Flattening reaches into comments**: it turns the newline that ends a comment into a space, which hides later
  placeholders. `SqlRebind.FlattenRebindCommute` and `SqlRender.StatementArguments` give the exact condition.
- **An empty quote table can answer** with the zero amount, exactly when the window is the longest duration
  (`PriceRuns.ZeroQuoteExact`); deletions are invisible under the same condition (`PriceRuns.PurgesInvisibleExact`).
- `GetForSatellite` raises the caller's start blocks also when it then fails.

## Model

| member | source | states |
|---|---|---|
| SqlFlatten.FlattenSQL | storjscandb/dbx/storjscandb.dbx.go:950-998 | On every text the index loops compute the words split on space, tab and newline, joined by single spaces; all indices are in bounds |
| SqlFlatten.Collapse | storjscandb/dbx/storjscandb.dbx.go:964-998 | The scan of a trimmed text: handing it back untouched and rebuilding it agree with the same definition |
| SqlFlatten.Rebuild | storjscandb/dbx/storjscandb.dbx.go:970-991 | The rebuilding path appends one separator and one word a round until the text is flattened |
| SqlFlatten.FlattenIdempotent | storjscandb/dbx/storjscandb.dbx.go:950-998 | Flattening twice is flattening once |
| SqlFlatten.FlattenFixedPoints | storjscandb/dbx/storjscandb.dbx.go:964-997 | A text comes back unchanged if and only if it has no tab, newline, double space or outer space |
| SqlFlatten.WordsConcat | storjscandb/dbx/storjscandb.dbx.go:978-989 | Splitting distributes over concatenation at a word boundary |
| SqlFlatten.NormIsJoin | storjscandb/dbx/storjscandb.dbx.go:950-998 | A one-pass transducer is equivalent to splitting and joining |
| SqlRebind.Rebind | storjscandb/dbx/storjscandb.dbx.go:1028-1078 | The lexer loop computes the rebound text, including the lookahead at the end of input |
| SqlTokens.EveryTextLexes | storjscandb/dbx/storjscandb.dbx.go:1041-1077 | Every text is a sequence of plain text, literals, quoted identifiers and comments, each from its opening mark to the next closing one, the last perhaps unclosed |
| SqlTokens.ReboundTokens | storjscandb/dbx/storjscandb.dbx.go:1028-1078 | Rebinding numbers the question marks of the plain text 1, 2, ... from left to right and leaves every other token as it is |
| SqlTokens.PlaceholderIsPlainMark | storjscandb/dbx/storjscandb.dbx.go:1043-1076 | In every text the lexer's placeholders are exactly the question marks that lie in plain text |
| SqlTokens.PlainText | storjscandb/dbx/storjscandb.dbx.go:1043-1059 | In text without quotation marks and without two dashes in a row every question mark is a placeholder; a single dash changes nothing |
| SqlTokens.CommentsLastExactly | storjscandb/dbx/storjscandb.dbx.go:1052-1076 | The condition under which flattening and rebinding commute is that no plain text after the first comment has a question mark |
| SqlTokens.ItoaCanonical | storjscandb/dbx/storjscandb.dbx.go:1048 | Numbers are written without leading zeros |
| SqlTokens.NoDollarRecovered | storjscandb/dbx/storjscandb.dbx.go:1028-1078 | A text without dollar signs is always recovered from its rebound text |
| SqlRebind.ReboundIsNumbered | storjscandb/dbx/storjscandb.dbx.go:1041-1077 | Each position becomes its own piece: the k-th placeholder outside literals, identifiers and comments becomes $k, all else stays |
| SqlRebind.AtoiItoa | storjscandb/dbx/storjscandb.dbx.go:1048 | The number written after the dollar sign reads back as the placeholder's number |
| SqlRebind.ReboundStates | storjscandb/dbx/storjscandb.dbx.go:1034-1077 | Before each position of the text and before its piece in the output the lexer is in the same state, and the output holds no placeholder so far |
| SqlRebind.NoPlaceholderLeft | storjscandb/dbx/storjscandb.dbx.go:1041-1077 | The output holds no placeholder |
| SqlRebind.RebindIdempotent | storjscandb/dbx/storjscandb.dbx.go:1028-1078 | Rebinding the output changes nothing |
| SqlRebind.DecodeRebound | storjscandb/dbx/storjscandb.dbx.go:1028-1078 | A counting decoder recovers the text if and only if no dollar sign of the text reads as the placeholder due next |
| SqlRebind.RebindInjective | storjscandb/dbx/storjscandb.dbx.go:1028-1078 | Two such texts with the same rebound text are equal |
| SqlRebind.RebindCollides | storjscandb/dbx/storjscandb.dbx.go:1046-1051 | Without the condition two texts may rebind to the same one |
| SqlRebind.FlattenRebindCommute | storjscandb/dbx/storjscandb.dbx.go:940-947 | Rebinding the flattened text equals flattening the rebound text if and only if no placeholder follows the first comment |
| SqlRebind.CommentHidesPlaceholder | storjscandb/dbx/storjscandb.dbx.go:1052-1055 | A text with a comment on which the two orders differ |
| SqlRender.RenderText | storjscandb/dbx/storjscandb.dbx.go:1096-1173 | Rendering parts: nil parts vanish with their separator, conditions choose among four forms, holes render what fills them |
| SqlLaws.HolesFilled | storjscandb/dbx/storjscandb.dbx.go:1158-1173 | A hole anywhere in a statement can be replaced by its content without changing the text |
| SqlLaws.HoleBetween | storjscandb/dbx/storjscandb.dbx.go:1109-1173 | A hole between two fixed texts reads as the one, its content and the other |
| SqlLaws.ListsAppend | storjscandb/dbx/storjscandb.dbx.go:1109-1124 | Two lists that have something in them render one after the other with exactly one separator in between |
| SqlLaws.ListsOfFew | storjscandb/dbx/storjscandb.dbx.go:1109-1124 | A list with nothing in it is empty, and one part stands for itself |
| SqlLaws.NilVanishes | storjscandb/dbx/storjscandb.dbx.go:1113-1116 | An absent part leaves no trace, wherever it stands in a list |
| SqlLaws.ConditionTexts | storjscandb/dbx/storjscandb.dbx.go:1140-1156 | The four comparisons, written out |
| SqlLaws.UpdateArguments | storjscandb/dbx/storjscandb.dbx.go:1672-1707 | An update reads as its head, its assignments joined by commas and its tail, and binds one argument for each assignment and one for its condition |
| SqlLaws.InsertParameters | storjscandb/wallets.go:32 | The values of an insert are numbered one to three |
| SqlRender.Render | storjscandb/dbx/storjscandb.dbx.go:926-948 | For all options: render, flatten unless told not to, terminate unless told not to, rebind |
| SqlRender.StatementMeaning | storjscandb/dbx/storjscandb.dbx.go:926-948 | A statement is its source text with placeholders numbered and whitespace then normalised, under the same exact condition |
| SqlRender.StatementArguments | storjscandb/dbx/storjscandb.dbx.go:926-948 | The statement has as many placeholders as its parts, if and only if none follows the first comment |
| LogStream.ERC20TransferIterator.Next | tokens/erc20/erc20.go:635-672 | One call under any scheduling choice: the failed, the draining and the waiting iterator |
| LogStream.NextOutcome | tokens/erc20/erc20.go:635-672 | A call yields the next remaining log, or stops because nothing remains, a log does not unpack, or the subscription failed |
| LogStream.DrainYieldsPrefix | tokens/erc20/erc20.go:635-672 | Under every schedule the events are an in-order prefix without repeats, all of them when no failure is recorded, and independent of the schedule when the subscription ends with no error |
| LogStream.FailingOutcomes | tokens/erc20/erc20.go:652-670 | A subscription that ends with an error may yield any number of its decodable logs, and loses at most the last ones, as many as the channel holds: each count in that range has a schedule, no other count has |
| Scan.ProcessBatch | blockchain/events/events.go:168-199 | The batch is exactly what the iterator yielded, converted; a refused query is an error, a failed iteration is not |
| Scan.GetWindow | blockchain/events/events.go:151-163 | The chunk loop queries the chunks of the wallet list in order and returns their events, or the first error |
| Scan.GetWindows | blockchain/events/events.go:139-165 | The window loop makes the stated number of iterations and returns the events of all windows in order, or the first error |
| Scan.GetEventsForEndpoint | blockchain/events/events.go:115-166 | Dial, contract and binding errors, the empty range, the clamp and the loops, in that order |
| ScanFailures.EndpointFails | blockchain/events/events.go:115-173 | A scan fails with what goes wrong first: the dial, the contract address, the binding, or the first refused query, window by window and chunk by chunk; otherwise it succeeds |
| ScanFailures.UpperExact | blockchain/events/events.go:140-149 | Nothing above the head that was read can be returned if and only if nothing is scanned or the range divides into whole windows: otherwise the last query is open-ended |
| ScanCoverage.LimitExact | blockchain/events/events.go:132-138 | On a fixed chain whose matching logs unpack, with the start below the head, a transfer is returned if and only if its block is not below the start and not further behind the head than the limit; a negative limit is none |
| ScanCoverage.NegativeStartScansNothing | blockchain/events/events.go:103-135 | A negative start wraps around to a block above every head, so nothing is scanned |
| ScanProperties.BatchIsPrefix | blockchain/events/events.go:168-199 | A served query returns a prefix of the matching logs in chain order |
| ScanProperties.BatchReads | blockchain/events/events.go:176-198 | Position by position the events of a batch have the chain id and the sender, recipient, block hash, block number, transaction, index and amount of the logs that match |
| ScanProperties.BatchComplete | blockchain/events/events.go:168-199 | A served batch is complete under every schedule if and only if nothing matches, or the subscription ends with no error and every matching log unpacks |
| ScanProperties.ChunksPartition | blockchain/events/events.go:151-156 | The chunks are non-empty, at most the batch size, and concatenate to the wallet list |
| ScanProperties.IterationsIsCeiling | blockchain/events/events.go:140 | The window loop makes the ceiling of range over batch size iterations |
| ScanProperties.WindowsBag | blockchain/events/events.go:139-165 | As multisets, the windows return no more than each transfer of the range once plus those of the shared boundary blocks once more, and exactly that if and only if every matching log of the range unpacks |
| ScanProperties.EndpointExact | blockchain/events/events.go:132-165 | On a fixed chain with distinct wallets no event is returned more often than it should, once or twice when its block starts a later window, and all are returned as often if and only if every matching log from the clamped start to the head unpacks; nothing when the start is not below the head |
| ScanCoverage.EndpointSafe | blockchain/events/events.go:132-165 | Whatever the nodes answer: only listed recipients, only the endpoint's chain, nothing below the start |
| ScanCoverage.EndpointReads | blockchain/events/events.go:132-199 | Whatever the node answers, every event of a scan reads, field by field, as a log of a chain the node served, to a listed wallet, that unpacks, at or above the start |
| ScanCoverage.EndpointCovers | blockchain/events/events.go:132-165 | Even when each query sees another view of the chain, every transfer from the clamped start in the blocks all views share is returned when the logs for listed wallets there unpack |
| ScanCoverage.EndpointLossExact | blockchain/events/events.go:132-165 | On a fixed chain, all transfers of a block range are returned if and only if all matching logs of the range unpack and none lies below the clamped start |
| Cursor.EventsService.GetForSatellite | blockchain/events/events.go:56-87 | One call: the caller's start blocks raised to the cursor, the scan, and the new cursors; the caller's map is raised even on failure |
| Cursor.EventsService.GetEvents | blockchain/events/events.go:94-113 | The endpoints in order, with the first failure ending the call |
| ScanFailures.CallFails | blockchain/events/events.go:63-113 | A call fails with the error of the wallet listing, or else of the first endpoint whose head or scan fails; otherwise it succeeds |
| Cursor.EventsService.RaiseToCursor | blockchain/events/events.go:57-62 | The loop over the cursor map, in any order, raises every smaller start block |
| Cursor.RaisedMeans | blockchain/events/events.go:57-62 | A start block ends up at the greater of what the caller asks for and the cursor |
| Cursor.EventsService.AdvanceCursor | blockchain/events/events.go:76-85 | The loop over the scanned blocks, in any order, sets each scanned chain's cursor to the head less the buffer, or to 0 when that is not positive; all other chains and satellites keep theirs |
| CursorRuns.CursorUpdates | blockchain/events/events.go:71-86 | All or nothing, and isolated: a failing call moves no cursor, a successful one sets exactly the scanned chains of its own satellite |
| CursorRuns.NothingBelowCursor | blockchain/events/events.go:57-62 | Whatever start the caller asks for, no event below the cursor the call began with |
| CursorRuns.CursorFollowsHead | blockchain/events/events.go:76-85 | Over every run a cursor is the last head seen less the buffer when that is positive, else 0 |
| CursorRuns.NeverAgain | blockchain/events/events.go:56-87 | With non-decreasing heads a block below a cursor is never reported again |
| CursorRuns.RunCovers | blockchain/events/events.go:56-87 | Over every run, with reorganisations above the cursor, failing calls and other satellites in between, all transfers to a listed wallet have been returned by some scan, up to the cursor, and from the first block scanned or the first cursor set on, whichever is lower; the scanned logs below the new cursors must unpack |
| LossRuns.RunLossExact | blockchain/events/events.go:56-87 | Over every run with steady nodes, constant wallets and cursors that do not move back, all transfers to the wallets in that range have been returned, if and only if every log that some call put below the cursor unpacks, and lies at or after the first block which that call scanned or had been returned before |
| CursorRuns.CallLossExact | blockchain/events/events.go:56-87 | On a fixed chain a call returns every transfer between the old and the new cursor if and only if all matching logs there unpack and none lies below the first block scanned |
| CursorRuns.StepLossExact | blockchain/events/events.go:76-85 | A scan loses no transfer between the old and the new cursor, on every fixed chain whose matching logs there unpack, if and only if the cursor does not advance, or the caller did not ask to start later and the head is within the maximum query size |
| CursorRuns.UndecodableLosesSilently | blockchain/events/events.go:174-198 | A log that does not unpack makes a call succeed with no events, on an intact subscription, while the cursor moves past a transfer |
| CursorRuns.FailedIterationLosesSilently | blockchain/events/events.go:174-198 | Failing subscriptions make a call succeed with no events while the cursor moves on |
| Wallets.WalletsDB.Insert | storjscandb/wallets.go:31-37 | Only a free address gets the new row, every other address and a taken one keep theirs; the answer is the wallet asked for in both cases |
| Wallets.InsertAnswerExact | storjscandb/wallets.go:31-37 | The wallet answered is the stored row if and only if the address was free or already held that very row, unclaimed |
| Wallets.InsertMisleads | storjscandb/wallets.go:31-37 | A second satellite that inserts an address is answered as its owner while the row stays with the first |
| Wallets.WalletsDB.InsertBatch | storjscandb/wallets.go:40-56 | The batch equals inserting its entries one by one |
| Wallets.WalletsDB.Claim | storjscandb/wallets.go:59-97 | Undisturbed, a claim sets the claim time of some unclaimed row of the satellite, changes nothing else and returns that wallet; it fails if and only if there is none |
| Wallets.WalletsDB.Get | storjscandb/wallets.go:100-112 | No row for the address and satellite, a null dereference for a row that is unclaimed or without info, or the stored wallet |
| Wallets.WalletsDB.GetStats | storjscandb/wallets.go:115-134 | The three counts are the sizes of the table and of its claimed and unclaimed rows |
| Wallets.WalletsDB.List | storjscandb/wallets.go:137-182 | Both listings: exactly the claimed addresses of 20 bytes, each with its info, or the empty text where that is null; an error if and only if some row was skipped |
| Wallets.BatchKeepsFirst | storjscandb/wallets.go:40-56 | For every address a batch keeps the earlier row, else records the first entry for it |
| Wallets.BatchIdempotent | storjscandb/wallets.go:40-56 | Inserting a batch again, for any satellite, changes no row |
| Wallets.InsertAllKeepsValid | storjscandb/dbx/storjscandb.dbx:60-75 | Inserts keep addresses unique and of 20 bytes, and info non-null |
| Wallets.ListsAndCounts | storjscandb/wallets.go:115-182 | The claimed count is the size of the full list, which is the disjoint union of the satellites' lists |
| WalletRuns.RunConsistent | storjscandb/wallets.go:31-97 | Over every interleaving of inserts and two-step claims: rows stay well formed, open claims hold rows that exist, grants are the claimed rows |
| WalletRuns.ListIsGrants | storjscandb/wallets.go:137-158 | A satellite's list is exactly the set of addresses its claims were given |
| WalletRuns.GetExact | storjscandb/wallets.go:100-112 | After every run a lookup succeeds exactly for the addresses given to the satellite, and dereferences null exactly for its other stored addresses |
| WalletRuns.UndisturbedClaim | storjscandb/wallets.go:61-82 | A select and an update with nothing in between meet the contract of the claim |
| WalletRuns.DoubleClaimExact | storjscandb/wallets.go:61-82 | No address is given out twice if and only if every update finds its row still unclaimed |
| WalletRuns.SerializableClaims | storjscandb/wallets.go:61-82 | When a commit requires the row read to be unchanged, no address is given out twice |
| WalletRuns.DoubleClaimWithoutIsolation | storjscandb/wallets.go:69-73 | Two claims that read the same row are both given its address |
| WalletRuns.RunRefinesAtomic | storjscandb/wallets.go:59-97 | Every serializable run has the table and the grants of a run of atomic inserts and claims |
| PriceCache.PriceQuoteDB.Before | storjscandb/tokenprice.go:38-52 | The latest row strictly before the time, or the zero quote if and only if there is none |
| PriceCache.PriceQuoteDB.Update | storjscandb/tokenprice.go:31-35 | Insert or replace one interval; a fault changes nothing |
| PriceCache.PriceQuoteDB.DeleteBefore | storjscandb/tokenprice.go:55-59 | A row stays if and only if it was there and is not below the cutoff, with its price; a fault changes nothing |
| PriceCache.DeletedFound | storjscandb/tokenprice.go:38-59 | After a deletion a lookup finds what it found before, or nothing when that row is below the cutoff |
| PriceCache.CleanUp | tokenprice/cleanup/chore.go:62-76 | Refuses a negative number of days, removes the rows older than them, and swallows the database's error |
| PriceCache.PriceService.PriceAt | tokenprice/service.go:39-64 | Answer from the table within the window, else ask, check and store; all error paths |
| PriceCache.RunOnce | tokenprice/chore.go:53-61 | The latest price is stored under the minute it was observed in |
| PriceRuns.RunSound | tokenprice/service.go:39-64 | Over every interleaving of calls, chore and deletions: rows are observations of their minute, replies are at most a window old, cached ones less than a minute ahead |
| PriceRuns.PriceStepIsSteps | tokenprice/service.go:39-64 | An undisturbed call, on each of its paths, is a sequence of the interleaved steps |
| PriceRuns.KeysAligned | tokenprice/chore.go:53-61 | All stored keys are whole minutes |
| PriceCache.FreshExact | storjscandb/tokenprice.go:38-52 | The latest row is within the window if and only if some earlier row is; with no earlier row the zero time must be |
| PriceCache.SubExact | tokenprice/service.go:48-59 | Comparing a saturating difference with a duration is comparing the times, for every duration but the longest |
| PriceCache.EpochIsYears | blockchain/headers.go:84 | The times of block headers count from 1969 years and their leap days after the zero time |
| PriceRuns.ZeroQuoteExact | tokenprice/service.go:43-48 | Without an earlier quote the zero amount is answered if and only if the window is the longest duration |
| PriceRuns.PurgesAreInvisible | tokenprice/service.go:43-63 | Deletions older than every later question by the window change no reply of the whole run |
| PriceRuns.PurgesInvisibleExact | tokenprice/service.go:43-63 | Deletions show in no run if and only if the window is not the longest duration |
| HeaderCache.HeadersDB.Insert | storjscandb/headers.go:32-43 | Chain 0 is refused, a stored key conflicts |
| HeaderCache.HeadersDB.Delete | storjscandb/headers.go:46-60 | Removes the header, or reports that there is none |
| HeaderCache.HeadersDB.Get | storjscandb/headers.go:69-85 | The stored header, or the error that applies |
| HeaderCache.HeadersCache.Get | blockchain/headers.go:65-98 | Look up, fetch on a miss, store under the hash asked for |
| HeaderCache.RowsAgree | blockchain/headers.go:65-98 | Over every sequential run all stored headers agree with the chain |
| HeaderCache.CacheIsTransparent | blockchain/headers.go:65-98 | After any run the cached answer equals the uncached one and the insert does not conflict |
| HeaderCache.CacheIsSafe | blockchain/headers.go:65-98 | With database faults the answer is right or it is the fault |
| HeaderRuns.RunSound | blockchain/headers.go:65-98 | Over every interleaving of look, fetch and store steps of any number of calls with removals, faults and failing nodes: stored headers are those of the chain, and so is every header answered |
| HeaderRuns.OpenLooked | blockchain/headers.go:71-74 | Every call that has yet to store has looked for its header in vain |
| HeaderRuns.ConflictExact | blockchain/headers.go:71-92 | The store of such a call is refused as a conflict if and only if, since its lookup, another call put the header there and nothing removed it; otherwise the call is answered the right header |
| HeaderRuns.UndisturbedGet | blockchain/headers.go:71-98 | The steps of one call with nothing in between do what the call does as a whole |
| Payments.TokensService.ToPaymentsForEndpoint | tokens/service.go:96-128 | The events of one chain, in order, through the header cache and the price service; the first failure ends it |
| Payments.TokensService.ToPayments | tokens/service.go:78-94 | All endpoints in order, and the scanned header of each |
| Payments.TokensService.AllPayments | tokens/service.go:68-76 | One request: reply, cursors, both tables and the raised start blocks on every path, with the cursors moved also when the conversion fails; on success with distinct chains the payments are the scanned events, one to one and in order |
| Replies.ReplyReads | tokens/service.go:172-185 | Whatever the nodes answer, each payment of a reply carries, field by field, a log that one of them served, to a wallet of the satellite, with the endpoint's chain id |
| Replies.ReplyHeads | tokens/service.go:78-94 | A reply lists for every endpoint, in their order, the hash, number and time of the head that the last endpoint of its chain reported: its own, when chains are distinct |
| Replies.ReplyReason | tokens/service.go:68-128 | A request that fails is answered with the scan's error, or else with what goes wrong first in the conversion: a dial, a header or a price, each with its own reason |
| Payments.PaymentsArePartition | tokens/service.go:78-128 | For arbitrary events: a stable partition by endpoint |
| Payments.PartitionCount | tokens/service.go:99-104 | With distinct chains exactly the events of unknown chains are dropped and none is doubled |
| Payments.OutcomeIsGrouped | blockchain/events/events.go:94-113 | A scan returns its events already in endpoint order |
| Payments.PaymentsPriced | tokens/service.go:109-118 | Whatever the quote table held, every payment is valued at a price observed at most a window before its date, or at the zero amount when its date is within the window of the zero time; the table keeps its invariant |
| Payments.ValueIsConserved | tokens/service.go:78-128 | A successful conversion pays out exactly the token value of the events on the endpoints' chains, so of all events when every chain is known |
| Payments.PaymentsTimed | tokens/service.go:109-118 | Whatever the cache held, every payment is dated by its block on the chain |
| Conversions.ConversionExact | tokens/service.go:78-128 | A conversion succeeds if and only if no dial fails and each event on an endpoint's chain has a non-zero chain id, a header that is stored or fetched and stored without a fault, and a price that is stored within the window or answered within it and stored without a fault; the tables are then filled with these |
| Conversions.ConversionOnChain | tokens/service.go:96-128 | With truthful nodes and a headers table that works, the part about headers is that the block exists, whatever the table holds |
| PaymentRuns.FailsExactly | tokens/service.go:71-94 | A request whose scan succeeds is answered with an error if and only if that condition fails for its scan |
| PaymentRuns.DeliveredMeans | tokens/service.go:68-76 | An event has been delivered if and only if some request's scan returned it and the condition held for that scan |
| PaymentRuns.DeliveredExact | tokens/service.go:68-76 | Over every orderly run with cursors that do not move back, each transfer to a listed wallet has been delivered as a payment, up to the cursor, and from the first block scanned or the first cursor set on, whichever is lower, if and only if every request whose scan succeeded and for which a dial failed or an event had no header or no price passed only transfers that an earlier request had delivered |
| PaymentRuns.LateStartCounts | blockchain/events/events.go:132-138 | A first request with a start above the head (or a negative one) scans nothing and sets the cursor; a transfer that the next request returns and fails to convert counts as not delivered |
| PaymentRuns.LostForGood | tokens/service.go:71-75 | While cursors do not move back, an event below the cursor that was not delivered is never delivered later |
| PaymentRuns.FailedDialLoses | tokens/service.go:96-100 | A scan that returns a transfer, followed by a dial that fails: the satellite gets an error, the cursor has passed the transfer, and no later request delivers it |
| PaymentRuns.PaymentsSound | tokens/service.go:78-128 | For arbitrary events and tables filled by any interleavings of the header and price caches, each payment is dated by its block and valued at a price observed at most a window before that date; the zero amount instead only when the window is the longest duration |

## Left out

- HTTP routing, authentication, JSON, health endpoints, command line, logging, metrics and chore timers.
- The coinmarketcap client, dialling, ABI decoding and generated contract bindings: they appear as answers or failures.
- HD wallet derivation, schema migrations, and the second, equal copy of each query for the other database driver.
- Decimal rounding of token values, token values beyond 64 bits, and header times beyond the range of 64-bit seconds.
- Faults of the wallets table's database: a failing statement leaves the table as it is and is returned.
- Data races on the cursor map, which has no lock.
- `GetByNumber` and `List` of the headers table, and payments of a single address, which move no cursor.
- Runs in which logs do not unpack while nodes serve differing views: `CursorRuns.RunCovers` asks that the scanned logs below the new cursor unpack, `LossRuns.RunLossExact` that nodes serve the chain as it stands.
- Scan.ProcessBatch: does not model the copying of the recipient list into filter rules by `FilterTransfer`; `Scan.Sent` states what the query selects.
- Cursor.EventsService.GetForSatellite: takes the wallet list in the order a map yields it as an argument, with the error of the listing, instead of calling the wallet table.
- WalletRuns.RunConsistent: a batch insert is one step, because it only adds unclaimed rows with fresh ids, in any order of its statements.
- HeaderCache.CacheIsTransparent: sequential runs only; overlapping calls may conflict, which `HeaderRuns.ConflictExact` states exactly.
- PriceRuns.PurgesAreInvisible: calls as a whole, without interleaving of their steps; `PriceRuns.RunSound` is about interleaved steps.
