# The Magellan indexer: proofs about its index, its ingestion and its readers

Magellan follows an Axia node and keeps a relational index of it. Producers put what the node accepted into a pool
table. Consumers turn each pooled row into outputs, redemptions and per-address *work rows*. Balance workers poll the
work rows, lock a few at a time and add them to three balance tables. Readers answer from those tables or, more
slowly, from the outputs themselves. This project models that pipeline and proves what it is meant to guarantee.

## Layout

| files | what they hold |
|---|---|
| `Sums.dfy`, `Seqs.dfy`, `Times.dfy`, `Wrappers.dfy` | sums over finite sets, sequences without repeats, the unit of time, shared outcomes |
| `Ledger.dfy` | the tables as maps keyed by their primary keys, and every write as a function on them |
| `Transactions.dfy`, `Writer.dfy`, `PvmWriter.dfy`, `WriterTheorems.dfy` | transactions, the writers of transactions and of platform-chain blocks over a class `Database`, output numbering, fees |
| `TransactionRows.dfy`, `TransactionHistory.dfy` | the rows a transaction leaves, said of its own inputs and outputs, and lists of transactions and blocks as histories |
| `History.dfy`, `Steps.dfy`, `Protocol.dfy`, `IndexTheorems.dfy`, `AddressReader.dfy` | the concurrent index: its invariant, its steps, its runs, and the two address listings |
| `Balance.dfy`, `BalanceTxs.dfy`, `WakeUp.dfy` | the balance workers' loops, and how they are woken |
| `WriterEffects.dfy`, `DrainTheorems.dfy`, `FlagTheorems.dfy`, `Progress.dfy` | what writers leave alone, draining with every worker at work, when the flagged poll is enough, and that every run can go on until it is caught up |
| `BlockProducer.dfy`, `BlockProtocol.dfy` | the AX-chain producer: catch-up, following, write order, restarts |
| `ChainProducer.dfy` | the chain producer and its durable cursor |
| `IndexedLists.dfy`, `TxPool.dfy`, `TxPoolProtocol.dfy` | the list of processed rows, the pool's consumers and their bounded queue |
| `Histogram.dfy`, `StreamPage.dfy`, `CursorPage.dfy`, `CursorTheorems.dfy`, `CursorText.dfy`, `TxSnapshot.dfy` | four readers |

## How it is modelled

- Row ids are hashes of some of the row's fields, and an output id is a transaction id prefixed by an index. Both are
  modelled by the tuple they are computed from, which takes the hash to be injective.
- Inserts ignore a duplicate key, as `db/dbmodel.go` does with `PerformUpdates` off (its value in `cfg/globals.go`).
- A database transaction is one step, or none when it rolls back. A poll is an earlier step of its own, so the list a
  worker acts on may be stale, shuffled and shared with any other worker. Inserts made outside a database transaction
  (genesis outputs, and rewards, whose writer is given the session and not the transaction it opened) are single steps.
- A history fixes what each output id stands for and who spends it. `TransactionsMakeHistory` shows that any list of
  content-addressed transactions without double spends is one, one database transaction an item: a transaction of the
  other chains, or a whole block of the platform chain.
- Failures, stop requests and answers of the node are parameters or free choices of a run; a method that may fail is
  given a budget of calls that succeed, or a sequence of faults, over which it is proved for every value.
- The imperative loops are proved against functions on tables; theorems about runs use the same functions as steps. What
  those functions come to is stated apart from them, over the fields of transactions, blocks, rows and requests:
  `TransactionRows.Recorded`, `PvmWriter.PvmRows`, `IndexTheorems.Answers`, `BlockProducer.InPool`, `Histogram.Describes`,
  `TxPool.AreUnlisted`, `CursorText.Continues` and `TxSnapshot.AreRowsOf`.

## What the proofs found

- The retry counter of the drain loops never stops them: it restarts at zero and is incremented after every full or
  locked round, so it is never above one (`Balance.RunEvent`).
- The fee is the truncated difference exactly when the output sum does not wrap, or wraps to no less than the inputs
  (`FeeExact`); `FeeWraps` is a transaction with outputs above its inputs and a positive fee.
- A secp output of any asset adds to the supply total of an operation transaction, so amounts of unrelated assets can
  overflow together and fail it (`UnrelatedSuppliesOverflow`; `OperationAccepted` is the exact condition).
- When a spend is indexed before its output, the owners that did not sign get their work rows later and unflagged, and
  only the ticker's poll finds them (`UnsignedSpendFirst`). The flagged poll is enough in every reachable state if and
  only if every owner signs wherever some order of the items brings the owner's row after the spend
  (`FlaggedPollExactly`); for transactions and blocks, wherever one of them creates an output and another spends it
  (`FlaggedPollForTransactions`).
- `IndexedList` does not refresh a key pushed again, so it holds the newest *effective* pushes (`HoldsNewestEffective`);
  in `RepeatDoesNotRefresh` the second newest key is gone. It always holds the most recently pushed keys if and only if
  no push repeats one of them other than the very last (`NewestExactly`).
- Two producers sharing a cursor row may move it back (`SharedRowMayStepBack`); with updates off the cursor never does
  in any run if and only if at most one producer is allowed on the row (`MonotoneExactly`). What lies below it is in
  the pool all the same (`CursorSafe`).
- The histogram has the requested buckets and undivided totals exactly when no row lies past the last bucket
  (`HistogramExact`, `HistogramExactOnlyThen`), and over every table exactly when the bounds fit (`ExactExactly`).
  Whole-second starts and intervals always fit; a fractional interval may not (`FractionOverhangs`). Request times are
  rounded to whole seconds, so only the interval matters.
- A listing by asset without an address reads joined rows, one for each output, and its statement stops at 100000 of
  them. A transaction with that many rows hides the next one although the page has room, and with no limit too
  (`CapHides`). The page is what it is meant to be if and only if the rows past the cap add no transaction, or the
  offset is past them all, or there is a limit and the rows before the cap fill the page (`PageExactly`).
- Such a page may be short or empty while rows remain, which ends the walk along the cursor (`CapEndsWalk`), or end in
  a second whose other transactions it never saw (`CapSkips`).
- With a search query the transactions are not sorted, yet the next page's cursor is still taken from the last row: a
  transaction can be shown twice (`SearchRepeats`) or passed over in another second (`SearchOmits`). Over every table
  and walk nothing repeats, and pages follow in order, if and only if there is no search query or pages hold one row
  (`RepeatsExactly`).
- Over every table with so many rows in the window, omissions are only those of a shared second, with no search query,
  if and only if the rows fit under the cap or there is no offset and the limit is at most one; with one, if and only
  if they fit under the cap and all come on the first page (`OmissionsExactly`). Everything is shown where no second is
  cut in two under the same conditions, but not without a limit beyond the cap (`CompleteExactly`).
- Where the cap does not bite, sorted paging leaves out exactly the rows that share a second with the last row of a
  page they are not on (`OmittedExactly`, `SharedSecondOmits`), which is to say nothing if and only if cutting the rows
  after every `limit` of them never cuts a second in two (`ShowsAllExactly`).

## Model

| member | source | states |
|---|---|---|
| Ledger.PutRows | db/dbmodel.go:675-731 | an insert that ignores duplicates adds at most its own row and changes no row that is there |
| Ledger.ApplyPartsAppend | services/indexes/axc/writer.go:76-111 | writing a list of inputs and outputs in two goes leaves the same tables as in one |
| Ledger.CreditIs | balance/balance_manager.go:421-512 | insert, lock and update come to one increase, and the only error of a credit is a missing output or address row |
| Ledger.CountEachOk | balance/balance_manager.go:651-697 | insert, lock and update of a count come to one increment, whatever the tables, so counting meets no error |
| Writer.Database.InsertOutputAddressAccumulateOut | db/dbmodel.go:1643-1679 | the received work row is inserted unprocessed unless present; nothing else changes |
| Writer.Database.InsertOutputAddressAccumulateIn | db/dbmodel.go:1701-1735 | the sent work row is inserted with both flags clear unless present; nothing else changes |
| Writer.Database.InsertOutputAddresses | db/dbmodel.go:943-979 | the address row is inserted unless present; a signature does not replace what is there |
| Writer.Database.UpdateOutputAddresses | db/dbmodel.go:981-997 | the signature of an existing row is set; a missing row stays missing |
| Writer.Database.InsertOutputTxsAccumulate | db/dbmodel.go:1795-1815 | the transaction work row is inserted unprocessed unless present |
| Writer.Database.InsertOutputs | db/dbmodel.go:675-731 | the output row is inserted unless present |
| Writer.Database.InsertOutputsRedeeming | db/dbmodel.go:584-623 | the redemption is inserted unless present, so the first spender stays |
| Writer.Database.UpdateOutputAddressAccumulateInOutputsProcessed | db/dbmodel.go:1737-1753 | every sent work row of the output is flagged, whatever its address |
| Writer.Database.InsertTransactions | db/dbmodel.go:508-548 | the first fee stored for a transaction stays |
| Writer.Database.InsertOutputAddress | services/indexes/axc/writer.go:331-403 | both work rows and the address row exist afterwards, signed if a signature was given |
| Writer.Database.InsertOutput | services/indexes/axc/writer.go:247-316 | all owners' rows are inserted and then the output, the effect the protocol takes as one part |
| Writer.Database.InsertTransactionIns | services/indexes/axc/writer.go:167-227 | fails exactly when the AXC total would overflow; otherwise signers, flag and redemption are written |
| Writer.Database.ProcessStateOut | services/indexes/axc/writer.go:405-550 | fails exactly for an unknown output or an overflowing total; else one output is written and each total grows by its share; whose rows those are is `Consume`'s last clause |
| Writer.Database.InsertTransactionOuts | services/indexes/axc/writer.go:229-245 | one output written, the fee total grown by its AXC amount, with the exact failure condition |
| Writer.Database.InsertIns | services/indexes/axc/writer.go:76-92 | the loop over inputs writes each once and sums the AXC ones, failing exactly on overflow |
| Writer.Database.InsertOuts | services/indexes/axc/writer.go:94-111 | the loop over outputs numbers them consecutively from its start and sums the AXC ones |
| Writer.Database.ComputeFee | services/indexes/axc/writer.go:113-118 | wrapped 64-bit subtraction with the two resets gives zero or the truncated difference |
| Writer.Database.InsertTransaction | services/indexes/axc/writer.go:57-132 | inputs, added inputs, outputs and added outputs under one numbering, and the stored fee; exact failure condition |
| Writer.Database.InsertEachOut | services/indexes/avm/writer.go:373-379 | the first pass over the base outputs writes them under the numbers they get again later |
| Writer.Database.InsertAssetOuts | services/indexes/avm/writer.go:394-400 | one operation's outputs continue the numbering, supply and fee totals |
| Writer.Database.InsertGroups | services/indexes/avm/writer.go:384-401 | the nested loops write the outputs of all operations as one numbered list |
| Writer.Database.InsertOperationTx | services/indexes/avm/writer.go:356-404 | base outputs twice, operation outputs once, inputs of operations consumed with the signers of their credentials; exact failure condition and stored fee |
| Writer.Database.InsertCreateAssetTx | services/indexes/avm/writer.go:406-452 | the same for the initial states of an asset, with its supply recorded once |
| Writer.Database.InsertTransactionsRewardsOwners | services/indexes/pvm/writer.go:606-622 | exactly the two ids after the transaction's own outputs are set aside |
| Writer.Database.InsertTxInternal | services/indexes/avm/writer.go:305-354 | each kind of transaction is accepted exactly under its own condition, with the table effect, fee and supply of that kind |
| Writer.Database.Rollback | services/indexes/avm/writer.go:260-266 | tables, fees and supplies return to what was saved |
| Writer.Database.Consume | services/indexes/avm/writer.go:237-269 | an accepted transaction is indexed entirely, with its fee and supply: for each output, kind by kind, a row with its amount and work, address and transaction rows of each listed owner; for each input a redemption and its signers' rows; and nothing else. Any other transaction leaves every table as it was |
| TransactionRows.TransactionRecorded | services/indexes/axc/writer.go:57-132 | the rows of an accepted transaction of every kind, over its own fields: outputs numbered through with their amounts, chains and owners, inputs with their redemption and signers, no row without its reason, and no old row lost |
| TransactionRows.OutputRecorded | services/indexes/axc/writer.go:415-545 | each of the five kinds of output: its amount or none, and every listed owner's work, address and transaction rows |
| TransactionRows.InputRecorded | services/indexes/axc/writer.go:187-226 | an input redeems its output unless that is redeemed already; its signers' rows are there, signed and flagged |
| TransactionRows.NothingElseRecorded | services/indexes/axc/writer.go:57-132 | every new row belongs to an output the transaction has, an owner it lists, or an input it has with a signer of it |
| PvmWriter.IndexTransaction | services/indexes/pvm/writer.go:454-579 | each kind of platform transaction is accepted exactly under its own condition; afterwards base outputs are numbered from 0 on the chain itself, stakes after them on the same chain, exported outputs after them on their own chain, every base and imported input is redeemed, and nothing else is new; a rewards owner sets two ids aside |
| PvmWriter.IndexBlock | services/indexes/pvm/writer.go:395-428 | a block succeeds if and only if all its transactions do, and then each in turn leaves the rows of its kind over the tables the one before left |
| PvmWriter.ConsumeBlock | services/indexes/pvm/writer.go:251-267 | a block is indexed entirely, each transaction in turn leaving the rows of its kind, or leaves every table as it was |
| PvmWriter.PvmRecorded | services/indexes/pvm/writer.go:454-579 | the rows of each kind of platform transaction over its own fields, with stakes numbered after the change |
| PvmWriter.ReservedKeys | services/indexes/pvm/writer.go:606-622 | the reserved ids are the two after all base and staked outputs |
| WriterTheorems.CreatedTwice | services/indexes/avm/writer.go:370-379 | creating an output again after anything else changes no table, so processing base outputs twice is harmless |
| WriterTheorems.BaseNumbering | services/indexes/axc/writer.go:94-111 | base and added outputs use every index from 0 up once, each for one output |
| WriterTheorems.OperationNumbering | services/indexes/avm/writer.go:370-401 | operation outputs continue the base outputs' indices, although these are written twice |
| WriterTheorems.CreateAssetNumbering | services/indexes/avm/writer.go:414-433 | so do the outputs of an asset's initial states |
| WriterTheorems.RewardsFollowOutputs | services/indexes/pvm/writer.go:606-622 | the two reserved reward ids belong to no output and directly follow the last one |
| WriterTheorems.FeeExact | services/indexes/axc/writer.go:113-118 | the fee is the truncated difference if and only if the output sum does not wrap, or wraps to at least the inputs |
| WriterTheorems.FeeWraps | services/indexes/axc/writer.go:113-118 | a concrete transaction whose wrapped output sum gives it a fee it never paid |
| WriterTheorems.OperationFee | services/indexes/avm/writer.go:370-403 | each AXC output counts once towards the fee although base outputs are processed twice |
| WriterTheorems.OutTotals | services/indexes/axc/writer.go:415-545 | what each kind of output adds to the AXC total and to the supply total, and which kinds are refused |
| WriterTheorems.TxFeeExact | services/indexes/axc/writer.go:57-132 | for every kind of accepted transaction the stored fee is the truncated difference of all its AXC inputs and all its AXC outputs, each once, where the output sum does not wrap |
| WriterTheorems.AcceptedExactly | services/indexes/avm/writer.go:305-452 | for every kind: accepted if and only if all outputs are of known kinds and no total overflows, operations' and states' outputs totalled apart from the base outputs |
| WriterTheorems.UnrelatedSuppliesOverflow | services/indexes/axc/writer.go:541-544 | two operations on unrelated assets, each within 64 bits, that fail together for their common supply total alone |
| TransactionHistory.CreatedIds | services/indexes/axc/writer.go:263 | every output id carries its transaction's id and stands for one output within it |
| TransactionHistory.TransactionsMakeHistory | services/indexes/pvm/writer.go:395-428 | content-addressed transactions without double spends, alone or in blocks, form a valid history, each item what the writer applies in one database transaction |
| TransactionHistory.TransactionsIndexed | services/indexes/axc/reader.go:514-572 | once such transactions are consumed and the index is quiet it holds exactly their outputs and spends, and both listings agree |
| TransactionHistory.OutputIsIndexed | services/indexes/axc/writer.go:247-316 | a quiet index has a row for every output of those transactions, of its chain, asset and amount |
| TransactionHistory.InputIsIndexed | services/indexes/axc/writer.go:187-226 | and a redemption by the spending transaction for every input |
| TransactionHistory.RowsAreListed | services/indexes/axc/writer.go:57-132 | and no output row or redemption that is not one of theirs |
| History.AddOutputAddressKeeps | services/indexes/axc/writer.go:366-402 | inserting work rows before the address row keeps the index invariant at every history |
| History.AddOutputKeeps | services/indexes/axc/writer.go:314-315 | inserting the output last, its addresses being there, keeps the invariant |
| Steps.CreateOutKeeps | services/indexes/axc/writer.go:267-315 | creating an output keeps the invariant and leaves its row and its owners' rows behind |
| Steps.SpendInKeeps | services/indexes/axc/writer.go:185-226 | recording a spend keeps the invariant, in particular that a flag implies a redemption |
| Steps.AdvanceKeeps | services/rewards/rewards_handler.go:163-187 | each single insert of a writer outside a database transaction keeps the invariant |
| Steps.UndisturbedTask | services/rewards/rewards_handler.go:170-183 | those inserts, undisturbed, add up to the insert made inside a transaction |
| Steps.CreditKeeps | balance/balance_manager.go:409-516 | crediting a stale but unprocessed row succeeds, keeps the invariant and processes exactly that row |
| Steps.CreditAllKeeps | balance/balance_manager.go:395-407 | so does a whole locked batch |
| Steps.CountTxKeeps | balance/balance_manager.go:635-697 | counting an unprocessed transaction row keeps the invariant and processes exactly that row |
| Steps.CountAllKeeps | balance/balance_manager.go:621-632 | so does a whole locked batch of transaction rows |
| Protocol.PostKeeps | balance/balance_manager.go:362-407 | a committed batch from a stale list keeps the system invariant and never meets an error |
| Protocol.StepKeeps | balance/balance_manager.go:321-407 | every step of every writer and worker keeps the system invariant |
| Protocol.RunKeeps | balance/balance_manager.go:168-210 | the invariant holds in every state of every run |
| AddressReader.Collate | services/indexes/axc/reader.go:593-613 | the loop gathers every row under its chain and address and invents none |
| AddressReader.FastListed | services/indexes/params/collections.go:425-432 | a balance row is listed if and only if it is on a requested chain, or no chain is requested, and of the requested address, if there is one |
| AddressReader.SlowListed | services/indexes/params/collections.go:415-424 | from the outputs an account is listed if and only if it has any and the same holds, although addresses are chosen first |
| IndexTheorems.ExactlyOnce | balance/balance_manager.go:362-516 | in every reachable state a balance row is the sum and count over exactly the processed work rows of its account |
| IndexTheorems.TransactionsCountedOnce | balance/balance_manager.go:635-697 | in every reachable state a transaction count is the number of processed transaction rows, whoever inserted them |
| IndexTheorems.InvalidBalanceUnreachable | balance/balance_manager.go:431-500 | no reachable batch meets a missing row or an unlocked balance, also with inserts made outside transactions |
| IndexTheorems.FlagMeansRedeemed | services/indexes/axc/writer.go:221-226 | a spent flag implies a committed redemption, a processed spend both the redemption and the output |
| IndexTheorems.SpendsDetected | balance/balance_manager.go:277-288 | when the ticker's poll is empty the processed spends are exactly those with output and redemption, in either order of indexing |
| IndexTheorems.SourcesIndexed | services/indexes/axc/writer.go:247-316 | a caught-up index holds the outputs and spends of its history, all of them and no others |
| IndexTheorems.Confluence | balance/balance_manager.go:362-516 | any two runs over one history that consumed everything and went quiet hold the same tables, but for the spent flag that steers polls |
| IndexTheorems.FastEqualsSlow | services/indexes/axc/reader.go:522-567 | then, for every account, the balance tables give the five numbers recomputed from the outputs, or neither has a row |
| IndexTheorems.ListingsAgree | services/indexes/axc/reader.go:514-572 | both listings return the same rows under every filter: one for each account of a requested chain and address that the history ever gave an output to, each with the received, spent and unspent sums, the unspent count and the number of transactions recounted from the history |
| Balance.ProcessOutputsPre | balance/balance_manager.go:258-319 | the poll returns distinct eligible rows, all of them or as many as the limit |
| Balance.MarkRow | balance/balance_manager.go:421-427 | one work row's flag is set and nothing else changes |
| Balance.InsertBalance | balance/balance_manager.go:473-481 | the account's row is inserted at zero unless present |
| Balance.UpdateBalance | balance/balance_manager.go:502-512 | an existing row gains the amount and one output |
| Balance.AddAmount | balance/balance_manager.go:473-512 | insert, lock and add: the row gains the amount and one output, or the error says it could not be locked |
| Balance.ProcessOutputsBase | balance/balance_manager.go:409-516 | one row is marked and credited, or refused when its output or address row is missing |
| Balance.LockRows | balance/balance_manager.go:384-393 | exactly the still unprocessed rows of the batch are locked |
| Balance.CreditLocked | balance/balance_manager.go:399-404 | the locked rows are credited one after another without an error |
| Balance.ProcessOutputsPost | balance/balance_manager.go:362-407 | commits the credit of exactly the unprocessed part of the batch, or leaves the tables alone |
| Balance.PostedBatch | balance/balance_manager.go:362-407 | after a commit every row of the batch is processed, once, however stale the batch was |
| Balance.RepeatForLock | balance/balance_manager.go:699-711 | repeats until the batch is committed or an error other than a lock appears |
| Balance.CreditPolled | balance/balance_manager.go:335-357 | the refilled batches partition the polled list: without an error every polled row is processed |
| Balance.ProcessOutputs | balance/balance_manager.go:321-360 | a round undisturbed by others removes exactly as many rows from the eligible ones as it reports; with others see `RoundProcesses` |
| Balance.RunEvent | balance/balance_manager.go:129-146 | the drain loop undisturbed by others ends, and without an unrelated error no eligible row is left; with others see `RoundsBounded` and `ShortRoundEmpties` |
| BalanceTxs.ProcessTransactionsPre | balance/balance_manager.go:518-548 | the poll returns distinct unprocessed transaction rows, all of them or as many as the limit |
| BalanceTxs.ProcessTransactionsBase | balance/balance_manager.go:635-697 | the row is marked and its account's count gains one from zero if it was missing, or the error says it could not be locked |
| BalanceTxs.CountLocked | balance/balance_manager.go:625-630 | the locked rows are counted one after another without an error |
| BalanceTxs.ProcessTransactionsPost | balance/balance_manager.go:591-633 | a commit leaves each row of the batch processed, having counted those that were not, and keeps the invariant |
| BalanceTxs.Counted | balance/balance_manager.go:610-632 | whichever order the lock returns, the eligible rows shrink by exactly the batch |
| BalanceTxs.CountPolled | balance/balance_manager.go:564-586 | the batches partition the polled transaction rows |
| BalanceTxs.ProcessTransactions | balance/balance_manager.go:550-589 | a round undisturbed by others removes exactly as many rows as it reports; with others see `TxsRoundProcesses` |
| BalanceTxs.RunEventTxs | balance/balance_manager.go:174-191 | the drain loop undisturbed by others ends, and without an unrelated error no transaction row is left uncounted; with others see `RoundsBounded` |
| WriterEffects.WriterKeepsWork | services/indexes/axc/writer.go:366-384 | no writer's step changes what has been processed; new work rows come unprocessed |
| DrainTheorems.PostWork | balance/balance_manager.go:362-407 | a post from a list of any age processes exactly its locked rows, and leaves its whole batch processed |
| DrainTheorems.WorkerStepShrinks | balance/balance_manager.go:321-407 | no worker's step enlarges the unprocessed rows of a kind; a post with locked rows shrinks them, and the backlog by at least as many |
| DrainTheorems.RoundProcesses | balance/balance_manager.go:335-359 | whatever other workers and writers do meanwhile, a round leaves every polled row processed |
| DrainTheorems.TxsRoundProcesses | balance/balance_manager.go:564-588 | so does a round over transaction rows |
| DrainTheorems.ShortRoundDrains | balance/balance_manager.go:186-191 | a round that polled all there was leaves everything eligible at its poll processed |
| DrainTheorems.ShortRoundEmpties | balance/balance_manager.go:186-191 | and without writers nothing is left for that poll to find |
| DrainTheorems.ShortTxsRoundDrains | balance/balance_manager.go:174-191 | a round that polled all transaction rows there were leaves every one of them counted |
| DrainTheorems.ShortTxsRoundEmpties | balance/balance_manager.go:174-191 | and where neither writers nor posts of work rows run meanwhile, no transaction row is left to poll |
| DrainTheorems.WorkBounded | balance/balance_manager.go:384-407 | without writers all workers together lock no more rows than the backlog, however their lists overlap |
| DrainTheorems.PostsBounded | balance/balance_manager.go:395-406 | a run without writers has at most as many posts that find a row as its backlog at the start |
| DrainTheorems.RoundsBounded | balance/balance_manager.go:79-118 | without writers one worker's rounds poll no more rows in all than the backlog, whatever the others do, so full rounds are bounded |
| Progress.AlwaysCatchesUp | balance/balance_manager.go:168-210 | every run of a valid history, whatever is half done, goes on to one that has consumed everything and left no poll a row |
| FlagTheorems.SignersAlwaysFlagged | services/indexes/axc/writer.go:187-226 | in every reachable state the rows of everyone who signed a spend are flagged |
| FlagTheorems.DueIsFlagged | balance/balance_manager.go:277-288 | if the owners of every output that some order spends before their rows exist sign, each row that is due carries its flag |
| FlagTheorems.ExposedIsMissed | db/dbmodel.go:1737-1753 | for any other such owner a run reaches a state where the flagged poll is empty and the row is due |
| FlagTheorems.FlaggedPollExactly | balance/balance_manager.go:277-288 | for every history an empty flagged poll is enough in every reachable state if and only if those owners sign |
| FlagTheorems.ExposedIsCrossing | services/indexes/axc/writer.go:76-111 | where no item creates an output after spending it, those outputs are the ones one item creates and another spends |
| FlagTheorems.FlaggedPollInOrder | balance/balance_manager.go:277-288 | there the flagged poll is enough in every reachable state if and only if every owner of such an output signs its spend |
| TransactionHistory.FlaggedPollForTransactions | balance/balance_manager.go:277-288 | for transactions and blocks that spend in order, the flagged poll is enough if and only if every owner signs the spend of an output that crosses from one to another |
| FlagTheorems.UnsignedSpendFirst | db/dbmodel.go:1737-1753 | a reachable index in which the flagged poll is empty and the ticker's poll is not |
| WakeUp.StepKeeps | balance/balance_manager.go:201-231 | with any number of calls sending one channel after another, a send dropped on a full channel loses no worker's obligation to poll |
| WakeUp.NoLostWakeUp | balance/balance_manager.go:212-231 | a worker with no token that is not about to poll has, unless its run failed, polled everything committed before any returned wake-up call began |
| WakeUp.ServedSoFar | balance/balance_manager.go:217-230 | a call still under way has served every worker whose channel it has tried |
| BlockProducer.NoGapByCount | stream/producer_axchain.go:377-385 | the count equals the maximum plus one if and only if no block below it is missing |
| BlockProducer.RestartCovers | stream/producer_axchain.go:377-385 | every block is recorded, or in the range to be scanned, or above the head and so still to be fetched; the range is empty exactly when there is no gap |
| BlockProducer.AllMissingExact | stream/producer_axchain.go:147-188 | the windowed scan sends a number if and only if it is below the bound and its own window's query lacked it |
| BlockProducer.AllMissingAscending | stream/producer_axchain.go:147-188 | it sends them in ascending order, hence each at most once |
| BlockProducer.CatchupExact | stream/producer_axchain.go:147-158 | the loop runs enough windows to reach every block below its bound |
| BlockProducer.Container.ScanWindow | stream/producer_axchain.go:174-187 | one window queues the blocks missing from its snapshot, up to where it was halted |
| BlockProducer.Container.CatchupBlock | stream/producer_axchain.go:135-191 | a completed scan queues exactly the missing blocks; a halted one a prefix of them |
| BlockProducer.Container.ProcessNextMessage | stream/producer_axchain.go:193-229 | consecutive blocks after the current one are queued, all up to the node's latest unless stopped or failed |
| BlockProducer.Worker.UpdateAll | stream/producer_axchain.go:469-498 | a failure leaves a prefix of the rows in the pool |
| BlockProducer.Worker.ProcessWork | stream/producer_axchain.go:463-560 | success puts every trace, every log and the header in the pool; a failure leaves some of the block's keys, the header never before all traces and logs, nor a log before all traces |
| BlockProducer.Worker.ProcessBlock | stream/producer_axchain.go:578-604 | the number is recorded only with every trace, every log and the header of the answer in the pool; a failure records nothing, and from a pool without the block's keys a stored header means stored traces and logs |
| BlockProtocol.StepKeeps | stream/producer_axchain.go:567-606 | every step of any number of producers keeps write ordering and keeps each block accounted for |
| BlockProtocol.RecordedMeansStored | stream/producer_axchain.go:463-604 | in every reachable state a recorded block has each of its traces, each of its logs and its header in the pool |
| BlockProtocol.HeaderMeansStored | stream/producer_axchain.go:463-560 | where header keys are their blocks' own, a header in the pool means all the block's traces and logs are, in every reachable state, recorded or not |
| BlockProtocol.NothingLostForGood | stream/producer_axchain.go:364-385 | a restart in any reachable state finds each block complete, or scans it, or will follow it |
| BlockProtocol.CaughtUpIsComplete | stream/producer_axchain.go:135-229 | a producer with nothing queued, in progress or given up has every block up to its head recorded and stored |
| BlockProtocol.MissingMeansLost | stream/producer_axchain.go:579-601 | a block missing below an idle producer's head is one it gave up; none disappears silently |
| ChainProducer.Container.InsertNodeIndex | db/dbmodel.go:2364-2391 | with updates off an existing cursor is left alone; with updates on it returns to zero |
| ChainProducer.Container.Open | stream/producer_chain.go:117-126 | start-up with updates off resumes at the stored cursor and does not move it |
| ChainProducer.Container.ProcessNextMessage | stream/producer_chain.go:158-237 | the cursor moves only past a page every container of which is in the pool; any failure leaves it and a prefix of the page; the pool gains containers of the page only |
| ChainProducer.StepKeeps | stream/producer_chain.go:158-237 | every step of any number of producers keeps the cursor and each page's progress sound |
| ChainProducer.CursorSafe | stream/producer_chain.go:179-230 | in every reachable state every container below the stored cursor is in the pool |
| ChainProducer.ResumesWithoutGap | stream/producer_chain.go:139-156 | what a producer skips by starting at the cursor is in the pool |
| ChainProducer.CursorMonotone | stream/producer_chain.go:219-230 | with updates off and one producer at a time the cursor never moves back, across restarts |
| ChainProducer.MonotoneExactly | stream/producer_chain.go:219-230 | with updates off the cursor never moves back in any run if and only if at most one producer is allowed on the row |
| ChainProducer.SharedRowMayStepBack | stream/producer_chain.go:219-230 | a reachable state where the slower of two producers on one row moves the cursor back |
| IndexedLists.IndexedList.constructor | utils/indexedlist.go:16-25 | an empty list with room for at least one key |
| IndexedLists.IndexedList.Exists | utils/indexedlist.go:49-58 | the map answers membership of the list |
| IndexedLists.IndexedList.PushFront | utils/indexedlist.go:34-47 | list and map stay equal, duplicate-free and within the limit; a new key goes in front and the oldest goes out |
| IndexedLists.HoldsNewestEffective | utils/indexedlist.go:34-47 | after any history the list is the newest pushes that were not repeats at the time, newest first |
| IndexedLists.PushKeepsNewest | utils/indexedlist.go:34-47 | from a list of the most recently pushed keys, a push keeps it so if and only if its key is not among them or is the newest |
| IndexedLists.NewestExactly | utils/indexedlist.go:34-47 | over a whole history the list always is the most recently pushed keys if and only if every push was of that kind |
| IndexedLists.ListedDistinct | utils/indexedlist.go:34-47 | after any history the keys are distinct and within the limit |
| IndexedLists.FreshPushesAllHeld | utils/indexedlist.go:34-47 | without repeated keys every push is effective, so the list is the last pushes in reverse |
| IndexedLists.RepeatDoesNotRefresh | utils/indexedlist.go:37-39 | a concrete history in which a key pushed again is evicted before an older one |
| TxPool.Consumer.HandleJob | stream/consumers/indexer.go:138-174 | which of skip, ignore, fail and apply happens, exactly when; effects precede the mark and the mark the listing |
| TxPool.Consumer.IterateTxPool | stream/consumers/indexer.go:277-306 | the poll sends exactly the unlisted ones of the rows it read, each place once and in order, at most one more than the limit; uncut and within the limit it read them all |
| TxPoolProtocol.StepKeeps | stream/consumers/indexer.go:138-174 | every step of any number of consumers keeps marks behind effects and listings behind marks |
| TxPoolProtocol.ListedMeansDone | stream/consumers/indexer.go:146-168 | in every reachable state a listed row is marked and its effects are committed |
| TxPoolProtocol.NothingSkippedUnprocessed | servicesctrl/services_control.go:121-126 | a known row is done with its effects committed, or the next poll returns it, never both |
| TxPoolProtocol.DoneForGood | db/dbmodel.go:2215-2231 | rows, marks and effects only grow along a run |
| TxPoolProtocol.RoundCompletes | stream/consumers/indexer.go:244-322 | when a round is handed on and drained, each row its query returned is done unless that process gave it up |
| TxPoolProtocol.EmptyPollMeansAllDone | stream/consumers/indexer.go:254-266 | an empty poll means every row of a known topic has its effects committed |
| Histogram.PadTo | services/indexes/axc/reader.go:444-450 | padding appends empty buckets with their own index and times up to the given length |
| Histogram.BucketShows | services/indexes/axc/reader.go:364-381 | a bucket's five numbers count the table's rows of its seconds: any repeat-free list of exactly their transactions, addresses or assets has the printed length |
| Histogram.RequestedRoundsUp | services/indexes/axc/reader.go:340-351 | more than n buckets are requested if and only if the range is longer than n intervals |
| Histogram.AnswerEnds | services/indexes/axc/reader.go:398-403 | the answer has at most the requested number of groups, exactly that many if a row is left out after its last bucket, and is longer than requested only to reach a group |
| Histogram.Aggregate | services/indexes/axc/reader.go:328-496 | refuses exactly above the limit; every bucket has contiguous times and the volume, outputs and distinct transactions, addresses and assets of the table's rows in its printed seconds, as has the answer without intervals; the total's five numbers are the buckets' sums; the buckets end at the requested count or the last group returned |
| Histogram.GroupIsRange | services/indexes/axc/reader.go:376-381 | a bucket's group is exactly the rows from its printed first second through its last |
| Histogram.GapIsEmpty | services/indexes/axc/reader.go:463-465 | between consecutive groups of the query no row is lost by padding |
| Histogram.TotalBelow | services/indexes/axc/reader.go:470-487 | adding up groups gives the undivided volume and output count of their rows |
| Histogram.HistogramExact | services/indexes/axc/reader.go:437-490 | with no row past the last requested bucket: the requested number of buckets and undivided totals |
| Histogram.HistogramExactOnlyThen | services/indexes/axc/reader.go:398-402 | a row past it adds a bucket or is missing from the totals |
| Histogram.FittingIsExact | services/indexes/axc/reader.go:340-490 | whatever the table, bounds that fit give the requested buckets and the undivided totals of the rows between them |
| Histogram.FitsExactly | services/indexes/axc/reader.go:340-351 | bounds and interval reach the end of the range if and only if no table can overhang |
| Histogram.ExactExactly | services/indexes/axc/reader.go:340-490 | the answer has the requested buckets and undivided totals for every table if and only if the bounds fit |
| Histogram.WholeSecondsFit | services/indexes/axc/reader.go:340-351 | whole-second starts and intervals always do |
| Histogram.FractionOverhangs | services/indexes/axc/reader.go:341-344 | an interval of a second and a half with two buckets requested and three returned |
| StreamPage.ListTxs | services/indexes/axc/reader_list_txs.go:188-240 | one pass over the rows up to the cap returns the limit after the offset of their distinct transactions by first row; no limit means all of these |
| StreamPage.FirstsUnique | services/indexes/axc/reader_list_txs.go:201-234 | the distinct transactions are those of the rows, each once |
| StreamPage.LimitReached | services/indexes/axc/reader_list_txs.go:235-237 | stopping at the limit returns what the whole pass would |
| StreamPage.PagesTile | services/indexes/axc/reader_list_txs.go:188-240 | consecutive offset pages lay the distinct transactions of the rows up to the cap end to end |
| StreamPage.AllPages | services/indexes/axc/reader_list_txs.go:188-240 | enough pages show every transaction of the rows up to the cap exactly once, and every transaction if and only if the rows past it add none |
| StreamPage.PageExactly | services/indexes/axc/reader_list_txs.go:188-240 | a page is the limit after the offset of all distinct transactions if and only if the rows past the cap add none, the offset is past them all, or a limited page is full before the cap |
| StreamPage.CapHides | services/indexes/axc/reader_list_txs.go:188-191 | for every limit but one, rows whose first page lacks a transaction it has room for |
| CursorPage.NextSees | services/indexes/axc/reader_list_txs.go:287-295 | the next window sees exactly the rows of strictly later (or earlier) seconds within the old bounds |
| CursorPage.SeenPart | services/indexes/axc/reader_list_txs.go:165-240 | what a page is cut from is some of the matching transactions, each once, the first of them where sorted, and all of them where the rows fit under the cap |
| CursorPage.PagesOrdered | services/indexes/axc/reader_list_txs.go:141-156 | without a search query, or one row at a time, everything a later page may show is strictly after everything an earlier one showed |
| CursorPage.NoRepeats | services/indexes/axc/reader_list_txs.go:141-156 | then no transaction is shown twice |
| CursorPage.WalkTerminates | services/indexes/axc/reader_list_txs.go:283-285 | following the cursor visits at most one page more than there are matching rows |
| CursorPage.ShownMatches | services/indexes/axc/reader_list_txs.go:27-32 | nothing outside the first request is ever shown |
| CursorPage.OffsetStaysHidden | services/indexes/axc/reader_list_txs.go:175-180 | the rows an offset passes over on the first page are on no page of a sorted walk |
| CursorPage.OmittedExactly | services/indexes/axc/reader_list_txs.go:188-295 | a finished sorted walk, below the cap or with no offset and a limit of at most one, omits a row if and only if some page ends in its second without showing it |
| CursorPage.ShowsAllExactly | services/indexes/axc/reader_list_txs.go:188-295 | a finished sorted walk, below the cap or with no offset and a limit of one, shows everything if and only if there is no limit or the limit never cuts a second of what is asked for in two |
| CursorPage.DistinctSecondsShowAll | services/indexes/axc/reader_list_txs.go:188-295 | a finished sorted walk, below the cap or with no offset and a limit of at most one, shows everything when no two rows share a second |
| CursorTheorems.SearchRepeats | services/indexes/axc/reader_list_txs.go:141-144 | for either sort, streamed or not, and any limit but one, a walk of a search over unique ids that shows a transaction twice and out of order |
| CursorTheorems.RepeatsExactly | services/indexes/axc/reader_list_txs.go:141-144 | nothing repeats, and pages follow in order, over every table and walk if and only if there is no search query or the limit is one |
| CursorTheorems.SearchOmits | services/indexes/axc/reader_list_txs.go:141-144 | for any limit and offset whose rows fit under the cap, a finished walk of a search with clean cuts that omits a row of a second no page ends in |
| CursorTheorems.CapEndsWalk | services/indexes/axc/reader_list_txs.go:188-191 | for any limit above one or any offset, a finished walk of a streamed listing that ends with a page with room and a row of a later second left |
| CursorTheorems.CapSkips | services/indexes/axc/reader_list_txs.go:188-191 | for the limits that remain, a finished walk of a streamed listing that leaves a row out although its cuts are clean or it has no limit |
| CursorTheorems.OmissionsExactly | services/indexes/axc/reader_list_txs.go:141-295 | over every table with at most so many rows in the window, omissions are only those of a shared second if and only if, searched: all rows fit under the cap and on the first page; sorted: they fit under the cap, or there is no offset and the limit is at most one |
| CursorTheorems.CompleteExactly | services/indexes/axc/reader_list_txs.go:141-295 | over the same tables, walks that cut no second in two show everything if and only if the same holds, with a limit of exactly one beyond the cap |
| CursorTheorems.SharedSecondOmits | services/indexes/axc/reader_list_txs.go:291-292 | a finished walk that passes over a row in the last row's second |
| CursorText.IntRoundTrip | services/indexes/params/query.go:46-49 | a printed time of either sign reads back as itself |
| CursorText.TransactionProcessNext | services/indexes/axc/reader_list_txs.go:282-323 | none for an empty or short page; else a query that reads back as the next request: this order, the limit this request was read to have, no offset, the next window, every other key with its values |
| CursorText.CursorReadsBack | services/indexes/params/query.go:40-49 | reading the printed cursor gives the window the next page is meant to have, the other bound kept |
| CursorText.LimitReadsBack | services/indexes/params/params.go:109-118 | a limit printed or left to the default reads back, within its bounds, as the limit it was |
| TxSnapshot.ReaderAggregateTxList.Set | services/indexes/axc/reader_aggregate_processor.go:50-73 | the copy is the loaded list and both maps are views of it; a failed load empties all three |
| TxSnapshot.ReaderAggregateTxList.Get | services/indexes/axc/reader_aggregate_processor.go:31-39 | answers if and only if the list has the id, with a transaction of that id |
| TxSnapshot.ReaderAggregateTxList.FindTxs | services/indexes/axc/reader_aggregate_processor.go:75-104 | answers if and only if the copy alone has enough of the one chain, or of all, and then with the first of them |
| TxSnapshot.HitAgrees | services/indexes/axc/reader_aggregate_processor.go:266-269 | a hit on the first 5000 rows is what the query over the whole table returns |
| TxSnapshot.QueryReads | services/indexes/axc/reader_list_txs.go:101-134 | the plain query's first rows are what reading the table from its start finds of the requested chains |
| TxSnapshot.Reader.ListTxsFromCache | services/indexes/axc/reader_list_txs.go:101-134 | any answer given from a copy of the table's first rows equals the query it replaces: the first `limit` rows of the table of the requested chain, or of any, in order and each once |

## Left out

- Replays (`cfg.PerformUpdates` on) and the reset of cursors and rows they make, except for the cursor's own reset.
- The tables `addresses`, `address_chain`, `addresses_bech32` and `assets` beyond the supply, rewards owners' addresses, memo and serialisation limits.
- Parsing of platform-chain blocks and the rows about blocks, proposers, validators and rewards that come with them.
- Recovery of signers from credentials: an input comes with its recovered signers, and the error of a bad signature is not modelled.
- An output's type, group, payload, lock time and stake flag; a row carries its transaction, chain, asset and amount.
- The histogram's conditions on chain and asset: its table is the rows that meet them.
- Timestamps of rows and the order polls return them in; a poll may return any eligible rows up to its limit.
- MySQL's isolation levels, lock waits and deadlocks: a database transaction is one step or none. A locking read sees the committed rows.
- Genesis transactions written outside a database transaction are covered for their outputs only, not for inputs or assets.
- IndexTheorems.ListingsAgree: compares the listings without limit and offset, because one form limits balance rows and the other limits addresses, so their pages differ.
- IndexTheorems.Confluence: says nothing of the spent flag, which depends on whether the owner's work row existed when the spend was indexed.
- Balance.RunEvent: as a method it runs alone; with other workers at the same rows `DrainTheorems` takes its place, where lock failures and unrelated errors are steps a run may repeat.
- BalanceTxs.RunEventTxs: the same.
- BlockProducer.Container.ProcessNextMessage: does not say that an error of a worker is reported, because the flag may be set after the call has returned.
- `TxfeeAggregate`, whose padding loop is the same as that of `Aggregate`.
- Floating-point rounding of the interval count, negative interval durations, and the empty string that stands for a padded bucket's volume of zero.
- Distinct counts of the histogram's total: they are added up per bucket, as the code does, and are not claimed to equal undivided counts.
- Times given in RFC 3339 form and escaping of query values; rounding of request times to whole seconds, which the window theorems do not need.
- The order among transactions of equal time; a page may list them in any order, and the snapshot is compared with the query's own order.
- Blocks of the AX-chain are taken to read the same every time; reorganisations are not modelled.
- Waiting on full channels, timeouts and sleeps; a blocked sender is a step not yet taken.
- HTTP, JSON, configuration, metrics, codecs and hashing.
