# Accensa: the receipt pipeline, modelled and proved

Accensa indexes Stellar payments for merchants. A sync run sweeps a range of ledgers through an RPC,
inserts the transfers it finds and moves a cursor; merchants' servers report which route each payment
was for; an anchoring flow batches payments into Merkle trees, records the batch ids that the chain
returned, and serves receipts that anyone can check. This project models that pipeline and the codecs
beside it in Dafny, and proves what each step keeps and what whole runs guarantee.

`dafny verify dfyconfig.toml` checks everything.

| file | subject |
|---|---|
| `Wrappers`, `Sets`, `Text`, `Bytes` | options and results, a few set and string facts, digests and hexadecimal |
| `MerkleTree`, `MerkleSoundness`, `Merkle` | the tree of `packages/sdk/merkle.ts`, and its two other implementations |
| `Chain`, `EventPager`, `SweepWindows`, `SweepTheorems`, `SweepLimits` | the RPC contract, paging, the sequential and the parallel sweep, and concrete sweeps at their edges |
| `Store`, `InsertPayments`, `Settlement`, `Sync` | the tables, chunked upserts, attribution, cursor, rollback, one sync run |
| `Transfers`, `Indexer`, `Rollback` | what a table shows of a chain, and whole runs of overlapping syncs, reports, re-orgs and rollbacks |
| `Anchor`, `AnchorTheorems` | select, preview, record and serve, and whole runs of them, rollbacks included |
| `Replay` | single use of signed settlement reports over time |
| `Money`, `Csv`, `Json`, `CanonicalText`, `ZkProof`, `Funnel` | exact decimals, CSV export, canonical JSON and commitments, the checkout funnel |

## How it is modelled

Code that changes things step by step is a method with the source's own loops, and the tables are the
fields of the class `Store.Database`. Each such method is tied to a function of its inputs or of the
old tables, and what the source promises is proved about that function. Recursion and expressions are
functions.

Beside what is derived from it, every such definition has a statement in the terms of its inputs alone, with
constants as numbers (mostly named `...Exactly`, `...Is`, `...Are` or `...At`): an order by the first difference, a row by
its columns, a filter by its bounds. A definition that put the wrong field, side or bound in would contradict it.

What stands outside the program is a parameter, never an assumption about one instance:

- SHA-256 is any function. Nothing is assumed of it: soundness results end in "or here are two inputs
  with one digest", and compute that pair. `localeCompare`, the collation of `ORDER BY`, XDR decoding,
  `selectionHashOf`, `unixSeconds` and the clock are arbitrary functions or inputs.
- `withinBudget` is an arbitrary boolean oracle, one answer for each question a sweep can ask (after
  so many pages of the window starting at a ledger).
- The RPC is any function of a request that pages honestly through a finite chain (`Chain.Honest`).
  A follow-up request carries only a cursor and no `endLedger` (event-pager.ts:96), so a cursor may run
  past its window. Two further contracts are hypotheses of exactly the results that need them: a page
  that leaves events unread names a continuation (`IssuesTokens`), and a cursor keeps to its window
  (`StaysInWindow`). Without the first, no event is invented but one can be missed; without the second,
  everything is delivered but some of it twice or out of order across windows. Within one run the RPC
  answers from one chain.
- Which of several failing fetches rejects `Promise.all` first is an arbitrary choice (`EventPager.Race`).
  `SweepLimits.PagedRpcMeetsAll` gives an RPC over any ordered chain that meets every contract above at once.
- Which merchants' payments a connection may see is an arbitrary predicate (`Anchor.Scope`). The preview and
  receipt routes open connections without a merchant (preview/route.ts:45, receipts/[txHash]/route.ts:27);
  under the forced policies these see no payment, and as a role exempt from them, every payment.
- A transaction is one atomic step; any statement, or COMMIT, may fail for outside reasons (`Faults`).
  Of Postgres, the model keeps keys, `ON CONFLICT`, `WHERE`, row counts, uniqueness, and the refusal to
  let one statement write the same row twice.

## Where the code does something else than its text says

- `parallelSweepLedgerRange` is documented as an "identical contract" (event-pager.ts:243). When it returns,
  the two sweeps agree up to `windows` if and only if the budget never refuses the sequential one at the
  start of a window at which no batch starts, and then `windows` differs, by one, exactly when a window
  was abandoned halfway (`SweepTheorems.ExactAgreement`). `SweepLimits.RefusalInsideABatch` is an input
  on which one sweep completes and the other stops; `SweepLimits.AbandonedWindow` one on which only
  `windows` differs.
- `positiveInteger` returns 0 for values strictly between 0 and 1 (`EventPager.PositiveIntegerIsPositive`).
  With a window or a concurrency of 0 an iteration leaves the sweep where it was (`EventPager.NoProgress`),
  so the sweeps are modelled for positive values.
- The key of `payments` takes one transfer to a merchant per transaction. When a transaction makes two, a
  chunk holding both is refused unless the key is indexed before it, and so is every retry
  (`InsertPayments.RefusedExactly`); in different chunks the first one stays. Every transfer in scope is shown exactly when no two of them share a
  transaction (`Indexer.IndexerSafety`).
- `verify_merkle_proof` (lib.rs) has no length limit, `verifyReceipt` has one of 32 siblings
  (`Merkle.RustAgreesUpToMaxLength`).
- Equal `reported_at` values are first-writer-wins, so confluence of reports needs the latest ones to
  agree, and fails whenever they do not (`Settlement.LatestMustAgree`).
- A row of `receipt_batches` is never left in `submitted`, although anchor/record/route.ts:16-17 says it
  can be: the status is only written inside the transaction that ends in `recorded`
  (`AnchorTheorems.RecordedBatchesPartition`).
- Rollback deletes anchored payments like any others. The partition of recorded batches survives it exactly
  when it purges none (`AnchorTheorems.RollbackKeepsPartition`), and `AnchoredPaymentsCanBePurged` is a run in
  which it does not. Receipts that are still served keep verifying all the same.
- A retention of 30 days does not cover the whole transition before 2027 for reports without
  `reported_at`, as db.ts:822-827 says it does (`Replay.EarlyLegacyReportsReplay`), and a configured
  maximum age can exceed it (`Replay.LongWindowsReplay`).
- `canonicalJson` drops keys named `__proto__` (`CanonicalText.ProtoMemberIsLost`); what it promises holds
  exactly for what is kept (`CanonicalText.CanonicalJsonIsComplete`).
- A commitment is documented as binding (zk-proof.ts:149), but its preimage has no separator. Some blindings
  give two payloads one preimage if and only if the canonical text of one is a suffix of the other's
  (`ZkProof.MeetExactly`); with the hexadecimal blindings the SDK makes, exactly for equal payloads and for
  numbers one of which is hexadecimal digits followed by the other (`ZkProof.HexMeetExactly`). Blindings
  of one length bind or exhibit a collision (`ZkProof.OpeningsBind`).
- `toStroops` truncates beyond seven decimals (`Money.ParseIsExact`).
- A funnel segment whose label is the empty string is not filtered at all (`Funnel.EmptyValueRepeatsTheWhole`);
  `Funnel.SegmentsAddUp` says for all inputs when segments add up.
- Ledgers a run reports as `skippedLedgers` are not read, and no later run reads them unless a rollback goes
  back below them. They are exactly the exception in the scope of `Indexer.IndexerSafety`, and a rewind
  takes them out of it from the rewind ledger on.
- The CSV export neutralises free text that starts as a formula, but writes the label of the asset without
  (payments-csv.ts:101). Which cells start as one is said column by column (`Csv.FormulaCellsExactly`);
  `Csv.LabelCanBeAFormula` is an asset whose label does.
- A rollback purges above the head that the node reports, wherever the chains part (route.ts:215-218). Rows of
  a lost chain at or below that head stay. Nothing is left behind if and only if everything shown up to the
  reported head is on the chain that the node came back with (`Rollback.PurgeIsSoundExactly`).
- A re-org that leaves the head at or above the cursor is not noticed at all (route.ts:215).
  `Rollback.UnnoticedReorg` says exactly when the table is right nevertheless, and that it goes on showing
  what it showed; `Rollback.WrongTableIsReachable` is a run after which it is not right.
- `Indexer.IndexerSafety` holds over all of these re-orgs but for the transactions that they leave stale. One
  that made one transfer is shown wrongly once it is (`Indexer.StaleIsWrong`). There are none when every
  chain that a rollback meets parts from the old one above the reported head, and one that goes unnoticed
  keeps the old transfers (`Indexer.FaithfulRunsAreClean`).

## Model

| member | source | states |
|---|---|---|
| `Bytes.LessEqIsLexicographic` | packages/sdk/merkle.ts:90-95 | one byte string comes before another if it is a prefix of it or has the smaller byte where they first differ |
| `Bytes.LessEqIsTotalOrder` | packages/sdk/merkle.ts:90-95 | that order is total and antisymmetric, so a pair has one order |
| `Bytes.DecodeEncode` | packages/sdk/merkle.ts:73-81 | the hexadecimal text of any digest decodes back to it and is lower case |
| `Bytes.EncodeDecode` | packages/sdk/merkle.ts:73-81 | decoding a hash text forgets its letter case and nothing else |
| `Bytes.DecodeIgnoresCase` | packages/sdk/merkle.ts:73-81 | lower-casing changes neither whether a text is accepted nor the digest it names |
| `Bytes.HashTextIs` | packages/sdk/merkle.ts:73-81 | a hash text is 64 hexadecimal digits of either case, two a byte and the high one first |
| `MerkleTree.CombineCommutes` | packages/sdk/merkle.ts:90-95 | a node's hash does not depend on which child is left, so proofs need no position flags |
| `MerkleTree.SmallerFirst` | packages/sdk/merkle.ts:90-95 | an inner node hashes the digest with the smaller byte, where its children first differ, before the other |
| `MerkleTree.RootSplits` | packages/sdk/merkle.ts:102-114 | the level-by-level root is that of a tree whose left subtree is the largest full one that leaves something to its right |
| `MerkleTree.PairInputInjective` | packages/sdk/merkle.ts:90-95 | the hash input of an inner node determines the unordered pair of its children |
| `MerkleTree.ProofFoldsToRoot` | packages/sdk/merkle.ts:102-125 | for every level list and index, odd promotions included, folding the leaf with its proof gives the root |
| `MerkleTree.ProofLength` | packages/sdk/merkle.ts:116-125 | among at most 2^k leaves a proof has at most k siblings |
| `MerkleTree.ProofLengthIsTight` | packages/sdk/merkle.ts:116-125 | among more than 2^(k-1) leaves some proof needs all k, so the bound is ceil(log2 n) |
| `MerkleSoundness.BatchTreeMeaning` | packages/sdk/merkle.ts:102-114 | the level-by-level root is the hash of one binary tree whose leaves, left to right, are the batch |
| `MerkleSoundness.AcceptedProofNamesMember` | packages/sdk/merkle.ts:47-64 | an accepted proof ends at a leaf of the tree, or the computed pair of inputs collides |
| `MerkleSoundness.BatchSoundness` | packages/sdk/merkle.ts:47-64 | for any transaction and any proof, acceptance against a batch root means membership or a computed collision |
| `MerkleSoundness.RootCommitsToMultiset` | packages/sdk/merkle.ts:102-114 | two batches of any lengths with one root are permutations of each other, or a computed pair collides |
| `Merkle.VerifyReceipt` | packages/sdk/merkle.ts:47-64 | the loop accepts exactly when the proof folds the leaf to the root, with the source's order of errors: too long, leaf, proof entry, root |
| `Merkle.VerdictExactly` | packages/sdk/merkle.ts:47-64 | for every input which verdict or error is given: more than 32 siblings, then a malformed leaf, sibling or root, and else whether the root is the text of the folded digest |
| `Merkle.BuildLevels` | packages/sdk/merkle.ts:102-114 | the nested loops produce the list of levels that ends in the root |
| `Merkle.ProofFor` | packages/sdk/merkle.ts:116-125 | the loop over levels collects exactly the siblings on the path of the index |
| `Merkle.DecodeLeaves` | packages/sdk/merkle.ts:146-152 | all digests of the normalised leaves, or the index of the first malformed one |
| `Merkle.RecordProofs` | packages/sdk/merkle.ts:156-159 | one entry per distinct leaf, holding the proof of a position at which the leaf occurs |
| `Merkle.BuildBatch` | packages/sdk/merkle.ts:141-162 | empty and malformed inputs give their errors, and every other input a batch with the tree's root, the leaves and their proofs |
| `Merkle.BatchProofsVerify` | packages/sdk/merkle.ts:141-162 | every proof of a built batch, duplicates included, has at most ceil(log2 n) siblings and is accepted by `verifyReceipt` up to 2^32 leaves |
| `MerkleTree.Pow2Of32` | packages/sdk/merkle.ts:24-32 | the limit of 32 siblings is a limit of 4294967296 leaves |
| `Merkle.TxHashForms` | packages/sdk/merkle.ts:180-184 | a transaction hash names the same 32 bytes with or without `0x` and in either case |
| `Merkle.TxBytesExactly` | packages/sdk/merkle.ts:180-184 | and no other text names them: up to case and surrounding spaces it is the hexadecimal text, bare or after `0x` |
| `Merkle.LeafExactly` | packages/sdk/merkle.ts:146-152 | a batch leaf names a digest exactly when it is its hexadecimal text up to case and surrounding spaces |
| `Text.TrimSplits` | packages/sdk/merkle.ts:147 | trimming takes the spaces off both ends, all of them and nothing else |
| `Merkle.ReceiptLeafDigests` | packages/sdk/merkle.ts:180-184 | receipt leaves survive `buildBatch`'s normalisation unchanged and are the hashes of the 32 transaction bytes |
| `Merkle.ReceiptSoundness` | packages/sdk/merkle.ts:47-64 | a receipt leaf accepted under any proof against a batch of receipts names a transaction of the batch, or the proof and the batch exhibit a collision |
| `Merkle.EqualRootsEqualReceipts` | packages/sdk/merkle.ts:141-162 | batches with one root hold the same receipts with multiplicity, or a computed pair collides |
| `Merkle.VerifyMerkleProof` | packages/sdk/src/lib.rs:163-177 | the Rust loop accepts exactly when the same fold gives the root |
| `Merkle.RustAgreesUpToMaxLength` | packages/sdk/src/lib.rs:163-177 | the two verifiers give one answer exactly on proofs of at most 32 siblings |
| `Merkle.NextTextLevel` | apps/demo-merchant/agent.js:76-91 | one level of the agent's tree on hexadecimal text is the text of the SDK's next level |
| `Merkle.AgentProofFor` | apps/demo-merchant/agent.js:76-91 | the agent's fused loop returns the SDK's proof |
| `Merkle.BatchRootFor` | apps/demo-merchant/agent.js:166-176 | the agent's root is the SDK's root, and nothing for no leaves |
| `Chain.UptoSplits` | apps/web/src/lib/event-pager.ts:79-113 | in an ordered chain the events up to a ledger are a prefix, cut exactly there |
| `Chain.PageEndIs` | apps/web/src/lib/event-pager.ts:79-113 | a page holds the next events of its range, at most 200, and all of them if fewer |
| `Chain.TokenFollowsPage` | apps/web/src/lib/event-pager.ts:104-108 | a page is continued by its cursor, and without one by the id of its last event |
| `EventPager.PositiveIntegerIsPositive` | apps/web/src/lib/event-pager.ts:63-65 | the option is its floor when positive and the fallback otherwise, and positive exactly when it is not strictly between 0 and 1 |
| `EventPager.OrderEventsOrdered` | apps/web/src/lib/event-pager.ts:214-220 | the sort puts any events in ledger order |
| `EventPager.OrderEvents` | apps/web/src/lib/event-pager.ts:214-220 | the sort neither loses, adds nor repeats an event |
| `EventPager.OrderEventsSorts` | apps/web/src/lib/event-pager.ts:214-220 | under any consistent collation of ids the result is in ledger order, and within a ledger in the order of the ids |
| `EventPager.OrderEventsIsStable` | apps/web/src/lib/event-pager.ts:214-220 | events that neither ledger nor id separates keep their order |
| `EventPager.OrderEventsKeepsSorted` | apps/web/src/lib/event-pager.ts:214-220 | events that come by ledger, and within a ledger by id, are delivered as they came |
| `EventPager.DrainEvents` | apps/web/src/lib/event-pager.ts:79-113 | the paging loop terminates and is the recursive reading of its window, with its page count, flag and errors |
| `EventPager.DrainReadsStretch` | apps/web/src/lib/event-pager.ts:79-113 | paging reads one unbroken stretch of the chain; drained means to the window's end, and exactly to it when cursors keep to their window |
| `EventPager.DrainAccounts` | apps/web/src/lib/event-pager.ts:79-113 | an error names its window and its cause; every page but the last holds 200 events; the budget allowed each page but the first, and a window is abandoned only where the budget refuses, after a full page |
| `EventPager.UnhurriedDrains` | apps/web/src/lib/event-pager.ts:79-113 | with a budget that never expires every window drains |
| `EventPager.SweepLedgerRange` | apps/web/src/lib/event-pager.ts:140-196 | the sequential loop's deliveries and result, for every budget, are those of the window-by-window recursion |
| `EventPager.ParallelSweepLedgerRange` | apps/web/src/lib/event-pager.ts:259-347 | the parallel loop's deliveries and result, for every budget and concurrency, are those of the batch-by-batch recursion |
| `EventPager.NextBatch` | apps/web/src/lib/event-pager.ts:299-305 | the next batch is the next consecutive windows, at most `concurrency` of them |
| `EventPager.FetchBatch` | apps/web/src/lib/event-pager.ts:310-312 | all windows of a batch, or the error of the failing window that is first in time |
| `EventPager.EmitBatch` | apps/web/src/lib/event-pager.ts:318-335 | windows are emitted in order up to and including the first that did not drain, and the cursor moves over the drained ones only |
| `EventPager.NoProgress` | apps/web/src/lib/event-pager.ts:171-194 | an iteration leaves the sweep at its ledger exactly when the window, or the batch, is empty |
| `SweepWindows.SweepsByWindow` | apps/web/src/lib/event-pager.ts:140-347 | said without recursion, for any range and budget: delivery `k` of either sweep is window `k` of its size from the start ledger on, sorted; the page count accounts for the events; the sequential sweep counts each window and the parallel one all but an abandoned one; either stops only before a window that the budget refuses or after one it abandoned, and throws the error of a window it has not delivered, the sequential one of the first |
| `SweepTheorems.ParallelRefinesSequential` | apps/web/src/lib/event-pager.ts:242-259 | while the budget lasts, for every range, window size and concurrency, the sweeps succeed together, with one result and the same deliveries in the same order, and fail together, the parallel one having delivered a prefix |
| `SweepTheorems.BatchErrorIsReal` | apps/web/src/lib/event-pager.ts:306-312 | the error a batch ends in is that of a window of it which does fail |
| `SweepTheorems.ExactAgreement` | apps/web/src/lib/event-pager.ts:242-347 | for every budget and concurrency: the sweeps agree up to `windows` if and only if the budget never refuses the sequential one at a window start inside a batch, `windows` then differs by one exactly when a window was abandoned, and when the parallel sweep throws the sequential one throws exactly when neither stops it first |
| `SweepTheorems.UnhurriedSweepsComplete` | apps/web/src/lib/event-pager.ts:140-347 | while the budget lasts either sweep throws a fetch error or returns `complete` at the end ledger, and the latter if no fetch fails |
| `SweepLimits.PagedRpcMeetsAll` | apps/web/src/lib/event-pager.ts:79-113 | over any ordered chain an RPC whose cursors carry a position and a bound meets every contract the sweep results rest on |
| `SweepLimits.SeveralPages` | apps/web/src/lib/event-pager.ts:79-113 | and where a window holds more than a page, its first page is full and the next one continues it |
| `SweepLimits.RefusalInsideABatch` | apps/web/src/lib/event-pager.ts:294-346 | on ledgers 1 to 20 with windows of 10, two to a batch, one refusal at ledger 11 makes the sequential sweep stop at 10 and the parallel one complete, with no window abandoned |
| `SweepLimits.AbandonedWindow` | apps/web/src/lib/event-pager.ts:184-190 | on one full page with the budget gone after it both sweeps abandon the window, and only the sequential one counts it |
| `SweepTheorems.OneAtATime` | apps/web/src/lib/event-pager.ts:184-190 | with concurrency 1 and any budget, errors included, the sweeps differ in nothing but the count of an abandoned window |
| `SweepTheorems.SequentialIsSafe` | apps/web/src/lib/event-pager.ts:132-195 | for any budget: `sweptThrough` is start-1, a window boundary or the end; every event up to it was delivered; `complete` means it reached the end |
| `SweepTheorems.ParallelIsSafe` | apps/web/src/lib/event-pager.ts:259-346 | the same for the parallel sweep, later windows of a failed batch discarded |
| `SweepTheorems.SweepsAreSafe` | apps/web/src/lib/event-pager.ts:140-347 | both sweeps of any range are safe; when cursors keep to their window the deliveries are the chain's events, once each and in ledger order |
| `SweepTheorems.TokenlessPageEndsWindow` | apps/web/src/lib/event-pager.ts:105-108 | a full page without a continuation is reported as drained although the window holds more |
| `InsertPayments.RowsAreTransfers` | apps/web/src/lib/insert-payments.ts:27-51 | the rows are exactly the decodable transfers to the merchant's address, column by column: the merchant, the event's hash, ledger and time, the sender as payer, the asset, and the decimal text that parses to the stroops |
| `InsertPayments.RowsInOrder` | apps/web/src/lib/insert-payments.ts:27-51 | at most one row an event, in event order |
| `InsertPayments.CountDecodedIs` | apps/web/src/lib/insert-payments.ts:27-51 | the count is the number of events that decode, to whomever the transfer is |
| `InsertPayments.EventsToPaymentRows` | apps/web/src/lib/insert-payments.ts:27-51 | the loop returns those rows in event order and counts the decodable events |
| `InsertPayments.ChunkRows` | apps/web/src/lib/insert-payments.ts:66-72 | the loop's chunks are the recursive ones |
| `InsertPayments.ChunksPartition` | apps/web/src/lib/insert-payments.ts:66-72 | chunks concatenate back to the rows, none is empty or longer than the size, only the last may be shorter |
| `InsertPayments.StatementCount` | apps/web/src/lib/insert-payments.ts:66-72 | a run makes one statement for every hundred rows and one for what is left |
| `InsertPayments.InsertChunks` | apps/web/src/app/api/sync/route.ts:155-176 | chunked statements equal row-by-row upserts, and are accepted exactly when nothing fails and no chunk repeats a key not yet indexed |
| `InsertPayments.InsertPaymentsInTransaction` | apps/web/src/lib/insert-payments.ts:131-158 | success exactly under that condition; then payments and cursor move together, and after any failure both are untouched |
| `InsertPayments.UpsertColumns` | apps/web/src/lib/insert-payments.ts:85-102 | one upsert writes the transfer's five columns at its merchant and hash unless one is there, and changes no other column and no other row |
| `InsertPayments.UpsertAllAt` | apps/web/src/lib/insert-payments.ts:85-102 | of many, a key is indexed by its first row unless it was indexed before; its other columns and all other keys are kept |
| `InsertPayments.WrittenIsTheChange` | apps/web/src/lib/insert-payments.ts:85-102 | the returned rows are exactly the changed ones, once each and as they end up |
| `InsertPayments.DistinctNeverClash` | apps/web/src/lib/insert-payments.ts:85-102 | rows with distinct keys are never refused, in any chunks |
| `InsertPayments.RefusedExactly` | apps/web/src/lib/insert-payments.ts:85-102 | chunked statements are refused if and only if some chunk names a key twice that was neither indexed before nor named in an earlier chunk |
| `InsertPayments.ReplayIsNoop` | apps/web/src/lib/insert-payments.ts:131-158 | replaying indexed rows, in any chunks, is accepted, changes nothing and returns nothing |
| `Settlement.RecordSettlement` | apps/web/src/lib/db.ts:629-664 | the update-then-upsert writes a report to its row exactly when it is fresher, and stages a new row when there is none |
| `Settlement.ReportTouchesOneRow` | apps/web/src/lib/db.ts:629-664 | a report touches the row of its merchant and hash alone: its four columns if it is the first or later than the one before, none otherwise; where there is no row it stages one with its payer |
| `Settlement.ReportMeetsTransfer` | apps/web/src/lib/db.ts:629-664 | a report and a transfer of one merchant and hash end in one row that carries both, whichever comes first |
| `Settlement.RunMerges` | apps/web/src/lib/db.ts:629-664 | any run of index events and reports of one key ends in a row described without its order |
| `Settlement.Confluence` | apps/web/src/lib/db.ts:629-664 | any interleaving and repetition of one transfer and any reports whose latest agree ends in one row: ledger columns of the transfer, attribution of the latest report |
| `Settlement.LatestMustAgree` | apps/web/src/lib/db.ts:629-664 | if two latest reports of one time differ, their two orders end in different rows |
| `Settlement.RowDependsOnItsKey` | apps/web/src/lib/db.ts:629-664 | a row of the table is determined by the events of its own merchant and transaction |
| `Settlement.TableConfluence` | apps/web/src/lib/insert-payments.ts:85-102 | confluence on the whole table among any other events |
| `Settlement.AllNullOrAllSet` | apps/web/src/lib/insert-payments.ts:85-102 | in every reachable table a row's ledger, amount, asset and time are all null or all set |
| `Sync.SetLastSyncedLedger` | apps/web/src/lib/db.ts:699-713 | the cursor moves forward only, and no other merchant's moves |
| `Sync.CursorMovesForward` | apps/web/src/lib/db.ts:699-713 | the merchant's cursor ends at the later of the old and the new ledger, and every other merchant's stays |
| `Sync.PurgeAboveAt` | apps/web/src/lib/db.ts:737-760 | row by row: a rollback deletes a row exactly when it is the merchant's and above the ledger, and changes no other |
| `Sync.RollbackSyncToLedger` | apps/web/src/lib/db.ts:737-760 | the merchant's rows above the ledger are gone, the cursor is the ledger and the count is right, or nothing happened |
| `Sync.RunSync` | apps/web/src/app/api/sync/route.ts:155-417 | the whole effect of a run: a failed rewind changes nothing; otherwise, after any rewind, it returns early exactly when nothing is left to sweep, succeeds exactly when the sweep does, every delivery commits and the cursor write does, and then all deliveries and the cursor are written; on failure exactly the deliveries before the first that does not commit, and no cursor; with the returned start, end, skipped count, `drained` and purged count |
| `Sync.RewindingRunStops` | apps/web/src/app/api/sync/route.ts:215-222 | a run that rewinds does nothing else: it ends at the reported head, or fails with the tables as they were |
| `Sync.RunTouchesOneMerchant` | apps/web/src/app/api/sync/route.ts:186-417 | however a run ends, no row and no cursor of another merchant changes |
| `Sync.RunSweeps` | apps/web/src/app/api/sync/route.ts:287-302 | a run sweeps up to the head in windows of 10000 ledgers, ten at a time when there is more than one |
| `Sync.CommitDeliveries` | apps/web/src/app/api/sync/route.ts:302-319 | deliveries commit in order up to the first that a fault or a refused chunk stops, and none after it |
| `Sync.CommittedPrefixIs` | apps/web/src/app/api/sync/route.ts:302-319 | the committed deliveries are those before the first that does not commit |
| `Sync.CommitsExactly` | apps/web/src/app/api/sync/route.ts:155-176 | a delivery commits unless one of its statements or its COMMIT fails, or a statement repeats a key that nothing before it indexed |
| `Sync.UpsertDeliveriesIs` | apps/web/src/app/api/sync/route.ts:302-319 | committing deliveries one by one is upserting the rows of all their events |
| `Sync.SkippedIsTheGap` | apps/web/src/app/api/sync/route.ts:220-227 | where a run starts for every cursor and head: 2000 ledgers back, just after the cursor or 100000 ledgers back, never below 1; and `skippedLedgers` counts exactly the ledgers in between |
| `Transfers.InsertSound` | apps/web/src/lib/insert-payments.ts:131-158 | committing delivered events indexes all of them and nothing that is not on the chain |
| `Indexer.StepKeeps` | apps/web/src/app/api/sync/route.ts:186-417 | growth, begin, delivery, finish, abort, report, unnoticed re-org and rollback, each re-org to any chain, keep the indexer's invariant |
| `Indexer.IndexerSafety` | apps/web/src/app/api/sync/route.ts:186-417 | over every run with overlapping syncs, reports, re-orgs to any chains and rollbacks, but for the transactions that re-orgs leave stale: every transfer from the first start ledger to the cursor, outside reported gaps, has its key indexed; every indexed row shows a transfer of the chain as it now is; and every transfer in scope is itself shown exactly when no two of them share a transaction |
| `Indexer.FaithfulRunsAreClean` | apps/web/src/app/api/sync/route.ts:208-218 | nothing is stale after a run whose rollbacks meet chains with the same transfers up to the reported head, and whose unnoticed re-orgs take none away and add none up to the cursor |
| `Indexer.StaleIsWrong` | apps/web/src/app/api/sync/route.ts:208-218 | a transaction that made one transfer and that a re-org or rollback makes stale is shown wrongly after it: with a transfer that is gone, or without the one that is there |
| `Indexer.ClipsAbove` | apps/web/src/app/api/sync/route.ts:215-227 | after a rewind a reported gap excepts only the ledgers up to the rewind ledger |
| `Rollback.SyncIsAPath` | apps/web/src/app/api/sync/route.ts:186-417 | whatever `runSync` leaves in the tables, returning early, rewinding, committed or thrown halfway, is reached by steps of the machine that `IndexerSafety` is about |
| `Rollback.SweepsAreComplete` | apps/web/src/lib/event-pager.ts:140-347 | a sweep that returns `complete` at the head delivered exactly the chain's events from its start ledger |
| `Rollback.DrainedRunIndexesAll` | apps/web/src/app/api/sync/route.ts:186-417 | when a run returns `drained`, every transfer to the merchant's address from its start ledger to the head is indexed under its hash and the cursor is at the head |
| `Rollback.SweepOntoIsScratch` | apps/web/src/app/api/sync/route.ts:186-417 | at every transaction with one transfer, a sweep of the ledgers above a bound onto any table gives the columns of indexing from scratch if and only if the table shows nothing there but a transfer of the chain, and that one if it is up to the bound |
| `Rollback.PurgeShows` | apps/web/src/lib/db.ts:737-760 | the purge keeps exactly the transfers that were shown up to the ledger |
| `Rollback.PurgeIsSoundExactly` | apps/web/src/lib/db.ts:737-760 | after the purge every indexed row shows a transfer of the chain that the node came back with if and only if every row shown up to the reported head did |
| `Rollback.PurgeCoversExactly` | apps/web/src/lib/db.ts:737-760 | and every transfer of that chain in scope is indexed if and only if its key was, at or below that head |
| `Rollback.ExactUpToCursor` | apps/web/src/app/api/sync/route.ts:186-417 | in a reachable state a transaction is exact up to the cursor unless its row is below the first start ledger, a gap was reported, a re-org left it stale or it makes several transfers |
| `Rollback.RunsAgree` | apps/web/src/app/api/sync/route.ts:186-417 | two reachable states of one chain, however reached, agree on every transfer both answer for |
| `Rollback.UnnoticedReorg` | apps/web/src/app/api/sync/route.ts:215-222 | when the head is not behind the cursor nothing is purged: at every transaction with one transfer on the new chain the table ends as indexing from scratch if and only if it already showed nothing else there, and that one if up to the cursor; and it goes on showing what it showed |
| `Rollback.WrongTableIsReachable` | apps/web/src/app/api/sync/route.ts:215-222 | for any transfer there is a run, begun with nothing synced, after which the table shows it although the chain does not make it, and no sweep of the new chain removes it |
| `Rollback.RollbackRestores` | apps/web/src/lib/db.ts:737-760 | from any reachable state and at every transaction with one transfer on the corrected chain, rollback and a complete sweep give every ledger-owned column that indexing it from scratch gives: where the table was exact up to the ledger, if and only if both chains make the same transfers up to there; where they do, if and only if the table was exact; staged rows are untouched |
| `Rollback.StraddlingRunLeavesAGap` | apps/web/src/app/api/sync/route.ts:190-194 | without the session lock, from any reachable state with a cursor and whatever runs are in flight, the steps of a run that delivers before a rewind and finishes after it lead to a state whose cursor has passed a transfer that is not indexed |
| `Anchor.ReceiptLeaves` | apps/web/src/lib/anchor.ts:96-131 | one receipt leaf per payment, or failure exactly when some transaction hash is malformed |
| `Anchor.CollectProofs` | apps/web/src/lib/anchor.ts:96-131 | the record has one entry per transaction, and each holds its receipt leaf and a proof `verifyReceipt` accepts |
| `Anchor.SelectionIs` | apps/web/src/lib/anchor.ts:57-90 | a selection names visible, indexed payments within the bounds that are in no batch, in ascending ledger order and by hash within a ledger, at most 1000; whatever it leaves out is only left out of a full one, and is no earlier |
| `Anchor.SelectionExists` | apps/web/src/lib/anchor.ts:57-90 | under any consistent collation the query has an answer, whatever the table, the bounds and what the connection sees |
| `Anchor.EmptySelectionIs` | apps/web/src/lib/anchor.ts:57-90 | an empty selection means that no visible payment within the bounds is without a batch |
| `Anchor.PreviewSpansSelection` | apps/web/src/lib/anchor.ts:96-131 | a preview counts its selection, its two ledgers bound every payment of it and are attained, and its two times are of payments in these ledgers |
| `Anchor.BuildPreview` | apps/web/src/lib/anchor.ts:96-131 | success exactly for non-empty selections of well-formed hashes and times; then root, count, period, ledgers and accepted proofs are those of the selection |
| `Anchor.PersistPreview` | apps/web/src/lib/anchor.ts:150-196 | the first preview of a selection is stored and a later one changes nothing and reports what is stored |
| `Anchor.PersistIs` | apps/web/src/lib/anchor.ts:150-196 | a preview adds its row, without id and transaction, unless the selection has one, and changes no other |
| `Anchor.StampPayments` | apps/web/src/lib/anchor.ts:272-296 | the loop stamps every listed payment exactly when each exists and carries no other batch |
| `Anchor.RecordAnchoredBatchTx` | apps/web/src/lib/anchor.ts:219-304 | success exactly when the selection is known, the root agrees and the batch is recorded already or can be; then the tables are those of a recorded batch, and else the error says which condition fails, and for which payment |
| `Anchor.RecordableExactly` | apps/web/src/lib/anchor.ts:219-304 | what can be recorded: a known selection with that root that is recorded under that id, or has no other id while no other selection has it and every payment it lists exists and is in no other batch |
| `Anchor.RecordIs` | apps/web/src/lib/anchor.ts:219-304 | a first record writes id, transaction and status into the row of its selection, id, leaf and proof into the payments that row lists, and nothing else |
| `Anchor.RecordAnchoredBatch` | apps/web/src/lib/anchor.ts:198-217 | a thrown error or failed commit leaves both tables unchanged, and so does recording a recorded pair |
| `Anchor.GetProof` | apps/web/src/lib/anchor.ts:306-340 | returns a row of the join with recorded batches that the connection may see if there is one, and nothing otherwise |
| `AnchorTheorems.StepKeeps` | apps/web/src/lib/anchor.ts:57-304 | reading a selection, previewing one read earlier, record, failed record, indexing, report and rollback, of any merchant, each keep the anchoring invariant |
| `AnchorTheorems.ServedProofsVerify` | apps/web/src/lib/anchor.ts:306-340 | in every state any run reaches, rollbacks included, whatever `getProof` returns is of a payment that the connection may see, names its recorded batch and that batch's root, has the transaction's receipt leaf and makes `verifyReceipt` true against the returned root |
| `AnchorTheorems.RecordedPaymentsAreServed` | apps/web/src/lib/anchor.ts:306-340 | in every state any run reaches, a payment that carries a batch id is served to a connection that may see it |
| `AnchorTheorems.StepKeepsOwned` | apps/web/src/lib/anchor.ts:219-304 | every step but rollback keeps each recorded batch's payments exactly those of its selection, of one merchant |
| `AnchorTheorems.RecordedBatchesPartition` | apps/web/src/lib/db.ts:361-376 | in every state any run reaches, no batch is `submitted`, recorded batches have distinct ids, and the payments that carry an id are of one merchant, among its batch's selection and at most `count`; without rollback they are exactly the selection, and `count` of them when selections are read for one merchant at a time |
| `AnchorTheorems.AnchoringIsWriteOnce` | apps/web/src/lib/anchor.ts:272-296 | over any further steps a recorded batch never changes, and without rollback an anchored payment keeps its batch, leaf and proof |
| `AnchorTheorems.RecordingIsIdempotent` | apps/web/src/lib/anchor.ts:219-304 | recording a recorded pair again succeeds and changes nothing, now and after any further steps |
| `AnchorTheorems.RollbackKeepsPartition` | apps/web/src/lib/db.ts:737-760 | rollback keeps the partition exactly when it purges no anchored payment |
| `AnchorTheorems.AnchoredPaymentsCanBePurged` | apps/web/src/lib/db.ts:737-760 | from empty tables any payment can be indexed, previewed and recorded, and a rollback below its ledger then breaks the partition |
| `AnchorTheorems.PreviewedRootIsSound` | apps/web/src/lib/anchor.ts:96-131 | a proof accepted against a previewed root names a payment of the selection, or a computed pair collides |
| `Replay.WindowIsAnInterval` | apps/web/src/lib/settlement-report.ts:96-130 | a dated report is acceptable exactly from five minutes before its time to its maximum age after, five minutes unless configured; earlier it is future-dated, later too old |
| `Replay.UndatedWindow` | apps/web/src/lib/settlement-report.ts:125-130 | an undated report is acceptable exactly up to the start of 2027 |
| `Replay.ConsumeSettlementNonce` | apps/web/src/lib/db.ts:848-863 | old nonces are swept, and the claim succeeds exactly when the nonce is not among the rest |
| `Replay.SweepNoncesAt` | apps/web/src/lib/db.ts:848-863 | the sweep keeps exactly the nonces of the last thirty days |
| `Replay.HandleExactly` | apps/web/src/app/api/hook/settle/route.ts:127-213 | which outcome a request has, and that only an accepted one changes the table: its nonce, beside those the sweep keeps |
| `Replay.HandleReport` | apps/web/src/app/api/hook/settle/route.ts:127-213 | a claim is kept exactly when the window admits the report, the nonce is new and the attribution commits |
| `Replay.RecordingsAreFarApart` | apps/web/src/lib/db.ts:829-863 | two recordings of one signature are further apart than the retention, in any run |
| `Replay.ReportsAreSingleUse` | apps/web/src/lib/db.ts:815-829 | if maximum age, skew and request latency fit in the retention, a dated report is recorded at most once in any run |
| `Replay.DefaultIsSingleUse` | apps/web/src/lib/settlement-report.ts:96-130 | the default configuration satisfies that condition for any latency up to 29 days |
| `Replay.LongWindowsReplay` | apps/web/src/lib/settlement-report.ts:96-130 | whenever the condition fails there is a run that records one dated report twice |
| `Replay.LegacyReportsAreSingleUse` | apps/web/src/lib/db.ts:815-829 | an undated report is recorded at most once if its nonce outlives the transition |
| `Replay.EarlyLegacyReportsReplay` | apps/web/src/lib/db.ts:815-829 | and otherwise there is a run that records it twice |
| `Money.ParsePrinted` | apps/web/src/lib/money.ts:13-28 | every integer number of stroops is read back from its printed form, and the indexer's printer writes the same text |
| `Money.AmountsExactly` | apps/web/src/lib/money.ts:13-20 | which texts are amounts, an optional minus, digits and possibly a point and digits, with spaces around; every other text is refused |
| `Money.CountsExactly` | packages/sdk/src/price-formatter.ts:61-64 | which texts are counts, an optional minus and digits with spaces around, and what is read of them |
| `Money.RefusedIsShown` | packages/sdk/src/price-formatter.ts:78-111 | what is refused is shown as it is |
| `Money.ParseIsExact` | apps/web/src/lib/money.ts:13-20 | parsing equals the written decimal exactly when every digit beyond the seventh is zero, and truncates otherwise |
| `Money.FractionDigits` | apps/web/src/lib/stellar-events.ts:54-61 | the printed fraction has seven digits and the value of the remainder |
| `Money.SumAmounts` | apps/web/src/lib/money.ts:31-38 | the result parses to the exact sum of the parseable entries |
| `Money.SumIgnoresOrder` | apps/web/src/lib/money.ts:31-38 | the sum depends on which amounts are listed and how often, not on their order |
| `Money.GroupShape` | apps/web/src/lib/money.ts:47-60 | separators stand at every fourth place from the right and nowhere else, never in front |
| `Money.GroupRemoves` | apps/web/src/lib/money.ts:47-60 | removing the separators restores the digits |
| `Money.DisplayParses` | packages/sdk/src/price-formatter.ts:78-97 | for any number of decimals kept, the display without its commas parses to the same stroops |
| `Money.FormatAmountParses` | apps/web/src/lib/money.ts:47-60 | formatting a parseable amount and removing the commas does not change its stroops |
| `Money.FormattersAgree` | packages/sdk/src/price-formatter.ts:78-122 | for every token of at least seven decimals the SDK's prices of a stroop count show the dashboard's amount of the decimal the indexer stores, and parse to the count |
| `Money.FixedPartsAre` | packages/sdk/src/price-formatter.ts:83-85 | taking the sign and splitting the fixed text at the point recovers the sign, the whole part and the seven decimals |
| `Money.FormatAmountIsDisplay` | apps/web/src/lib/money.ts:47-60 | the dashboard shows the grouped whole part and the stripped, then padded decimals |
| `Money.DecimalsShown` | apps/web/src/lib/money.ts:47-60 | at least the minimum of decimals is shown, and no trailing zero beyond it |
| `Money.PriceDecimals` | packages/sdk/src/price-formatter.ts:87-92 | a price shows at most its token's decimals, seven by default, and at least two of them |
| `Money.PriceIsExact` | packages/sdk/src/price-formatter.ts:78-97 | for a token of any number of decimals the price without its commas parses back to the count exactly when the count has no digit beyond them |
| `Csv.FieldRoundTrip` | apps/web/src/lib/payments-csv.ts:77-81 | any contents survive quoting, whatever delimiter follows |
| `Csv.RecordRoundTrip` | apps/web/src/lib/payments-csv.ts:84-86 | a written record reads back as its cells |
| `Csv.ExportRoundTrip` | apps/web/src/lib/payments-csv.ts:94-113 | under the grammar of section 2 of RFC 4180 the export reads back as one header and one ten-cell record per payment, cell for cell |
| `Csv.ExportIsInjective` | apps/web/src/lib/payments-csv.ts:94-113 | equal exports have equal cells |
| `Csv.ExportDetermines` | apps/web/src/lib/payments-csv.ts:94-113 | equal exports list as many payments, equal in time, amount, ledger and refund flag, and in every free text up to neutralising |
| `Csv.ColumnsAre` | apps/web/src/lib/payments-csv.ts:45-113 | what stands under which header: hash, time, amount, asset, payer, route, method, ledger and refund flag, each under its own |
| `Csv.NeutralizedExactly` | apps/web/src/lib/payments-csv.ts:59-69 | an apostrophe goes before a text that starts with one of six characters, and before no other |
| `Csv.QuotedExactly` | apps/web/src/lib/payments-csv.ts:77-81 | a field is written as it is exactly when it has no comma, quote or line break in it and no space at either end |
| `Csv.LabelIs` | apps/web/src/lib/money.ts:63-66 | the label of an asset is its code before the colon, and XLM for the native one |
| `Csv.FormulaCellsExactly` | apps/web/src/lib/payments-csv.ts:61-108 | which cells start as a formula, column by column: hash, identifier, payer, route, method and refund flag never, the time, the amount and the asset's label exactly when the text they are made of does, the ledger when negative |
| `Csv.LabelCanBeAFormula` | apps/web/src/lib/payments-csv.ts:101-102 | the label of the asset `=1+1:GA` starts as a formula, its identifier in the next column does not |
| `Csv.NeutralizeIdentifies` | apps/web/src/lib/payments-csv.ts:67-69 | neutralising identifies a text with its own neutralised form and no other two texts |
| `Json.TextRoundTrip` | packages/sdk/src/zk-proof.ts:79-81 | any string escaped as in section 7 of RFC 8259 reads back, whatever follows |
| `Json.NumbersAreTexts` | packages/sdk/src/zk-proof.ts:79-81 | a sign, digits, a fraction and an exponent, as finite numbers are written, are a number's text |
| `Json.EscapesExactly` | packages/sdk/src/zk-proof.ts:79-81 | which characters are escaped and how, as section 25.5.2 of ECMA-262 has it |
| `Json.ValueRoundTrip` | packages/sdk/src/zk-proof.ts:79-81 | any value's text reads back as that value, in every context a value can stand in |
| `Json.StringifyRoundTrip` | packages/sdk/src/zk-proof.ts:79-81 | parsing undoes `JSON.stringify`, so a text has one value |
| `CanonicalText.CodeUnitLessIsUtf16` | packages/sdk/src/zk-proof.ts:88 | keys are compared as their UTF-16 texts: a proper prefix is less, and else the first unit that differs decides |
| `CanonicalText.SurrogatesAre` | packages/sdk/src/zk-proof.ts:88 | a character beyond the first plane is two surrogates that carry its bits, the high half first |
| `CanonicalText.CanonicalKeysAscend` | packages/sdk/src/zk-proof.ts:83-92 | the keys of a canonical object: array indices first and by number, the others in ascending code unit order, none of them `__proto__` |
| `CanonicalText.IndexesAre` | packages/sdk/src/zk-proof.ts:83-92 | the keys listed first are the decimal texts of the numbers below 2^32 - 1 |
| `CanonicalText.BeforeIsTotal` | packages/sdk/src/zk-proof.ts:83-92 | the code unit order of keys, and the order in which an object lists them, are each total |
| `CanonicalText.OrderedFields` | packages/sdk/src/zk-proof.ts:83-92 | sorting members does not change which map they denote |
| `CanonicalText.OrderIsUnique` | packages/sdk/src/zk-proof.ts:83-92 | the same members have one listing in order |
| `CanonicalText.SortKeepsMeaning` | packages/sdk/src/zk-proof.ts:83-92 | sorting changes a value's meaning only by dropping `__proto__` members, at every depth |
| `CanonicalText.CanonicalIsUnique` | packages/sdk/src/zk-proof.ts:83-92 | a meaning has one value with all its objects in order |
| `CanonicalText.CanonicalTextReadsBack` | packages/sdk/src/zk-proof.ts:79-92 | the canonical text parses to the same value up to key order and `__proto__` members |
| `CanonicalText.CanonicalJsonIsComplete` | packages/sdk/src/zk-proof.ts:79-92 | two values have one text exactly when, without `__proto__` members, they are equal up to key order at every depth |
| `CanonicalText.CanonicalJsonIdentifiesReorderings` | packages/sdk/src/zk-proof.ts:74-92 | without `__proto__` keys: one text exactly when equal up to key order at every depth |
| `CanonicalText.KeptIsWhole` | packages/sdk/src/zk-proof.ts:83-92 | nothing is dropped exactly when no key at any depth is `__proto__` |
| `CanonicalText.ProtoMemberIsLost` | packages/sdk/src/zk-proof.ts:83-92 | an object with only a `__proto__` member has the text of the empty object and another meaning |
| `ZkProof.SortKeysInto` | packages/sdk/src/zk-proof.ts:83-92 | filling a fresh object in code unit order of the keys lists exactly the sorted members, indices first |
| `ZkProof.SameDigest` | packages/sdk/src/zk-proof.ts:196-202 | the accumulated xor/or difference is zero exactly when the two texts are equal |
| `ZkProof.VerifyOpeningProof` | packages/sdk/src/zk-proof.ts:187-206 | accepts exactly the one scheme, a non-empty blinding and commitment, and a commitment that is the digest of the blinding followed by the canonical text |
| `ZkProof.HonestOpeningsVerify` | packages/sdk/src/zk-proof.ts:144-206 | an honest opening verifies, in whichever key order its payload arrives |
| `ZkProof.OpeningsBind` | packages/sdk/src/zk-proof.ts:144-206 | two accepted openings with blindings of one length are one opening, or their preimages collide |
| `ZkProof.MeetExactly` | packages/sdk/src/zk-proof.ts:144-146 | some non-empty blindings give two payloads one preimage if and only if one canonical text is a suffix of the other |
| `ZkProof.OpeningsBindUpToSuffix` | packages/sdk/src/zk-proof.ts:144-206 | two accepted openings under any blindings are one opening, or collide, or one payload's text properly ends in the other's |
| `ZkProof.HexMeetExactly` | packages/sdk/src/zk-proof.ts:125-146 | some hexadecimal blindings give two payloads one preimage if and only if the payloads are one, or numbers one of which is hexadecimal digits followed by the other |
| `ZkProof.MeetingOpens` | packages/sdk/src/zk-proof.ts:187-206 | openings with one preimage are both accepted for one commitment, under every hash, and do not collide |
| `ZkProof.HexBlindingsBind` | packages/sdk/src/zk-proof.ts:125-206 | two accepted openings with hexadecimal blindings of any lengths are one opening, or collide, or open to two numbers one of which is hexadecimal digits followed by the other |
| `ZkProof.LengthsMatter` | packages/sdk/src/zk-proof.ts:144-146 | two numbers under hexadecimal blindings, and two strings under others, have one preimage |
| `Funnel.FilteredExactly` | apps/web/src/lib/funnel.ts:68-79 | an event is kept exactly when it is from the range's start up to before its end, of the device and of the wallet, where one is given |
| `Funnel.SessionsAtExactly` | apps/web/src/lib/funnel.ts:81-96 | a session is counted at a step exactly when one of its events is at that step or at a later one |
| `Funnel.CountReached` | apps/web/src/lib/funnel.ts:86-96 | the furthest-step map and the counting loops yield, per step, the number of distinct sessions with an event at it or later |
| `Funnel.AggregateFunnel` | apps/web/src/lib/funnel.ts:81-121 | the whole result is that of the sets of sessions, for any events and filters |
| `Funnel.OrderAndDuplicatesDoNotMatter` | apps/web/src/lib/funnel.ts:81-121 | two event lists with the same events, in any order and number, have one funnel |
| `Funnel.FunnelNarrows` | apps/web/src/lib/funnel.ts:1-7 | counts never rise along the steps, shares lie between 0 and 100, and a step shows a drop exactly when it lost a session |
| `Funnel.SharesAreExact` | apps/web/src/lib/funnel.ts:98-120 | every share times its whole is a hundred times its part, a step's conversion and drop make a hundred, and the overall conversion is the last step's |
| `Funnel.FirstAndEmptySteps` | apps/web/src/lib/funnel.ts:98-109 | the first step keeps all of what it has and drops nothing, and a step after an empty one shows neither share nor drop |
| `Funnel.BottleneckIsEarliestWorst` | apps/web/src/lib/funnel.ts:111-114 | the bottleneck is the earliest step after the first with the largest positive drop, and absent exactly when nothing was lost |
| `Funnel.ConversionMultiplies` | apps/web/src/lib/funnel.ts:98-109 | conversion from the start is the previous step's times the conversion from it |
| `Funnel.SegmentsExactly` | apps/web/src/lib/funnel.ts:129-143 | there is a segment for each device, or wallet, of the events that pass the filter, and its funnel is that of this one alone |
| `Funnel.SegmentsAreRanked` | apps/web/src/lib/funnel.ts:139-142 | under any consistent collation, larger audiences come first and equal ones by name |
| `Funnel.SegmentsAreSorted` | apps/web/src/lib/funnel.ts:129-143 | segments come largest audience first, and sorting neither loses nor adds one |
| `Funnel.SegmentsAddUp` | apps/web/src/lib/funnel.ts:129-143 | for all inputs the segments' counts at a step add up to at least the whole, and to exactly it if and only if no session reached the step under two labels or, when the empty label occurs, under any other label |
| `Funnel.EmptyValueRepeatsTheWhole` | apps/web/src/lib/funnel.ts:129-143 | the segment of the empty label is the unfiltered funnel |

## Left out

- EventPager.SweepLedgerRange: takes a positive window size, because with an option between 0 and 1 the source's loop does not advance and has no result to state.
- EventPager.ParallelSweepLedgerRange: takes a positive window size and concurrency, for the same reason.
- EventPager.DrainEvents: the chain does not change while one run reads it, and a cursor is one the RPC issued.
- InsertPayments.RowsOfMembers: XDR decoding is an abstract partial function of an event's body, and an event always has an id, a transaction hash and a closing time.
- Sync.RunSync: the cooldown, the RPC filters, retries, notifications and the page and row counters of the response are not modelled.
- Indexer.IndexerSafety: a run starts only with an RPC that names continuations, the chain is replaced only between runs, a transaction is in one ledger, and first runs and rollbacks have the merchant to themselves, as the session lock of route.ts:194 ensures. Transactions that re-orgs have left stale are excepted, because the table is wrong there.
- Rollback.RollbackRestores: is about the ledger-owned columns, and about transactions with one transfer to the merchant on the corrected chain, because which of two is kept depends on the order of delivery; attribution and batch ids of purged rows are gone, and only a new report or a new batch brings them back.
- Anchor.BuildPreview: the selection hash and `unixSeconds` are abstract, and the order of a selection is any collation.
- AnchorTheorems.RecordedBatchesPartition: a selection read over the rows of several merchants can name a transaction twice, and then `count` exceeds the payments that carry the id; the equality is stated for selections of one merchant.
- Settlement.RecordSettlement: `matchedExistingPayment` is stated as the code computes it, true for a fresher report on any existing row and so also for a row that was only staged.
- Replay.HandleReport: signature checking is outside; equal nonces are taken to sign equal bytes.
- Money.FormattersAgree: every token the SDK resolves has seven decimals; how it resolves one is not modelled.
- Json.ValueRoundTrip: `undefined`, functions, `toJSON`, NaN, infinities, negative zero and lone surrogates are not values of the model.
- ZkProof.VerifyOpeningProof: a failing hash implementation, which the source turns into `false`, cannot occur here.
- Funnel.AggregateFunnel: percentages are exact reals, so ties in the drop are exact ties rather than floating-point ones.
- HTTP routes other than the two modelled flows, SSE relays, webhooks, wallet adapters, transaction submission and the React components: input and output.
- SQL text, migrations, row-level security and locking internals: only keys, uniqueness, conflicts and `WHERE` conditions are kept.
- `currency.ts`, checkout totals, contrast ratios: floating point.
- `offline-sync.ts`, `retry.ts`, the read caches, the ABI registry, pagination and `compareRanges`: easy members.
- SHA-256, HMAC, Ed25519 and JWT internals, and the timing of comparisons.
