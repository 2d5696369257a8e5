/** The sync cursor and rollback of apps/web/src/lib/db.ts, and the run that composes sweep,
    insert and cursor in apps/web/src/app/api/sync/route.ts. */
module Sync {
  import opened Wrappers
  import opened Store
  import opened InsertPayments
  import opened Chain
  import EventPager
  import Sets

  const COLD_START_LOOKBACK := 2_000
  const MAX_LOOKBACK := 100_000
  const PARALLEL_SYNC_THRESHOLD := EventPager.LEDGER_WINDOW

  function Cursor(s: SyncState, merchantId: int): Option<int> {
    if merchantId in s then Some(s[merchantId]) else None
  }

  method GetLastSyncedLedger(db: Database, merchantId: int) returns (r: Option<int>)
    ensures r == Cursor(db.syncState, merchantId)
  {
    return if merchantId in db.syncState then Some(db.syncState[merchantId]) else None;
  }

  /** Forward only: the cursor never moves back here. */
  method SetLastSyncedLedger(db: Database, merchantId: int, ledger: int)
    modifies db`syncState
    ensures db.syncState == AdvanceCursor(old(db.syncState), merchantId, ledger)
  {
    if merchantId !in db.syncState {
      db.syncState := db.syncState[merchantId := ledger];
    } else if db.syncState[merchantId] < ledger {
      db.syncState := db.syncState[merchantId := ledger];
    }
  }

  /** `DELETE FROM payments WHERE merchant_id = $1 AND ledger > $2`; a null ledger never compares. */
  predicate Purged(key: Key, row: Row, merchantId: int, ledger: int) {
    key.merchantId == merchantId && row.ledger.Some? && row.ledger.value > ledger
  }

  function PurgeAbove(p: Payments, merchantId: int, ledger: int): Payments {
    map key | key in p && !Purged(key, p[key], merchantId, ledger) :: p[key]
  }

  /** Purges and rewinds together, or does nothing. */
  /** Row by row: the purge takes the merchant's rows above the ledger, and no other. */
  lemma PurgeAboveAt(p: Payments, merchantId: int, ledger: int, key: Key)
    ensures var row := Lookup(p, key);
            Lookup(PurgeAbove(p, merchantId, ledger), key) ==
            if row.Some? && key.merchantId == merchantId && row.value.ledger.Some? && row.value.ledger.value > ledger
            then None else row
  {
  }

  /** A merchant's cursor never goes back, and no other merchant's moves. */
  lemma CursorMovesForward(s: SyncState, merchantId: int, ledger: int, other: int)
    ensures var t := AdvanceCursor(s, merchantId, ledger);
            && (other != merchantId ==> Cursor(t, other) == Cursor(s, other))
            && Cursor(t, merchantId) ==
               Some(if merchantId in s && s[merchantId] > ledger then s[merchantId] else ledger)
  {
  }

  method RollbackSyncToLedger(db: Database, merchantId: int, ledger: int, fault: bool) returns (r: Result<nat, DbError>)
    modifies db`payments, db`syncState
    ensures r.Err? <==> fault
    ensures fault ==> db.payments == old(db.payments) && db.syncState == old(db.syncState)
    ensures !fault ==> db.payments == PurgeAbove(old(db.payments), merchantId, ledger) &&
                       db.syncState == old(db.syncState)[merchantId := ledger] &&
                       r.value == |old(db.payments)| - |db.payments|
  {
    var payments, syncState := db.payments, db.syncState;
    db.payments := PurgeAbove(payments, merchantId, ledger);
    db.syncState := syncState[merchantId := ledger];
    assert db.payments.Keys <= payments.Keys;
    Sets.SubsetSize(db.payments.Keys, payments.Keys);
    if fault {
      db.payments, db.syncState := payments, syncState;
      return Err(Fault);
    }
    return Ok(|payments| - |db.payments|);
  }

  /* ----- one run ----- */

  function Max(a: int, b: int): int {
    if a >= b then a else b
  }

  /** Where a run resumes, and where retention lets it start. */
  function ResumeFrom(cursor: Option<int>, latestLedger: int): int {
    if cursor.Some? then cursor.value + 1 else latestLedger - COLD_START_LOOKBACK
  }

  function StartLedger(cursor: Option<int>, latestLedger: int): int {
    Max(Max(ResumeFrom(cursor, latestLedger), latestLedger - MAX_LOOKBACK), 1)
  }

  function SkippedLedgers(cursor: Option<int>, latestLedger: int): int {
    Max(0, latestLedger - MAX_LOOKBACK - ResumeFrom(cursor, latestLedger))
  }

  /** Where a run starts and what it skips: without a cursor 2000 ledgers back; with one just after it, or where
      that is further back than the 100000 ledgers the node serves, as far as those go; never below ledger
      1. `skippedLedgers` counts exactly the ledgers between where it should resume and where it starts. */
  lemma SkippedIsTheGap(cursor: Option<int>, latestLedger: int)
    ensures var start, skipped := StartLedger(cursor, latestLedger), SkippedLedgers(cursor, latestLedger);
            && (cursor == None ==> skipped == 0 && start == if latestLedger > 2_000 then latestLedger - 2_000 else 1)
            && (cursor.Some? && latestLedger - cursor.value <= 100_001 ==>
                  skipped == 0 && start == if cursor.value >= 0 then cursor.value + 1 else 1)
            && (cursor.Some? && latestLedger - cursor.value > 100_001 ==>
                  && skipped == latestLedger - 100_000 - (cursor.value + 1) > 0
                  && start == if latestLedger > 100_000 then latestLedger - 100_000 else 1)
            && (cursor.Some? && cursor.value >= 0 ==> skipped == start - (cursor.value + 1))
  {
  }

  /** `insertPaymentRows` for each delivery, in order. */
  function UpsertDeliveries(p: Payments, decode: Decoder, m: Merchant, deliveries: seq<seq<RawEvent>>): Payments
    decreases |deliveries|
  {
    if deliveries == [] then p
    else UpsertDeliveries(UpsertAll(p, RowsOf(decode, m, deliveries[0])), decode, m, deliveries[1..])
  }

  /** The sweep a run makes of the ledgers up to `latestLedger`: sequential for a short gap,
      parallel for a long one, with the default window and concurrency. */
  ghost function SweepOf(x: RunInput): EventPager.Sweep {
    EventPager.Sweep(x.rpc, x.budget, x.collate, x.race, x.latestLedger, EventPager.LEDGER_WINDOW, true)
  }

  ghost function RunOutcome(s: EventPager.Sweep, startLedger: int): EventPager.Outcome
    requires EventPager.CanSweep(s)
  {
    if s.endLedger - startLedger + 1 > PARALLEL_SYNC_THRESHOLD then
      EventPager.ParallelFrom(s, EventPager.PARALLEL_CONCURRENCY, startLedger, EventPager.Start(startLedger))
    else EventPager.SequentialFrom(s, EventPager.Start(startLedger))
  }

  /** A run sweeps up to the latest ledger in windows of 10000, ten at a time once there is more than one. */
  lemma RunSweeps(x: RunInput, startLedger: int)
    requires Honest(x.rpc)
    ensures var s := EventPager.Sweep(x.rpc, x.budget, x.collate, x.race, x.latestLedger, 10_000, true);
            SweepOf(x) == s &&
            RunOutcome(s, startLedger) ==
            if x.latestLedger - startLedger >= 10_000
            then EventPager.ParallelFrom(s, 10, startLedger, EventPager.Start(startLedger))
            else EventPager.SequentialFrom(s, EventPager.Start(startLedger))
  {
  }

  datatype SyncError = FetchFailed(window: EventPager.FetchError) | StoreFailed(cause: DbError)

  datatype SyncResult = SyncResult(startLedger: int, syncedTo: int, skippedLedgers: int, drained: bool,
                                   purged: Option<nat>)

  /** The rows of one delivery commit: there are none, or no statement and no COMMIT fails and no chunk
      is refused. */
  predicate Commits(p: Payments, rows: seq<PaymentRow>, faults: Faults) {
    rows == [] ||
    ((forall i :: 0 <= i <= |Chunks(rows, PAYMENTS_BATCH_SIZE)| ==> !faults(i)) &&
     ClashFree(p, Chunks(rows, PAYMENTS_BATCH_SIZE)))
  }

  /** How many deliveries commit, one after the other, before the first that does not; `k` have already. */
  function CommittedPrefix(p: Payments, decode: Decoder, m: Merchant, deliveries: seq<seq<RawEvent>>,
                           faults: nat -> Faults, k: nat): (n: nat)
    ensures n <= |deliveries|
    decreases |deliveries|
  {
    if deliveries == [] then 0
    else
      var rows := RowsOf(decode, m, deliveries[0]);
      if !Commits(p, rows, faults(k)) then 0
      else 1 + CommittedPrefix(UpsertAll(p, rows), decode, m, deliveries[1..], faults, k + 1)
  }

  /** A delivery commits unless one of its statements, a hundred rows each, or the COMMIT fails, or one repeats
      a key that nothing before it indexed. */
  lemma CommitsExactly(p: Payments, rows: seq<PaymentRow>, faults: Faults)
    ensures Commits(p, rows, faults) <==>
            rows == [] ||
            ((forall i :: 0 <= i <= (|rows| + 99) / 100 ==> !faults(i)) &&
             forall c, i, j :: !Repeats(p, Chunks(rows, PAYMENTS_BATCH_SIZE), c, i, j))
  {
    hide Chunks, ClashFree, Repeats;
    StatementCount(rows);
    RefusedExactly(p, Chunks(rows, PAYMENTS_BATCH_SIZE));
  }

  /** The committed deliveries are those before the first that does not commit. */
  lemma {:induction false} CommittedPrefixIs(p: Payments, decode: Decoder, m: Merchant, deliveries: seq<seq<RawEvent>>,
                                             faults: nat -> Faults, k: nat, i: nat)
    requires i < |deliveries|
    ensures var n := CommittedPrefix(p, decode, m, deliveries, faults, k);
            var commits := Commits(UpsertDeliveries(p, decode, m, deliveries[..i]), RowsOf(decode, m, deliveries[i]),
                                   faults(k + i));
            (i < n ==> commits) && (i == n ==> !commits)
    decreases |deliveries|
  {
    hide Commits, RowsOf, UpsertAll;
    if i > 0 {
      var p' := UpsertAll(p, RowsOf(decode, m, deliveries[0]));
      assert deliveries[..i][1..] == deliveries[1..][..i - 1];
      CommittedPrefixIs(p', decode, m, deliveries[1..], faults, k + 1, i - 1);
    } else {
      assert deliveries[..0] == [];
    }
  }

  /** Everything a run is given: the node, its head, and what fails from outside. `faults(k)(i)` is
      statement `i` of the transaction for delivery `k`, COMMIT being the one after its last chunk;
      `rollbackFault` and `cursorFault` are the rollback transaction and the cursor write. */
  datatype RunInput = RunInput(
    rpc: Rpc, latestLedger: int, budget: EventPager.Budget, collate: EventPager.Collation, race: EventPager.Race,
    faults: nat -> Faults, rollbackFault: bool, cursorFault: bool)

  method RunSync(db: Database, m: Merchant, decode: Decoder, x: RunInput) returns (r: Result<SyncResult, SyncError>)
    requires Honest(x.rpc)
    modifies db`payments, db`syncState
    ensures RunEffect(old(db.payments), old(db.syncState), db.payments, db.syncState, m, decode, x, r)
  {
    hide SweepEffect, Honest, PurgeAbove;
    var cursor := GetLastSyncedLedger(db, m.id);
    var purged: Option<nat> := None;
    if cursor.Some? && x.latestLedger < cursor.value {
      var rollback := RollbackSyncToLedger(db, m.id, x.latestLedger, x.rollbackFault);
      if rollback.Err? {
        return Err(StoreFailed(rollback.error));
      }
      cursor := Some(x.latestLedger);
      purged := Some(rollback.value);
    }
    r := SweepAndCommit(db, m, decode, x, cursor, purged);
  }

  /** The run from the cursor on, after any rewind. */
  method SweepAndCommit(db: Database, m: Merchant, decode: Decoder, x: RunInput, cursor: Option<int>,
                        purged: Option<nat>)
    returns (r: Result<SyncResult, SyncError>)
    requires Honest(x.rpc) && cursor == Cursor(db.syncState, m.id)
    modifies db`payments, db`syncState
    ensures SweepEffect(old(db.payments), old(db.syncState), db.payments, db.syncState, m, decode, x, purged, r)
  {
    hide EventPager.SequentialFrom, EventPager.ParallelFrom, Honest, UpsertDeliveries, CommittedPrefix;
    var startLedger := StartLedger(cursor, x.latestLedger);
    var skipped := SkippedLedgers(cursor, x.latestLedger);
    if startLedger > x.latestLedger {
      return Ok(SyncResult(startLedger, startLedger - 1, skipped, true, purged));
    }
    var o;
    if x.latestLedger - startLedger + 1 > PARALLEL_SYNC_THRESHOLD {
      o := EventPager.ParallelSweepLedgerRange(
        x.rpc, startLedger, x.latestLedger, None, None, x.budget, x.collate, x.race, true);
    } else {
      o := EventPager.SweepLedgerRange(x.rpc, startLedger, x.latestLedger, None, x.budget, x.collate, x.race, true);
    }
    assert o == RunOutcome(SweepOf(x), startLedger);
    hide RunOutcome;
    var failed := CommitDeliveries(db, m, decode, o.deliveries, x.faults);
    assert o.deliveries[..|o.deliveries|] == o.deliveries;
    if failed.Some? {
      return Err(StoreFailed(failed.value));
    }
    if o.result.Err? {
      return Err(FetchFailed(o.result.error));
    }
    if x.cursorFault {
      return Err(StoreFailed(Fault));
    }
    SetLastSyncedLedger(db, m.id, o.result.value.sweptThrough);
    return Ok(SyncResult(startLedger, o.result.value.sweptThrough, skipped, o.result.value.complete, purged));
  }

  /** The calls of `onEvents`, up to the first that throws. */
  method CommitDeliveries(db: Database, m: Merchant, decode: Decoder, deliveries: seq<seq<RawEvent>>,
                          faults: nat -> Faults)
    returns (failed: Option<DbError>)
    modifies db`payments
    ensures var n := CommittedPrefix(old(db.payments), decode, m, deliveries, faults, 0);
            db.payments == UpsertDeliveries(old(db.payments), decode, m, deliveries[..n]) &&
            (failed.None? <==> n == |deliveries|)
  {
    hide UpsertAll, RowsOf, Commits;
    ghost var p := db.payments;
    ghost var n := CommittedPrefix(p, decode, m, deliveries, faults, 0);
    assert deliveries[0..] == deliveries && deliveries[..0] == [];
    for k := 0 to |deliveries|
      invariant db.payments == UpsertDeliveries(p, decode, m, deliveries[..k])
      invariant n == k + CommittedPrefix(db.payments, decode, m, deliveries[k..], faults, k)
    {
      var rows, _ := EventsToPaymentRows(decode, deliveries[k], m);
      var snapshot := db.payments;
      UpsertDeliveriesAppend(p, decode, m, deliveries[..k], deliveries[k]);
      assert deliveries[..k + 1] == deliveries[..k] + [deliveries[k]];
      assert deliveries[k..][0] == deliveries[k] && deliveries[k..][1..] == deliveries[k + 1..];
      var committed := CommitRows(db, rows, faults(k));
      if committed.Err? {
        db.payments := snapshot;
        return Some(committed.error);
      }
    }
    assert deliveries[..|deliveries|] == deliveries && deliveries[|deliveries|..] == [];
    return None;
  }

  /** `onEvents` returns at once for no rows, and else runs `insertPaymentRows` up to COMMIT. */
  method CommitRows(db: Database, rows: seq<PaymentRow>, faults: Faults) returns (r: Result<(), DbError>)
    modifies db`payments
    ensures r.Ok? <==> Commits(old(db.payments), rows, faults)
    ensures r.Ok? ==> db.payments == UpsertAll(old(db.payments), rows)
  {
    hide UpsertAll, Written, ClashFree, Chunks;
    if rows == [] {
      NoRows(db.payments);
      return Ok(());
    }
    var inserted := InsertChunks(db, rows, faults);
    if inserted.Err? {
      return Err(inserted.error);
    }
    if faults(|Chunks(rows, PAYMENTS_BATCH_SIZE)|) {
      return Err(Fault);
    }
    return Ok(());
  }

  lemma NoRows(p: Payments)
    ensures UpsertAll(p, []) == p
  {
  }

  lemma {:induction false} UpsertDeliveriesAppend(p: Payments, decode: Decoder, m: Merchant, ds: seq<seq<RawEvent>>,
                                                  d: seq<RawEvent>)
    ensures UpsertDeliveries(p, decode, m, ds + [d]) ==
            UpsertAll(UpsertDeliveries(p, decode, m, ds), RowsOf(decode, m, d))
    decreases |ds|
  {
    if ds == [] {
      assert (ds + [d])[1..] == [];
    } else {
      assert (ds + [d])[1..] == ds[1..] + [d];
      UpsertDeliveriesAppend(UpsertAll(p, RowsOf(decode, m, ds[0])), decode, m, ds[1..], d);
    }
  }

  /** Committing deliveries one by one is upserting the rows of all their events. */
  lemma {:induction false} UpsertDeliveriesIs(p: Payments, decode: Decoder, m: Merchant, deliveries: seq<seq<RawEvent>>)
    ensures UpsertDeliveries(p, decode, m, deliveries) ==
            UpsertAll(p, RowsOf(decode, m, EventPager.Flatten(deliveries)))
    decreases |deliveries|
  {
    if deliveries != [] {
      var front, last := deliveries[..|deliveries| - 1], deliveries[|deliveries| - 1];
      assert deliveries == front + [last];
      UpsertDeliveriesIs(p, decode, m, front);
      UpsertDeliveriesAppend(p, decode, m, front, last);
      RowsInOrder(decode, m, EventPager.Flatten(front), last);
      UpsertSplits(p, RowsOf(decode, m, EventPager.Flatten(front)), RowsOf(decode, m, last));
    }
  }

  /** A rewind is due: the head the node reports is behind the cursor. */
  predicate Rewinds(c: SyncState, m: Merchant, latestLedger: int) {
    Cursor(c, m.id).Some? && latestLedger < Cursor(c, m.id).value
  }

  /** What a run does from tables `p` and `c` to tables `q` and `d`, and what it returns. When a rewind is
      due it either happens or the run throws and nothing does. Then, when the node has nothing new,
      nothing else happens. Else the deliveries that commit are committed, and the run returns if and
      only if the sweep did, all of them commit and the cursor write succeeds; the cursor moves exactly
      then. */
  ghost predicate RunEffect(p: Payments, c: SyncState, q: Payments, d: SyncState, m: Merchant, decode: Decoder,
                            x: RunInput, r: Result<SyncResult, SyncError>)
    requires Honest(x.rpc)
  {
    if !Rewinds(c, m, x.latestLedger) then SweepEffect(p, c, q, d, m, decode, x, None, r)
    else if x.rollbackFault then q == p && d == c && r.Err? && r.error.StoreFailed?
    else
      var purged := PurgeAbove(p, m.id, x.latestLedger);
      |purged| <= |p| &&
      SweepEffect(purged, c[m.id := x.latestLedger], q, d, m, decode, x, Some(|p| - |purged|), r)
  }

  ghost predicate SweepEffect(p: Payments, c: SyncState, q: Payments, d: SyncState, m: Merchant, decode: Decoder,
                              x: RunInput, purged: Option<nat>, r: Result<SyncResult, SyncError>)
    requires Honest(x.rpc)
  {
    var start := StartLedger(Cursor(c, m.id), x.latestLedger);
    var skipped := SkippedLedgers(Cursor(c, m.id), x.latestLedger);
    if start > x.latestLedger then
      q == p && d == c && r == Ok(SyncResult(start, start - 1, skipped, true, purged))
    else
      var o := RunOutcome(SweepOf(x), start);
      var n := CommittedPrefix(p, decode, m, o.deliveries, x.faults, 0);
      && q == UpsertDeliveries(p, decode, m, o.deliveries[..n])
      && (r.Ok? <==> o.result.Ok? && n == |o.deliveries| && !x.cursorFault)
      && (r.Ok? ==>
            var swept := o.result.value;
            d == AdvanceCursor(c, m.id, swept.sweptThrough) &&
            r.value == SyncResult(start, swept.sweptThrough, skipped, swept.complete, purged))
      && (r.Err? ==>
            d == c && if n == |o.deliveries| && o.result.Err? then r.error == FetchFailed(o.result.error)
                      else r.error.StoreFailed?)
  }

  /** A run that rewinds sweeps nothing: the cursor is then the head, so the rewind is all it does. */
  lemma RewindingRunStops(p: Payments, c: SyncState, q: Payments, d: SyncState, m: Merchant, decode: Decoder,
                          x: RunInput, r: Result<SyncResult, SyncError>)
    requires Honest(x.rpc) && Rewinds(c, m, x.latestLedger) && RunEffect(p, c, q, d, m, decode, x, r)
    ensures r.Ok? <==> !x.rollbackFault
    ensures r.Ok? ==> q == PurgeAbove(p, m.id, x.latestLedger) && d == c[m.id := x.latestLedger] && r.value.drained
  {
  }

  /** Whatever becomes of a run, it touches the rows and the cursor of its own merchant alone. */
  lemma RunTouchesOneMerchant(p: Payments, c: SyncState, q: Payments, d: SyncState, m: Merchant, decode: Decoder,
                              x: RunInput, r: Result<SyncResult, SyncError>, key: Key)
    requires Honest(x.rpc) && RunEffect(p, c, q, d, m, decode, x, r) && key.merchantId != m.id
    ensures Lookup(q, key) == Lookup(p, key) && Cursor(d, key.merchantId) == Cursor(c, key.merchantId)
  {
    var purged := PurgeAbove(p, m.id, x.latestLedger);
    PurgeAboveAt(p, m.id, x.latestLedger, key);
    var c' := if Rewinds(c, m, x.latestLedger) then c[m.id := x.latestLedger] else c;
    var p' := if Rewinds(c, m, x.latestLedger) then purged else p;
    hide RunOutcome, UpsertDeliveries, CommittedPrefix, PurgeAbove;
    if q != p {
      if StartLedger(Cursor(c', m.id), x.latestLedger) <= x.latestLedger {
        var o := RunOutcome(SweepOf(x), StartLedger(Cursor(c', m.id), x.latestLedger));
        var n := CommittedPrefix(p', decode, m, o.deliveries, x.faults, 0);
        DeliveriesTouchOneMerchant(p', decode, m, o.deliveries[..n], key);
      }
    }
  }

  lemma DeliveriesTouchOneMerchant(p: Payments, decode: Decoder, m: Merchant, deliveries: seq<seq<RawEvent>>, key: Key)
    requires key.merchantId != m.id
    ensures Lookup(UpsertDeliveries(p, decode, m, deliveries), key) == Lookup(p, key)
  {
    var rows := RowsOf(decode, m, EventPager.Flatten(deliveries));
    UpsertDeliveriesIs(p, decode, m, deliveries);
    UpsertAllAt(p, rows, key);
    hide UpsertAll, RowsOf, UpsertDeliveries;
    forall r | r in rows ensures r.merchantId == m.id {
      RowsAreTransfers(decode, m, EventPager.Flatten(deliveries), r);
    }
  }

  /** A run that returns `drained` after a sweep has committed a complete one. */
  lemma DrainedRunSwept(p: Payments, c: SyncState, q: Payments, d: SyncState, m: Merchant, decode: Decoder,
                        x: RunInput, r: Result<SyncResult, SyncError>)
    requires Honest(x.rpc) && RunEffect(p, c, q, d, m, decode, x, r)
    requires r.Ok? && r.value.drained && r.value.startLedger <= x.latestLedger
    ensures var o := RunOutcome(SweepOf(x), r.value.startLedger);
            && o.result.Ok? && o.result.value.complete && d == AdvanceCursor(c, m.id, o.result.value.sweptThrough)
            && q == UpsertDeliveries(p, decode, m, o.deliveries) && !Rewinds(c, m, x.latestLedger)
  {
    hide RunOutcome, UpsertDeliveries, CommittedPrefix, PurgeAbove;
    var o := RunOutcome(SweepOf(x), r.value.startLedger);
    assert o.deliveries[..|o.deliveries|] == o.deliveries;
  }
}
