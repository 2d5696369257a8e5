/** Beside the machine of Indexer: a run of the sync route is one of its paths; exactly when a sweep
    onto a table gives what indexing from scratch gives, after a rollback and without one; and what
    a rollback does to a run it straddles. */
module Rollback {
  import opened Wrappers
  import opened Chain
  import opened Store
  import opened InsertPayments
  import opened Sync
  import opened Transfers
  import opened Indexer
  import EventPager
  import SweepTheorems
  import SweepLimits

  /* ----- the route's run is a path of the machine ----- */

  function DeliverSteps(id: nat, n: nat): seq<Step> {
    seq(n, _ => Step.Deliver(id))
  }

  lemma {:induction false} DeliverPath(w: World, st: State, id: nat, n: nat)
    requires id in st.runs && st.runs[id].committed + n <= |st.runs[id].outcome.deliveries|
    ensures var run := st.runs[id];
            var todo := run.outcome.deliveries[run.committed..run.committed + n];
            Reaches(w, st, DeliverSteps(id, n),
                    st.(payments := UpsertDeliveries(st.payments, w.decode, w.merchant, todo),
                        runs := st.runs[id := run.(committed := run.committed + n)]))
    decreases n
  {
    hide UpsertAll, RowsOf;
    var run := st.runs[id];
    if n == 0 {
      assert st.runs[id := run] == st.runs;
    } else {
      var next := Next(w, st, Step.Deliver(id));
      DeliverPath(w, next, id, n - 1);
      assert DeliverSteps(id, n)[1..] == DeliverSteps(id, n - 1);
      var todo := run.outcome.deliveries[run.committed..run.committed + n];
      assert todo[1..] == run.outcome.deliveries[run.committed + 1..run.committed + 1 + (n - 1)];
      assert next.runs[id := next.runs[id].(committed := run.committed + 1 + (n - 1))] ==
             st.runs[id := run.(committed := run.committed + n)];
    }
  }

  lemma {:induction false} ReachesConcat(w: World, a: State, s: seq<Step>, b: State, t: seq<Step>, c: State)
    requires Reaches(w, a, s, b) && Reaches(w, b, t, c)
    ensures Reaches(w, a, s + t, c)
    decreases |s|
  {
    hide Next, Enabled;
    if s == [] {
      assert s + t == t;
    } else {
      assert (s + t)[1..] == s[1..] + t;
      ReachesConcat(w, Next(w, a, s[0]), s[1..], b, t, c);
    }
  }

  /** The steps of a run that commits `n` deliveries and ends with `last`. */
  function RunSteps(id: nat, s: EventPager.Sweep, n: nat, last: Step): seq<Step> {
    [Begin(id, s)] + (DeliverSteps(id, n) + [last])
  }

  /** The state after `n` committed deliveries of run `id`. */
  function Committed(w: World, st: State, id: nat, n: nat): State
    requires id in st.runs && st.runs[id].committed == 0 && n <= |st.runs[id].outcome.deliveries|
  {
    st.(payments := UpsertDeliveries(st.payments, w.decode, w.merchant, st.runs[id].outcome.deliveries[..n]),
        runs := st.runs[id := st.runs[id].(committed := n)])
  }

  lemma RunPath(w: World, st: State, id: nat, s: EventPager.Sweep, n: nat, last: Step)
    requires Enabled(w, st, Begin(id, s))
    requires n <= |RunOutcome(s, StartLedger(st.cursor, st.head)).deliveries|
    requires Enabled(w, Committed(w, Next(w, st, Begin(id, s)), id, n), last)
    ensures Reaches(w, st, RunSteps(id, s, n, last), Next(w, Committed(w, Next(w, st, Begin(id, s)), id, n), last))
  {
    hide UpsertDeliveries, RunOutcome, Honest, IssuesTokens, OneLedgerPerTx, Ordered;
    var begun := Next(w, st, Begin(id, s));
    var committed := Committed(w, begun, id, n);
    DeliverPath(w, begun, id, n);
    assert begun.runs[id].outcome.deliveries[0..0 + n] == begun.runs[id].outcome.deliveries[..n];
    hide Next, Enabled;
    assert [last][1..] == [] && Reaches(w, committed, [last], Next(w, committed, last));
    var rest := DeliverSteps(id, n) + [last];
    ReachesConcat(w, begun, DeliverSteps(id, n), committed, [last], Next(w, committed, last));
    assert RunSteps(id, s, n, last)[1..] == rest;
  }

  /** What a run needs of the node and the lock. One that will rewind has the merchant to itself and may meet
      any chain; any other meets the chain as it is, and a first run is alone. */
  ghost predicate CanRun(w: World, st: State, id: nat, x: RunInput) {
    Honest(x.rpc) &&
    if st.cursor.Some? && x.latestLedger < st.cursor.value then
      st.runs == map[] && IsChain(w, x.rpc.chain, x.latestLedger)
    else
      && x.rpc.chain == st.chain && x.latestLedger == st.head && IssuesTokens(x.rpc) && id !in st.runs
      && (st.cursor.None? ==> st.runs == map[]) && forall i :: i in st.runs ==> !st.runs[i].cold
  }

  /** Whatever `runSync` leaves in the tables, returning early, rewinding, committed or thrown halfway, the
      machine reaches; so its safety is the route's. */
  lemma SyncIsAPath(w: World, st: State, id: nat, x: RunInput, c: SyncState, q: Payments, d: SyncState,
                    r: Result<SyncResult, SyncError>)
    requires CanRun(w, st, id, x) && Cursor(c, w.merchant.id) == st.cursor
    requires RunEffect(st.payments, c, q, d, w.merchant, w.decode, x, r)
    ensures exists steps, end ::
              Reaches(w, st, steps, end) && end.payments == q && end.cursor == Cursor(d, w.merchant.id)
  {
    hide UpsertDeliveries, RunOutcome, Honest, IssuesTokens, IsChain, CommittedPrefix, PurgeAbove, StaleKeys;
    assert Reaches(w, st, [], st);
    if Rewinds(c, w.merchant, x.latestLedger) {
      RewindingRunStops(st.payments, c, q, d, w.merchant, w.decode, x, r);
      if !x.rollbackFault { RewindPath(w, st, x.rpc.chain, x.latestLedger); }
    } else if StartLedger(st.cursor, st.head) <= st.head {
      var s := SweepOf(x);
      var o := RunOutcome(s, StartLedger(st.cursor, st.head));
      var n := CommittedPrefix(st.payments, w.decode, w.merchant, o.deliveries, x.faults, 0);
      RunPath(w, st, id, s, n, if r.Ok? then Finish(id) else Abort(id));
    }
  }

  lemma RewindPath(w: World, st: State, corrected: seq<RawEvent>, ledger: int)
    requires Enabled(w, st, Rewind(corrected, ledger))
    ensures Reaches(w, st, [Rewind(corrected, ledger)], Rewound(w, st, corrected, ledger))
  {
  }

  /* ----- rollback rebuilds the corrected chain ----- */

  ghost predicate DeliveredRow(w: World, deliveries: seq<seq<RawEvent>>, r: PaymentRow) {
    exists k, e :: 0 <= k < |deliveries| && e in deliveries[k] && HasRow(w, e, r)
  }

  ghost predicate EventRow(w: World, events: seq<RawEvent>, r: PaymentRow) {
    exists e :: e in events && HasRow(w, e, r)
  }

  /** One committed window, key by key. */
  lemma DeliveryAt(w: World, p: Payments, events: seq<RawEvent>, key: Key)
    ensures var q := UpsertAll(p, RowsOf(w.decode, w.merchant, events));
            && (Indexed(p, key) ==> Indexed(q, key) && q[key] == p[key])
            && (!Indexed(p, key) && Indexed(q, key) ==>
                exists r :: EventRow(w, events, r) && KeyOf(r) == key && LedgerIs(q[key], r))
            && (forall r :: EventRow(w, events, r) && KeyOf(r) == key ==> Indexed(q, key))
  {
    var rows := RowsOf(w.decode, w.merchant, events);
    var q := UpsertAll(p, rows);
    UpsertAllAt(p, rows, key);
    hide UpsertAll, RowsOf, RowOf;
    if !Indexed(p, key) && Indexed(q, key) {
      var r := FirstWith(rows, key);
      RowsOfMembers(w.decode, w.merchant, events, r);
      assert EventRow(w, events, r) && LedgerIs(q[key], r);
    }
    forall r | EventRow(w, events, r) && KeyOf(r) == key ensures Indexed(q, key) {
      RowsOfMembers(w.decode, w.merchant, events, r);
      assert HasKey(rows, key);
    }
  }

  lemma {:induction false} DeliveriesAt(w: World, p: Payments, deliveries: seq<seq<RawEvent>>, key: Key)
    ensures var q := UpsertDeliveries(p, w.decode, w.merchant, deliveries);
            && (Indexed(p, key) ==> Indexed(q, key) && q[key] == p[key])
            && (!Indexed(p, key) && Indexed(q, key) ==>
                exists r :: DeliveredRow(w, deliveries, r) && KeyOf(r) == key && LedgerIs(q[key], r))
            && (forall r :: DeliveredRow(w, deliveries, r) && KeyOf(r) == key ==> Indexed(q, key))
    decreases |deliveries|
  {
    if deliveries != [] {
      var p' := UpsertAll(p, RowsOf(w.decode, w.merchant, deliveries[0]));
      var q := UpsertDeliveries(p, w.decode, w.merchant, deliveries);
      DeliveryAt(w, p, deliveries[0], key);
      DeliveriesAt(w, p', deliveries[1..], key);
      hide UpsertAll, RowsOf, RowOf, UpsertDeliveries, LedgerIs;
      forall r
        ensures DeliveredRow(w, deliveries, r) <==> EventRow(w, deliveries[0], r) || DeliveredRow(w, deliveries[1..], r)
      {
        SplitDelivery(w, deliveries, r);
      }
      hide DeliveredRow, EventRow;
    }
  }

  lemma SplitDelivery(w: World, deliveries: seq<seq<RawEvent>>, r: PaymentRow)
    requires deliveries != []
    ensures DeliveredRow(w, deliveries, r) <==> EventRow(w, deliveries[0], r) || DeliveredRow(w, deliveries[1..], r)
  {
  }

  /** A complete sweep of the ledgers from `from` on has delivered exactly those events of the chain. */
  ghost predicate CompleteSweep(chain: seq<RawEvent>, from: int, deliveries: seq<seq<RawEvent>>) {
    forall e :: (exists k :: 0 <= k < |deliveries| && e in deliveries[k]) <==> e in chain && e.ledger >= from
  }

  /** Which is what either sweep of event-pager.ts does when it returns `complete` at the head of the chain. */
  lemma SweepsAreComplete(s: EventPager.Sweep, startLedger: int, o: EventPager.Outcome)
    requires EventPager.CanSweep(s) && IssuesTokens(s.rpc) && startLedger <= s.endLedger
    requires SweepTheorems.SafeResult(s, startLedger, o) && o.result.Ok? && o.result.value.complete
    requires forall e :: e in s.rpc.chain ==> e.ledger <= s.endLedger
    ensures CompleteSweep(s.rpc.chain, startLedger, o.deliveries)
  {
    var chain := s.rpc.chain;
    var run := PendingRun(startLedger, startLedger, false, o, 0);
    hide IssuesTokens, SweepTheorems.IsBoundary, SweepTheorems.Delivered, EventPager.Flatten, Upto,
         SweepTheorems.FromStart;
    OutcomeDelivers(s, startLedger, run);
    assert Ordered(chain);
    hide Honest, Ordered;
    forall k, e | 0 <= k < |o.deliveries| && e in o.deliveries[k] ensures e in chain && e.ledger >= startLedger {
      FlattenMembers(o.deliveries, e);
      FromStartIsLater(s, startLedger, e);
    }
  }

  lemma FromStartIsLater(s: EventPager.Sweep, startLedger: int, e: RawEvent)
    requires Ordered(s.rpc.chain) && e in SweepTheorems.FromStart(s, startLedger, |s.rpc.chain|)
    ensures e in s.rpc.chain && e.ledger >= startLedger
  {
    UptoSplits(s.rpc.chain, startLedger - 1);
  }

  /** What a merchant gets of a run that returns `drained`: every transfer to its address from the start ledger
      to the head is indexed under its own hash, and the cursor stands at the head. */
  lemma DrainedRunIndexesAll(w: World, p: Payments, c: SyncState, q: Payments, d: SyncState, x: RunInput,
                             r: Result<SyncResult, SyncError>, e: RawEvent, t: Transfer)
    requires Honest(x.rpc) && IssuesTokens(x.rpc) && RunEffect(p, c, q, d, w.merchant, w.decode, x, r)
    requires forall f :: f in x.rpc.chain ==> f.ledger <= x.latestLedger
    requires r.Ok? && r.value.drained && e in x.rpc.chain && r.value.startLedger <= e.ledger
    requires w.decode(e.body) == Some(t) && t.to == w.merchant.address
    ensures Indexed(q, Key(w.merchant.id, e.txHash)) && Cursor(d, w.merchant.id) == Some(x.latestLedger)
  {
    var start, s := r.value.startLedger, SweepOf(x);
    DrainedRunSwept(p, c, q, d, w.merchant, w.decode, x, r);
    RunSweeps(x, start);
    var o := RunOutcome(s, start);
    hide RunEffect, RunOutcome, EventPager.SequentialFrom, EventPager.ParallelFrom, SweepTheorems.SafeResult, Honest,
         IssuesTokens, UpsertDeliveries, CompleteSweep, RowOf, States;
    SweepTheorems.SweepsAreSafe(s, start, EventPager.PARALLEL_CONCURRENCY);
    SweptThroughHead(s, start, o);
    SweepsAreComplete(s, start, o);
    CompleteSweepIndexes(w, s.rpc.chain, start, p, o.deliveries, e, t);
  }

  lemma CompleteSweepIndexes(w: World, chain: seq<RawEvent>, from: int, p: Payments, deliveries: seq<seq<RawEvent>>,
                             e: RawEvent, t: Transfer)
    requires CompleteSweep(chain, from, deliveries) && e in chain && from <= e.ledger
    requires w.decode(e.body) == Some(t) && t.to == w.merchant.address
    ensures Indexed(UpsertDeliveries(p, w.decode, w.merchant, deliveries), Key(w.merchant.id, e.txHash))
  {
    var row := RowOf(w.decode, w.merchant, e).value;
    hide RowOf, UpsertDeliveries, CompleteSweep;
    RowOfExactly(w.decode, w.merchant, e, row);
    assert OnChain(w, chain, row);
    RowMerchant(w, e, row);
    TransferDelivered(w, chain, from, deliveries, row);
    DeliveriesAt(w, p, deliveries, KeyOf(row));
  }

  lemma SweptThroughHead(s: EventPager.Sweep, startLedger: int, o: EventPager.Outcome)
    requires SweepTheorems.SafeResult(s, startLedger, o) && o.result.Ok? && o.result.value.complete
    requires startLedger <= s.endLedger
    ensures o.result.value.sweptThrough == s.endLedger
  {
    hide SweepTheorems.Delivered, SweepTheorems.IsBoundary;
  }

  /* ----- a sweep onto a table, key by key ----- */

  /** The ledger-owned columns of a key, if it is indexed. */
  function LedgerView(p: Payments, key: Key)
    : Option<(Option<int>, Option<string>, Option<string>, Option<string>, Option<string>)>
  {
    if Indexed(p, key) then Some((p[key].ledger, p[key].payer, p[key].amount, p[key].asset, p[key].ts)) else None
  }

  /** A transfer to the merchant on the chain, from ledger `from` on. */
  ghost predicate MadeFrom(w: World, chain: seq<RawEvent>, from: int, r: PaymentRow) {
    OnChain(w, chain, r) && r.ledger >= from
  }

  /** At the key, agreeing column by column is showing the same transfer. */
  lemma AgreeIsShowSame(p: Payments, q: Payments, key: Key)
    requires BackedAt(p, key) && BackedAt(q, key)
    ensures LedgerView(p, key) == LedgerView(q, key) <==> forall r :: KeyOf(r) == key ==> (Shows(p, r) <==> Shows(q, r))
  {
  }

  lemma TransferDelivered(w: World, chain: seq<RawEvent>, from: int, deliveries: seq<seq<RawEvent>>, r: PaymentRow)
    requires CompleteSweep(chain, from, deliveries)
    ensures DeliveredRow(w, deliveries, r) <==> MadeFrom(w, chain, from, r)
  {
  }

  /** What a key shows after a sweep of the chain from ledger `from` on, if its transaction makes one transfer:
      what it showed, or the transfer swept if it was not indexed. */
  lemma SweptShows(w: World, chain: seq<RawEvent>, q: Payments, from: int, deliveries: seq<seq<RawEvent>>,
                   r: PaymentRow)
    requires CompleteSweep(chain, from, deliveries) && Lone(w, chain, KeyOf(r)) && r.merchantId == w.merchant.id
    ensures Shows(UpsertDeliveries(q, w.decode, w.merchant, deliveries), r) <==>
            Shows(q, r) || (!Indexed(q, KeyOf(r)) && MadeFrom(w, chain, from, r))
  {
    var t, key := UpsertDeliveries(q, w.decode, w.merchant, deliveries), KeyOf(r);
    DeliveriesAt(w, q, deliveries, key);
    hide UpsertDeliveries, RowOf, OnChain, HasRow, DeliveredRow, CompleteSweep;
    if !Indexed(q, key) {
      TransferDelivered(w, chain, from, deliveries, r);
      if Indexed(t, key) {
        var s :| DeliveredRow(w, deliveries, s) && KeyOf(s) == key && LedgerIs(t[key], s);
        TransferDelivered(w, chain, from, deliveries, s);
        if Shows(t, r) { ShownIsUnique(t, r, s); }
      }
    }
  }

  lemma SweptIsBacked(w: World, q: Payments, deliveries: seq<seq<RawEvent>>, key: Key)
    requires BackedAt(q, key)
    ensures BackedAt(UpsertDeliveries(q, w.decode, w.merchant, deliveries), key)
  {
    var t := UpsertDeliveries(q, w.decode, w.merchant, deliveries);
    DeliveriesAt(w, q, deliveries, key);
    hide UpsertDeliveries, DeliveredRow;
    if Indexed(q, key) {
      var r :| KeyOf(r) == key && Shows(q, r);
      assert Shows(t, r);
    } else if Indexed(t, key) {
      var r :| DeliveredRow(w, deliveries, r) && KeyOf(r) == key && LedgerIs(t[key], r);
      assert Shows(t, r);
    }
  }

  /** What the key shows is on the chain, from ledger `from` on. */
  ghost predicate KeptIsCurrent(w: World, chain: seq<RawEvent>, q: Payments, from: int, key: Key) {
    forall r :: KeyOf(r) == key && Shows(q, r) ==> MadeFrom(w, chain, from, r)
  }

  /** What the key's transaction does on the chain from ledger `from` up to `to` is shown. */
  ghost predicate CurrentIsKept(w: World, chain: seq<RawEvent>, q: Payments, from: int, to: int, key: Key) {
    forall r :: KeyOf(r) == key && MadeFrom(w, chain, from, r) && r.ledger <= to ==> Shows(q, r)
  }

  /** At every key of a transaction with one transfer, a sweep of the ledgers above `to` onto a table gives the
      ledger-owned columns that indexing the chain from scratch gives if and only if the table shows
      nothing there but a transfer of that chain, and that one if it is up to `to`. */
  lemma SweepOntoIsScratch(w: World, chain: seq<RawEvent>, q: Payments, from: int, to: int,
                           deliveries: seq<seq<RawEvent>>, scratch: seq<seq<RawEvent>>, key: Key)
    requires BackedAt(q, key) && Lone(w, chain, key) && key.merchantId == w.merchant.id && from <= to + 1
    requires CompleteSweep(chain, to + 1, deliveries) && CompleteSweep(chain, from, scratch)
    ensures LedgerView(UpsertDeliveries(q, w.decode, w.merchant, deliveries), key) ==
            LedgerView(UpsertDeliveries(map[], w.decode, w.merchant, scratch), key)
            <==> KeptIsCurrent(w, chain, q, from, key) && CurrentIsKept(w, chain, q, from, to, key)
  {
    var restored := UpsertDeliveries(q, w.decode, w.merchant, deliveries);
    var fromScratch := UpsertDeliveries(map[], w.decode, w.merchant, scratch);
    SweptIsBacked(w, q, deliveries, key);
    SweptIsBacked(w, map[], scratch, key);
    hide UpsertDeliveries, CompleteSweep, Shows, OnChain;
    AgreeIsShowSame(restored, fromScratch, key);
    forall r | KeyOf(r) == key
      ensures Shows(restored, r) <==> Shows(q, r) || (!Indexed(q, key) && MadeFrom(w, chain, to + 1, r))
      ensures Shows(fromScratch, r) <==> MadeFrom(w, chain, from, r)
    {
      SweptShows(w, chain, q, to + 1, deliveries, r);
      SweptShows(w, chain, map[], from, scratch, r);
      NothingShown(r);
    }
  }

  lemma NothingShown(r: PaymentRow)
    ensures !Shows(map[], r) && !Indexed(map[], KeyOf(r))
  {
  }

  /* ----- with a rollback ----- */

  /** The purge keeps exactly what is shown up to the ledger. */
  lemma PurgeShows(w: World, p: Payments, ledger: int, r: PaymentRow)
    requires r.merchantId == w.merchant.id
    ensures Shows(PurgeAbove(p, w.merchant.id, ledger), r) <==> Shows(p, r) && r.ledger <= ledger
  {
  }

  lemma PurgeIsBacked(w: World, p: Payments, ledger: int, key: Key)
    requires BackedAt(p, key)
    ensures BackedAt(PurgeAbove(p, w.merchant.id, ledger), key)
  {
  }

  /** Exactly when a rollback leaves nothing of a lost chain behind: the purged table is sound for the chain
      that the node came back with if and only if everything shown up to the reported head is on it. */
  lemma PurgeIsSoundExactly(w: World, before: seq<RawEvent>, p: Payments, stale: set<Key>, corrected: seq<RawEvent>,
                            ledger: int)
    requires Sound(w, before, p, stale)
    ensures Sound(w, corrected, PurgeAbove(p, w.merchant.id, ledger), {}) <==>
            forall r: PaymentRow ::
              r.merchantId == w.merchant.id && Shows(p, r) && r.ledger <= ledger ==> OnChain(w, corrected, r)
  {
  }

  /** And exactly when it leaves nothing out: in the same words, everything that chain makes in scope was
      indexed at or below the head. */
  lemma PurgeCoversExactly(w: World, p: Payments, corrected: seq<RawEvent>, ledger: int, first: int,
                           gaps: seq<(int, int)>)
    ensures Covers(w, corrected, PurgeAbove(p, w.merchant.id, ledger), first, ledger, gaps, {}) <==>
            forall e, r ::
              e in corrected && HasRow(w, e, r) && first <= e.ledger <= ledger && !InGaps(gaps, e.ledger) ==>
                Indexed(p, KeyOf(r)) && p[KeyOf(r)].ledger.value <= ledger
  {
  }

  /** The chains make the same transfers in the key's transaction, from ledger `from` up to `to`. */
  ghost predicate SameTransfers(w: World, a: seq<RawEvent>, b: seq<RawEvent>, from: int, to: int, key: Key) {
    forall r :: KeyOf(r) == key && r.ledger <= to ==> (MadeFrom(w, a, from, r) <==> MadeFrom(w, b, from, r))
  }

  /** Up to `to`, the key shows exactly what the chain makes from the first start ledger on. */
  ghost predicate Exact(w: World, st: State, to: int, key: Key) {
    forall r :: KeyOf(r) == key && r.ledger <= to ==> (Shows(st.payments, r) <==> MadeFrom(w, st.chain, st.first, r))
  }

  /** Rollback restores the corrected chain. From any reachable state and at every key of a transaction with one
      transfer there, purging above `ledger` and sweeping the rest of the corrected chain gives the
      ledger-owned columns of indexing it from scratch: where the table was exact up to `ledger`, if and only if
      the two chains make the same transfers up to there; and where they do, if and only if the table was
      exact. Rows that were only staged pass through the purge as they were. */
  lemma RollbackRestores(w: World, st: State, corrected: seq<RawEvent>, ledger: int,
                         deliveries: seq<seq<RawEvent>>, scratch: seq<seq<RawEvent>>, key: Key)
    requires Inv(w, st) && Lone(w, corrected, key) && key.merchantId == w.merchant.id && st.first - 1 <= ledger
    requires CompleteSweep(corrected, ledger + 1, deliveries) && CompleteSweep(corrected, st.first, scratch)
    ensures var purged := PurgeAbove(st.payments, w.merchant.id, ledger);
            var agree := LedgerView(UpsertDeliveries(purged, w.decode, w.merchant, deliveries), key) ==
                         LedgerView(UpsertDeliveries(map[], w.decode, w.merchant, scratch), key);
            && (Exact(w, st, ledger, key) ==> (agree <==> SameTransfers(w, st.chain, corrected, st.first, ledger, key)))
            && (SameTransfers(w, st.chain, corrected, st.first, ledger, key) ==> (agree <==> Exact(w, st, ledger, key)))
    ensures key in st.payments && st.payments[key].ledger.None? ==>
              Lookup(PurgeAbove(st.payments, w.merchant.id, ledger), key) == Some(st.payments[key])
  {
    var q := PurgeAbove(st.payments, w.merchant.id, ledger);
    hide UpsertDeliveries, CompleteSweep, Shows, OnChain, IsChain, Covers, RunInv, SoundAt, BackedAt, Lone;
    assert BackedAt(st.payments, key);
    PurgeIsBacked(w, st.payments, ledger, key);
    SweepOntoIsScratch(w, corrected, q, st.first, ledger, deliveries, scratch, key);
    hide Inv;
    forall r | KeyOf(r) == key ensures Shows(q, r) <==> Shows(st.payments, r) && r.ledger <= ledger {
      PurgeShows(w, st.payments, ledger, r);
    }
  }

  ghost predicate NoGaps(st: State, to: int) {
    forall l: int :: st.first <= l <= to ==> !InGaps(st.gaps, l)
  }

  /** In a reachable state what can keep a key from being exact is known: a row below the first start ledger,
      left by a first run that was aborted, a ledger that was reported as skipped, a re-org that left the
      key stale, or several transfers in its transaction. Without these it is exact up to the cursor. */
  lemma ExactUpToCursor(w: World, st: State, to: int, key: Key)
    requires Inv(w, st) && st.cursor.Some? && to <= st.cursor.value && Lone(w, st.chain, key)
    requires key.merchantId == w.merchant.id && key !in st.stale && NoGaps(st, to)
    requires Indexed(st.payments, key) ==> st.payments[key].ledger.value >= st.first
    ensures Exact(w, st, to, key)
  {
  }

  lemma DueIsMade(w: World, st: State, r: PaymentRow)
    requires Due(w, st, r)
    ensures OnChain(w, st.chain, r)
  {
  }

  /** Two reachable states of one chain, however they got there, agree on every transfer that both answer
      for: one may have been rolled back and swept again, the other indexed from scratch. */
  lemma RunsAgree(w: World, a: State, b: State, r: PaymentRow)
    requires Inv(w, a) && Inv(w, b) && a.chain == b.chain && Lone(w, a.chain, KeyOf(r))
    requires Due(w, a, r) && Due(w, b, r)
    ensures LedgerView(a.payments, KeyOf(r)) == LedgerView(b.payments, KeyOf(r)) != None
  {
    hide Inv, Due, OnChain;
    var x := DueIsIndexed(w, a, r);
    var y := DueIsIndexed(w, b, r);
    DueIsMade(w, a, x);
    DueIsMade(w, b, y);
    DueIsMade(w, a, r);
  }

  /* ----- without one ----- */

  /** A re-org that leaves the head at or above the cursor is not noticed: nothing is purged and the run
      resumes after the cursor. At a key of a transaction with one transfer on the new chain, the table then is
      what indexing that chain from scratch gives exactly when it already showed nothing else there, and it
      if up to the cursor; and whatever it showed of the old chain, it goes on showing. */
  lemma UnnoticedReorg(w: World, st: State, corrected: seq<RawEvent>,
                       deliveries: seq<seq<RawEvent>>, scratch: seq<seq<RawEvent>>, key: Key)
    requires Inv(w, st) && st.cursor.Some? && Lone(w, corrected, key) && st.first - 1 <= st.cursor.value
    requires key.merchantId == w.merchant.id
    requires CompleteSweep(corrected, st.cursor.value + 1, deliveries) && CompleteSweep(corrected, st.first, scratch)
    ensures var after := UpsertDeliveries(st.payments, w.decode, w.merchant, deliveries);
            && (LedgerView(after, key) == LedgerView(UpsertDeliveries(map[], w.decode, w.merchant, scratch), key) <==>
                  KeptIsCurrent(w, corrected, st.payments, st.first, key) &&
                  CurrentIsKept(w, corrected, st.payments, st.first, st.cursor.value, key))
            && (Indexed(st.payments, key) ==> LedgerView(after, key) == LedgerView(st.payments, key))
  {
    hide UpsertDeliveries, CompleteSweep, Shows, OnChain, IsChain, Covers, RunInv, SoundAt, Lone, KeptIsCurrent,
         CurrentIsKept;
    assert BackedAt(st.payments, key);
    SweepOntoIsScratch(w, corrected, st.payments, st.first, st.cursor.value, deliveries, scratch, key);
    DeliveriesAt(w, st.payments, deliveries, key);
  }

  /* ----- runs of the machine over an RPC that never fails ----- */

  /** An unhurried sweep of the state's chain up to its head. */
  function SweepOfState(st: State): EventPager.Sweep {
    EventPager.Sweep(SweepLimits.PagedRpc(st.chain), (_, _) => true, (_, _) => true, (_, _) => true, st.head,
                     EventPager.LEDGER_WINDOW, true)
  }

  ghost function BegunRun(w: World, st: State, id: nat): State
    requires Enabled(w, st, Begin(id, SweepOfState(st)))
  {
    Next(w, st, Begin(id, SweepOfState(st)))
  }

  /** Such a run can begin whenever a run can, and sweeps through to the head. */
  lemma CanBegin(w: World, st: State, id: nat)
    requires Inv(w, st) && id !in st.runs && (st.cursor.None? ==> st.runs == map[])
    requires StartLedger(st.cursor, st.head) <= st.head
    ensures Enabled(w, st, Begin(id, SweepOfState(st)))
    ensures var run := BegunRun(w, st, id).runs[id];
            && run.committed == 0 && (run.cold <==> st.cursor.None?)
            && run.resumeFrom == ResumeFrom(st.cursor, st.head) && run.startLedger == StartLedger(st.cursor, st.head)
            && run.outcome.result.Ok? && run.outcome.result.value.sweptThrough == st.head
            && forall k, e :: 0 <= k < |run.outcome.deliveries| && e in run.outcome.deliveries[k] ==>
               e.ledger >= run.startLedger
  {
    UnhurriedOutcome(st, StartLedger(st.cursor, st.head));
    hide Honest, IssuesTokens, RunOutcome, SweepOfState, OneLedgerPerTx, Ordered, Sound, Covers;
    assert SweepOfState(st).rpc.chain == st.chain && SweepOfState(st).endLedger == st.head;
    forall i | i in st.runs ensures !st.runs[i].cold { assert RunInv(w, st, st.runs[i]); }
  }

  lemma UnhurriedOutcome(st: State, start: int)
    requires Ordered(st.chain) && start <= st.head
    ensures var s := SweepOfState(st);
            && s.rpc.chain == st.chain && s.endLedger == st.head && EventPager.CanSweep(s) && IssuesTokens(s.rpc)
            && RunOutcome(s, start).result.Ok? && RunOutcome(s, start).result.value.sweptThrough == st.head
            && forall k, e :: 0 <= k < |RunOutcome(s, start).deliveries| && e in RunOutcome(s, start).deliveries[k] ==>
                 e.ledger >= start
  {
    var s := SweepOfState(st);
    SweepLimits.PagedRpcMeetsAll(st.chain);
    hide SweepLimits.PagedRpc, EventPager.SequentialFrom, EventPager.ParallelFrom, Honest, IssuesTokens, StaysInWindow,
      SweepTheorems.NeverFails, SweepTheorems.SafeResult, Ordered;
    SweepTheorems.UnhurriedSweepsComplete(s, start, EventPager.PARALLEL_CONCURRENCY);
    SweepTheorems.SweepsAreSafe(s, start, EventPager.PARALLEL_CONCURRENCY);
    var o := RunOutcome(s, start);
    hide RunOutcome;
    forall k, e | 0 <= k < |o.deliveries| && e in o.deliveries[k] ensures e.ledger >= start {
      FlattenMembers(o.deliveries, e);
      SafeDeliveries(s, start, o, e);
    }
  }

  lemma SafeDeliveries(s: EventPager.Sweep, startLedger: int, o: EventPager.Outcome, e: RawEvent)
    requires Ordered(s.rpc.chain) && SweepTheorems.SafeResult(s, startLedger, o) &&
             e in EventPager.Flatten(o.deliveries)
    ensures e.ledger >= startLedger
  {
    hide Ordered, SweepTheorems.Delivered, SweepTheorems.IsBoundary, SweepTheorems.FromStart;
    FromStartIsLater(s, startLedger, e);
  }

  /* ----- a table that an unnoticed re-org leaves wrong ----- */

  /** Nothing synced, and a chain of one event, which is the head. */
  function OneEvent(e: RawEvent): State {
    State([e], e.ledger, map[], None, 0, [], {}, map[])
  }

  /** A first run over that chain, and then a node whose chain has lost the event. */
  ghost function LostEventSteps(w: World, e: RawEvent): seq<Step>
    requires Enabled(w, OneEvent(e), Begin(0, SweepOfState(OneEvent(e))))
  {
    var st := OneEvent(e);
    RunSteps(0, SweepOfState(st), |BegunRun(w, st, 0).runs[0].outcome.deliveries|, Finish(0)) + [Reorg([], e.ledger)]
  }

  lemma OneEventCanBegin(w: World, e: RawEvent, r: PaymentRow)
    requires HasRow(w, e, r) && e.ledger >= 1
    ensures Fresh(w, OneEvent(e)) && Inv(w, OneEvent(e))
    ensures Enabled(w, OneEvent(e), Begin(0, SweepOfState(OneEvent(e))))
  {
    CanBegin(w, OneEvent(e), 0);
  }

  lemma LoseEvent(w: World, st: State, e: RawEvent, r: PaymentRow)
    requires st.runs == map[] && st.cursor == Some(e.ledger) && st.head == e.ledger && Shows(st.payments, r)
    ensures Enabled(w, st, Reorg([], e.ledger))
    ensures var end := Next(w, st, Reorg([], e.ledger));
            && end.chain == [] && end.cursor == Some(end.head) && end.payments == st.payments
            && WrongAt(w, end, KeyOf(r))
  {
  }

  /** Sweeping an empty chain leaves a table as it is. */
  lemma EmptySweep(w: World, p: Payments, r: PaymentRow, from: int)
    requires Shows(p, r)
    ensures CompleteSweep([], from, [])
    ensures LedgerView(UpsertDeliveries(p, w.decode, w.merchant, []), KeyOf(r)) !=
            LedgerView(UpsertDeliveries(map[], w.decode, w.merchant, []), KeyOf(r))
  {
  }

  /** For any transfer there is a run after which the table shows it although the chain does not make it: no
      run over the new chain removes it, and indexing that chain from scratch does not have it. */
  lemma WrongTableIsReachable(w: World, e: RawEvent, r: PaymentRow) returns (end: State)
    requires HasRow(w, e, r) && e.ledger >= 1
    ensures Fresh(w, OneEvent(e)) && Enabled(w, OneEvent(e), Begin(0, SweepOfState(OneEvent(e))))
    ensures Reaches(w, OneEvent(e), LostEventSteps(w, e), end)
    ensures end.chain == [] && end.cursor == Some(end.head) && Shows(end.payments, r) && WrongAt(w, end, KeyOf(r))
    ensures CompleteSweep(end.chain, end.cursor.value + 1, []) && CompleteSweep(end.chain, end.first, [])
    ensures LedgerView(UpsertDeliveries(end.payments, w.decode, w.merchant, []), KeyOf(r)) !=
            LedgerView(UpsertDeliveries(map[], w.decode, w.merchant, []), KeyOf(r))
  {
    var st := OneEvent(e);
    OneEventCanBegin(w, e, r);
    hide Inv, HasRow, Fresh, RunSteps, SweepOfState, Enabled, Next, Reaches, OneEvent, Shows, WrongAt, CompleteSweep,
      LedgerView, UpsertDeliveries;
    var synced := SyncedOne(w, e, r);
    LoseEvent(w, synced, e, r);
    end := Next(w, synced, Reorg([], e.ledger));
    EmptySweep(w, end.payments, r, end.cursor.value + 1);
    EmptySweep(w, end.payments, r, end.first);
    LastStep(w, st, RunSteps(0, SweepOfState(st), |BegunRun(w, st, 0).runs[0].outcome.deliveries|, Finish(0)), synced,
             Reorg([], e.ledger));
  }

  lemma LastStep(w: World, st: State, steps: seq<Step>, mid: State, step: Step)
    requires Reaches(w, st, steps, mid) && Enabled(w, mid, step)
    ensures Reaches(w, st, steps + [step], Next(w, mid, step))
  {
    hide Next, Enabled;
    assert Reaches(w, Next(w, mid, step), [step][1..], Next(w, mid, step));
    ReachesConcat(w, st, steps, mid, [step], Next(w, mid, step));
  }

  lemma SyncedOne(w: World, e: RawEvent, r: PaymentRow) returns (synced: State)
    requires HasRow(w, e, r) && e.ledger >= 1 && Fresh(w, OneEvent(e)) && Inv(w, OneEvent(e))
    requires Enabled(w, OneEvent(e), Begin(0, SweepOfState(OneEvent(e))))
    ensures var n := |BegunRun(w, OneEvent(e), 0).runs[0].outcome.deliveries|;
            Reaches(w, OneEvent(e), RunSteps(0, SweepOfState(OneEvent(e)), n, Finish(0)), synced)
    ensures synced.cursor == Some(e.ledger) && synced.runs == map[] && synced.head == e.ledger &&
            Shows(synced.payments, r)
  {
    var st := OneEvent(e);
    CanBegin(w, st, 0);
    hide UpsertDeliveries, RunOutcome, SweepOfState, HasRow, Sound, Covers, RunInv, IsChain, Inv, Fresh, Reaches,
         RunSteps, Shows;
    var begun := BegunRun(w, st, 0);
    var n := |begun.runs[0].outcome.deliveries|;
    RunPath(w, st, 0, SweepOfState(st), n, Finish(0));
    synced := Next(w, Committed(w, begun, 0, n), Finish(0));
    assert synced.chain == [e] && synced.stale == {} && synced.gaps == [] && synced.first <= e.ledger;
    hide Next, Enabled, Committed, BegunRun;
    RunKeeps(w, st, RunSteps(0, SweepOfState(st), n, Finish(0)), synced);
    OnlyEventIsShown(w, synced, e, r);
  }

  lemma OnlyEventIsShown(w: World, st: State, e: RawEvent, r: PaymentRow)
    requires Inv(w, st) && HasRow(w, e, r) && st.chain == [e] && st.stale == {} && st.gaps == []
    requires st.first <= e.ledger && st.cursor == Some(e.ledger)
    ensures Shows(st.payments, r)
  {
  }

  /* ----- why a rollback has the merchant to itself ----- */

  /** The machine without the session lock: a rewind may happen while runs are in flight. */
  ghost predicate EnabledUnlocked(w: World, st: State, step: Step) {
    if step.Rewind? then IsChain(w, step.corrected, step.ledger) && st.cursor.Some? && step.ledger < st.cursor.value
    else Enabled(w, st, step)
  }

  ghost function NextUnlocked(w: World, st: State, step: Step): State
    requires EnabledUnlocked(w, st, step)
  {
    if step.Rewind? then Rewound(w, st, step.corrected, step.ledger) else Next(w, st, step)
  }

  ghost predicate ReachesUnlocked(w: World, st: State, steps: seq<Step>, end: State)
    decreases |steps|
  {
    if steps == [] then end == st
    else
      EnabledUnlocked(w, st, steps[0]) &&
      ReachesUnlocked(w, NextUnlocked(w, st, steps[0]), steps[1..], end)
  }

  /** What the lock allows can happen without it. */
  lemma LockedStep(w: World, st: State, step: Step)
    requires Enabled(w, st, step)
    ensures EnabledUnlocked(w, st, step) && NextUnlocked(w, st, step) == Next(w, st, step)
  {
  }

  lemma {:induction false} LockedPath(w: World, st: State, steps: seq<Step>, mid: State, more: seq<Step>, end: State)
    requires Reaches(w, st, steps, mid) && ReachesUnlocked(w, mid, more, end)
    ensures ReachesUnlocked(w, st, steps + more, end)
    decreases |steps|
  {
    hide Next, NextUnlocked, Enabled, EnabledUnlocked;
    if steps == [] {
      assert steps + more == more;
    } else {
      var next := Next(w, st, steps[0]);
      LockedStep(w, st, steps[0]);
      LockedPath(w, next, steps[1..], mid, more, end);
      assert (steps + more)[0] == steps[0] && (steps + more)[1..] == steps[1..] + more;
    }
  }

  /** Rows a run delivers above the rewind ledger do not survive the rewind. */
  lemma DeliveredIsPurged(w: World, p: Payments, deliveries: seq<seq<RawEvent>>, ledger: int, key: Key)
    requires key.merchantId == w.merchant.id && !Indexed(PurgeAbove(p, w.merchant.id, ledger), key)
    requires forall k, e :: 0 <= k < |deliveries| && e in deliveries[k] ==> e.ledger > ledger
    ensures !Indexed(PurgeAbove(UpsertDeliveries(p, w.decode, w.merchant, deliveries), w.merchant.id, ledger), key)
  {
    DeliveriesAt(w, p, deliveries, key);
    var q := UpsertDeliveries(p, w.decode, w.merchant, deliveries);
    hide UpsertDeliveries, RowOf;
    if !Indexed(p, key) && Indexed(q, key) {
      var r :| DeliveredRow(w, deliveries, r) && KeyOf(r) == key && LedgerIs(q[key], r);
      var k, e :| 0 <= k < |deliveries| && e in deliveries[k] && HasRow(w, e, r);
      RowMerchant(w, e, r);
    }
  }

  function Kept(st: State, ledger: int): seq<RawEvent> {
    st.chain[..Upto(st.chain, ledger)]
  }

  /** The steps of a run that begins before a rewind and finishes after it, with `e` on the corrected chain. */
  ghost function StraddlingSteps(w: World, st: State, id: nat, ledger: int, e: RawEvent): seq<Step>
    requires Enabled(w, st, Begin(id, SweepOfState(st)))
  {
    [Begin(id, SweepOfState(st))] +
    (DeliverSteps(id, |BegunRun(w, st, id).runs[id].outcome.deliveries|) + Tail(st, id, ledger, e))
  }

  function Tail(st: State, id: nat, ledger: int, e: RawEvent): seq<Step> {
    [Rewind(Kept(st, ledger), ledger), Grow([e], st.head), Finish(id)]
  }

  lemma CommittedPath(w: World, st: State, id: nat, n: nat)
    requires id in st.runs && st.runs[id].committed == 0 && n <= |st.runs[id].outcome.deliveries|
    ensures Reaches(w, st, DeliverSteps(id, n), Committed(w, st, id, n))
  {
    hide Reaches, UpsertDeliveries;
    DeliverPath(w, st, id, n);
    assert st.runs[id].outcome.deliveries[0..0 + n] == st.runs[id].outcome.deliveries[..n];
  }

  lemma SameKept(st: State, mid: State, id: nat, ledger: int, e: RawEvent)
    requires mid.chain == st.chain && mid.head == st.head
    ensures Kept(mid, ledger) == Kept(st, ledger) && Tail(mid, id, ledger, e) == Tail(st, id, ledger, e)
  {
  }

  lemma StraddlingPath(w: World, st: State, id: nat, ledger: int, e: RawEvent, end: State)
    requires Enabled(w, st, Begin(id, SweepOfState(st)))
    requires var begun := BegunRun(w, st, id);
             var delivered := DeliverSteps(id, |begun.runs[id].outcome.deliveries|);
             ReachesUnlocked(w, begun, delivered + Tail(st, id, ledger, e), end)
    ensures ReachesUnlocked(w, st, StraddlingSteps(w, st, id, ledger, e), end)
  {
    LockedStep(w, st, Begin(id, SweepOfState(st)));
    hide Enabled, EnabledUnlocked, SweepOfState, Tail, DeliverSteps;
    var rest := DeliverSteps(id, |BegunRun(w, st, id).runs[id].outcome.deliveries|) + Tail(st, id, ledger, e);
    hide Next, NextUnlocked;
    assert StraddlingSteps(w, st, id, ledger, e)[1..] == rest;
  }

  lemma NotIndexedAfter(w: World, mid: State, id: nat, ledger: int, e: RawEvent, head: int, key: Key)
    requires id in mid.runs && mid.runs[id].outcome.result.Ok?
    requires !Indexed(PurgeAbove(mid.payments, w.merchant.id, ledger), key)
    ensures !Indexed(FinishAfterRewind(w, mid, id, ledger, e, head).payments, key)
  {
  }

  /** Without the lock the cursor can pass a transfer that is not indexed: from any state with a cursor, a run
      that delivers before a rewind and finishes after it moves the cursor to the old head, over every
      transfer that the corrected chain makes between the rewind ledger and the old cursor. */
  lemma StraddlingRunLeavesAGap(w: World, st: State, id: nat, ledger: int, e: RawEvent, r: PaymentRow)
    returns (end: State)
    requires Inv(w, st) && st.cursor.Some? && id !in st.runs && StartLedger(st.cursor, st.head) <= st.head
    requires HasRow(w, e, r) && ledger < e.ledger <= st.cursor.value
    requires OneLedgerPerTx(w, Kept(st, ledger) + [e])
    requires !Indexed(PurgeAbove(st.payments, w.merchant.id, ledger), KeyOf(r))
    ensures Enabled(w, st, Begin(id, SweepOfState(st))) &&
            ReachesUnlocked(w, st, StraddlingSteps(w, st, id, ledger, e), end)
    ensures Due(w, end, r) && !Indexed(end.payments, KeyOf(r))
  {
    CanBegin(w, st, id);
    hide Reaches, ReachesUnlocked, Tail, DeliverSteps, Sound, Covers, RunInv, Honest, IssuesTokens, OneLedgerPerTx,
         SweepOfState, RunOutcome, UpsertDeliveries, PurgeAbove, Kept, HasRow, Due, FinishAfterRewind;
    var begun := BegunRun(w, st, id);
    var n := |begun.runs[id].outcome.deliveries|;
    var mid := Committed(w, begun, id, n);
    CommittedPath(w, begun, id, n);
    assert Ordered(mid.chain);
    hide Enabled, Next, BegunRun, Inv, Ordered;
    DeliveredIsPurged(w, st.payments, begun.runs[id].outcome.deliveries[..n], ledger, KeyOf(r));
    RowMerchant(w, e, r);
    SameKept(st, mid, id, ledger, e);
    end := FinishAfterRewind(w, mid, id, ledger, e, st.head);
    RewindTail(w, mid, id, ledger, e, r, st.head);
    NotIndexedAfter(w, mid, id, ledger, e, st.head, KeyOf(r));
    LockedPath(w, begun, DeliverSteps(id, n), mid, Tail(st, id, ledger, e), end);
    StraddlingPath(w, st, id, ledger, e, end);
  }

  ghost function FinishAfterRewind(w: World, mid: State, id: nat, ledger: int, e: RawEvent, head: int): State
    requires id in mid.runs && mid.runs[id].outcome.result.Ok?
  {
    var x := Rewound(w, mid, Kept(mid, ledger), ledger);
    var run, swept := mid.runs[id], mid.runs[id].outcome.result.value.sweptThrough;
    x.(chain := x.chain + [e], head := head, cursor := Some(Max(ledger, swept)),
       first := if run.cold then run.startLedger else x.first,
       gaps := if run.cold || run.resumeFrom >= run.startLedger then x.gaps
               else x.gaps + [(run.resumeFrom, run.startLedger)],
       runs := x.runs - {id})
  }

  lemma RewindTail(w: World, mid: State, id: nat, ledger: int, e: RawEvent, r: PaymentRow, head: int)
    requires id in mid.runs && mid.runs[id].outcome.result.Ok? &&
             mid.runs[id].committed == |mid.runs[id].outcome.deliveries|
    requires !mid.runs[id].cold && mid.runs[id].outcome.result.value.sweptThrough == head == mid.head
    requires mid.cursor.Some? && mid.runs[id].resumeFrom == mid.cursor.value + 1
    requires Ordered(mid.chain) && HasRow(w, e, r) && ledger < e.ledger <= mid.cursor.value <= head
    requires OneLedgerPerTx(w, Kept(mid, ledger) + [e])
    requires !Indexed(PurgeAbove(mid.payments, w.merchant.id, ledger), KeyOf(r))
    ensures ReachesUnlocked(w, mid, Tail(mid, id, ledger, e), FinishAfterRewind(w, mid, id, ledger, e, head))
    ensures Due(w, FinishAfterRewind(w, mid, id, ledger, e, head), r)
  {
    KeptIsChain(w, mid.chain, ledger, e);
    NotStale(w, mid, ledger, e, r);
    TailPath(w, mid, id, ledger, e, head);
    hide OneLedgerPerTx, HasRow, StaleKeys, Ordered, Kept, ReachesUnlocked, Tail, Due, Rewound, FinishAfterRewind;
    DueAfterRewind(w, mid, id, ledger, e, r, head);
  }

  lemma DueAfterRewind(w: World, mid: State, id: nat, ledger: int, e: RawEvent, r: PaymentRow, head: int)
    requires id in mid.runs && mid.runs[id].outcome.result.Ok? && !mid.runs[id].cold
    requires mid.runs[id].outcome.result.value.sweptThrough == head
    requires mid.cursor.Some? && mid.runs[id].resumeFrom == mid.cursor.value + 1
    requires HasRow(w, e, r) && ledger < e.ledger <= mid.cursor.value <= head
    requires KeyOf(r) !in Rewound(w, mid, Kept(mid, ledger), ledger).stale
    ensures Due(w, FinishAfterRewind(w, mid, id, ledger, e, head), r)
  {
    hide HasRow, PurgeAbove, StaleKeys, Kept, Clip;
    var end := FinishAfterRewind(w, mid, id, ledger, e, head);
    ClipsAbove(mid.gaps, ledger);
    assert !InGaps(Clip(mid.gaps, ledger), e.ledger);
    assert e in end.chain && InScope(end, e.ledger);
  }

  lemma TailPath(w: World, mid: State, id: nat, ledger: int, e: RawEvent, head: int)
    requires id in mid.runs && mid.runs[id].outcome.result.Ok? &&
             mid.runs[id].committed == |mid.runs[id].outcome.deliveries|
    requires mid.head == head && mid.cursor.Some? && ledger < e.ledger <= mid.cursor.value <= head
    requires Ordered(Kept(mid, ledger) + [e]) && OneLedgerPerTx(w, Kept(mid, ledger) + [e])
    requires IsChain(w, Kept(mid, ledger), ledger)
    ensures ReachesUnlocked(w, mid, Tail(mid, id, ledger, e), FinishAfterRewind(w, mid, id, ledger, e, head))
  {
    hide OneLedgerPerTx, PurgeAbove, StaleKeys, Upto, Ordered, Kept, IsChain, Clip;
    var x := Rewound(w, mid, Kept(mid, ledger), ledger);
    var end := FinishAfterRewind(w, mid, id, ledger, e, head);
    var y := x.(chain := x.chain + [e], head := head);
    assert EnabledUnlocked(w, x, Grow([e], head)) && NextUnlocked(w, x, Grow([e], head)) == y;
    assert EnabledUnlocked(w, y, Finish(id)) && NextUnlocked(w, y, Finish(id)) == end;
    assert EnabledUnlocked(w, mid, Rewind(Kept(mid, ledger), ledger));
    hide Enabled, Next, EnabledUnlocked, Rewound;
    var steps := Tail(mid, id, ledger, e);
    assert steps[1..] == [Grow([e], head), Finish(id)] && steps[1..][1..] == [Finish(id)] && steps[1..][1..][1..] == [];
    assert ReachesUnlocked(w, end, steps[1..][1..][1..], end);
    assert ReachesUnlocked(w, y, steps[1..][1..], end);
    assert ReachesUnlocked(w, x, steps[1..], end);
  }

  lemma KeptIsChain(w: World, chain: seq<RawEvent>, ledger: int, e: RawEvent)
    requires Ordered(chain) && ledger < e.ledger && OneLedgerPerTx(w, chain[..Upto(chain, ledger)] + [e])
    ensures Ordered(chain[..Upto(chain, ledger)] + [e]) && IsChain(w, chain[..Upto(chain, ledger)], ledger)
  {
    UptoSplits(chain, ledger);
    var kept := chain[..Upto(chain, ledger)];
    forall f | f in kept ensures f in kept + [e] {}
    hide HasRow;
  }

  /** The transaction of a transfer above the rewind ledger is not stale after the rewind. */
  lemma NotStale(w: World, mid: State, ledger: int, e: RawEvent, r: PaymentRow)
    requires Ordered(mid.chain) && HasRow(w, e, r) && ledger < e.ledger && OneLedgerPerTx(w, Kept(mid, ledger) + [e])
    requires !Indexed(PurgeAbove(mid.payments, w.merchant.id, ledger), KeyOf(r))
    ensures KeyOf(r) !in Rewound(w, mid, Kept(mid, ledger), ledger).stale
  {
    var kept, purged := Kept(mid, ledger), PurgeAbove(mid.payments, w.merchant.id, ledger);
    StaleKeysAre(w, mid.chain, kept, purged, Some(ledger), mid.stale, KeyOf(r));
    RowMerchant(w, e, r);
    hide PurgeAbove, StaleKeys, RowOf, Kept, Moved;
    forall s | KeyOf(s) == KeyOf(r) && OnChain(w, kept, s) ensures s.ledger > ledger {
      var f :| f in kept && HasRow(w, f, s);
      assert f in kept + [e] && e in kept + [e];
    }
  }
}
