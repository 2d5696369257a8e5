/** Both sweeps said without their recursion: which window each delivery is, and what the counters count. */
module SweepWindows {
  import opened Wrappers
  import opened Chain
  import opened EventPager

  /** The first ledger of window number `k`, and the last one. */
  function First(s: Sweep, startLedger: int, k: nat): int {
    startLedger + k * s.windowSize
  }

  function Last(s: Sweep, startLedger: int, k: nat): int {
    var next := startLedger + (k + 1) * s.windowSize;
    if next <= s.endLedger then next - 1 else s.endLedger
  }

  /** What window number `k` drains to. */
  ghost function DrainNumber(s: Sweep, startLedger: int, k: nat): Result<DrainResult, FetchError>
    requires CanSweep(s)
  {
    Drain(s.rpc, s.budget, First(s, startLedger, k), Last(s, startLedger, k))
  }

  /** The deliveries are the windows from the first one on, one each and in order, sorted. */
  ghost predicate AreWindows(s: Sweep, startLedger: int, deliveries: seq<seq<RawEvent>>)
    requires CanSweep(s)
  {
    forall k :: 0 <= k < |deliveries| ==> IsWindow(s, startLedger, deliveries[k], k)
  }

  ghost predicate IsWindow(s: Sweep, startLedger: int, delivery: seq<RawEvent>, k: nat)
    requires CanSweep(s)
  {
    DrainNumber(s, startLedger, k).Ok? &&
    delivery == OrderEvents(s.collate, DrainNumber(s, startLedger, k).value.events)
  }

  ghost predicate Abandons(s: Sweep, startLedger: int, k: nat)
    requires CanSweep(s)
  {
    DrainNumber(s, startLedger, k).Ok? && !DrainNumber(s, startLedger, k).value.drained
  }

  /** Of `n` windows, pages of 200 events: every window has one, and all but its last are full. */
  predicate PagesAccount(n: nat, pages: nat, scanned: nat) {
    n <= pages && 200 * (pages - n) <= scanned <= 200 * pages
  }

  /** A state between two windows. */
  ghost predicate Between(s: Sweep, startLedger: int, st: SweepState)
    requires CanSweep(s)
  {
    && AreWindows(s, startLedger, st.deliveries)
    && (st.sweptThrough < s.endLedger ==> st.sweptThrough + 1 == First(s, startLedger, |st.deliveries|))
    && PagesAccount(|st.deliveries|, st.pages, |Flatten(st.deliveries)|)
    && st.windows == |st.deliveries|
  }

  lemma NextFirst(s: Sweep, startLedger: int, k: nat)
    ensures First(s, startLedger, k + 1) == First(s, startLedger, k) + s.windowSize
    ensures WindowEnd(s, First(s, startLedger, k)) == Last(s, startLedger, k)
    ensures Last(s, startLedger, k) < s.endLedger ==> Last(s, startLedger, k) + 1 == First(s, startLedger, k + 1)
  {
  }

  /** One more window, drained or abandoned. */
  lemma DeliverNext(s: Sweep, startLedger: int, st: SweepState)
    requires CanSweep(s) && Between(s, startLedger, st) && st.sweptThrough < s.endLedger
    requires Drain(s.rpc, s.budget, st.sweptThrough + 1, WindowEnd(s, st.sweptThrough + 1)).Ok?
    ensures var from := st.sweptThrough + 1;
            var st' := Deliver(s, st, Drain(s.rpc, s.budget, from, WindowEnd(s, from)).value);
            && AreWindows(s, startLedger, st'.deliveries) && |st'.deliveries| == |st.deliveries| + 1
            && PagesAccount(|st'.deliveries|, st'.pages, |Flatten(st'.deliveries)|)
            && Between(s, startLedger, st'.(sweptThrough := WindowEnd(s, from), windows := st.windows + 1))
  {
    hide Drain, OrderEvents, First, Last, Flatten, PagesAccount, WindowEnd, IsWindow;
    var n, from := |st.deliveries|, st.sweptThrough + 1;
    NextFirst(s, startLedger, n);
    var window := Drain(s.rpc, s.budget, from, WindowEnd(s, from)).value;
    DeliverAccounts(s, st, from, WindowEnd(s, from));
    var st' := Deliver(s, st, window);
    assert st'.deliveries == st.deliveries + [OrderEvents(s.collate, window.events)];
    NewestIsWindow(s, startLedger, n);
  }

  lemma NewestIsWindow(s: Sweep, startLedger: int, k: nat)
    requires CanSweep(s) && DrainNumber(s, startLedger, k).Ok?
    ensures IsWindow(s, startLedger, OrderEvents(s.collate, DrainNumber(s, startLedger, k).value.events), k)
  {
    hide DrainNumber, OrderEvents;
  }

  lemma DeliverAccounts(s: Sweep, st: SweepState, from: int, to: int)
    requires CanSweep(s) && Drain(s.rpc, s.budget, from, to).Ok?
    requires PagesAccount(|st.deliveries|, st.pages, |Flatten(st.deliveries)|)
    ensures var st' := Deliver(s, st, Drain(s.rpc, s.budget, from, to).value);
            PagesAccount(|st'.deliveries|, st'.pages, |Flatten(st'.deliveries)|)
  {
    DrainAccounts(s.rpc, s.budget, from, to, Range(from, to), DrainResult([], true, 0));
    hide DrainFrom;
    var st' := Deliver(s, st, Drain(s.rpc, s.budget, from, to).value);
    assert st'.deliveries[..|st.deliveries|] == st.deliveries;
  }

  /** A fetch error names the window it is from. */
  lemma ErrorNamesWindow(s: Sweep, startLedger: int, k: nat)
    requires CanSweep(s) && DrainNumber(s, startLedger, k).Err?
    ensures var e := DrainNumber(s, startLedger, k).error;
            e.startLedger == First(s, startLedger, k) && e.endLedger == Last(s, startLedger, k)
  {
    var from, to := First(s, startLedger, k), Last(s, startLedger, k);
    DrainAccounts(s.rpc, s.budget, from, to, Range(from, to), DrainResult([], true, 0));
  }

  /* ----- the sequential sweep ----- */

  /** It delivers the windows one after the other, counts each of them, stops only before a window that the budget
      refuses or after one it abandoned, and throws the error of the first window that fails. */
  ghost predicate SweptInOrder(s: Sweep, startLedger: int, o: Outcome)
    requires CanSweep(s)
  {
    var n := |o.deliveries|;
    && AreWindows(s, startLedger, o.deliveries)
    && match o.result
       case Err(e) => DrainNumber(s, startLedger, n) == Err(e)
       case Ok(r) =>
         && PagesAccount(n, r.pages, r.scanned) && r.windows == n
         && (!r.complete ==>
               || (First(s, startLedger, n) == r.sweptThrough + 1 && !s.budget(r.sweptThrough + 1, 0))
               || (n > 0 && Abandons(s, startLedger, n - 1) &&
                   First(s, startLedger, n - 1) == r.sweptThrough + 1))
  }

  lemma {:induction false} SequentialByWindow(s: Sweep, startLedger: int, st: SweepState)
    requires CanSweep(s) && Between(s, startLedger, st)
    ensures SweptInOrder(s, startLedger, SequentialFrom(s, st))
    decreases s.endLedger - st.sweptThrough
  {
    hide Drain, OrderEvents, Flatten, First, Last, PagesAccount, AreWindows, IsWindow;
    var from := st.sweptThrough + 1;
    if from <= s.endLedger && s.budget(from, 0) {
      NextFirst(s, startLedger, |st.deliveries|);
      var drain := Drain(s.rpc, s.budget, from, WindowEnd(s, from));
      if drain.Ok? {
        DeliverNext(s, startLedger, st);
        if drain.value.drained {
          var st' := Deliver(s, st, drain.value).(windows := st.windows + 1);
          SequentialByWindow(s, startLedger, st'.(sweptThrough := WindowEnd(s, from)));
        }
      }
    }
  }

  /* ----- the parallel sweep ----- */

  /** It delivers the windows one after the other too, counts all but an abandoned one, stops only before a window
      that the budget refuses or after one it abandoned, and throws the error of a window not yet delivered. */
  ghost predicate SweptInBatches(s: Sweep, startLedger: int, o: Outcome)
    requires CanSweep(s)
  {
    var n := |o.deliveries|;
    && AreWindows(s, startLedger, o.deliveries)
    && match o.result
       case Err(e) => exists k :: k >= n && DrainNumber(s, startLedger, k) == Err(e)
       case Ok(r) =>
         && PagesAccount(n, r.pages, r.scanned)
         && if r.windows == n then
              r.complete || (First(s, startLedger, n) == r.sweptThrough + 1 && !s.budget(r.sweptThrough + 1, 0))
            else
              && n == r.windows + 1 && !r.complete && Abandons(s, startLedger, n - 1)
              && First(s, startLedger, n - 1) == r.sweptThrough + 1
  }

  lemma {:induction false} ConsumeByWindow(s: Sweep, startLedger: int, count: nat, st: SweepState)
    requires CanSweep(s) && Between(s, startLedger, st)
    requires DrainAll(s, Batch(s, st.sweptThrough + 1, count)).Ok?
    ensures var batch := Batch(s, st.sweptThrough + 1, count);
            var (st', failed) := Consume(s, batch, DrainAll(s, batch).value, st);
            if failed then st'.sweptThrough < s.endLedger && SweptInBatches(s, startLedger, Finish(s, st', false))
            else Between(s, startLedger, st') && st'.sweptThrough + 1 == AfterBatch(st.sweptThrough + 1, batch)
    decreases count
  {
    hide Drain, OrderEvents, Flatten, First, Last, PagesAccount, AreWindows, IsWindow;
    var from := st.sweptThrough + 1;
    if count > 0 && from <= s.endLedger {
      var to := WindowEnd(s, from);
      var batch := Batch(s, from, count);
      assert batch[1..] == Batch(s, to + 1, count - 1);
      var window := Drain(s.rpc, s.budget, from, to).value;
      assert DrainAll(s, batch).value[1..] == DrainAll(s, batch[1..]).value;
      NextFirst(s, startLedger, |st.deliveries|);
      DeliverNext(s, startLedger, st);
      if window.drained {
        ConsumeByWindow(s, startLedger, count - 1,
                        Deliver(s, st, window).(windows := st.windows + 1, sweptThrough := to));
      }
    }
  }

  /** A batch fails with the error of one of its windows. */
  lemma {:induction false} BatchFails(s: Sweep, startLedger: int, k: nat, count: nat) returns (i: nat)
    requires CanSweep(s) && DrainAll(s, Batch(s, First(s, startLedger, k), count)).Err?
    ensures var batch := Batch(s, First(s, startLedger, k), count);
            i >= k && DrainNumber(s, startLedger, i) == Err(DrainAll(s, batch).error)
    decreases count
  {
    hide Drain, First, Last;
    NextFirst(s, startLedger, k);
    var from := First(s, startLedger, k);
    var batch := Batch(s, from, count);
    assert batch[1..] == Batch(s, WindowEnd(s, from) + 1, count - 1);
    i := k;
    if DrainNumber(s, startLedger, k) != Err(DrainAll(s, batch).error) {
      RestOfBatch(s, startLedger, k, count);
      i := BatchFails(s, startLedger, k + 1, count - 1);
    }
  }

  /** What is left of a batch starts at the next window, or there is nothing left. */
  lemma RestOfBatch(s: Sweep, startLedger: int, k: nat, count: nat)
    requires CanSweep(s) && count > 0 && First(s, startLedger, k) <= s.endLedger
    ensures Batch(s, WindowEnd(s, First(s, startLedger, k)) + 1, count - 1) ==
            Batch(s, First(s, startLedger, k + 1), count - 1)
  {
    NextFirst(s, startLedger, k);
  }

  lemma {:induction false} ParallelByWindow(s: Sweep, startLedger: int, batchSize: nat, st: SweepState)
    requires CanSweep(s) && batchSize > 0 && Between(s, startLedger, st)
    ensures SweptInBatches(s, startLedger, ParallelFrom(s, batchSize, st.sweptThrough + 1, st))
    decreases s.endLedger - st.sweptThrough
  {
    hide Drain, OrderEvents, Flatten, First, Last, PagesAccount, AreWindows, IsWindow;
    var next := st.sweptThrough + 1;
    if next <= s.endLedger && s.budget(next, 0) {
      var batch := Batch(s, next, batchSize);
      BatchAdvances(s, next, batchSize);
      var drains := DrainAll(s, batch);
      if drains.Ok? {
        ConsumeByWindow(s, startLedger, batchSize, st);
        var (st', failed) := Consume(s, batch, drains.value, st);
        if !failed { ParallelByWindow(s, startLedger, batchSize, st'); }
      } else {
        var i := BatchFails(s, startLedger, |st.deliveries|, batchSize);
      }
    }
  }

  /** Both sweeps of any range, from any start ledger and under any budget. */
  lemma SweepsByWindow(s: Sweep, startLedger: int, batchSize: nat)
    requires CanSweep(s) && batchSize > 0
    ensures SweptInOrder(s, startLedger, SequentialFrom(s, Start(startLedger)))
    ensures SweptInBatches(s, startLedger, ParallelFrom(s, batchSize, startLedger, Start(startLedger)))
  {
    hide SweptInOrder, SweptInBatches, SequentialFrom, ParallelFrom;
    SequentialByWindow(s, startLedger, Start(startLedger));
    ParallelByWindow(s, startLedger, batchSize, Start(startLedger));
  }
}
