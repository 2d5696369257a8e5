/** apps/web/src/lib/event-pager.ts: paging one ledger window, and the sequential and
    parallel sweeps over consecutive windows. */
module EventPager {
  import opened Wrappers
  import opened Chain

  const LEDGER_WINDOW := 10_000
  const PARALLEL_CONCURRENCY := 10

  /** `withinBudget` as an arbitrary oracle: its answer after `pages` pages of the window that
      starts at a ledger, where 0 pages is the check made before the window or batch. A sweep
      asks each of these questions at most once. An absent `withinBudget` always answers true. */
  type Budget = (int, nat) -> bool

  /** `LedgerWindowFetchError`. */
  datatype FetchError = LedgerWindowFetch(startLedger: int, endLedger: int, reason: string)

  datatype DrainResult = DrainResult(events: seq<RawEvent>, drained: bool, pages: nat)

  datatype SweepResult = SweepResult(
    events: seq<RawEvent>, scanned: nat, sweptThrough: int, complete: bool, pages: nat, windows: nat)

  /** What a sweep did: the lists handed to `onEvents`, call by call, and how it ended. */
  datatype Outcome = Outcome(deliveries: seq<seq<RawEvent>>, result: Result<SweepResult, FetchError>)

  /** The locale's `localeCompare(a, b) <= 0`. */
  type Collation = (string, string) -> bool

  /** Of two failing fetches, whether the first argument's rejects `Promise.all` before the other's. */
  type Race = (FetchError, FetchError) -> bool

  /** The fixed inputs of a sweep: the upper ledger, the window size, whether `onEvents` is given. */
  datatype Sweep = Sweep(
    rpc: Rpc, budget: Budget, collate: Collation, race: Race, endLedger: int, windowSize: nat, streaming: bool)

  /* ----- options ----- */

  /** `value` is None when the option is undefined, NaN or infinite. */
  function PositiveInteger(value: Option<real>, fallback: nat): int {
    if value.Some? && value.value > 0.0 then value.value.Floor else fallback
  }

  /** The name is a promise kept except between 0 and 1, where the floor is 0 and no window
      or batch can make progress. */
  lemma PositiveIntegerIsPositive(value: Option<real>, fallback: nat)
    requires fallback > 0
    ensures PositiveInteger(value, fallback) > 0 <==> !(value.Some? && 0.0 < value.value < 1.0)
    ensures if value.Some? && value.value > 0.0
            then 0.0 <= value.value - PositiveInteger(value, fallback) as real < 1.0
            else PositiveInteger(value, fallback) == fallback
  {
  }

  /* ----- orderEvents ----- */

  /** The comparator of `orderEvents` says `a` may stay before `b`. */
  predicate Before(collate: Collation, a: RawEvent, b: RawEvent) {
    a.ledger < b.ledger || (a.ledger == b.ledger && collate(a.id, b.id))
  }

  function InsertEvent(collate: Collation, sorted: seq<RawEvent>, e: RawEvent): seq<RawEvent> {
    if sorted == [] || Before(collate, sorted[|sorted| - 1], e) then sorted + [e]
    else InsertEvent(collate, sorted[..|sorted| - 1], e) + [sorted[|sorted| - 1]]
  }

  /** The stable sort of `orderEvents`, by insertion. */
  function OrderEvents(collate: Collation, events: seq<RawEvent>): (r: seq<RawEvent>)
    ensures |r| == |events|
    ensures multiset(r) == multiset(events)
  {
    if events == [] then []
    else
      var last := events[|events| - 1];
      var front := OrderEvents(collate, events[..|events| - 1]);
      InsertKeeps(collate, front, last);
      assert events == events[..|events| - 1] + [last];
      InsertEvent(collate, front, last)
  }

  lemma {:induction false} InsertKeeps(collate: Collation, sorted: seq<RawEvent>, e: RawEvent)
    ensures |InsertEvent(collate, sorted, e)| == |sorted| + 1
    ensures multiset(InsertEvent(collate, sorted, e)) == multiset(sorted) + multiset{e}
  {
    if sorted != [] && !Before(collate, sorted[|sorted| - 1], e) {
      InsertKeeps(collate, sorted[..|sorted| - 1], e);
      assert sorted == sorted[..|sorted| - 1] + [sorted[|sorted| - 1]];
    }
  }

  lemma {:induction false} InsertOrdered(collate: Collation, sorted: seq<RawEvent>, e: RawEvent)
    requires Ordered(sorted)
    ensures Ordered(InsertEvent(collate, sorted, e))
    ensures forall x :: x in InsertEvent(collate, sorted, e) <==> x in sorted || x == e
  {
    if sorted != [] {
      var front, last := sorted[..|sorted| - 1], sorted[|sorted| - 1];
      assert sorted == front + [last];
      if !Before(collate, last, e) {
        InsertOrdered(collate, front, e);
        var r := InsertEvent(collate, front, e);
        forall x | x in r ensures x.ledger <= last.ledger {
          if x in front { var i :| 0 <= i < |front| && front[i] == x; assert sorted[i] == x; }
        }
      }
    }
  }

  lemma {:induction false} OrderEventsOrdered(collate: Collation, events: seq<RawEvent>)
    ensures Ordered(OrderEvents(collate, events))
  {
    if events != [] {
      OrderEventsOrdered(collate, events[..|events| - 1]);
      InsertOrdered(collate, OrderEvents(collate, events[..|events| - 1]), events[|events| - 1]);
    }
  }

  /** Events that already come in ledger order, and within a ledger in the order of their ids, are delivered
      as they came. */
  lemma {:induction false} OrderEventsKeepsSorted(collate: Collation, events: seq<RawEvent>)
    requires forall i :: 0 < i < |events| ==>
               events[i - 1].ledger < events[i].ledger ||
               (events[i - 1].ledger == events[i].ledger && collate(events[i - 1].id, events[i].id))
    ensures OrderEvents(collate, events) == events
  {
    if events != [] {
      OrderEventsKeepsSorted(collate, events[..|events| - 1]);
      assert events == events[..|events| - 1] + [events[|events| - 1]];
    }
  }

  /** The locale compares any two ids, and consistently. */
  ghost predicate IsCollation(collate: Collation) {
    (forall x, y :: collate(x, y) || collate(y, x)) &&
    (forall x, y, z :: collate(x, y) && collate(y, z) ==> collate(x, z))
  }

  /** Every list comes out in ledger order, and within a ledger in the order of the ids. */
  lemma {:induction false} OrderEventsSorts(collate: Collation, events: seq<RawEvent>, i: nat, j: nat)
    requires IsCollation(collate) && i < j < |events|
    ensures var r := OrderEvents(collate, events);
            r[i].ledger < r[j].ledger || (r[i].ledger == r[j].ledger && collate(r[i].id, r[j].id))
    decreases |events|
  {
    var front := OrderEvents(collate, events[..|events| - 1]);
    forall k, l | 0 <= k < l < |front| ensures Before(collate, front[k], front[l]) {
      OrderEventsSorts(collate, events[..|events| - 1], k, l);
    }
    InsertSorts(collate, front, events[|events| - 1]);
  }

  ghost predicate AllBefore(collate: Collation, events: seq<RawEvent>) {
    forall i, j :: 0 <= i < j < |events| ==> Before(collate, events[i], events[j])
  }

  lemma {:induction false} InsertSorts(collate: Collation, sorted: seq<RawEvent>, e: RawEvent)
    requires IsCollation(collate) && AllBefore(collate, sorted)
    ensures AllBefore(collate, InsertEvent(collate, sorted, e))
    ensures forall x :: x in InsertEvent(collate, sorted, e) <==> x in sorted || x == e
  {
    if sorted != [] {
      var front, last := sorted[..|sorted| - 1], sorted[|sorted| - 1];
      assert sorted == front + [last];
      if Before(collate, last, e) {
        forall i | 0 <= i < |sorted| ensures Before(collate, sorted[i], e) {}
      } else {
        InsertSorts(collate, front, e);
        var r := InsertEvent(collate, front, e);
        forall x | x in r ensures Before(collate, x, last) {
          if x in front { var i :| 0 <= i < |front| && front[i] == x; assert sorted[i] == x; }
        }
      }
    }
  }

  /** The comparator does not separate the events. */
  predicate Tied(collate: Collation, a: RawEvent, b: RawEvent) {
    a.ledger == b.ledger && collate(a.id, b.id) && collate(b.id, a.id)
  }

  function TiedWith(collate: Collation, events: seq<RawEvent>, e: RawEvent): seq<RawEvent> {
    if events == [] then []
    else
      var last := events[|events| - 1];
      TiedWith(collate, events[..|events| - 1], e) + if Tied(collate, last, e) then [last] else []
  }

  /** The sort is stable: events that the comparator does not separate keep their order. */
  lemma {:induction false} OrderEventsIsStable(collate: Collation, events: seq<RawEvent>, e: RawEvent)
    requires IsCollation(collate)
    ensures TiedWith(collate, OrderEvents(collate, events), e) == TiedWith(collate, events, e)
  {
    if events != [] {
      var front, last := events[..|events| - 1], events[|events| - 1];
      OrderEventsIsStable(collate, front, e);
      InsertIsStable(collate, OrderEvents(collate, front), last, e);
    }
  }

  lemma {:induction false} InsertIsStable(collate: Collation, sorted: seq<RawEvent>, x: RawEvent, e: RawEvent)
    requires IsCollation(collate)
    ensures TiedWith(collate, InsertEvent(collate, sorted, x), e) ==
            TiedWith(collate, sorted, e) + if Tied(collate, x, e) then [x] else []
  {
    if sorted == [] || Before(collate, sorted[|sorted| - 1], x) {
      assert (sorted + [x])[..|sorted|] == sorted;
    } else {
      var front, last := sorted[..|sorted| - 1], sorted[|sorted| - 1];
      InsertIsStable(collate, front, x, e);
      var r := InsertEvent(collate, front, x);
      assert (r + [last])[..|r|] == r;
      assert Tied(collate, x, e) ==> !Tied(collate, last, e);
    }
  }

  /* ----- drainEvents ----- */

  ghost function DrainFrom(rpc: Rpc, budget: Budget, from: int, to: int, request: Request, sofar: DrainResult)
    : Result<DrainResult, FetchError>
    requires Honest(rpc) && Wellformed(rpc, request)
    decreases |rpc.chain| - PositionOf(rpc, request)
  {
    match rpc.fetch(request)
    case Err(reason) => Err(LedgerWindowFetch(from, to, reason))
    case Ok(page) =>
      var read := DrainResult(sofar.events + page.events, true, sofar.pages + 1);
      if |page.events| < EVENTS_PAGE_LIMIT || NextToken(page) == "" then Ok(read)
      else if !budget(from, read.pages) then Ok(read.(drained := false))
      else DrainFrom(rpc, budget, from, to, After(NextToken(page)), read)
  }

  ghost function Drain(rpc: Rpc, budget: Budget, from: int, to: int): Result<DrainResult, FetchError>
    requires Honest(rpc)
  {
    DrainFrom(rpc, budget, from, to, Range(from, to), DrainResult([], true, 0))
  }

  method DrainEvents(rpc: Rpc, startLedger: int, endLedger: int, budget: Budget)
    returns (r: Result<DrainResult, FetchError>)
    requires Honest(rpc)
    ensures r == Drain(rpc, budget, startLedger, endLedger)
  {
    var events := [];
    var cursor := "";
    var pages := 0;
    ghost var request := Range(startLedger, endLedger);
    while true
      invariant request == if cursor != "" then After(cursor) else Range(startLedger, endLedger)
      invariant Wellformed(rpc, request)
      invariant Drain(rpc, budget, startLedger, endLedger) ==
                DrainFrom(rpc, budget, startLedger, endLedger, request, DrainResult(events, true, pages))
      decreases |rpc.chain| - PositionOf(rpc, request)
    {
      var fetched := rpc.fetch(if cursor != "" then After(cursor) else Range(startLedger, endLedger));
      if fetched.Err? {
        return Err(LedgerWindowFetch(startLedger, endLedger, fetched.error));
      }
      var page := fetched.value;
      assert Serves(rpc, page, PositionOf(rpc, request), BoundOf(rpc, request));
      pages := pages + 1;
      events := events + page.events;
      if |page.events| < EVENTS_PAGE_LIMIT {
        return Ok(DrainResult(events, true, pages));
      }
      var next := NextToken(page);
      if next == "" {
        return Ok(DrainResult(events, true, pages));
      }
      cursor := next;
      request := After(next);
      if !budget(startLedger, pages) {
        return Ok(DrainResult(events, false, pages));
      }
    }
  }

  /** `r` extends what was read so far by the events at positions `p` up to `q`. */
  ghost predicate IsStretch(rpc: Rpc, sofar: DrainResult, r: DrainResult, p: nat, q: nat) {
    p <= q <= |rpc.chain| && r.events == sofar.events + rpc.chain[p..q]
  }

  /** Paging reads one unbroken stretch of the chain from where it started. A drained window has
      been read to its end; under the stronger contract, exactly to its end. */
  lemma {:induction false} DrainReadsStretch(rpc: Rpc, budget: Budget, from: int, to: int, request: Request,
                                             sofar: DrainResult)
    returns (q: nat)
    requires Honest(rpc) && Wellformed(rpc, request) && BoundOf(rpc, request) >= to
    requires DrainFrom(rpc, budget, from, to, request, sofar).Ok?
    ensures var r := DrainFrom(rpc, budget, from, to, request, sofar).value;
            IsStretch(rpc, sofar, r, PositionOf(rpc, request), q) &&
            (r.drained && IssuesTokens(rpc) ==> q >= Upto(rpc.chain, to))
    ensures StaysInWindow(rpc) && BoundOf(rpc, request) == to ==>
            q <= Upto(rpc.chain, to) || q == PositionOf(rpc, request)
    decreases |rpc.chain| - PositionOf(rpc, request)
  {
    hide Upto, Ordered;
    var page := rpc.fetch(request).value;
    var p := PositionOf(rpc, request);
    assert Serves(rpc, page, p, BoundOf(rpc, request));
    q := PageEnd(rpc.chain, p, BoundOf(rpc, request));
    UptoMonotone(rpc.chain, to, BoundOf(rpc, request));
    var read := DrainResult(sofar.events + page.events, true, sofar.pages + 1);
    if |page.events| == EVENTS_PAGE_LIMIT && NextToken(page) != "" && budget(from, read.pages) {
      var mid := q;
      q := DrainReadsStretch(rpc, budget, from, to, After(NextToken(page)), read);
      assert rpc.chain[p..mid] + rpc.chain[mid..q] == rpc.chain[p..q];
      assert sofar.events + rpc.chain[p..q] == (sofar.events + rpc.chain[p..mid]) + rpc.chain[mid..q];
    }
  }

  /** Never stopped by the budget, paging drains. */
  lemma {:induction false} UnhurriedDrains(rpc: Rpc, budget: Budget, from: int, to: int, request: Request,
                                           sofar: DrainResult)
    requires Honest(rpc) && Wellformed(rpc, request)
    requires forall l, n :: budget(l, n)
    requires DrainFrom(rpc, budget, from, to, request, sofar).Ok?
    ensures DrainFrom(rpc, budget, from, to, request, sofar).value.drained
    decreases |rpc.chain| - PositionOf(rpc, request)
  {
    var page := rpc.fetch(request).value;
    assert Serves(rpc, page, PositionOf(rpc, request), BoundOf(rpc, request));
    if |page.events| == EVENTS_PAGE_LIMIT && NextToken(page) != "" {
      var read := DrainResult(sofar.events + page.events, true, sofar.pages + 1);
      UnhurriedDrains(rpc, budget, from, to, After(NextToken(page)), read);
    }
  }

  /* ----- the sweeps as functions of their state ----- */

  datatype SweepState = SweepState(deliveries: seq<seq<RawEvent>>, sweptThrough: int, pages: nat, windows: nat)

  function Start(startLedger: int): SweepState {
    SweepState([], startLedger - 1, 0, 0)
  }

  function Flatten(lists: seq<seq<RawEvent>>): seq<RawEvent> {
    if lists == [] then [] else Flatten(lists[..|lists| - 1]) + lists[|lists| - 1]
  }

  function Deliver(s: Sweep, st: SweepState, window: DrainResult): SweepState {
    st.(deliveries := st.deliveries + [OrderEvents(s.collate, window.events)], pages := st.pages + window.pages)
  }

  function Finish(s: Sweep, st: SweepState, complete: bool): Outcome {
    var all := Flatten(st.deliveries);
    var kept := if s.streaming then [] else all;
    Outcome(st.deliveries, Ok(SweepResult(kept, |all|, st.sweptThrough, complete, st.pages, st.windows)))
  }

  function WindowEnd(s: Sweep, from: int): (to: int)
    ensures s.windowSize > 0 && from <= s.endLedger ==> from <= to <= s.endLedger
  {
    if from + s.windowSize - 1 <= s.endLedger then from + s.windowSize - 1 else s.endLedger
  }

  ghost predicate CanSweep(s: Sweep) {
    Honest(s.rpc) && s.windowSize > 0
  }

  ghost function SequentialFrom(s: Sweep, st: SweepState): Outcome
    requires CanSweep(s)
    decreases s.endLedger - st.sweptThrough
  {
    var from := st.sweptThrough + 1;
    if st.sweptThrough >= s.endLedger then Finish(s, st, true)
    else if !s.budget(from, 0) then Finish(s, st, false)
    else
      match Drain(s.rpc, s.budget, from, WindowEnd(s, from))
      case Err(e) => Outcome(st.deliveries, Err(e))
      case Ok(window) =>
        var st' := Deliver(s, st, window).(windows := st.windows + 1);
        if !window.drained then Finish(s, st', false)
        else SequentialFrom(s, st'.(sweptThrough := WindowEnd(s, from)))
  }

  /** The next (at most `count`) windows from `next`. */
  function Batch(s: Sweep, next: int, count: nat): (r: seq<(int, int)>)
    ensures |r| <= count && (count > 0 && next <= s.endLedger ==> r != [] && r[0].0 == next)
    decreases count
  {
    if count == 0 || next > s.endLedger then []
    else [(next, WindowEnd(s, next))] + Batch(s, WindowEnd(s, next) + 1, count - 1)
  }

  function AfterBatch(next: int, batch: seq<(int, int)>): int {
    if batch == [] then next else batch[|batch| - 1].1 + 1
  }

  /** `Promise.all` over the windows: every result, or the error of the failing window that is first in time. */
  ghost function DrainAll(s: Sweep, batch: seq<(int, int)>): (r: Result<seq<DrainResult>, FetchError>)
    requires CanSweep(s)
    ensures r.Ok? ==> |r.value| == |batch|
  {
    if batch == [] then Ok([])
    else
      match (Drain(s.rpc, s.budget, batch[0].0, batch[0].1), DrainAll(s, batch[1..]))
      case (Ok(first), Ok(rest)) => Ok([first] + rest)
      case (Ok(_), Err(later)) => Err(later)
      case (Err(e), Ok(_)) => Err(e)
      case (Err(e), Err(later)) => Err(if s.race(e, later) then e else later)
  }

  /** Emits results in window order up to the first that did not drain; the flag says one did not. */
  function Consume(s: Sweep, batch: seq<(int, int)>, results: seq<DrainResult>, st: SweepState): (SweepState, bool)
    requires |batch| == |results|
  {
    if batch == [] then (st, false)
    else
      var st' := Deliver(s, st, results[0]);
      if !results[0].drained then (st', true)
      else Consume(s, batch[1..], results[1..], st'.(sweptThrough := batch[0].1, windows := st.windows + 1))
  }

  ghost function ParallelFrom(s: Sweep, batchSize: nat, next: int, st: SweepState): Outcome
    requires CanSweep(s) && batchSize > 0
    decreases s.endLedger - next
  {
    if next > s.endLedger then Finish(s, st, st.sweptThrough >= s.endLedger)
    else if !s.budget(next, 0) then Finish(s, st, false)
    else
      var batch := Batch(s, next, batchSize);
      match DrainAll(s, batch)
      case Err(e) => Outcome(st.deliveries, Err(e))
      case Ok(results) =>
        var (st', failed) := Consume(s, batch, results, st);
        BatchAdvances(s, next, batchSize);
        if failed then Finish(s, st', st'.sweptThrough >= s.endLedger)
        else ParallelFrom(s, batchSize, AfterBatch(next, batch), st')
  }

  /** What a drained or abandoned window accounts for. An error names its window and is the answer to some
      request. Every page but the last is full, the budget allowed every page but the first, and a window
      is abandoned only where the budget refuses, after a full page. */
  lemma {:induction false} DrainAccounts(rpc: Rpc, budget: Budget, from: int, to: int, request: Request,
                                         sofar: DrainResult)
    requires Honest(rpc) && Wellformed(rpc, request)
    ensures match DrainFrom(rpc, budget, from, to, request, sofar)
            case Err(e) =>
              e.startLedger == from && e.endLedger == to && exists r: Request :: rpc.fetch(r) == Err(e.reason)
            case Ok(r) =>
              var pages, events := r.pages - sofar.pages, |r.events| - |sofar.events|;
              && pages > 0 && 200 * (pages - 1) <= events <= 200 * pages
              && (forall k :: sofar.pages < k < r.pages ==> budget(from, k))
              && (!r.drained ==> !budget(from, r.pages) && events == 200 * pages)
    decreases |rpc.chain| - PositionOf(rpc, request)
  {
    if rpc.fetch(request).Ok? {
      var page := rpc.fetch(request).value;
      assert Serves(rpc, page, PositionOf(rpc, request), BoundOf(rpc, request));
      var read := DrainResult(sofar.events + page.events, true, sofar.pages + 1);
      if |page.events| == EVENTS_PAGE_LIMIT && NextToken(page) != "" && budget(from, read.pages) {
        DrainAccounts(rpc, budget, from, to, After(NextToken(page)), read);
      }
    }
  }

  lemma {:induction false} BatchAdvances(s: Sweep, next: int, count: nat)
    requires s.windowSize > 0
    ensures AfterBatch(next, Batch(s, next, count)) >= next
    ensures count > 0 && next <= s.endLedger ==> next < AfterBatch(next, Batch(s, next, count)) <= s.endLedger + 1
    decreases count
  {
    if count > 0 && next <= s.endLedger {
      BatchAdvances(s, WindowEnd(s, next) + 1, count - 1);
    }
  }

  /* ----- the sweeps as loops ----- */

  method SweepLedgerRange(rpc: Rpc, startLedger: int, endLedger: int, windowSize: Option<real>,
                          budget: Budget, collate: Collation, ghost race: Race, streaming: bool)
    returns (o: Outcome)
    requires Honest(rpc) && PositiveInteger(windowSize, LEDGER_WINDOW) > 0
    ensures o == SequentialFrom(Sweep(rpc, budget, collate, race, endLedger, PositiveInteger(windowSize, LEDGER_WINDOW),
                                      streaming),
                                Start(startLedger))
  {
    hide Drain, OrderEvents, Honest;
    var size := PositiveInteger(windowSize, LEDGER_WINDOW);
    ghost var s := Sweep(rpc, budget, collate, race, endLedger, size, streaming);
    ghost var goal := SequentialFrom(s, Start(startLedger));
    var delivered: seq<seq<RawEvent>> := [];
    var events: seq<RawEvent> := [];
    var scanned: nat := 0;
    var sweptThrough := startLedger - 1;
    var pages: nat, windows: nat := 0, 0;
    assert Kept(streaming, delivered, events, scanned);
    hide Flatten;
    while sweptThrough < endLedger
      invariant Kept(streaming, delivered, events, scanned)
      invariant goal == SequentialFrom(s, SweepState(delivered, sweptThrough, pages, windows))
    {
      if !budget(sweptThrough + 1, 0) {
        return Outcome(delivered, Ok(SweepResult(events, scanned, sweptThrough, false, pages, windows)));
      }
      var from := sweptThrough + 1;
      var to := if from + size - 1 <= endLedger then from + size - 1 else endLedger;
      ghost var st := SweepState(delivered, sweptThrough, pages, windows);
      var drained := DrainEvents(rpc, from, to, budget);
      if drained.Err? {
        return Outcome(delivered, Err(drained.error));
      }
      var window := drained.value;
      ghost var st' := Deliver(s, st, window).(windows := windows + 1);
      assert goal == if !window.drained then Finish(s, st', false) else SequentialFrom(s, st'.(sweptThrough := to));
      windows := windows + 1;
      pages := pages + window.pages;
      scanned, events, delivered := Emit(collate, streaming, window.events, scanned, events, delivered);
      assert st' == SweepState(delivered, sweptThrough, pages, windows);
      if !window.drained {
        return Outcome(delivered, Ok(SweepResult(events, scanned, sweptThrough, false, pages, windows)));
      }
      sweptThrough := to;
    }
    return Outcome(delivered, Ok(SweepResult(events, scanned, sweptThrough, true, pages, windows)));
  }

  /** `scanned` and `events` as both sweeps maintain them beside the deliveries. */
  predicate Kept(streaming: bool, delivered: seq<seq<RawEvent>>, events: seq<RawEvent>, scanned: nat) {
    events == (if streaming then [] else Flatten(delivered)) && scanned == |Flatten(delivered)|
  }

  /** The `emit` closure: hand the ordered window to `onEvents`, or keep it for the result. */
  method Emit(collate: Collation, streaming: bool, window: seq<RawEvent>,
              scanned0: nat, events0: seq<RawEvent>, delivered0: seq<seq<RawEvent>>)
    returns (scanned: nat, events: seq<RawEvent>, delivered: seq<seq<RawEvent>>)
    requires Kept(streaming, delivered0, events0, scanned0)
    ensures delivered == delivered0 + [OrderEvents(collate, window)]
    ensures Kept(streaming, delivered, events, scanned)
  {
    scanned := scanned0 + |window|;
    var ordered := OrderEvents(collate, window);
    delivered := delivered0 + [ordered];
    assert delivered[..|delivered0|] == delivered0;
    events := if streaming then events0 else events0 + ordered;
  }

  method ParallelSweepLedgerRange(rpc: Rpc, startLedger: int, endLedger: int, windowSize: Option<real>,
                                  concurrency: Option<real>, budget: Budget, collate: Collation, race: Race,
                                  streaming: bool)
    returns (o: Outcome)
    requires Honest(rpc) && PositiveInteger(windowSize, LEDGER_WINDOW) > 0
    requires PositiveInteger(concurrency, PARALLEL_CONCURRENCY) > 0
    ensures o == ParallelFrom(Sweep(rpc, budget, collate, race, endLedger, PositiveInteger(windowSize, LEDGER_WINDOW),
                                    streaming),
                              PositiveInteger(concurrency, PARALLEL_CONCURRENCY), startLedger, Start(startLedger))
  {
    hide Drain, OrderEvents;
    var size := PositiveInteger(windowSize, LEDGER_WINDOW);
    var batchSize := PositiveInteger(concurrency, PARALLEL_CONCURRENCY);
    ghost var s := Sweep(rpc, budget, collate, race, endLedger, size, streaming);
    ghost var goal := ParallelFrom(s, batchSize, startLedger, Start(startLedger));
    var delivered: seq<seq<RawEvent>> := [];
    var events: seq<RawEvent> := [];
    var scanned: nat := 0;
    var nextWindowStart := startLedger;
    var sweptThrough := startLedger - 1;
    var pages: nat, windows: nat := 0, 0;
    assert Kept(streaming, delivered, events, scanned);
    hide Flatten;
    while nextWindowStart <= endLedger
      invariant Kept(streaming, delivered, events, scanned)
      invariant goal == ParallelFrom(s, batchSize, nextWindowStart, SweepState(delivered, sweptThrough, pages, windows))
    {
      if !budget(nextWindowStart, 0) {
        return Outcome(delivered, Ok(SweepResult(events, scanned, sweptThrough, false, pages, windows)));
      }
      ghost var st := SweepState(delivered, sweptThrough, pages, windows);
      ghost var first := nextWindowStart;
      var batch;
      batch, nextWindowStart := NextBatch(s, nextWindowStart, endLedger, size, batchSize);
      BatchAdvances(s, first, batchSize);
      var fetched := FetchBatch(rpc, budget, race, batch, s);
      if fetched.Err? {
        return Outcome(delivered, Err(fetched.error));
      }
      var results := fetched.value;
      ghost var after := Consume(s, batch, results, st);
      assert goal == if after.1 then Finish(s, after.0, after.0.sweptThrough >= endLedger)
                     else ParallelFrom(s, batchSize, nextWindowStart, after.0);
      var batchFailed;
      scanned, events, delivered, sweptThrough, pages, windows, batchFailed :=
        EmitBatch(s, collate, streaming, batch, results, scanned, events, delivered, sweptThrough, pages, windows);
      if batchFailed {
        break;
      }
    }
    return Outcome(
        delivered, Ok(SweepResult(events, scanned, sweptThrough, sweptThrough >= endLedger, pages, windows)));
  }

  /** Advances through the completed windows of a batch, in order, up to the first that did not drain. */
  method EmitBatch(ghost s: Sweep, collate: Collation, streaming: bool, batch: seq<(int, int)>,
                   results: seq<DrainResult>,
                   scanned0: nat, events0: seq<RawEvent>, delivered0: seq<seq<RawEvent>>,
                   sweptThrough0: int, pages0: nat, windows0: nat)
    returns (scanned: nat, events: seq<RawEvent>, delivered: seq<seq<RawEvent>>,
             sweptThrough: int, pages: nat, windows: nat, batchFailed: bool)
    requires s.collate == collate && |batch| == |results|
    requires Kept(streaming, delivered0, events0, scanned0)
    ensures Kept(streaming, delivered, events, scanned)
    ensures (SweepState(delivered, sweptThrough, pages, windows), batchFailed) ==
            Consume(s, batch, results, SweepState(delivered0, sweptThrough0, pages0, windows0))
  {
    hide OrderEvents, Flatten;
    scanned, events, delivered, sweptThrough, pages, windows, batchFailed :=
      scanned0, events0, delivered0, sweptThrough0, pages0, windows0, false;
    ghost var after := Consume(s, batch, results, SweepState(delivered0, sweptThrough0, pages0, windows0));
    assert batch[0..] == batch && results[0..] == results;
    for j := 0 to |results|
      invariant !batchFailed && Kept(streaming, delivered, events, scanned)
      invariant after == Consume(s, batch[j..], results[j..], SweepState(delivered, sweptThrough, pages, windows))
    {
      assert batch[j..][1..] == batch[j + 1..] && results[j..][1..] == results[j + 1..];
      ghost var st := SweepState(delivered, sweptThrough, pages, windows);
      var result := results[j];
      pages := pages + result.pages;
      scanned, events, delivered := Emit(collate, streaming, result.events, scanned, events, delivered);
      assert SweepState(delivered, sweptThrough, pages, windows) == Deliver(s, st, result);
      if !result.drained {
        batchFailed := true;
        return;
      }
      sweptThrough := batch[j].1;
      windows := windows + 1;
    }
  }

  method NextBatch(ghost s: Sweep, next0: int, endLedger: int, size: nat, batchSize: nat)
    returns (batch: seq<(int, int)>, next: int)
    requires s.endLedger == endLedger && s.windowSize == size && size > 0
    ensures batch == Batch(s, next0, batchSize) && next == AfterBatch(next0, batch)
  {
    batch, next := [], next0;
    ghost var whole := Batch(s, next0, batchSize);
    while |batch| < batchSize && next <= endLedger
      invariant |batch| <= batchSize && next == AfterBatch(next0, batch)
      invariant whole == batch + Batch(s, next, batchSize - |batch|)
    {
      var to := if next + size - 1 <= endLedger then next + size - 1 else endLedger;
      ghost var rest := Batch(s, to + 1, batchSize - |batch| - 1);
      assert Batch(s, next, batchSize - |batch|) == [(next, to)] + rest;
      assert batch + ([(next, to)] + rest) == (batch + [(next, to)]) + rest;
      batch := batch + [(next, to)];
      next := to + 1;
    }
  }

  method FetchBatch(rpc: Rpc, budget: Budget, race: Race, batch: seq<(int, int)>, ghost s: Sweep)
    returns (r: Result<seq<DrainResult>, FetchError>)
    requires CanSweep(s) && s.rpc == rpc && s.budget == budget && s.race == race
    ensures r == DrainAll(s, batch)
  {
    hide Drain;
    r := Ok([]);
    for j := |batch| downto 0
      invariant r == DrainAll(s, batch[j..])
    {
      assert batch[j..][0] == batch[j] && batch[j..][1..] == batch[j + 1..];
      var window := DrainEvents(rpc, batch[j].0, batch[j].1, budget);
      if window.Ok? && r.Ok? {
        r := Ok([window.value] + r.value);
      } else if window.Err? && (r.Ok? || race(window.error, r.error)) {
        r := Err(window.error);
      }
    }
    assert batch[0..] == batch;
  }

  /** Where the sweeps cannot advance: an iteration leaves its ledger where it was exactly when the
      window, or the batch, is empty. */
  lemma {:induction false} NoProgress(s: Sweep, next: int, count: nat)
    requires next <= s.endLedger
    ensures WindowEnd(s, next) + 1 == next <==> s.windowSize == 0
    ensures AfterBatch(next, Batch(s, next, count)) == next <==> s.windowSize == 0 || count == 0
    decreases count
  {
    if count > 0 {
      var to := WindowEnd(s, next);
      var rest := Batch(s, to + 1, count - 1);
      assert Batch(s, next, count) == [(next, to)] + rest;
      if s.windowSize > 0 {
        BatchAdvances(s, next, count);
      } else {
        NoProgress(s, next, count - 1);
      }
    }
  }
}
