/** What the two sweeps of event-pager.ts promise: the parallel one refines the sequential
    one, and neither moves `sweptThrough` past an event it has not delivered. */
module SweepTheorems {
  import opened Wrappers
  import opened Chain
  import opened EventPager

  /* ----- parallel refines sequential ----- */

  predicate Prefixes<T(==)>(a: seq<T>, b: seq<T>) {
    |a| <= |b| && a == b[..|a|]
  }

  lemma {:induction false} SequentialExtends(s: Sweep, st: SweepState)
    requires CanSweep(s)
    ensures Prefixes(st.deliveries, SequentialFrom(s, st).deliveries)
    decreases s.endLedger - st.sweptThrough
  {
    hide Drain, OrderEvents, Flatten;
    var from := st.sweptThrough + 1;
    if st.sweptThrough < s.endLedger && s.budget(from, 0) {
      var drain := Drain(s.rpc, s.budget, from, WindowEnd(s, from));
      if drain.Ok? && drain.value.drained {
        SequentialExtends(s, Deliver(s, st, drain.value).(windows := st.windows + 1,
                                                          sweptThrough := WindowEnd(s, from)));
      }
    }
  }

  /** Unhurried, the sequential sweep walks through a batch exactly as the parallel one consumes it,
      and fails where the batch has its first failing window. */
  lemma {:induction false} SequentialThroughBatch(s: Sweep, count: nat, st: SweepState)
    requires CanSweep(s) && forall l, n :: s.budget(l, n)
    ensures var batch := Batch(s, st.sweptThrough + 1, count);
            match DrainAll(s, batch)
            case Err(_) => SequentialFrom(s, st).result.Err?
            case Ok(results) =>
              var (st', failed) := Consume(s, batch, results, st);
              !failed && SequentialFrom(s, st) == SequentialFrom(s, st') &&
              st'.sweptThrough + 1 == AfterBatch(st.sweptThrough + 1, batch)
    decreases count
  {
    hide Drain, OrderEvents, Flatten;
    var from := st.sweptThrough + 1;
    if count > 0 && from <= s.endLedger {
      var to := WindowEnd(s, from);
      WindowDrains(s, from, to);
      var drain := Drain(s.rpc, s.budget, from, to);
      assert Batch(s, from, count)[1..] == Batch(s, to + 1, count - 1);
      if drain.Ok? {
        var st' := Deliver(s, st, drain.value).(windows := st.windows + 1, sweptThrough := to);
        assert SequentialFrom(s, st) == SequentialFrom(s, st');
        SequentialThroughBatch(s, count - 1, st');
        var rest := DrainAll(s, Batch(s, to + 1, count - 1));
        if rest.Ok? {
          assert ([drain.value] + rest.value)[1..] == rest.value;
        }
      }
    }
  }

  lemma WindowDrains(s: Sweep, from: int, to: int)
    requires CanSweep(s) && forall l, n :: s.budget(l, n)
    ensures Drain(s.rpc, s.budget, from, to).Ok? ==> Drain(s.rpc, s.budget, from, to).value.drained
  {
    if Drain(s.rpc, s.budget, from, to).Ok? {
      UnhurriedDrains(s.rpc, s.budget, from, to, Range(from, to), DrainResult([], true, 0));
    }
  }

  /** While the budget lasts, batches and concurrency cannot be observed: the sweeps succeed together,
      and then with one value and the same deliveries in the same order; they fail together, and then
      the parallel sweep has delivered a prefix of what the sequential one has. */
  lemma {:induction false} ParallelRefinesSequential(s: Sweep, batchSize: nat, st: SweepState)
    requires CanSweep(s) && batchSize > 0 && forall l, n :: s.budget(l, n)
    ensures var par, seqv := ParallelFrom(s, batchSize, st.sweptThrough + 1, st), SequentialFrom(s, st);
            && (par.result.Ok? <==> seqv.result.Ok?)
            && (par.result.Ok? ==> par == seqv)
            && Prefixes(par.deliveries, seqv.deliveries)
    decreases s.endLedger - st.sweptThrough
  {
    hide Drain, OrderEvents, Flatten;
    var next := st.sweptThrough + 1;
    SequentialExtends(s, st);
    if next <= s.endLedger {
      SequentialThroughBatch(s, batchSize, st);
      BatchAdvances(s, next, batchSize);
      var batch := Batch(s, next, batchSize);
      var drains := DrainAll(s, batch);
      if drains.Ok? {
        ParallelRefinesSequential(s, batchSize, Consume(s, batch, drains.value, st).0);
      }
    }
  }

  /** Each sweep's error is that of a window which does fail. */
  lemma {:induction false} BatchErrorIsReal(s: Sweep, batch: seq<(int, int)>)
    requires CanSweep(s) && DrainAll(s, batch).Err?
    ensures exists i ::
              0 <= i < |batch| && Drain(s.rpc, s.budget, batch[i].0, batch[i].1) == Err(DrainAll(s, batch).error)
  {
    hide Drain;
    var rest := DrainAll(s, batch[1..]);
    if Drain(s.rpc, s.budget, batch[0].0, batch[0].1) != Err(DrainAll(s, batch).error) {
      BatchErrorIsReal(s, batch[1..]);
      var i :| 0 <= i < |batch[1..]| && Drain(s.rpc, s.budget, batch[1..][i].0, batch[1..][i].1) == Err(rest.error);
      assert batch[1..][i] == batch[i + 1];
    }
  }

  /* ----- the two sweeps under any budget ----- */

  /** The sequential sweep runs out of budget inside a window, after at least one page of it. */
  ghost predicate StopsMidWindow(s: Sweep, st: SweepState)
    requires CanSweep(s)
    decreases s.endLedger - st.sweptThrough
  {
    var from := st.sweptThrough + 1;
    from <= s.endLedger && s.budget(from, 0) &&
    match Drain(s.rpc, s.budget, from, WindowEnd(s, from))
    case Err(_) => false
    case Ok(window) => !window.drained || StopsMidWindow(s, AfterWindow(s, st, window))
  }

  /** The sequential sweep is refused at the start of a window at which no batch starts; `left` windows
      of the current batch are still to come, and at 0 the next batch starts. */
  ghost predicate RefusedInsideBatch(s: Sweep, batchSize: nat, left: nat, st: SweepState)
    requires CanSweep(s) && left < batchSize
    decreases s.endLedger - st.sweptThrough
  {
    var from := st.sweptThrough + 1;
    from <= s.endLedger &&
    if !s.budget(from, 0) then left > 0
    else
      match Drain(s.rpc, s.budget, from, WindowEnd(s, from))
      case Err(_) => false
      case Ok(window) =>
        window.drained &&
        RefusedInsideBatch(s, batchSize, if left == 0 then batchSize - 1 else left - 1, AfterWindow(s, st, window))
  }

  function AfterWindow(s: Sweep, st: SweepState, window: DrainResult): SweepState {
    Deliver(s, st, window).(windows := st.windows + 1, sweptThrough := WindowEnd(s, st.sweptThrough + 1))
  }

  function AddWindow(o: Outcome): Outcome {
    if o.result.Ok? then o.(result := Ok(o.result.value.(windows := o.result.value.windows + 1))) else o
  }

  /** Both sweeps returned, with the same deliveries and values but perhaps not the same `windows`. */
  predicate AgreeButWindows(a: Outcome, b: Outcome) {
    a.result.Ok? && b.result.Ok? && a.deliveries == b.deliveries &&
    a.result.value.(windows := 0) == b.result.value.(windows := 0)
  }

  lemma {:induction false} ConsumeDelivers(s: Sweep, batch: seq<(int, int)>, results: seq<DrainResult>, st: SweepState)
    requires |batch| == |results|
    ensures |Consume(s, batch, results, st).0.deliveries| >= |st.deliveries| + if batch == [] then 0 else 1
  {
    hide OrderEvents;
    if batch != [] && results[0].drained {
      ConsumeDelivers(s, batch[1..], results[1..],
                      Deliver(s, st, results[0]).(sweptThrough := batch[0].1, windows := st.windows + 1));
    }
  }

  lemma {:induction false} ParallelDelivers(s: Sweep, batchSize: nat, next: int, st: SweepState)
    requires CanSweep(s) && batchSize > 0
    ensures |ParallelFrom(s, batchSize, next, st).deliveries| >= |st.deliveries|
    decreases s.endLedger - next
  {
    hide Drain, OrderEvents, Flatten;
    if next <= s.endLedger && s.budget(next, 0) {
      var batch := Batch(s, next, batchSize);
      BatchAdvances(s, next, batchSize);
      var drains := DrainAll(s, batch);
      if drains.Ok? {
        ConsumeDelivers(s, batch, drains.value, st);
        var (st', failed) := Consume(s, batch, drains.value, st);
        if !failed { ParallelDelivers(s, batchSize, AfterBatch(next, batch), st'); }
      }
    }
  }

  function InBatch(batchSize: nat, left: nat): nat {
    if left == 0 then batchSize else left
  }

  /** How the sequential sweep fares on the rest of a batch whose windows all answered, and which the
      parallel sweep consumes into `st'`. */
  ghost predicate FaresLike(s: Sweep, batchSize: nat, left: nat, st: SweepState, st': SweepState, failed: bool,
                            next: int)
    requires CanSweep(s) && left < batchSize
  {
    if RefusedInsideBatch(s, batchSize, left, st) && |SequentialFrom(s, st).deliveries| < |st'.deliveries| then
      failed || st'.sweptThrough + 1 == next
    else if failed then
      && !RefusedInsideBatch(s, batchSize, left, st) && StopsMidWindow(s, st) && st'.sweptThrough < s.endLedger
      && SequentialFrom(s, st) == AddWindow(Finish(s, st', false))
    else
      && RefusedInsideBatch(s, batchSize, left, st) == RefusedInsideBatch(s, batchSize, 0, st')
      && StopsMidWindow(s, st) == StopsMidWindow(s, st')
      && SequentialFrom(s, st) == SequentialFrom(s, st') && st'.sweptThrough + 1 == next
  }

  ghost predicate FaresThrough(s: Sweep, batchSize: nat, left: nat, st: SweepState, batch: seq<(int, int)>)
    requires CanSweep(s) && left < batchSize
  {
    match DrainAll(s, batch)
    case Err(_) =>
      SequentialFrom(s, st).result.Err? <==> !RefusedInsideBatch(s, batchSize, left, st) && !StopsMidWindow(s, st)
    case Ok(results) =>
      var (st', failed) := Consume(s, batch, results, st);
      FaresLike(s, batchSize, left, st, st', failed, AfterBatch(st.sweptThrough + 1, batch))
  }

  lemma {:induction false} ThroughBatch(s: Sweep, batchSize: nat, left: nat, st: SweepState)
    requires CanSweep(s) && left < batchSize
    requires left == 0 && st.sweptThrough < s.endLedger ==> s.budget(st.sweptThrough + 1, 0)
    ensures FaresThrough(s, batchSize, left, st, Batch(s, st.sweptThrough + 1, InBatch(batchSize, left)))
    decreases InBatch(batchSize, left)
  {
    hide FaresThrough, Drain, OrderEvents, Flatten, SequentialFrom, RefusedInsideBatch, StopsMidWindow, DrainAll,
         Consume, AfterWindow;
    var from, count := st.sweptThrough + 1, InBatch(batchSize, left);
    if from > s.endLedger {
      NothingLeft(s, batchSize, left, st);
    } else if !s.budget(from, 0) {
      RefusedHere(s, batchSize, left, st);
    } else {
      var drain := Drain(s.rpc, s.budget, from, WindowEnd(s, from));
      if drain.Ok? && drain.value.drained {
        var next := AfterWindow(s, st, drain.value);
        assert next.sweptThrough == WindowEnd(s, from) by { AfterWindowEnd(s, st, drain.value); }
        if count > 1 {
          ThroughBatch(s, batchSize, count - 1, next);
        } else {
          BatchDone(s, batchSize, next);
        }
        DrainedWindow(s, batchSize, left, st, drain.value);
      } else {
        StopsHere(s, batchSize, left, st);
      }
    }
  }

  lemma AfterWindowEnd(s: Sweep, st: SweepState, window: DrainResult)
    ensures AfterWindow(s, st, window).sweptThrough == WindowEnd(s, st.sweptThrough + 1)
  {
  }

  lemma NothingLeft(s: Sweep, batchSize: nat, left: nat, st: SweepState)
    requires CanSweep(s) && left < batchSize && st.sweptThrough >= s.endLedger
    ensures FaresThrough(s, batchSize, left, st, Batch(s, st.sweptThrough + 1, InBatch(batchSize, left)))
  {
  }

  lemma BatchDone(s: Sweep, batchSize: nat, st: SweepState)
    requires CanSweep(s) && batchSize > 0
    ensures FaresThrough(s, batchSize, 0, st, [])
  {
  }

  lemma RefusedHere(s: Sweep, batchSize: nat, left: nat, st: SweepState)
    requires CanSweep(s) && 0 < left < batchSize && st.sweptThrough < s.endLedger && !s.budget(st.sweptThrough + 1, 0)
    ensures FaresThrough(s, batchSize, left, st, Batch(s, st.sweptThrough + 1, left))
  {
    hide Drain, OrderEvents, Flatten;
    var batch := Batch(s, st.sweptThrough + 1, left);
    var drains := DrainAll(s, batch);
    if drains.Ok? {
      ConsumeDelivers(s, batch, drains.value, st);
      ConsumeKeepsUp(s, st.sweptThrough + 1, left, drains.value, st);
    }
  }

  /** When all its windows drained, a batch takes the cursor to its end. */
  lemma {:induction false} ConsumeKeepsUp(s: Sweep, next: int, count: nat, results: seq<DrainResult>, st: SweepState)
    requires |Batch(s, next, count)| == |results| && st.sweptThrough + 1 == next
    ensures var (st', failed) := Consume(s, Batch(s, next, count), results, st);
            !failed ==> st'.sweptThrough + 1 == AfterBatch(next, Batch(s, next, count))
    decreases count
  {
    hide OrderEvents;
    if count > 0 && next <= s.endLedger && results[0].drained {
      var to := WindowEnd(s, next);
      assert Batch(s, next, count)[1..] == Batch(s, to + 1, count - 1);
      ConsumeKeepsUp(s, to + 1, count - 1, results[1..],
                     Deliver(s, st, results[0]).(sweptThrough := to, windows := st.windows + 1));
    }
  }

  lemma StopsHere(s: Sweep, batchSize: nat, left: nat, st: SweepState)
    requires CanSweep(s) && left < batchSize && st.sweptThrough < s.endLedger && s.budget(st.sweptThrough + 1, 0)
    requires var drain := Drain(s.rpc, s.budget, st.sweptThrough + 1, WindowEnd(s, st.sweptThrough + 1));
             drain.Err? || !drain.value.drained
    ensures FaresThrough(s, batchSize, left, st, Batch(s, st.sweptThrough + 1, InBatch(batchSize, left)))
  {
    hide Drain, OrderEvents, Flatten;
    assert Batch(s, st.sweptThrough + 1, InBatch(batchSize, left))[0] ==
           (st.sweptThrough + 1, WindowEnd(s, st.sweptThrough + 1));
  }

  /** A batch is its first window and the rest. */
  lemma DrainedSplit(s: Sweep, count: nat, st: SweepState, window: DrainResult)
    requires CanSweep(s) && count > 0 && st.sweptThrough < s.endLedger && window.drained
    requires Drain(s.rpc, s.budget, st.sweptThrough + 1, WindowEnd(s, st.sweptThrough + 1)) == Ok(window)
    ensures var from, to := st.sweptThrough + 1, WindowEnd(s, st.sweptThrough + 1);
            var batch, rest := Batch(s, from, count), Batch(s, to + 1, count - 1);
            && AfterBatch(from, batch) == AfterBatch(to + 1, rest)
            && (DrainAll(s, batch).Ok? <==> DrainAll(s, rest).Ok?)
            && (DrainAll(s, batch).Ok? ==> Consume(s, batch, DrainAll(s, batch).value, st) ==
                                            Consume(s, rest, DrainAll(s, rest).value, AfterWindow(s, st, window)))
  {
    hide Drain, OrderEvents;
    var from, to := st.sweptThrough + 1, WindowEnd(s, st.sweptThrough + 1);
    var batch, rest := Batch(s, from, count), Batch(s, to + 1, count - 1);
    assert batch == [(from, to)] + rest && batch[1..] == rest;
    if DrainAll(s, batch).Ok? { assert DrainAll(s, batch).value[1..] == DrainAll(s, rest).value; }
  }

  lemma DrainedWindow(s: Sweep, batchSize: nat, left: nat, st: SweepState, window: DrainResult)
    requires CanSweep(s) && left < batchSize && st.sweptThrough < s.endLedger && s.budget(st.sweptThrough + 1, 0)
    requires Drain(s.rpc, s.budget, st.sweptThrough + 1, WindowEnd(s, st.sweptThrough + 1)) == Ok(window) &&
             window.drained
    requires FaresThrough(s, batchSize, InBatch(batchSize, left) - 1, AfterWindow(s, st, window),
                          Batch(s, WindowEnd(s, st.sweptThrough + 1) + 1, InBatch(batchSize, left) - 1))
    ensures FaresThrough(s, batchSize, left, st, Batch(s, st.sweptThrough + 1, InBatch(batchSize, left)))
  {
    hide Drain, OrderEvents, Flatten, SequentialFrom, RefusedInsideBatch, StopsMidWindow, DrainAll, Consume,
         AfterWindow, Batch, AfterBatch;
    AfterWindowEnd(s, st, window);
    BatchStep(s, batchSize, left, st, window);
    DrainedSplit(s, InBatch(batchSize, left), st, window);
  }

  lemma BatchStep(s: Sweep, batchSize: nat, left: nat, st: SweepState, window: DrainResult)
    requires CanSweep(s) && left < batchSize && st.sweptThrough < s.endLedger && s.budget(st.sweptThrough + 1, 0)
    requires Drain(s.rpc, s.budget, st.sweptThrough + 1, WindowEnd(s, st.sweptThrough + 1)) == Ok(window) &&
             window.drained
    ensures var next := AfterWindow(s, st, window);
            && SequentialFrom(s, st) == SequentialFrom(s, next)
            && StopsMidWindow(s, st) == StopsMidWindow(s, next)
            && RefusedInsideBatch(s, batchSize, left, st) ==
               RefusedInsideBatch(s, batchSize, InBatch(batchSize, left) - 1, next)
  {
    hide Drain, OrderEvents, Flatten;
  }

  /** Exactly when the "identical contract" holds, for every budget and every concurrency. When the
      parallel sweep returns, the two agree up to `windows` if and only if the budget never refuses the
      sequential sweep at the start of a window inside a batch; then `windows` differs by one exactly
      when a window was abandoned. When the parallel sweep throws, the sequential one throws exactly
      when neither of the two stops it first. */
  lemma {:induction false} ExactAgreement(s: Sweep, batchSize: nat, st: SweepState)
    requires CanSweep(s) && batchSize > 0
    ensures AgreesExactly(s, batchSize, st, ParallelFrom(s, batchSize, st.sweptThrough + 1, st))
    decreases s.endLedger - st.sweptThrough
  {
    hide Drain, OrderEvents, SequentialFrom, RefusedInsideBatch, StopsMidWindow, Consume, DrainAll, AgreesExactly,
         FaresThrough, Finish;
    var next := st.sweptThrough + 1;
    if next > s.endLedger || !s.budget(next, 0) {
      StopsAtBatchStart(s, batchSize, st);
    } else {
      ThroughBatch(s, batchSize, 0, st);
      BatchAdvances(s, next, batchSize);
      var batch := Batch(s, next, batchSize);
      var drains := DrainAll(s, batch);
      if drains.Ok? {
        var (st', failed) := Consume(s, batch, drains.value, st);
        if failed {
          BatchFailed(s, batchSize, st, batch);
        } else {
          BatchPasses(s, batchSize, st, batch);
          ParallelDelivers(s, batchSize, AfterBatch(next, batch), st');
          ExactAgreement(s, batchSize, st');
          AgreementCarries(s, batchSize, st, st', ParallelFrom(s, batchSize, AfterBatch(next, batch), st'));
        }
      } else {
        BatchThrows(s, batchSize, st, batch, drains.error);
      }
    }
  }

  ghost predicate AgreesExactly(s: Sweep, batchSize: nat, st: SweepState, par: Outcome)
    requires CanSweep(s) && batchSize > 0
  {
    var seqv := SequentialFrom(s, st);
    var refused, abandoned := RefusedInsideBatch(s, batchSize, 0, st), StopsMidWindow(s, st);
    && (par.result.Ok? ==> (AgreeButWindows(seqv, par) <==> !refused))
    && (par.result.Ok? && !refused ==> seqv == if abandoned then AddWindow(par) else par)
    && (par.result.Ok? && refused ==> |seqv.deliveries| < |par.deliveries|)
    && (par.result.Err? ==> (seqv.result.Err? <==> !refused && !abandoned))
  }

  lemma StopsAtBatchStart(s: Sweep, batchSize: nat, st: SweepState)
    requires CanSweep(s) && batchSize > 0
    requires st.sweptThrough >= s.endLedger || !s.budget(st.sweptThrough + 1, 0)
    ensures AgreesExactly(s, batchSize, st, ParallelFrom(s, batchSize, st.sweptThrough + 1, st))
  {
  }

  lemma BatchThrows(s: Sweep, batchSize: nat, st: SweepState, batch: seq<(int, int)>, e: FetchError)
    requires CanSweep(s) && batchSize > 0 && FaresThrough(s, batchSize, 0, st, batch) && DrainAll(s, batch).Err?
    ensures AgreesExactly(s, batchSize, st, Outcome(st.deliveries, Err(e)))
  {
  }

  lemma BatchFailed(s: Sweep, batchSize: nat, st: SweepState, batch: seq<(int, int)>)
    requires CanSweep(s) && batchSize > 0 && FaresThrough(s, batchSize, 0, st, batch) && DrainAll(s, batch).Ok?
    requires Consume(s, batch, DrainAll(s, batch).value, st).1
    ensures var st' := Consume(s, batch, DrainAll(s, batch).value, st).0;
            AgreesExactly(s, batchSize, st, Finish(s, st', st'.sweptThrough >= s.endLedger))
  {
  }

  lemma BatchPasses(s: Sweep, batchSize: nat, st: SweepState, batch: seq<(int, int)>)
    requires CanSweep(s) && batchSize > 0 && FaresThrough(s, batchSize, 0, st, batch) && DrainAll(s, batch).Ok?
    requires !Consume(s, batch, DrainAll(s, batch).value, st).1
    ensures var st' := Consume(s, batch, DrainAll(s, batch).value, st).0;
            st'.sweptThrough + 1 == AfterBatch(st.sweptThrough + 1, batch) && Passes(s, batchSize, st, st')
  {
    hide SequentialFrom, RefusedInsideBatch, StopsMidWindow, Consume, DrainAll;
  }

  /** The sequential sweep was refused inside the batch that led to `st'`, or reached `st'` too. */
  ghost predicate Passes(s: Sweep, batchSize: nat, st: SweepState, st': SweepState)
    requires CanSweep(s) && batchSize > 0
  {
    || (RefusedInsideBatch(s, batchSize, 0, st) && |SequentialFrom(s, st).deliveries| < |st'.deliveries|)
    || (&& RefusedInsideBatch(s, batchSize, 0, st) == RefusedInsideBatch(s, batchSize, 0, st')
        && StopsMidWindow(s, st) == StopsMidWindow(s, st') && SequentialFrom(s, st) == SequentialFrom(s, st'))
  }

  lemma AgreementCarries(s: Sweep, batchSize: nat, st: SweepState, st': SweepState, par: Outcome)
    requires CanSweep(s) && batchSize > 0 && Passes(s, batchSize, st, st')
    requires AgreesExactly(s, batchSize, st', par) && |par.deliveries| >= |st'.deliveries|
    ensures par.result.Err? && RefusedInsideBatch(s, batchSize, 0, st) ==> SequentialFrom(s, st).result.Ok?
    ensures AgreesExactly(s, batchSize, st, par)
  {
    hide SequentialFrom, RefusedInsideBatch, StopsMidWindow;
    SequentialRefused(s, batchSize, 0, st);
  }

  lemma {:induction false} SequentialRefused(s: Sweep, batchSize: nat, left: nat, st: SweepState)
    requires CanSweep(s) && left < batchSize
    ensures RefusedInsideBatch(s, batchSize, left, st) ==> SequentialFrom(s, st).result.Ok?
    decreases s.endLedger - st.sweptThrough
  {
    hide Drain, OrderEvents, Flatten;
    var from := st.sweptThrough + 1;
    if from <= s.endLedger && s.budget(from, 0) {
      var drain := Drain(s.rpc, s.budget, from, WindowEnd(s, from));
      if drain.Ok? && drain.value.drained {
        SequentialRefused(s, batchSize, if left == 0 then batchSize - 1 else left - 1, AfterWindow(s, st, drain.value));
      }
    }
  }

  /** With concurrency 1 no batch has an inside: for any budget, errors included, the sweeps differ in
      nothing but the count of an abandoned window. */
  lemma {:induction false} OneAtATime(s: Sweep, st: SweepState)
    requires CanSweep(s)
    ensures SequentialFrom(s, st) ==
            if StopsMidWindow(s, st) then AddWindow(ParallelFrom(s, 1, st.sweptThrough + 1, st))
            else ParallelFrom(s, 1, st.sweptThrough + 1, st)
    decreases s.endLedger - st.sweptThrough
  {
    hide Drain, OrderEvents, Flatten;
    var from := st.sweptThrough + 1;
    if from <= s.endLedger && s.budget(from, 0) {
      var to := WindowEnd(s, from);
      var drain := Drain(s.rpc, s.budget, from, to);
      var batch := Batch(s, from, 1);
      assert Batch(s, to + 1, 0) == [];
      assert batch == [(from, to)] && batch[1..] == [];
      assert DrainAll(s, batch[1..]) == Ok([]);
      if drain.Ok? {
        assert [drain.value] + [] == [drain.value];
        assert DrainAll(s, batch) == Ok([drain.value]);
        var st' := Deliver(s, st, drain.value);
        assert Consume(s, batch[1..], [drain.value][1..], AfterWindow(s, st, drain.value)) ==
               (AfterWindow(s, st, drain.value), false);
        assert AfterWindow(s, st, drain.value) == st'.(sweptThrough := to, windows := st.windows + 1);
        if drain.value.drained {
          OneAtATime(s, AfterWindow(s, st, drain.value));
        }
      }
    }
  }

  /* ----- an unhurried sweep completes ----- */

  ghost predicate NeverFails(rpc: Rpc) {
    forall request: Request :: rpc.fetch(request).Ok?
  }

  lemma {:induction false} DrainNeverFails(rpc: Rpc, budget: Budget, from: int, to: int, request: Request,
                                           sofar: DrainResult)
    requires Honest(rpc) && Wellformed(rpc, request) && NeverFails(rpc)
    ensures DrainFrom(rpc, budget, from, to, request, sofar).Ok?
    decreases |rpc.chain| - PositionOf(rpc, request)
  {
    var page := rpc.fetch(request).value;
    assert Serves(rpc, page, PositionOf(rpc, request), BoundOf(rpc, request));
    if |page.events| == EVENTS_PAGE_LIMIT && NextToken(page) != "" {
      var read := DrainResult(sofar.events + page.events, true, sofar.pages + 1);
      DrainNeverFails(rpc, budget, from, to, After(NextToken(page)), read);
    }
  }

  lemma {:induction false} SequentialCompletes(s: Sweep, st: SweepState)
    requires CanSweep(s) && forall l, n :: s.budget(l, n)
    ensures var r := SequentialFrom(s, st).result;
            && (NeverFails(s.rpc) ==> r.Ok?)
            && (r.Ok? ==> r.value.complete && (st.sweptThrough <= s.endLedger ==> r.value.sweptThrough == s.endLedger))
    decreases s.endLedger - st.sweptThrough
  {
    hide Drain, OrderEvents, Flatten, Honest, NeverFails;
    var from := st.sweptThrough + 1;
    if from <= s.endLedger {
      var to := WindowEnd(s, from);
      WindowDrains(s, from, to);
      if NeverFails(s.rpc) { WindowNeverFails(s, from, to); }
      var drain := Drain(s.rpc, s.budget, from, to);
      if drain.Ok? { SequentialCompletes(s, AfterWindow(s, st, drain.value)); }
    }
  }

  lemma WindowNeverFails(s: Sweep, from: int, to: int)
    requires CanSweep(s) && NeverFails(s.rpc)
    ensures Drain(s.rpc, s.budget, from, to).Ok?
  {
    DrainNeverFails(s.rpc, s.budget, from, to, Range(from, to), DrainResult([], true, 0));
  }

  /** While the budget lasts, either sweep of a range that is not behind its start throws a fetch error
      or sweeps through to the end and says so; with no fetch error it does the latter. */
  lemma UnhurriedSweepsComplete(s: Sweep, startLedger: int, batchSize: nat)
    requires CanSweep(s) && batchSize > 0 && startLedger - 1 <= s.endLedger && forall l, n :: s.budget(l, n)
    ensures forall o ::
              o == SequentialFrom(s, Start(startLedger)) ||
              o == ParallelFrom(s, batchSize, startLedger, Start(startLedger)) ==>
                && (NeverFails(s.rpc) ==> o.result.Ok?)
                && (o.result.Ok? ==> o.result.value.complete && o.result.value.sweptThrough == s.endLedger)
  {
    hide SequentialFrom, ParallelFrom, NeverFails;
    SequentialCompletes(s, Start(startLedger));
    ParallelRefinesSequential(s, batchSize, Start(startLedger));
  }

  /* ----- the cursor never passes an undelivered event ----- */

  ghost predicate IsBoundary(s: Sweep, startLedger: int, ledger: int) {
    ledger == s.endLedger || exists k: nat :: AtBoundary(s, startLedger, ledger, k)
  }

  predicate AtBoundary(s: Sweep, startLedger: int, ledger: int, k: nat) {
    ledger == startLedger - 1 + k * s.windowSize
  }

  /** The chain's events from `startLedger` up to position `q`. */
  function FromStart(s: Sweep, startLedger: int, q: nat): seq<RawEvent>
    requires q <= |s.rpc.chain|
  {
    if Upto(s.rpc.chain, startLedger - 1) <= q then s.rpc.chain[Upto(s.rpc.chain, startLedger - 1)..q] else []
  }

  /** What has been delivered when the chain has been read up to position `q`, past every event
      up to ledger `through`: only events from `startLedger` on; every one of them up to `q` when
      pages come with tokens; and, when cursors also stay in their window, those exactly, once
      each and in ledger order. */
  ghost predicate Delivered(s: Sweep, startLedger: int, delivered: seq<RawEvent>, through: int, q: nat) {
    var chain := s.rpc.chain;
    && Upto(chain, startLedger - 1) <= Upto(chain, through) <= q <= |chain|
    && (forall e :: e in delivered ==> e in FromStart(s, startLedger, |chain|))
    && (IssuesTokens(s.rpc) ==> forall e :: e in FromStart(s, startLedger, q) ==> e in delivered)
    && (IssuesTokens(s.rpc) && StaysInWindow(s.rpc) ==>
          multiset(delivered) == multiset(FromStart(s, startLedger, q)) && Ordered(delivered))
  }

  ghost predicate Progress(s: Sweep, startLedger: int, st: SweepState) {
    && startLedger - 1 <= st.sweptThrough
    && (st.sweptThrough <= s.endLedger || st.sweptThrough == startLedger - 1)
    && IsBoundary(s, startLedger, st.sweptThrough)
    && Delivered(s, startLedger, Flatten(st.deliveries), st.sweptThrough, Upto(s.rpc.chain, st.sweptThrough))
  }

  /** The contract of a sweep: an error leaves deliveries of the range behind and nothing else. */
  ghost predicate SafeResult(s: Sweep, startLedger: int, o: Outcome) {
    && (forall e :: e in Flatten(o.deliveries) ==> e in FromStart(s, startLedger, |s.rpc.chain|))
    && (o.result.Ok? ==>
      var r := o.result.value;
      && startLedger - 1 <= r.sweptThrough
      && (r.sweptThrough <= s.endLedger || r.sweptThrough == startLedger - 1)
      && IsBoundary(s, startLedger, r.sweptThrough)
      && (r.complete <==> r.sweptThrough >= s.endLedger)
      && r.events == (if s.streaming then [] else Flatten(o.deliveries))
      && r.scanned == |Flatten(o.deliveries)|
      && exists q: nat :: (r.complete ==> q == Upto(s.rpc.chain, r.sweptThrough)) &&
                          Delivered(s, startLedger, Flatten(o.deliveries), r.sweptThrough, q))
  }

  lemma StartProgresses(s: Sweep, startLedger: int)
    requires CanSweep(s)
    ensures Progress(s, startLedger, Start(startLedger))
  {
    assert AtBoundary(s, startLedger, startLedger - 1, 0);
  }

  lemma NextBoundary(s: Sweep, startLedger: int, ledger: int)
    requires s.windowSize > 0 && IsBoundary(s, startLedger, ledger) && ledger < s.endLedger
    ensures IsBoundary(s, startLedger, WindowEnd(s, ledger + 1))
  {
    var k: nat :| AtBoundary(s, startLedger, ledger, k);
    assert (k + 1) * s.windowSize == k * s.windowSize + s.windowSize;
    if WindowEnd(s, ledger + 1) != s.endLedger {
      assert AtBoundary(s, startLedger, WindowEnd(s, ledger + 1), k + 1);
    }
  }

  /** Two ordered pieces of an ordered chain, one after the other, are ordered. */
  lemma MergeStretch(chain: seq<RawEvent>, a: nat, through: int, q: nat, before: seq<RawEvent>, next: seq<RawEvent>)
    requires Ordered(chain) && Ordered(before) && Ordered(next)
    requires a <= Upto(chain, through) <= q <= |chain|
    requires multiset(before) == multiset(chain[a..Upto(chain, through)])
    requires multiset(next) == multiset(chain[Upto(chain, through)..q])
    ensures multiset(before + next) == multiset(chain[a..q]) && Ordered(before + next)
  {
    var b := Upto(chain, through);
    UptoSplits(chain, through);
    assert chain[a..q] == chain[a..b] + chain[b..q];
    forall i | 0 <= i < |before| ensures before[i].ledger <= through {
      assert before[i] in multiset(before);
      assert before[i] in chain[a..b];
    }
    forall i | 0 <= i < |next| ensures next[i].ledger > through {
      assert next[i] in multiset(next);
      assert next[i] in chain[b..q];
    }
  }

  lemma MergeMembers(chain: seq<RawEvent>, a: nat, b: nat, q: nat, before: seq<RawEvent>, next: seq<RawEvent>)
    requires a <= b <= q <= |chain| && multiset(next) == multiset(chain[b..q])
    ensures (forall e :: e in before ==> e in chain[a..]) ==> (forall e :: e in before + next ==> e in chain[a..])
    ensures (forall e :: e in chain[a..b] ==> e in before) ==> (forall e :: e in chain[a..q] ==> e in before + next)
  {
    assert chain[a..q] == chain[a..b] + chain[b..q];
    assert chain[a..] == chain[a..q] + chain[q..];
    forall e ensures e in next <==> e in chain[b..q] {
      assert e in multiset(next) <==> e in multiset(chain[b..q]);
    }
  }

  lemma ConcatenateDeliveries(s: Sweep, startLedger: int, before: seq<RawEvent>, next: seq<RawEvent>, through: int,
                              q: nat)
    requires Ordered(s.rpc.chain) && Ordered(next)
    requires Delivered(s, startLedger, before, through, Upto(s.rpc.chain, through))
    requires Upto(s.rpc.chain, through) <= q <= |s.rpc.chain|
    requires multiset(next) == multiset(s.rpc.chain[Upto(s.rpc.chain, through)..q])
    ensures Delivered(s, startLedger, before + next, through, q)
  {
    hide IssuesTokens, StaysInWindow, Upto, Ordered;
    var chain := s.rpc.chain;
    var a, b := Upto(chain, startLedger - 1), Upto(chain, through);
    MergeMembers(chain, a, b, q, before, next);
    if IssuesTokens(s.rpc) && StaysInWindow(s.rpc) {
      MergeStretch(chain, a, through, q, before, next);
    }
    assert chain[a..|chain|] == chain[a..];
  }

  lemma ExtendDelivered(s: Sweep, startLedger: int, delivered: seq<RawEvent>, through: int, to: int, q: nat)
    requires Ordered(s.rpc.chain) && through <= to && Delivered(s, startLedger, delivered, through, q)
    requires IssuesTokens(s.rpc) ==> Upto(s.rpc.chain, to) <= q
    requires IssuesTokens(s.rpc) && StaysInWindow(s.rpc) ==> q == Upto(s.rpc.chain, to)
    ensures Delivered(s, startLedger, delivered, to, Upto(s.rpc.chain, to))
  {
    UptoMonotone(s.rpc.chain, through, to);
    if IssuesTokens(s.rpc) {
      var a, c := Upto(s.rpc.chain, startLedger - 1), Upto(s.rpc.chain, to);
      assert s.rpc.chain[a..q] == s.rpc.chain[a..c] + s.rpc.chain[c..q];
    }
  }

  /** A window is a stretch of the chain, and a drained one ends where the window does. */
  lemma WindowIsStretch(s: Sweep, from: int, to: int, window: DrainResult) returns (q: nat)
    requires CanSweep(s) && from <= to
    requires Drain(s.rpc, s.budget, from, to) == Ok(window)
    ensures Ordered(s.rpc.chain) && Upto(s.rpc.chain, from - 1) <= q <= |s.rpc.chain|
    ensures window.events == s.rpc.chain[Upto(s.rpc.chain, from - 1)..q]
    ensures window.drained && IssuesTokens(s.rpc) ==> Upto(s.rpc.chain, to) <= q
    ensures window.drained && IssuesTokens(s.rpc) && StaysInWindow(s.rpc) ==> q == Upto(s.rpc.chain, to)
  {
    UptoMonotone(s.rpc.chain, from - 1, to);
    q := DrainReadsStretch(s.rpc, s.budget, from, to, Range(from, to), DrainResult([], true, 0));
  }

  /** Delivering one window keeps `Delivered`; a drained window extends it to the window's end. */
  lemma DeliverWindow(s: Sweep, startLedger: int, st: SweepState, window: DrainResult) returns (q: nat)
    requires CanSweep(s) && Progress(s, startLedger, st) && st.sweptThrough < s.endLedger
    requires Drain(s.rpc, s.budget, st.sweptThrough + 1, WindowEnd(s, st.sweptThrough + 1)) == Ok(window)
    ensures Delivered(s, startLedger, Flatten(Deliver(s, st, window).deliveries), st.sweptThrough, q)
    ensures window.drained ==>
              Progress(s, startLedger, Deliver(s, st, window).(sweptThrough := WindowEnd(s, st.sweptThrough + 1)))
  {
    hide Drain, Honest, IssuesTokens, StaysInWindow, Upto, Ordered, OrderEvents;
    var chain, from := s.rpc.chain, st.sweptThrough + 1;
    var to := WindowEnd(s, from);
    q := WindowIsStretch(s, from, to, window);
    var before, ordered := Flatten(st.deliveries), OrderEvents(s.collate, window.events);
    assert Deliver(s, st, window).deliveries[..|st.deliveries|] == st.deliveries;
    assert Flatten(Deliver(s, st, window).deliveries) == before + ordered;
    OrderEventsOrdered(s.collate, window.events);
    hide Flatten;
    ConcatenateDeliveries(s, startLedger, before, ordered, st.sweptThrough, q);
    if window.drained {
      NextBoundary(s, startLedger, st.sweptThrough);
      ExtendDelivered(s, startLedger, before + ordered, from - 1, to, q);
    }
  }

  lemma FinishIsSafe(s: Sweep, startLedger: int, st: SweepState, complete: bool, q: nat)
    requires startLedger - 1 <= st.sweptThrough && IsBoundary(s, startLedger, st.sweptThrough)
    requires st.sweptThrough <= s.endLedger || st.sweptThrough == startLedger - 1
    requires Delivered(s, startLedger, Flatten(st.deliveries), st.sweptThrough, q)
    requires complete <==> st.sweptThrough >= s.endLedger
    requires complete ==> q == Upto(s.rpc.chain, st.sweptThrough)
    ensures SafeResult(s, startLedger, Finish(s, st, complete))
  {
  }

  lemma FailureIsSafe(s: Sweep, startLedger: int, st: SweepState, e: FetchError)
    requires Progress(s, startLedger, st)
    ensures SafeResult(s, startLedger, Outcome(st.deliveries, Err(e)))
  {
  }

  /** For any budget, the sequential sweep ends on a window boundary and has delivered every
      event up to it. */
  lemma {:induction false} SequentialIsSafe(s: Sweep, startLedger: int, st: SweepState)
    requires CanSweep(s) && Progress(s, startLedger, st)
    ensures SafeResult(s, startLedger, SequentialFrom(s, st))
    decreases s.endLedger - st.sweptThrough
  {
    hide Drain, OrderEvents, Flatten, Delivered, FromStart, IsBoundary;
    var from := st.sweptThrough + 1;
    if from > s.endLedger {
      FinishIsSafe(s, startLedger, st, true, Upto(s.rpc.chain, st.sweptThrough));
    } else if !s.budget(from, 0) {
      FinishIsSafe(s, startLedger, st, false, Upto(s.rpc.chain, st.sweptThrough));
    } else {
      var drain := Drain(s.rpc, s.budget, from, WindowEnd(s, from));
      if drain.Ok? {
        var q := DeliverWindow(s, startLedger, st, drain.value);
        var st' := Deliver(s, st, drain.value).(windows := st.windows + 1);
        if drain.value.drained {
          SequentialIsSafe(s, startLedger, st'.(sweptThrough := WindowEnd(s, from)));
        } else {
          FinishIsSafe(s, startLedger, st', false, q);
        }
      } else {
        FailureIsSafe(s, startLedger, st, drain.error);
      }
    }
  }

  /** Consuming a batch keeps the contract, whichever of its windows drained. */
  lemma {:induction false} ConsumeIsSafe(s: Sweep, startLedger: int, count: nat, st: SweepState)
    requires CanSweep(s) && Progress(s, startLedger, st)
    requires DrainAll(s, Batch(s, st.sweptThrough + 1, count)).Ok?
    ensures var batch := Batch(s, st.sweptThrough + 1, count);
            var (st', failed) := Consume(s, batch, DrainAll(s, batch).value, st);
            if failed then st'.sweptThrough < s.endLedger && SafeResult(s, startLedger, Finish(s, st', false))
            else Progress(s, startLedger, st') && st'.sweptThrough + 1 == AfterBatch(st.sweptThrough + 1, batch)
    decreases count
  {
    hide Drain, OrderEvents, Flatten, Delivered;
    var from := st.sweptThrough + 1;
    if count > 0 && from <= s.endLedger {
      var to := WindowEnd(s, from);
      var batch := Batch(s, from, count);
      assert batch[1..] == Batch(s, to + 1, count - 1);
      var window := Drain(s.rpc, s.budget, from, to).value;
      var rest := DrainAll(s, batch[1..]).value;
      assert DrainAll(s, batch).value[1..] == rest;
      var q := DeliverWindow(s, startLedger, st, window);
      var st' := Deliver(s, st, window);
      if window.drained {
        ConsumeIsSafe(s, startLedger, count - 1, st'.(windows := st.windows + 1, sweptThrough := to));
      } else {
        FinishIsSafe(s, startLedger, st', false, q);
      }
    }
  }

  lemma {:induction false} ParallelIsSafe(s: Sweep, startLedger: int, batchSize: nat, st: SweepState)
    requires CanSweep(s) && batchSize > 0 && Progress(s, startLedger, st)
    ensures SafeResult(s, startLedger, ParallelFrom(s, batchSize, st.sweptThrough + 1, st))
    decreases s.endLedger - st.sweptThrough
  {
    hide Drain, OrderEvents, Flatten, Delivered;
    var next := st.sweptThrough + 1;
    if next > s.endLedger || !s.budget(next, 0) {
      FinishIsSafe(s, startLedger, st, next > s.endLedger, Upto(s.rpc.chain, st.sweptThrough));
    } else {
      var batch := Batch(s, next, batchSize);
      BatchAdvances(s, next, batchSize);
      var drains := DrainAll(s, batch);
      if drains.Ok? {
        ConsumeIsSafe(s, startLedger, batchSize, st);
        var (st', failed) := Consume(s, batch, drains.value, st);
        if !failed {
          ParallelIsSafe(s, startLedger, batchSize, st');
        }
      } else {
        FailureIsSafe(s, startLedger, st, drains.error);
      }
    }
  }

  /** Both sweeps of `[startLedger, endLedger]`, under any budget and any honest RPC. */
  lemma SweepsAreSafe(s: Sweep, startLedger: int, batchSize: nat)
    requires CanSweep(s) && batchSize > 0
    ensures SafeResult(s, startLedger, SequentialFrom(s, Start(startLedger)))
    ensures SafeResult(s, startLedger, ParallelFrom(s, batchSize, startLedger, Start(startLedger)))
  {
    hide SafeResult, Progress, SequentialFrom, ParallelFrom;
    StartProgresses(s, startLedger);
    SequentialIsSafe(s, startLedger, Start(startLedger));
    ParallelIsSafe(s, startLedger, batchSize, Start(startLedger));
  }

  /** Tokens are needed: a full page without one is taken for the end of its window, whatever
      the window still holds. */
  lemma TokenlessPageEndsWindow(rpc: Rpc, budget: Budget, from: int, to: int)
    requires Honest(rpc) && rpc.fetch(Range(from, to)).Ok?
    requires LeavesUnread(rpc, Range(from, to)) && NextToken(rpc.fetch(Range(from, to)).value) == ""
    ensures Drain(rpc, budget, from, to).Ok? && Drain(rpc, budget, from, to).value.drained
    ensures |Drain(rpc, budget, from, to).value.events| < Upto(rpc.chain, to) - Upto(rpc.chain, from - 1)
  {
  }
}
