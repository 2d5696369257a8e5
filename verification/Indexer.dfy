/** One merchant's indexer over whole runs: a chain that grows and may be replaced, noticed or not, sync
    runs that overlap and commit window by window, settlement reports in between, and the cursor. */
module Indexer {
  import opened Wrappers
  import opened Chain
  import opened Store
  import opened InsertPayments
  import opened Sync
  import opened Transfers
  import Settlement
  import EventPager
  import Sets
  import SweepTheorems

  /** A run that has read the cursor: the sweep it makes, and how many of its deliveries are committed. */
  datatype PendingRun = PendingRun(
    resumeFrom: int, startLedger: int, cold: bool, outcome: EventPager.Outcome, committed: nat)

  /** `first` is where the first run started and `gaps` the ranges reported as `skippedLedgers`;
      neither is stored, both are what the runs returned. `stale` are the transactions that re-orgs have
      left wrong in the table; nothing in the program knows them. */
  datatype State = State(
    chain: seq<RawEvent>, head: int, payments: Payments, cursor: Option<int>,
    first: int, gaps: seq<(int, int)>, stale: set<Key>, runs: map<nat, PendingRun>)

  datatype Step =
    | Grow(events: seq<RawEvent>, newHead: int)
    | Begin(id: nat, sweep: EventPager.Sweep)
    | Deliver(id: nat)
    | Finish(id: nat)
    | Abort(id: nat)
    | Report(report: Settlement.Report)
    | Reorg(corrected: seq<RawEvent>, newHead: int)
    | Rewind(corrected: seq<RawEvent>, ledger: int)

  /* ----- steps ----- */

  function BeginRun(st: State, o: EventPager.Outcome): PendingRun {
    PendingRun(ResumeFrom(st.cursor, st.head), StartLedger(st.cursor, st.head), st.cursor.None?, o, 0)
  }

  /** When a step may happen. Runs may overlap in any way, except that a first run (no cursor yet)
      and a rollback have the merchant to themselves, as the session lock of the route ensures. A node
      may come back with any other chain: one whose head is behind the cursor is met by a rollback to
      that head, wherever the chains part; one whose head is not goes unnoticed. */
  ghost predicate Enabled(w: World, st: State, step: Step) {
    match step
    case Grow(events, newHead) =>
      && st.head <= newHead && Ordered(st.chain + events) && OneLedgerPerTx(w, st.chain + events)
      && forall e :: e in events ==> st.head < e.ledger <= newHead
    case Begin(id, s) =>
      && id !in st.runs && s.rpc.chain == st.chain && s.endLedger == st.head
      && EventPager.CanSweep(s) && IssuesTokens(s.rpc)
      && (st.cursor.None? ==> st.runs == map[])
      && StartLedger(st.cursor, st.head) <= st.head
      && forall i :: i in st.runs ==> !st.runs[i].cold
    case Deliver(id) => id in st.runs && st.runs[id].committed < |st.runs[id].outcome.deliveries|
    case Finish(id) =>
      id in st.runs && st.runs[id].committed == |st.runs[id].outcome.deliveries| && st.runs[id].outcome.result.Ok?
    case Abort(id) => id in st.runs
    case Report(_) => true
    case Reorg(corrected, newHead) =>
      st.runs == map[] && IsChain(w, corrected, newHead) && (st.cursor.Some? ==> st.cursor.value <= newHead)
    case Rewind(corrected, ledger) =>
      st.runs == map[] && IsChain(w, corrected, ledger) && st.cursor.Some? && ledger < st.cursor.value
  }

  ghost function Next(w: World, st: State, step: Step): State
    requires Enabled(w, st, step)
  {
    match step
    case Grow(events, newHead) => st.(chain := st.chain + events, head := newHead)
    case Begin(id, s) => st.(runs := st.runs[id := BeginRun(st, RunOutcome(s, StartLedger(st.cursor, st.head)))])
    case Deliver(id) =>
      var run := st.runs[id];
      st.(payments := UpsertAll(st.payments, RowsOf(w.decode, w.merchant, run.outcome.deliveries[run.committed])),
          runs := st.runs[id := run.(committed := run.committed + 1)])
    case Finish(id) =>
      var run := st.runs[id];
      var swept := run.outcome.result.value.sweptThrough;
      st.(cursor := Some(if st.cursor.Some? then Max(st.cursor.value, swept) else swept),
          first := if run.cold then run.startLedger else st.first,
          gaps := if run.cold || run.resumeFrom >= run.startLedger then st.gaps
                  else st.gaps + [(run.resumeFrom, run.startLedger)],
          runs := st.runs - {id})
    case Abort(id) => st.(runs := st.runs - {id})
    case Report(s) =>
      var key := Settlement.ReportKey(w.merchant.id, s);
      st.(payments := st.payments[key := Settlement.ApplyReport(Lookup(st.payments, key), s)])
    case Reorg(corrected, newHead) =>
      st.(chain := corrected, head := newHead,
          stale := StaleKeys(w, st.chain, corrected, st.payments, st.cursor, st.stale))
    case Rewind(corrected, ledger) => Rewound(w, st, corrected, ledger)
  }

  /** The node comes back with another chain and head `ledger`, and the rollback purges above that. */
  ghost function Rewound(w: World, st: State, corrected: seq<RawEvent>, ledger: int): State {
    var purged := PurgeAbove(st.payments, w.merchant.id, ledger);
    st.(chain := corrected, head := ledger, payments := purged, cursor := Some(ledger),
        first := if st.first <= ledger then st.first else ledger + 1, gaps := Clip(st.gaps, ledger),
        stale := StaleKeys(w, st.chain, corrected, purged, Some(ledger), st.stale))
  }

  /** What is left of the reported gaps once everything above `ledger` is to be read again. */
  function Clip(gaps: seq<(int, int)>, ledger: int): seq<(int, int)> {
    seq(|gaps|, i requires 0 <= i < |gaps| => (gaps[i].0, if gaps[i].1 <= ledger then gaps[i].1 else ledger + 1))
  }

  /* ----- invariant ----- */

  predicate InGaps(gaps: seq<(int, int)>, ledger: int) {
    exists i :: 0 <= i < |gaps| && gaps[i].0 <= ledger < gaps[i].1
  }

  /** Every transfer between two ledgers, outside the reported gaps and but for the stale keys, is indexed. */
  ghost predicate Covers(w: World, chain: seq<RawEvent>, p: Payments, first: int, last: int, gaps: seq<(int, int)>,
                         stale: set<Key>) {
    forall e, r ::
      e in chain && HasRow(w, e, r) && first <= e.ledger <= last && !InGaps(gaps, e.ledger) && KeyOf(r) !in stale ==>
        Indexed(p, KeyOf(r))
  }

  ghost predicate DeliversFrom(chain: seq<RawEvent>, run: PendingRun) {
    && (forall k, e :: 0 <= k < |run.outcome.deliveries| && e in run.outcome.deliveries[k] ==> e in chain)
    && (run.outcome.result.Ok? ==>
          forall e :: e in chain && run.startLedger <= e.ledger <= run.outcome.result.value.sweptThrough ==>
            exists k :: 0 <= k < |run.outcome.deliveries| && e in run.outcome.deliveries[k])
  }

  ghost predicate RunInv(w: World, st: State, run: PendingRun) {
    && run.committed <= |run.outcome.deliveries|
    && DeliversFrom(st.chain, run)
    && (run.outcome.result.Ok? ==> run.outcome.result.value.sweptThrough <= st.head)
    && (forall k, e, r :: 0 <= k < run.committed && e in run.outcome.deliveries[k] && HasRow(w, e, r) ==>
        Indexed(st.payments, KeyOf(r)))
    && (run.cold <==> st.cursor.None?)
    && (!run.cold ==> run.resumeFrom <= st.cursor.value + 1)
  }

  ghost predicate Inv(w: World, st: State) {
    && IsChain(w, st.chain, st.head)
    && Sound(w, st.chain, st.payments, st.stale)
    && (st.cursor.Some? ==> st.cursor.value <= st.head)
    && (st.cursor.Some? ==> Covers(w, st.chain, st.payments, st.first, st.cursor.value, st.gaps, st.stale))
    && (forall id :: id in st.runs ==> RunInv(w, st, st.runs[id]))
    && (st.cursor.None? ==> |st.runs| <= 1)
  }

  /* ----- a sweep's outcome, as the machine uses it ----- */

  lemma {:induction false} FlattenMembers(lists: seq<seq<RawEvent>>, e: RawEvent)
    ensures e in EventPager.Flatten(lists) <==> exists k :: 0 <= k < |lists| && e in lists[k]
  {
    if lists != [] {
      var front := lists[..|lists| - 1];
      FlattenMembers(front, e);
      if k :| 0 <= k < |lists| && e in lists[k] {
        if k < |front| { assert e in front[k]; }
      }
    }
  }

  lemma OutcomeDelivers(s: EventPager.Sweep, startLedger: int, run: PendingRun)
    requires EventPager.CanSweep(s) && IssuesTokens(s.rpc) && startLedger <= s.endLedger
    requires run.startLedger == startLedger && SweepTheorems.SafeResult(s, startLedger, run.outcome)
    ensures DeliversFrom(s.rpc.chain, run)
    ensures run.outcome.result.Ok? ==> run.outcome.result.value.sweptThrough <= s.endLedger
  {
    var chain, o := s.rpc.chain, run.outcome;
    assert Ordered(chain);
    hide Honest, Ordered, SweepTheorems.IsBoundary;
    forall k, e | 0 <= k < |o.deliveries| && e in o.deliveries[k] ensures e in chain {
      FlattenMembers(o.deliveries, e);
      assert e in SweepTheorems.FromStart(s, startLedger, |chain|);
    }
    if o.result.Ok? {
      var swept := o.result.value.sweptThrough;
      forall e | e in chain && startLedger <= e.ledger <= swept
        ensures exists k :: 0 <= k < |o.deliveries| && e in o.deliveries[k]
      {
        StretchMember(s, startLedger, o, e);
        FlattenMembers(o.deliveries, e);
      }
    }
  }

  lemma StretchMember(s: EventPager.Sweep, startLedger: int, o: EventPager.Outcome, e: RawEvent)
    requires Ordered(s.rpc.chain) && IssuesTokens(s.rpc) && SweepTheorems.SafeResult(s, startLedger, o) && o.result.Ok?
    requires e in s.rpc.chain && startLedger <= e.ledger <= o.result.value.sweptThrough
    ensures e in EventPager.Flatten(o.deliveries)
  {
    hide Ordered, StaysInWindow, EventPager.Flatten, SweepTheorems.IsBoundary;
    var chain, swept, all := s.rpc.chain, o.result.value.sweptThrough, EventPager.Flatten(o.deliveries);
    var q: nat :| SweepTheorems.Delivered(s, startLedger, all, swept, q);
    DeliveredHas(s, startLedger, all, swept, q, e);
  }

  lemma DeliveredHas(s: EventPager.Sweep, startLedger: int, delivered: seq<RawEvent>, through: int, q: nat, e: RawEvent)
    requires Ordered(s.rpc.chain) && IssuesTokens(s.rpc) &&
             SweepTheorems.Delivered(s, startLedger, delivered, through, q)
    requires e in s.rpc.chain && startLedger <= e.ledger <= through
    ensures e in delivered
  {
    hide StaysInWindow, IssuesTokens;
    var chain := s.rpc.chain;
    var i :| 0 <= i < |chain| && chain[i] == e;
    UptoSplits(chain, startLedger - 1);
    UptoSplits(chain, through);
    hide Upto, Ordered, SweepTheorems.FromStart;
    FromStartMember(s, startLedger, q, i);
  }

  lemma FromStartMember(s: EventPager.Sweep, startLedger: int, q: nat, i: nat)
    requires Upto(s.rpc.chain, startLedger - 1) <= i < q <= |s.rpc.chain|
    ensures s.rpc.chain[i] in SweepTheorems.FromStart(s, startLedger, q)
  {
  }

  /* ----- every step keeps the invariant ----- */

  lemma GrowKeeps(w: World, st: State, step: Step)
    requires Inv(w, st) && step.Grow? && Enabled(w, st, step)
    ensures Inv(w, Next(w, st, step))
  {
    var st' := Next(w, st, step);
    hide Ordered;
    GrownSound(w, st.chain, st'.chain, st.payments, st.stale);
    hide Sound;
    forall id | id in st'.runs ensures RunInv(w, st', st'.runs[id]) {
      assert RunInv(w, st, st.runs[id]);
    }
  }

  lemma GrownSound(w: World, chain: seq<RawEvent>, longer: seq<RawEvent>, p: Payments, stale: set<Key>)
    requires Sound(w, chain, p, stale) && forall e :: e in chain ==> e in longer
    ensures Sound(w, longer, p, stale)
  {
  }

  lemma BeginKeeps(w: World, st: State, step: Step)
    requires Inv(w, st) && step.Begin? && Enabled(w, st, step)
    ensures Inv(w, Next(w, st, step))
  {
    var st' := Next(w, st, step);
    var s, start := step.sweep, StartLedger(st.cursor, st.head);
    SweepTheorems.SweepsAreSafe(s, start, EventPager.PARALLEL_CONCURRENCY);
    hide EventPager.SequentialFrom, EventPager.ParallelFrom, SweepTheorems.SafeResult, Honest, IssuesTokens, Ordered,
         OneLedgerPerTx, Sound, Covers;
    var run := BeginRun(st, RunOutcome(s, start));
    OutcomeDelivers(s, start, run);
    hide DeliversFrom;
    forall id | id in st'.runs ensures RunInv(w, st', st'.runs[id]) {
      if id != step.id {
        assert RunInv(w, st, st.runs[id]);
      }
    }
  }

  lemma DeliverKeeps(w: World, st: State, step: Step)
    requires Inv(w, st) && step.Deliver? && Enabled(w, st, step)
    ensures Inv(w, Next(w, st, step))
  {
    var st' := Next(w, st, step);
    var run := st.runs[step.id];
    assert RunInv(w, st, run);
    InsertSound(w, st.chain, st.payments, st.stale, run.outcome.deliveries[run.committed]);
    hide UpsertAll, RowsOf, Ordered, OneLedgerPerTx, Sound;
    forall id | id in st'.runs ensures RunInv(w, st', st'.runs[id]) {
      assert RunInv(w, st, st.runs[id]);
    }
  }

  lemma FinishKeeps(w: World, st: State, step: Step)
    requires Inv(w, st) && step.Finish? && Enabled(w, st, step)
    ensures Inv(w, Next(w, st, step))
  {
    var st' := Next(w, st, step);
    var run := st.runs[step.id];
    hide Ordered, OneLedgerPerTx, Sound;
    assert RunInv(w, st, run);
    var swept := run.outcome.result.value.sweptThrough;
    forall e, r | e in st'.chain && HasRow(w, e, r) && st'.first <= e.ledger <= st'.cursor.value &&
           !InGaps(st'.gaps, e.ledger) && KeyOf(r) !in st'.stale
      ensures Indexed(st'.payments, KeyOf(r))
    {
      if !run.cold {
        GapsGrow(st.gaps, st'.gaps, run, e.ledger);
      }
      if run.startLedger <= e.ledger <= swept {
        var k :| 0 <= k < |run.outcome.deliveries| && e in run.outcome.deliveries[k];
      }
    }
    forall id | id in st'.runs ensures RunInv(w, st', st'.runs[id]) {
      assert RunInv(w, st, st.runs[id]);
      if st.cursor.None? && id != step.id { OnlyRun(st.runs, step.id, id); }
    }
  }

  lemma GapsGrow(gaps: seq<(int, int)>, gaps': seq<(int, int)>, run: PendingRun, ledger: int)
    requires gaps' == if run.resumeFrom >= run.startLedger then gaps else gaps + [(run.resumeFrom, run.startLedger)]
    requires !InGaps(gaps', ledger)
    ensures !InGaps(gaps, ledger) && !(run.resumeFrom <= ledger < run.startLedger)
  {
    if run.resumeFrom < run.startLedger {
      assert gaps'[|gaps|] == (run.resumeFrom, run.startLedger);
      assert forall i :: 0 <= i < |gaps| ==> gaps'[i] == gaps[i];
    }
  }

  lemma OnlyRun(runs: map<nat, PendingRun>, a: nat, b: nat)
    requires |runs| <= 1 && a in runs && b in runs
    ensures a == b
  {
    var rest := runs.Keys - {a};
    assert runs.Keys == rest + {a} && |runs.Keys| == |runs|;
  }

  lemma AbortKeeps(w: World, st: State, step: Step)
    requires Inv(w, st) && step.Abort? && Enabled(w, st, step)
    ensures Inv(w, Next(w, st, step))
  {
    var st' := Next(w, st, step);
    hide Ordered, OneLedgerPerTx, Sound, Covers;
    forall id | id in st'.runs ensures RunInv(w, st', st'.runs[id]) {
      assert RunInv(w, st, st.runs[id]);
    }
    Sets.SubsetSize(st'.runs.Keys, st.runs.Keys);
    assert |st.runs| == |st.runs.Keys| && |st'.runs| == |st'.runs.Keys|;
  }

  lemma ReportKeeps(w: World, st: State, step: Step)
    requires Inv(w, st) && step.Report? && Enabled(w, st, step)
    ensures Inv(w, Next(w, st, step))
  {
    var st' := Next(w, st, step);
    ReportSound(w, st.chain, st.payments, st.stale, Settlement.ReportKey(w.merchant.id, step.report), step.report);
    hide Ordered, OneLedgerPerTx, Sound, Settlement.ApplyReport, Indexed;
    forall id | id in st'.runs ensures RunInv(w, st', st'.runs[id]) {
      assert RunInv(w, st, st.runs[id]);
    }
  }

  /** A transfer of the new chain in scope that is not stale was one of the old chain, and indexed. */
  lemma CoveredBefore(w: World, st: State, corrected: seq<RawEvent>, q: Payments, upto: Option<int>, e: RawEvent,
                      r: PaymentRow)
    returns (s: PaymentRow)
    requires Inv(w, st) && st.cursor.Some? && e in corrected && HasRow(w, e, r) && Within(e.ledger, upto)
    requires st.first <= e.ledger <= st.cursor.value && !InGaps(st.gaps, e.ledger)
    requires KeyOf(r) !in StaleKeys(w, st.chain, corrected, q, upto, st.stale)
    ensures KeyOf(s) == KeyOf(r) && s.ledger == r.ledger == e.ledger && Shows(st.payments, s)
  {
    hide StaleKeys, RunInv, Ordered, OneLedgerPerTx;
    RowMerchant(w, e, r);
    StaleKeysAre(w, st.chain, corrected, q, upto, st.stale, KeyOf(r));
    assert OnChain(w, corrected, r);
    assert OnChain(w, st.chain, r);
    var f :| f in st.chain && HasRow(w, f, r);
    RowMerchant(w, f, r);
    assert Indexed(st.payments, KeyOf(r));
    assert SoundAt(w, st.chain, st.payments, KeyOf(r));
    hide Sound, Covers, SoundAt;
    s := IndexedLedger(w, st.chain, st.payments, r);
  }

  /** A state between runs is good if its chain and its table are. */
  lemma IdleIsGood(w: World, st: State)
    requires IsChain(w, st.chain, st.head) && Sound(w, st.chain, st.payments, st.stale) && st.runs == map[]
    requires st.cursor.Some? ==> st.cursor.value <= st.head
    requires st.cursor.Some? ==> Covers(w, st.chain, st.payments, st.first, st.cursor.value, st.gaps, st.stale)
    ensures Inv(w, st)
  {
    hide IsChain, Sound, Covers, RunInv;
  }

  lemma ReorgKeeps(w: World, st: State, step: Step)
    requires Inv(w, st) && step.Reorg? && Enabled(w, st, step)
    ensures Inv(w, Next(w, st, step))
  {
    hide IsChain, StaleKeys, Covers, RunInv, Sound;
    var st' := Next(w, st, step);
    SoundAfter(w, st.chain, step.corrected, st.payments, st.payments, st.cursor, st.stale);
    ReorgCovers(w, st, step.corrected);
    hide Next, Enabled, Inv;
    IdleIsGood(w, st');
  }

  lemma ReorgCovers(w: World, st: State, corrected: seq<RawEvent>)
    requires Inv(w, st)
    ensures st.cursor.Some? ==>
              Covers(w, corrected, st.payments, st.first, st.cursor.value, st.gaps,
                     StaleKeys(w, st.chain, corrected, st.payments, st.cursor, st.stale))
  {
    var stale := StaleKeys(w, st.chain, corrected, st.payments, st.cursor, st.stale);
    hide Inv, StaleKeys, InGaps, HasRow;
    if st.cursor.Some? {
      forall e, r | e in corrected && HasRow(w, e, r) && st.first <= e.ledger <= st.cursor.value &&
                    !InGaps(st.gaps, e.ledger) && KeyOf(r) !in stale
        ensures Indexed(st.payments, KeyOf(r))
      {
        var s := CoveredBefore(w, st, corrected, st.payments, st.cursor, e, r);
      }
    }
  }

  lemma RewindKeeps(w: World, st: State, step: Step)
    requires Inv(w, st) && step.Rewind? && Enabled(w, st, step)
    ensures Inv(w, Next(w, st, step))
  {
    hide IsChain, StaleKeys, Covers, RunInv, Sound, Clip, PurgeAbove;
    var purged := PurgeAbove(st.payments, w.merchant.id, step.ledger);
    var st' := Rewound(w, st, step.corrected, step.ledger);
    assert Next(w, st, step) == st';
    PurgedRowsStay(st.payments, w.merchant.id, step.ledger);
    SoundAfter(w, st.chain, step.corrected, st.payments, purged, Some(step.ledger), st.stale);
    RewindCovers(w, st, step.corrected, step.ledger);
    hide Next, Enabled, Inv;
    IdleIsGood(w, st');
  }

  lemma PurgedRowsStay(p: Payments, merchantId: int, ledger: int)
    ensures var q := PurgeAbove(p, merchantId, ledger);
            forall key :: Indexed(q, key) ==> Indexed(p, key) && q[key] == p[key]
  {
  }

  lemma RewindCovers(w: World, st: State, corrected: seq<RawEvent>, ledger: int)
    requires Inv(w, st) && st.cursor.Some? && ledger < st.cursor.value
    ensures var st' := Rewound(w, st, corrected, ledger);
            Covers(w, corrected, st'.payments, st'.first, ledger, st'.gaps, st'.stale)
  {
    var st', purged := Rewound(w, st, corrected, ledger), PurgeAbove(st.payments, w.merchant.id, ledger);
    ClipsAbove(st.gaps, ledger);
    hide Inv, StaleKeys, Clip, InGaps, HasRow;
    forall e, r | e in corrected && HasRow(w, e, r) && st'.first <= e.ledger <= ledger &&
                  !InGaps(st'.gaps, e.ledger) && KeyOf(r) !in st'.stale
      ensures Indexed(purged, KeyOf(r))
    {
      RowMerchant(w, e, r);
      var s := CoveredBefore(w, st, corrected, purged, Some(ledger), e, r);
      assert st.payments[KeyOf(r)].ledger == Some(r.ledger);
    }
  }

  lemma ClipsAbove(gaps: seq<(int, int)>, ledger: int)
    ensures forall l :: InGaps(Clip(gaps, ledger), l) <==> InGaps(gaps, l) && l <= ledger
  {
    var clipped := Clip(gaps, ledger);
    forall l ensures InGaps(clipped, l) <==> InGaps(gaps, l) && l <= ledger {
      if i :| 0 <= i < |gaps| && gaps[i].0 <= l < gaps[i].1 && l <= ledger { assert clipped[i].0 <= l < clipped[i].1; }
      if i :| 0 <= i < |clipped| && clipped[i].0 <= l < clipped[i].1 { assert gaps[i].0 <= l < gaps[i].1; }
    }
  }

  lemma StepKeeps(w: World, st: State, step: Step)
    requires Inv(w, st) && Enabled(w, st, step)
    ensures Inv(w, Next(w, st, step))
  {
    hide Inv, Enabled, Next;
    match step {
      case Grow(_, _) => GrowKeeps(w, st, step);
      case Begin(_, _) => BeginKeeps(w, st, step);
      case Deliver(_) => DeliverKeeps(w, st, step);
      case Finish(_) => FinishKeeps(w, st, step);
      case Abort(_) => AbortKeeps(w, st, step);
      case Report(_) => ReportKeeps(w, st, step);
      case Reorg(_, _) => ReorgKeeps(w, st, step);
      case Rewind(_, _) => RewindKeeps(w, st, step);
    }
  }

  /* ----- whole runs ----- */

  /** Nothing synced yet: no cursor, no run in flight, and no row indexed (rows staged by reports may exist). */
  ghost predicate Fresh(w: World, st: State) {
    && st.cursor.None? && st.runs == map[] && st.stale == {} && IsChain(w, st.chain, st.head)
    && forall key: Key :: key.merchantId == w.merchant.id ==> !Indexed(st.payments, key)
  }

  ghost predicate Reaches(w: World, st: State, steps: seq<Step>, end: State)
    decreases |steps|
  {
    if steps == [] then end == st
    else Enabled(w, st, steps[0]) && Reaches(w, Next(w, st, steps[0]), steps[1..], end)
  }

  lemma {:induction false} RunKeeps(w: World, st: State, steps: seq<Step>, end: State)
    requires Inv(w, st) && Reaches(w, st, steps, end)
    ensures Inv(w, end)
    decreases |steps|
  {
    hide Inv, Enabled, Next;
    if steps != [] {
      StepKeeps(w, st, steps[0]);
      RunKeeps(w, Next(w, st, steps[0]), steps[1..], end);
    }
  }

  /** From the first start ledger up to the stored cursor, and not reported as skipped. */
  predicate InScope(st: State, ledger: int) {
    st.cursor.Some? && st.first <= ledger <= st.cursor.value && !InGaps(st.gaps, ledger)
  }

  /** A transfer to the merchant in a ledger that the indexer answers for, of a transaction that no re-org
      has left stale. */
  ghost predicate Due(w: World, st: State, r: PaymentRow) {
    KeyOf(r) !in st.stale && exists e :: e in st.chain && HasRow(w, e, r) && InScope(st, e.ledger)
  }

  ghost predicate AllShown(w: World, st: State) {
    forall r :: Due(w, st, r) ==> Shows(st.payments, r)
  }

  /** No transaction in scope makes two different transfers to the merchant. */
  ghost predicate NoneShares(w: World, st: State) {
    forall r, s :: Due(w, st, r) && Due(w, st, s) && KeyOf(r) == KeyOf(s) ==> r == s
  }

  /** Safety of the indexer over every run: growth, re-orgs, overlapping and aborted runs, reports and
      rollbacks in any order. But for the transactions that re-orgs have left stale: every transfer from
      the first start ledger up to the stored cursor has its key indexed, unless a run reported its
      ledger as skipped; every indexed row shows a transfer of the chain as it now is; and every
      transfer in scope is itself shown exactly when no two different ones share a key. */
  lemma IndexerSafety(w: World, st: State, steps: seq<Step>, end: State)
    requires Fresh(w, st) && Reaches(w, st, steps, end)
    ensures forall r :: Due(w, end, r) ==> Indexed(end.payments, KeyOf(r))
    ensures Sound(w, end.chain, end.payments, end.stale)
    ensures AllShown(w, end) <==> NoneShares(w, end)
  {
    hide Next, Enabled, IsChain;
    RunKeeps(w, st, steps, end);
    InvIsSafe(w, end);
  }

  lemma InvIsSafe(w: World, st: State)
    requires Inv(w, st)
    ensures forall r :: Due(w, st, r) ==> Indexed(st.payments, KeyOf(r))
    ensures AllShown(w, st) <==> NoneShares(w, st)
  {
  }

  /** The key of a transfer in scope is indexed, and shows a transfer in scope of the same transaction. */
  lemma DueIsIndexed(w: World, st: State, r: PaymentRow) returns (s: PaymentRow)
    requires Inv(w, st) && Due(w, st, r)
    ensures Indexed(st.payments, KeyOf(r)) && KeyOf(s) == KeyOf(r) && Due(w, st, s) && Shows(st.payments, s)
  {
    hide Ordered, OneLedgerPerTx, RunInv, Shows, RowOf;
    var e :| e in st.chain && HasRow(w, e, r) && InScope(st, e.ledger);
    RowMerchant(w, e, r);
    assert Indexed(st.payments, KeyOf(r));
    assert OnChain(w, st.chain, r) && SoundAt(w, st.chain, st.payments, KeyOf(r));
    hide Covers, InScope, Sound, SoundAt;
    s := IndexedLedger(w, st.chain, st.payments, r);
    SameLedgerDue(w, st, r, s);
  }

  lemma SameLedgerDue(w: World, st: State, r: PaymentRow, s: PaymentRow)
    requires Due(w, st, r) && OnChain(w, st.chain, s) && r.ledger == s.ledger && KeyOf(r) == KeyOf(s)
    ensures Due(w, st, s)
  {
  }

  /* ----- what becomes stale, and what does not ----- */

  /** The re-org keeps what the table was built from: up to the head that a rollback meets the chains make
      the same transfers, and one that goes unnoticed takes none away and adds none up to the cursor. */
  ghost predicate Faithful(w: World, st: State, step: Step) {
    match step
    case Rewind(corrected, ledger) => SamePast(w, st.chain, corrected, ledger)
    case Reorg(corrected, _) =>
      && (forall r :: OnChain(w, st.chain, r) ==> OnChain(w, corrected, r))
      && (forall r :: OnChain(w, corrected, r) && Within(r.ledger, st.cursor) ==> OnChain(w, st.chain, r))
    case _ => true
  }

  ghost predicate SamePast(w: World, before: seq<RawEvent>, after: seq<RawEvent>, ledger: int) {
    forall r: PaymentRow :: r.ledger <= ledger ==> (OnChain(w, before, r) <==> OnChain(w, after, r))
  }

  lemma FaithfulRewindKey(w: World, before: seq<RawEvent>, after: seq<RawEvent>, p: Payments, ledger: int, key: Key)
    requires OneLedgerPerTx(w, before) && SoundAt(w, before, p, key) && SamePast(w, before, after, ledger)
    requires Moved(w, before, after, Some(ledger), key)
    ensures !Matters(w, PurgeAbove(p, w.merchant.id, ledger), after, Some(ledger), key)
  {
  }

  lemma FaithfulKeepsClean(w: World, st: State, step: Step)
    requires Inv(w, st) && Enabled(w, st, step) && Faithful(w, st, step)
    ensures Next(w, st, step).stale <= st.stale
  {
    hide StaleKeys, PurgeAbove, OnChain, Matters, Ordered, OneLedgerPerTx, SoundAt, BackedAt, Covers, RunInv;
    match step {
      case Rewind(corrected, ledger) =>
        var purged := PurgeAbove(st.payments, w.merchant.id, ledger);
        forall key | key in Next(w, st, step).stale ensures key in st.stale {
          StaleKeysAre(w, st.chain, corrected, purged, Some(ledger), st.stale, key);
          if key !in st.stale {
            MovedMerchant(w, st.chain, corrected, Some(ledger), key);
            FaithfulRewindKey(w, st.chain, corrected, st.payments, ledger, key);
          }
        }
      case Reorg(corrected, _) =>
        forall key | key in Next(w, st, step).stale ensures key in st.stale {
          StaleKeysAre(w, st.chain, corrected, st.payments, st.cursor, st.stale, key);
        }
      case _ =>
    }
  }

  /** Every re-org on the way is faithful. */
  ghost predicate FaithfulRun(w: World, st: State, steps: seq<Step>)
    decreases |steps|
  {
    steps == [] ||
    (Faithful(w, st, steps[0]) && (Enabled(w, st, steps[0]) ==> FaithfulRun(w, Next(w, st, steps[0]), steps[1..])))
  }

  /** Nothing is stale after a run whose re-orgs part from the old chain above the head that is reported;
      `IndexerSafety` then has no exception but the reported gaps. */
  lemma {:induction false} FaithfulRunsAreClean(w: World, st: State, steps: seq<Step>, end: State)
    requires Inv(w, st) && Reaches(w, st, steps, end) && FaithfulRun(w, st, steps)
    ensures end.stale <= st.stale
    decreases |steps|
  {
    hide Inv, Enabled, Next, Faithful;
    if steps != [] {
      StepKeeps(w, st, steps[0]);
      FaithfulKeepsClean(w, st, steps[0]);
      FaithfulRunsAreClean(w, Next(w, st, steps[0]), steps[1..], end);
    }
  }

  /** The table is wrong at the key: it shows a transfer that the chain does not make, or does not show one
      that it makes up to the cursor. */
  ghost predicate WrongAt(w: World, st: State, key: Key) {
    || (exists r :: KeyOf(r) == key && Shows(st.payments, r) && !OnChain(w, st.chain, r))
    || (exists r :: KeyOf(r) == key && OnChain(w, st.chain, r) && Within(r.ledger, st.cursor) && !Shows(st.payments, r))
  }

  /** And what a re-org makes stale is wrong: at every transaction that was not stale and made one transfer
      on the old chain, the exception that `IndexerSafety` makes is a real one. */
  lemma StaleIsWrong(w: World, st: State, step: Step, key: Key)
    requires Inv(w, st) && Enabled(w, st, step) && (step.Reorg? || step.Rewind?) && key !in st.stale
    requires Lone(w, st.chain, key) && key in Next(w, st, step).stale
    ensures WrongAt(w, Next(w, st, step), key)
  {
    var upto := if step.Reorg? then st.cursor else Some(step.ledger);
    var q := Next(w, st, step).payments;
    AfterReorg(w, st, step);
    hide StaleKeys, IsChain, Next, Enabled, Covers, RunInv;
    StaleKeysAre(w, st.chain, step.corrected, q, upto, st.stale, key);
    MovedMerchant(w, st.chain, step.corrected, upto, key);
    assert SoundAt(w, st.chain, st.payments, key);
    MovedIsWrong(w, st.chain, step.corrected, st.payments, q, upto, key);
  }

  /** What a re-org or a rollback leaves: the other chain, rows of the table as they were, and the stale keys. */
  lemma AfterReorg(w: World, st: State, step: Step)
    requires Enabled(w, st, step) && (step.Reorg? || step.Rewind?)
    ensures var upto, end := if step.Reorg? then st.cursor else Some(step.ledger), Next(w, st, step);
            && end.cursor == upto && end.chain == step.corrected
            && (forall k :: Indexed(end.payments, k) ==> Indexed(st.payments, k) && end.payments[k] == st.payments[k])
            && end.stale == StaleKeys(w, st.chain, step.corrected, end.payments, upto, st.stale)
  {
    hide StaleKeys, IsChain;
  }

  lemma MovedIsWrong(w: World, before: seq<RawEvent>, after: seq<RawEvent>, p: Payments, q: Payments, upto: Option<int>,
                     key: Key)
    requires Lone(w, before, key) && (key.merchantId == w.merchant.id ==> SoundAt(w, before, p, key))
    requires forall k :: Indexed(q, k) ==> Indexed(p, k) && q[k] == p[k]
    requires Moved(w, before, after, upto, key) && Matters(w, q, after, upto, key)
    ensures (exists r :: KeyOf(r) == key && Shows(q, r) && !OnChain(w, after, r)) ||
            (exists r :: KeyOf(r) == key && OnChain(w, after, r) && Within(r.ledger, upto) && !Shows(q, r))
  {
  }

  lemma MovedMerchant(w: World, before: seq<RawEvent>, after: seq<RawEvent>, upto: Option<int>, key: Key)
    requires Moved(w, before, after, upto, key)
    ensures key.merchantId == w.merchant.id
  {
  }
}
