/** Concrete sweeps at the edges of their contract: an RPC that meets every hypothesis, a budget that
    tells the two sweeps apart, and a window that is abandoned. */
module SweepLimits {
  import opened Wrappers
  import opened Chain
  import opened EventPager
  import opened SweepTheorems
  import Money
  import Text

  /* ----- an RPC that meets every contract ----- */

  /** A cursor says where it continues and up to which ledger: two decimal numbers, the second signed. */
  function CursorFor(position: nat, bound: int): (c: string)
    ensures c != []
  {
    Money.Digits(position) + ((if bound < 0 then "-" else "+") + Money.Digits(Money.Abs(bound)))
  }

  function Leading(text: string): nat {
    Money.ParseNat(text[..Money.DigitRun(text)])
  }

  function PositionIn(cursor: string): nat {
    Leading(cursor)
  }

  function BoundIn(cursor: string): int {
    var rest := cursor[Money.DigitRun(cursor)..];
    if rest == [] then 0
    else
      var magnitude: int := Leading(rest[1..]);
      if rest[0] == '-' then -magnitude else magnitude
  }

  lemma LeadingOf(n: nat, rest: string)
    requires rest == [] || !Text.IsDigit(rest[0])
    ensures Money.DigitRun(Money.Digits(n) + rest) == |Money.Digits(n)| && Leading(Money.Digits(n) + rest) == n
  {
    var digits := Money.Digits(n);
    hide Money.Digits, Money.ParseNat;
    Money.RunOfPrinted(digits, rest);
    assert (digits + rest)[..|digits|] == digits;
  }

  lemma CursorRoundTrip(position: nat, bound: int)
    ensures PositionIn(CursorFor(position, bound)) == position && BoundIn(CursorFor(position, bound)) == bound
  {
    var cursor := CursorFor(position, bound);
    var digits := Money.Digits(Money.Abs(bound));
    var rest := (if bound < 0 then "-" else "+") + digits;
    hide Leading, Money.DigitRun, Money.Digits;
    LeadingOf(position, rest);
    LeadingOf(Money.Abs(bound), []);
    assert cursor[|Money.Digits(position)|..] == rest && rest[1..] == digits && digits + [] == digits;
  }

  function Position(chain: seq<RawEvent>, request: Request): nat {
    match request
    case Range(startLedger, _) => Upto(chain, startLedger - 1)
    case After(cursor) => PositionIn(cursor)
  }

  function Bound(request: Request): int {
    match request
    case Range(_, endLedger) => endLedger
    case After(cursor) => BoundIn(cursor)
  }

  function Page(chain: seq<RawEvent>, request: Request): EventPage {
    var at := Position(chain, request);
    if at > |chain| then EventPage([], None)
    else
      var end := PageEnd(chain, at, Bound(request));
      EventPage(chain[at..end], Some(CursorFor(end, Bound(request))))
  }

  /** An RPC over any chain, in as many pages as it takes. */
  function PagedRpc(chain: seq<RawEvent>): Rpc {
    Rpc(chain, request => Ok(Page(chain, request)), PositionIn, BoundIn)
  }

  /** The contracts that the sweep theorems rest on can be met, all of them at once, over every chain. */
  lemma PagedRpcMeetsAll(chain: seq<RawEvent>)
    requires Ordered(chain)
    ensures var rpc := PagedRpc(chain);
            rpc.chain == chain && Honest(rpc) && IssuesTokens(rpc) && StaysInWindow(rpc) && NeverFails(rpc)
  {
    var rpc := PagedRpc(chain);
    hide Upto, Ordered, PositionIn, BoundIn, PageEnd, CursorFor;
    forall request: Request
      ensures rpc.fetch(request) == Ok(Page(chain, request))
      ensures PositionOf(rpc, request) == Position(chain, request) && BoundOf(rpc, request) == Bound(request)
    {
    }
    forall request: Request | Wellformed(rpc, request)
      ensures Serves(rpc, rpc.fetch(request).value, PositionOf(rpc, request), BoundOf(rpc, request))
      ensures NextToken(rpc.fetch(request).value) != ""
      ensures rpc.bound(NextToken(rpc.fetch(request).value)) == BoundOf(rpc, request)
    {
      var at, bound := Position(chain, request), Bound(request);
      CursorRoundTrip(PageEnd(chain, at, bound), bound);
    }
  }

  /** And a chain of more than one page does issue cursors: its first page is full and continues. */
  lemma SeveralPages(chain: seq<RawEvent>, from: int, to: int)
    requires Ordered(chain) && Upto(chain, to) > Upto(chain, from - 1) + EVENTS_PAGE_LIMIT
    ensures var rpc := PagedRpc(chain);
            var next := After(NextToken(rpc.fetch(Range(from, to)).value));
            |rpc.fetch(Range(from, to)).value.events| == EVENTS_PAGE_LIMIT && rpc.fetch(next).value.events != []
  {
    hide Upto, PositionIn, BoundIn, CursorFor, Ordered;
    var at := Upto(chain, from - 1);
    CursorRoundTrip(at + EVENTS_PAGE_LIMIT, to);
  }

  /* ----- a refusal inside a batch ----- */

  /** Ledgers 1 to 20 of an empty chain in windows of 10, with a budget that is refused once, before
      the window that starts at ledger 11. */
  function EmptySweep(): Sweep {
    Sweep(PagedRpc([]), (ledger, pages) => !(ledger == 11 && pages == 0), (_, _) => true, (_, _) => true, 20, 10, true)
  }

  lemma EmptyWindow(from: int, to: int)
    ensures Honest(PagedRpc([]))
    ensures Drain(PagedRpc([]), EmptySweep().budget, from, to) == Ok(DrainResult([], true, 1))
  {
    PagedRpcMeetsAll([]);
    var page := PagedRpc([]).fetch(Range(from, to)).value;
    assert page.events == [];
    assert [] + page.events == page.events;
  }

  /** With two windows to a batch, the sequential sweep stops at ledger 10 and the parallel one completes,
      though no window was abandoned. */
  lemma RefusalInsideABatch()
    ensures CanSweep(EmptySweep())
    ensures RefusedInsideBatch(EmptySweep(), 2, 0, Start(1)) && !StopsMidWindow(EmptySweep(), Start(1))
    ensures var o := SequentialFrom(EmptySweep(), Start(1)).result;
            o.Ok? && o.value.sweptThrough == 10 && !o.value.complete
    ensures var o := ParallelFrom(EmptySweep(), 2, 1, Start(1)).result;
            o.Ok? && o.value.sweptThrough == 20 && o.value.complete
  {
    var s := EmptySweep();
    EmptyWindow(1, 10);
    EmptyWindow(11, 20);
    hide PagedRpc, Drain, Honest, OrderEvents, Flatten;
    var w := DrainResult([], true, 1);
    var st1 := AfterWindow(s, Start(1), w);
    assert st1.sweptThrough == 10 && !s.budget(11, 0);
    assert SequentialFrom(s, st1) == Finish(s, st1, false);
    assert Batch(s, 21, 0) == [] && Batch(s, 11, 1) == [(11, 20)] && Batch(s, 1, 2) == [(1, 10), (11, 20)];
    TwoWindows(s, w);
  }

  lemma TwoWindows(s: Sweep, w: DrainResult)
    requires CanSweep(s) && s.endLedger == 20 && s.windowSize == 10 && w.drained && s.budget(1, 0)
    requires Drain(s.rpc, s.budget, 1, 10) == Ok(w) && Drain(s.rpc, s.budget, 11, 20) == Ok(w)
    requires Batch(s, 1, 2) == [(1, 10), (11, 20)]
    ensures var o := ParallelFrom(s, 2, 1, Start(1)).result; o.Ok? && o.value.sweptThrough == 20 && o.value.complete
  {
    hide Drain, Honest, OrderEvents, Flatten;
    var batch := Batch(s, 1, 2);
    assert batch[1..] == [(11, 20)] && batch[1..][1..] == [];
    assert DrainAll(s, batch[1..][1..]) == Ok([]) && [w] + [] == [w];
    assert DrainAll(s, batch[1..]) == Ok([w]) && DrainAll(s, batch) == Ok([w] + [w]);
    var results := [w] + [w];
    assert results[1..] == [w] && results[1..][1..] == [];
    var st1 := Deliver(s, Start(1), w).(sweptThrough := 10, windows := 1);
    var st2 := Deliver(s, st1, w).(sweptThrough := 20, windows := 2);
    assert Consume(s, batch[1..], results[1..], st1) == (st2, false);
    assert Consume(s, batch, results, Start(1)) == (st2, false);
    assert ParallelFrom(s, 2, 21, st2) == Finish(s, st2, true);
  }

  /* ----- an abandoned window ----- */

  const CURSOR := "next"

  /** One full page at ledger 1, after which the budget is gone. */
  function FullPage(): seq<RawEvent> {
    seq(EVENTS_PAGE_LIMIT, _ => RawEvent("", "", 1, "", ""))
  }

  function FullPageRpc(): Rpc {
    Rpc(FullPage(),
        request => if request == Range(1, 10) then Ok(EventPage(FullPage(), Some(CURSOR))) else Err("unavailable"),
        _ => EVENTS_PAGE_LIMIT, _ => 10)
  }

  function FullPageSweep(): Sweep {
    Sweep(FullPageRpc(), (ledger, pages) => pages == 0, (_, _) => true, (_, _) => true, 10, 10, true)
  }

  /** Both sweeps abandon the window after its first page; only the sequential one counts it. */
  lemma AbandonedWindow(batchSize: nat)
    requires batchSize > 0
    ensures CanSweep(FullPageSweep()) && StopsMidWindow(FullPageSweep(), Start(1))
    ensures var seqv := SequentialFrom(FullPageSweep(), Start(1));
            var par := ParallelFrom(FullPageSweep(), batchSize, 1, Start(1));
            seqv.result.Ok? && par.result.Ok? && seqv.result.value.windows == 1 && par.result.value.windows == 0
  {
    var s := FullPageSweep();
    FullPageDrains();
    hide FullPageRpc, Drain, Honest, OrderEvents, Flatten;
    var w := DrainResult(FullPage(), false, 1);
    var batch := Batch(s, 1, batchSize);
    assert Batch(s, 11, batchSize - 1) == [];
    assert batch == [(1, 10)] && batch[1..] == [];
    assert DrainAll(s, batch[1..]) == Ok([]) && [w] + [] == [w];
    assert DrainAll(s, batch) == Ok([w]);
  }

  lemma FullPageUpto(chain: seq<RawEvent>)
    requires chain == FullPage()
    ensures Ordered(chain) && Upto(chain, 0) == 0 && Upto(chain, 10) == |chain| && PageEnd(chain, 0, 10) == |chain|
  {
    UptoSplits(chain, 10);
    assert chain[|chain| - 1].ledger == 1;
  }

  lemma FullPageIsHonest()
    ensures Honest(FullPageRpc())
  {
    hide FullPage, Upto, PageEnd, Ordered;
    var rpc, chain := FullPageRpc(), FullPage();
    FullPageUpto(chain);
    assert |chain| == EVENTS_PAGE_LIMIT && chain[0..|chain|] == chain by { FullPageLength(); }
    forall request: Request | rpc.fetch(request).Ok? && Wellformed(rpc, request)
      ensures Serves(rpc, rpc.fetch(request).value, PositionOf(rpc, request), BoundOf(rpc, request))
    {
      assert request == Range(1, 10);
    }
  }

  lemma FullPageReads()
    ensures FullPageRpc().fetch(Range(1, 10)) == Ok(EventPage(FullPage(), Some(CURSOR)))
    ensures FullPageRpc().chain == FullPage() && FullPageRpc().position(CURSOR) == EVENTS_PAGE_LIMIT
  {
  }

  lemma FullPageLength()
    ensures |FullPage()| == EVENTS_PAGE_LIMIT
  {
  }

  lemma FullPageDrains()
    ensures Honest(FullPageRpc())
    ensures Drain(FullPageRpc(), FullPageSweep().budget, 1, 10) == Ok(DrainResult(FullPage(), false, 1))
  {
    FullPageIsHonest();
    FullPageUpto(FullPage());
    FullPageLength();
    hide FullPage, Honest, Upto, PageEnd, FullPageRpc;
    FullPageReads();
    assert [] + FullPage() == FullPage();
  }
}
