/** The ledger as the RPC shows it: a finite list of events in ledger order, and the
    contract under which `getEvents` pages through it. */
module Chain {
  import opened Wrappers

  /** Events requested per `getEvents` call. */
  const EVENTS_PAGE_LIMIT := 200

  /** `id` is "" and `ledger` is 0 where the RPC leaves them out; the source reads both that way.
      `body` stands for the XDR topics and value. */
  datatype RawEvent = RawEvent(id: string, txHash: string, ledger: int, ledgerClosedAt: string, body: string)

  datatype Request = Range(startLedger: int, endLedger: int) | After(cursor: string)

  datatype EventPage = EventPage(events: seq<RawEvent>, cursor: Option<string>)

  /** An RPC over one chain. `position` and `bound` say what a cursor means to it: where it
      continues, and the last ledger it will still serve. */
  datatype Rpc = Rpc(
    chain: seq<RawEvent>,
    fetch: Request -> Result<EventPage, string>,
    position: string -> nat,
    bound: string -> int)

  predicate Ordered(chain: seq<RawEvent>) {
    forall i, j :: 0 <= i <= j < |chain| ==> chain[i].ledger <= chain[j].ledger
  }

  /** Number of leading events with ledger at most `ledger`. */
  function Upto(chain: seq<RawEvent>, ledger: int): (n: nat)
    ensures n <= |chain|
  {
    if chain == [] || chain[0].ledger > ledger then 0 else 1 + Upto(chain[1..], ledger)
  }

  lemma {:induction false} UptoSplits(chain: seq<RawEvent>, ledger: int)
    requires Ordered(chain)
    ensures forall i :: 0 <= i < |chain| ==> (i < Upto(chain, ledger) <==> chain[i].ledger <= ledger)
  {
    if chain != [] && chain[0].ledger <= ledger {
      UptoSplits(chain[1..], ledger);
      forall i | 0 <= i < |chain| ensures i < Upto(chain, ledger) <==> chain[i].ledger <= ledger {
        if i > 0 { assert chain[i] == chain[1..][i - 1]; }
      }
    }
  }

  lemma {:induction false} UptoMonotone(chain: seq<RawEvent>, a: int, b: int)
    requires a <= b
    ensures Upto(chain, a) <= Upto(chain, b)
  {
    if chain != [] && chain[0].ledger <= a {
      UptoMonotone(chain[1..], a, b);
    }
  }

  /** The token `drainEvents` continues with: the page's cursor, else the id of its last event. */
  function NextToken(page: EventPage): string {
    match page.cursor
    case Some(c) => c
    case None => if page.events == [] then "" else page.events[|page.events| - 1].id
  }

  /** The end of the page that starts at `at` and serves ledgers up to `stop`. */
  function PageEnd(chain: seq<RawEvent>, at: nat, stop: int): (e: nat)
    requires at <= |chain|
    ensures at <= e <= |chain| && e <= at + EVENTS_PAGE_LIMIT
  {
    var n := Upto(chain, stop);
    if n <= at then at else if n <= at + EVENTS_PAGE_LIMIT then n else at + EVENTS_PAGE_LIMIT
  }

  /** A page holds the next events of its range, at most 200 of them, and all of them if fewer. */
  lemma PageEndIs(chain: seq<RawEvent>, at: nat, stop: int)
    requires Ordered(chain) && at <= |chain|
    ensures var end := PageEnd(chain, at, stop);
            && end <= at + 200 && (forall i :: at <= i < end ==> chain[i].ledger <= stop)
            && (end < at + 200 ==> forall i :: end <= i < |chain| ==> chain[i].ledger > stop)
  {
    UptoSplits(chain, stop);
  }

  /** A page is continued by its cursor, and without one by the id of its last event. */
  lemma TokenFollowsPage(events: seq<RawEvent>, last: RawEvent, cursor: string)
    ensures NextToken(EventPage(events, Some(cursor))) == cursor
    ensures NextToken(EventPage(events + [last], None)) == last.id
    ensures NextToken(EventPage([], None)) == ""
  {
  }

  ghost predicate Serves(rpc: Rpc, page: EventPage, at: nat, stop: int) {
    && at <= |rpc.chain|
    && page.events == rpc.chain[at..PageEnd(rpc.chain, at, stop)]
    && (|page.events| == EVENTS_PAGE_LIMIT && NextToken(page) != "" ==>
          rpc.position(NextToken(page)) == at + EVENTS_PAGE_LIMIT && rpc.bound(NextToken(page)) >= stop)
  }

  function PositionOf(rpc: Rpc, request: Request): nat {
    match request
    case Range(startLedger, _) => Upto(rpc.chain, startLedger - 1)
    case After(cursor) => rpc.position(cursor)
  }

  function BoundOf(rpc: Rpc, request: Request): int {
    match request
    case Range(_, endLedger) => endLedger
    case After(cursor) => rpc.bound(cursor)
  }

  /** A request the RPC defines: a ledger range, or a cursor it could have issued. */
  predicate Wellformed(rpc: Rpc, request: Request) {
    PositionOf(rpc, request) <= |rpc.chain| && (request.After? ==> request.cursor != "")
  }

  /** Every answered request serves the events from its position on, a page at a time. A cursor
      may carry on past the ledger window it was issued for (the follow-up request names no
      end ledger), but it never stops short of it. */
  ghost predicate Honest(rpc: Rpc) {
    && Ordered(rpc.chain)
    && forall request: Request :: rpc.fetch(request).Ok? && Wellformed(rpc, request) ==>
         Serves(rpc, rpc.fetch(request).value, PositionOf(rpc, request), BoundOf(rpc, request))
  }

  /** A page that leaves events of its window unread says how to continue. */
  ghost predicate IssuesTokens(rpc: Rpc) {
    forall request: Request ::
      rpc.fetch(request).Ok? && Wellformed(rpc, request) && LeavesUnread(rpc, request) ==>
        NextToken(rpc.fetch(request).value) != ""
  }

  predicate LeavesUnread(rpc: Rpc, request: Request)
    requires Wellformed(rpc, request)
  {
    var stop := BoundOf(rpc, request);
    PageEnd(rpc.chain, PositionOf(rpc, request), stop) < Upto(rpc.chain, stop)
  }

  /** The stronger contract: a cursor serves exactly the rest of the window it was issued for. */
  ghost predicate StaysInWindow(rpc: Rpc) {
    forall request: Request ::
      rpc.fetch(request).Ok? && Wellformed(rpc, request) && |rpc.fetch(request).value.events| == EVENTS_PAGE_LIMIT ==>
        rpc.bound(NextToken(rpc.fetch(request).value)) == BoundOf(rpc, request)
  }
}
