/** Merchant-reported attribution (`recordSettlement` in apps/web/src/lib/db.ts) beside ledger
    indexing, over the same rows: which interleavings can be told apart, and which cannot. */
module Settlement {
  import opened Wrappers
  import opened Store

  /** A validated report; `reportedAt` is the signed time or the server's clock. */
  datatype Report = Report(
    txHash: string, route: string, httpMethod: string, requestId: Option<string>, payer: Option<string>,
    reportedAt: int)

  function ReportKey(merchantId: int, s: Report): Key {
    Key(merchantId, s.txHash)
  }

  function WithReport(row: Row, s: Report): Row {
    row.(route := Some(s.route), httpMethod := Some(s.httpMethod), requestId := s.requestId,
         hookReportedAt := Some(s.reportedAt))
  }

  /** `hook_reported_at IS NULL OR hook_reported_at < $6`. */
  predicate Fresher(row: Row, s: Report) {
    row.hookReportedAt.None? || row.hookReportedAt.value < s.reportedAt
  }

  /** What a report makes of the row at its key. */
  function ApplyReport(row: Option<Row>, s: Report): Row {
    match row
    case None => WithReport(EMPTY_ROW.(payer := s.payer), s)
    case Some(r) => if Fresher(r, s) then WithReport(r, s) else r
  }

  /** What indexing a transfer makes of the row at its key. */
  function ApplyIndex(row: Option<Row>, t: PaymentRow): Row {
    match row
    case None => WithLedger(EMPTY_ROW, t)
    case Some(r) => if r.ledger.None? then WithLedger(r, t) else r
  }

  /** `UPDATE payments SET route ... WHERE` the row exists and the report is fresher; with its row count. */
  function UpdateStatement(p: Payments, key: Key, s: Report): (Payments, nat) {
    if key in p && Fresher(p[key], s) then (p[key := WithReport(p[key], s)], 1) else (p, 0)
  }

  /** `INSERT ... ON CONFLICT DO UPDATE ... WHERE` the report is fresher. */
  function InsertStatement(p: Payments, key: Key, s: Report): Payments {
    if key !in p then p[key := WithReport(EMPTY_ROW.(payer := s.payer), s)]
    else if Fresher(p[key], s) then p[key := WithReport(p[key], s)]
    else p
  }

  method RecordSettlement(db: Database, merchantId: int, s: Report) returns (matchedExistingPayment: bool)
    modifies db`payments
    ensures var key := Key(merchantId, s.txHash);
            && db.payments == old(db.payments)[key := ApplyReport(Lookup(old(db.payments), key), s)]
            && (matchedExistingPayment <==>
                  key in old(db.payments) && Fresher(old(db.payments)[key], s))
  {
    var key := ReportKey(merchantId, s);
    var (updated, rowCount) := UpdateStatement(db.payments, key, s);
    db.payments := updated;
    if rowCount > 0 {
      return true;
    }
    db.payments := InsertStatement(db.payments, key, s);
    return false;
  }

  /* ----- runs over one key ----- */

  datatype Op = Index(transfer: PaymentRow) | Settle(report: Report)

  function Apply(row: Option<Row>, op: Op): Row {
    match op
    case Index(t) => ApplyIndex(row, t)
    case Settle(s) => ApplyReport(row, s)
  }

  function Run(ops: seq<Op>): Option<Row> {
    if ops == [] then None else Some(Apply(Run(ops[..|ops| - 1]), ops[|ops| - 1]))
  }

  function Reports(ops: seq<Op>): seq<Report> {
    if ops == [] then []
    else
      var last := ops[|ops| - 1];
      if last.Index? then Reports(ops[..|ops| - 1]) else Reports(ops[..|ops| - 1]) + [last.report]
  }

  lemma {:induction false} ReportsMembers(ops: seq<Op>, s: Report)
    ensures s in Reports(ops) <==> Settle(s) in ops
  {
    if ops != [] {
      assert ops == ops[..|ops| - 1] + [ops[|ops| - 1]];
      ReportsMembers(ops[..|ops| - 1], s);
    }
  }

  /** The first of the latest reports. */
  function Latest(reports: seq<Report>): (s: Report)
    requires reports != []
    ensures s in reports && forall r :: r in reports ==> r.reportedAt <= s.reportedAt
  {
    var last := reports[|reports| - 1];
    if |reports| == 1 then last
    else
      var front := reports[..|reports| - 1];
      assert reports == front + [last];
      var best := Latest(front);
      if best.reportedAt < last.reportedAt then last else best
  }

  /** Every index event of the run states the same transfer: one transfer per transaction. */
  predicate OneTransfer(ops: seq<Op>, t: PaymentRow) {
    forall op :: op in ops ==> op.Index? ==> op.transfer == t
  }

  /** The row a run must end in, said without its order: ledger columns from the transfer if it
      was indexed, attribution from the latest report if there was one. Only a row that was
      staged and never indexed remembers an order: its payer is the first report's hint. */
  function Merged(ops: seq<Op>, t: PaymentRow): Option<Row> {
    if ops == [] then None
    else
      var base := if Index(t) in ops then WithLedger(EMPTY_ROW, t)
                  else if Reports(ops) != [] then EMPTY_ROW.(payer := Reports(ops)[0].payer)
                  else EMPTY_ROW;
      Some(if Reports(ops) == [] then base else WithReport(base, Latest(Reports(ops))))
  }

  lemma MergeIndex(front: seq<Op>, t: PaymentRow)
    ensures Some(ApplyIndex(Merged(front, t), t)) == Merged(front + [Index(t)], t)
  {
    assert (front + [Index(t)])[..|front|] == front;
    assert Index(t) in front + [Index(t)];
    hide Reports;
  }

  lemma ReportsAppend(front: seq<Op>, s: Report)
    ensures Reports(front + [Settle(s)]) == Reports(front) + [s]
  {
    assert (front + [Settle(s)])[..|front|] == front;
  }

  lemma LatestAppend(reports: seq<Report>, s: Report)
    ensures Latest(reports + [s]) ==
            if reports == [] || Latest(reports).reportedAt < s.reportedAt then s else Latest(reports)
  {
    assert (reports + [s])[..|reports|] == reports;
  }

  lemma MergeSettle(front: seq<Op>, s: Report, t: PaymentRow)
    requires OneTransfer(front, t)
    ensures Some(ApplyReport(Merged(front, t), s)) == Merged(front + [Settle(s)], t)
  {
    var reports := Reports(front);
    ReportsAppend(front, s);
    LatestAppend(reports, s);
    assert Index(t) in front + [Settle(s)] <==> Index(t) in front;
    if front != [] && Index(t) !in front {
      assert front[0] in front;
      ReportsMembers(front, front[0].report);
    }
    assert front == [] ==> reports == [];
    assert reports != [] ==> (reports + [s])[0] == reports[0];
    hide Reports, Latest;
  }

  lemma {:induction false} RunMerges(ops: seq<Op>, t: PaymentRow)
    requires OneTransfer(ops, t)
    ensures Run(ops) == Merged(ops, t)
  {
    if ops != [] {
      var front, last := ops[..|ops| - 1], ops[|ops| - 1];
      assert ops == front + [last];
      RunMerges(front, t);
      hide Merged;
      match last {
        case Index(x) =>
          assert last in ops;
          MergeIndex(front, t);
        case Settle(s) => MergeSettle(front, s, t);
      }
    }
  }

  ghost predicate SameOps(a: seq<Op>, b: seq<Op>) {
    forall op :: op in a <==> op in b
  }

  /** Reports of the latest time agree on the attribution they carry. */
  predicate LatestAgree(reports: seq<Report>) {
    forall r, s :: r in reports && s in reports && IsLatest(reports, r) && IsLatest(reports, s) ==>
           SameAttribution(r, s)
  }

  predicate IsLatest(reports: seq<Report>, r: Report) {
    forall u :: u in reports ==> u.reportedAt <= r.reportedAt
  }

  predicate SameAttribution(r: Report, s: Report) {
    r.route == s.route && r.httpMethod == s.httpMethod && r.requestId == s.requestId
  }

  /** Confluence: once the transfer is indexed, any two interleavings of the same events, each
      repeated any number of times, end in one row, provided reports of the latest time agree
      (distinct times are enough). */
  lemma Confluence(a: seq<Op>, b: seq<Op>, t: PaymentRow)
    requires SameOps(a, b) && OneTransfer(a, t) && Index(t) in a && LatestAgree(Reports(a))
    ensures Run(a) == Run(b)
    ensures Run(a).Some? && Run(a).value.ledger == Some(t.ledger) && Run(a).value.payer == Some(t.payer)
    ensures Reports(a) != [] ==>
              Run(a).value == WithReport(WithLedger(EMPTY_ROW, t), Latest(Reports(a)))
  {
    RunMerges(a, t);
    RunMerges(b, t);
    SameReports(a, b);
    hide Run, Reports;
    LatestOfSame(Reports(a), Reports(b));
  }

  lemma SameReports(a: seq<Op>, b: seq<Op>)
    requires SameOps(a, b)
    ensures forall s :: s in Reports(a) <==> s in Reports(b)
    ensures Reports(a) == [] <==> Reports(b) == []
  {
    forall s ensures s in Reports(a) <==> s in Reports(b) {
      ReportsMembers(a, s);
      ReportsMembers(b, s);
    }
    if Reports(a) != [] { assert Reports(a)[0] in Reports(b); }
    if Reports(b) != [] { assert Reports(b)[0] in Reports(a); }
  }

  lemma LatestOfSame(x: seq<Report>, y: seq<Report>)
    requires (forall s :: s in x <==> s in y) && (x == [] <==> y == []) && LatestAgree(x)
    ensures x != [] ==> SameAttribution(Latest(x), Latest(y)) && Latest(x).reportedAt == Latest(y).reportedAt
  {
  }

  /** And only then: if two reports of the latest time differ, their two orders end in different
      rows, because the first one written keeps the row. */
  lemma LatestMustAgree(ops: seq<Op>, t: PaymentRow, r: Report, s: Report)
    requires OneTransfer(ops, t) && Settle(r) in ops && Settle(s) in ops && Index(t) in ops
    requires r.reportedAt == s.reportedAt && forall u :: Settle(u) in ops ==> u.reportedAt <= r.reportedAt
    requires !SameAttribution(r, s)
    ensures SameOps([Settle(r)] + ops, [Settle(s)] + ops)
    ensures Run([Settle(r)] + ops) != Run([Settle(s)] + ops)
  {
    FirstLatestKeeps(ops, t, r);
    FirstLatestKeeps(ops, t, s);
  }

  lemma FirstLatestKeeps(ops: seq<Op>, t: PaymentRow, r: Report)
    requires OneTransfer(ops, t) && forall u :: Settle(u) in ops ==> u.reportedAt <= r.reportedAt
    ensures var row := Run([Settle(r)] + ops).value;
            Run([Settle(r)] + ops).Some? && row.route == Some(r.route) && row.httpMethod == Some(r.httpMethod) &&
            row.requestId == r.requestId
  {
    var all := [Settle(r)] + ops;
    RunMerges(all, t);
    FirstIsLatest(ops, r);
  }

  lemma {:induction false} FirstIsLatest(ops: seq<Op>, r: Report)
    requires forall u :: Settle(u) in ops ==> u.reportedAt <= r.reportedAt
    ensures Reports([Settle(r)] + ops) != [] && Latest(Reports([Settle(r)] + ops)) == r
  {
    var all := [Settle(r)] + ops;
    hide Latest;
    if ops == [] {
      assert all == [Settle(r)] && all[..0] == [];
      assert Reports(all) == Reports([]) + [r];
      assert Latest([r]) == r;
    } else {
      var front, last := ops[..|ops| - 1], ops[|ops| - 1];
      assert ops == front + [last];
      assert all[..|all| - 1] == [Settle(r)] + front && all[|all| - 1] == last;
      FirstIsLatest(front, r);
      if last.Settle? { LatestAppend(Reports([Settle(r)] + front), last.report); }
    }
  }

  /* ----- runs over the table ----- */

  datatype Event = Indexing(row: PaymentRow) | Settling(merchantId: int, report: Report)

  function EventKey(e: Event): Key {
    match e
    case Indexing(r) => KeyOf(r)
    case Settling(m, s) => ReportKey(m, s)
  }

  function Step(p: Payments, e: Event): Payments {
    match e
    case Indexing(r) => Upsert(p, r)
    case Settling(m, s) => p[ReportKey(m, s) := ApplyReport(Lookup(p, ReportKey(m, s)), s)]
  }

  /** A report touches one row, that of the merchant and the transaction hash. It writes its four columns there if
      it is the first or later than the one before, and leaves every other column; where there is no row, it
      stages one with its payer and nothing of a ledger's. */
  lemma ReportTouchesOneRow(p: Payments, m: int, s: Report, key: Key)
    ensures var q, mine := Step(p, Settling(m, s)), Key(m, s.txHash);
            && (key != mine ==> Lookup(q, key) == Lookup(p, key))
            && mine in q
            && (if mine in p && p[mine].hookReportedAt.Some? && s.reportedAt <= p[mine].hookReportedAt.value then q == p
                else
                  && q[mine].route == Some(s.route) && q[mine].httpMethod == Some(s.httpMethod)
                  && q[mine].requestId == s.requestId && q[mine].hookReportedAt == Some(s.reportedAt))
            && (if mine in p then SameLedgerAndBatch(p[mine], q[mine])
                else
                  && q[mine].payer == s.payer && q[mine].ledger == None
                  && q[mine].amount == q[mine].asset == q[mine].ts == None
                  && q[mine].batchId == None && q[mine].receiptLeaf == None && q[mine].receiptProof == None)
  {
  }

  /** The columns that a report does not own. */
  predicate SameLedgerAndBatch(a: Row, b: Row) {
    && a.ledger == b.ledger && a.payer == b.payer && a.amount == b.amount && a.asset == b.asset && a.ts == b.ts
    && a.batchId == b.batchId && a.receiptLeaf == b.receiptLeaf && a.receiptProof == b.receiptProof
  }

  /** Report and transfer meet: whichever comes first, the row of the payment carries both. */
  lemma ReportMeetsTransfer(p: Payments, m: int, s: Report, t: PaymentRow)
    requires t.merchantId == m && t.txHash == s.txHash && Key(m, s.txHash) !in p
    ensures var key := Key(m, s.txHash);
            var first, second := Step(Step(p, Settling(m, s)), Indexing(t)), Step(Step(p, Indexing(t)), Settling(m, s));
            && first == second && key in first
            && first[key].ledger == Some(t.ledger) && first[key].payer == Some(t.payer)
            && first[key].amount == Some(t.amount) && first[key].route == Some(s.route)
  {
  }

  function RunAll(events: seq<Event>): Payments {
    if events == [] then map[] else Step(RunAll(events[..|events| - 1]), events[|events| - 1])
  }

  function OpOf(e: Event): Op {
    match e
    case Indexing(r) => Index(r)
    case Settling(_, s) => Settle(s)
  }

  function OpsAt(events: seq<Event>, key: Key): seq<Op> {
    if events == [] then []
    else
      var front, last := OpsAt(events[..|events| - 1], key), events[|events| - 1];
      if EventKey(last) == key then front + [OpOf(last)] else front
  }

  /** Events of other keys and other merchants do not matter to a row. */
  lemma {:induction false} RowDependsOnItsKey(events: seq<Event>, key: Key)
    ensures Lookup(RunAll(events), key) == Run(OpsAt(events, key))
  {
    if events != [] {
      var front, last := events[..|events| - 1], events[|events| - 1];
      RowDependsOnItsKey(front, key);
      if EventKey(last) == key {
        var ops := OpsAt(front, key);
        assert (ops + [OpOf(last)])[..|ops|] == ops;
      }
    }
  }

  lemma {:induction false} OpsAtMembers(events: seq<Event>, key: Key, op: Op)
    ensures op in OpsAt(events, key) <==> exists e :: e in events && EventKey(e) == key && OpOf(e) == op
  {
    if events != [] {
      var front, last := events[..|events| - 1], events[|events| - 1];
      assert events == front + [last];
      OpsAtMembers(front, key, op);
    }
  }

  /** Confluence on the whole table, among any events of other keys and merchants. */
  lemma TableConfluence(a: seq<Event>, b: seq<Event>, t: PaymentRow)
    requires (forall e :: e in a <==> e in b) && Indexing(t) in a
    requires forall e :: e in a && e.Indexing? && KeyOf(e.row) == KeyOf(t) ==> e.row == t
    requires LatestAgree(Reports(OpsAt(a, KeyOf(t))))
    ensures Lookup(RunAll(a), KeyOf(t)) == Lookup(RunAll(b), KeyOf(t))
  {
    var key := KeyOf(t);
    var x, y := OpsAt(a, key), OpsAt(b, key);
    forall op ensures (op in x <==> op in y) && (op in x && op.Index? ==> op.transfer == t) {
      OpsAtMembers(a, key, op);
      OpsAtMembers(b, key, op);
    }
    OpsAtMembers(a, key, Index(t));
    assert EventKey(Indexing(t)) == key && OpOf(Indexing(t)) == Index(t);
    RowDependsOnItsKey(a, key);
    RowDependsOnItsKey(b, key);
    Confluence(x, y, t);
  }

  /** A row is indexed in all of ledger, amount, asset and ts, or in none. */
  predicate LedgerColumnsTogether(row: Row) {
    && (row.ledger.Some? <==> row.amount.Some?)
    && (row.ledger.Some? <==> row.asset.Some?)
    && (row.ledger.Some? <==> row.ts.Some?)
    && (row.ledger.Some? ==> row.payer.Some?)
  }

  lemma {:induction false} AllNullOrAllSet(events: seq<Event>, key: Key)
    ensures key in RunAll(events) ==> LedgerColumnsTogether(RunAll(events)[key])
  {
    if events != [] {
      AllNullOrAllSet(events[..|events| - 1], key);
    }
  }
}
