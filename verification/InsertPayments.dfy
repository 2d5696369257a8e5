/** apps/web/src/lib/insert-payments.ts: from events to rows, and the chunked upsert that
    commits with the sync cursor or not at all. */
module InsertPayments {
  import opened Wrappers
  import opened Store
  import Chain
  import Money

  const PAYMENTS_BATCH_SIZE := 100

  /* ----- events to rows ----- */

  /** What XDR decoding finds in an event's topics and value, if it is a transfer. */
  datatype Transfer = Transfer(from: string, to: string, asset: string, stroops: int)

  type Decoder = string -> Option<Transfer>

  datatype Merchant = Merchant(id: int, address: string)

  /** The row an event becomes: a decodable transfer addressed to the merchant, nothing else. */
  function RowOf(decode: Decoder, m: Merchant, e: Chain.RawEvent): Option<PaymentRow> {
    match decode(e.body)
    case None => None
    case Some(t) =>
      if t.to != m.address then None
      else Some(PaymentRow(m.id, e.txHash, e.ledger, t.from, Money.StroopsToDecimal(t.stroops), t.asset,
                           e.ledgerClosedAt))
  }

  function RowsOf(decode: Decoder, m: Merchant, events: seq<Chain.RawEvent>): seq<PaymentRow> {
    if events == [] then []
    else
      var front, last := events[..|events| - 1], RowOf(decode, m, events[|events| - 1]);
      if last.None? then RowsOf(decode, m, front) else RowsOf(decode, m, front) + [last.value]
  }

  /** No event is admitted that is not such a transfer, and none that is gets lost. */
  lemma {:induction false} RowsOfMembers(decode: Decoder, m: Merchant, events: seq<Chain.RawEvent>, r: PaymentRow)
    ensures r in RowsOf(decode, m, events) <==> exists e :: e in events && RowOf(decode, m, e) == Some(r)
  {
    hide RowOf;
    if events != [] {
      var front, last := events[..|events| - 1], events[|events| - 1];
      assert events == front + [last];
      RowsOfMembers(decode, m, front, r);
    }
  }

  /** The row states the transfer of the event, as a payment of the merchant: the sender is the payer, and the
      amount is the decimal text of the stroops, which reads back exactly. */
  predicate States(m: Merchant, e: Chain.RawEvent, t: Transfer, r: PaymentRow) {
    && r.merchantId == m.id && r.txHash == e.txHash && r.ledger == e.ledger && r.ts == e.ledgerClosedAt
    && r.payer == t.from && r.asset == t.asset
    && r.amount == Money.FromStroops(t.stroops) && Money.ToStroops(r.amount) == Some(t.stroops)
  }

  lemma RowOfExactly(decode: Decoder, m: Merchant, e: Chain.RawEvent, r: PaymentRow)
    ensures RowOf(decode, m, e) == Some(r) <==>
            exists t :: decode(e.body) == Some(t) && t.to == m.address && States(m, e, t, r)
  {
    hide Money.FromStroops, Money.StroopsToDecimal, Money.ToStroops;
    if decode(e.body).Some? {
      var t := decode(e.body).value;
      Money.ParsePrinted(t.stroops);
    }
  }

  /** The rows are the transfers to the merchant's address, whole and nothing else. */
  lemma RowsAreTransfers(decode: Decoder, m: Merchant, events: seq<Chain.RawEvent>, r: PaymentRow)
    ensures r in RowsOf(decode, m, events) <==>
            exists e, t :: e in events && decode(e.body) == Some(t) && t.to == m.address && States(m, e, t, r)
  {
    RowsOfMembers(decode, m, events, r);
    hide RowOf, RowsOf, States;
    forall e ensures RowOf(decode, m, e) == Some(r) <==>
                     exists t :: decode(e.body) == Some(t) && t.to == m.address && States(m, e, t, r)
    {
      RowOfExactly(decode, m, e, r);
    }
  }

  /** One row an event, in event order. */
  lemma {:induction false} RowsInOrder(decode: Decoder, m: Merchant, a: seq<Chain.RawEvent>, b: seq<Chain.RawEvent>)
    ensures RowsOf(decode, m, a + b) == RowsOf(decode, m, a) + RowsOf(decode, m, b)
    ensures |a| == 1 ==> |RowsOf(decode, m, a)| <= 1
    decreases |b|
  {
    hide RowOf;
    if b == [] {
      assert a + b == a;
      if |a| == 1 { assert RowsOf(decode, m, a[..0]) == []; }
    } else {
      RowsInOrder(decode, m, a, b[..|b| - 1]);
      assert (a + b)[..|a + b| - 1] == a + b[..|b| - 1];
    }
  }

  function CountDecoded(decode: Decoder, events: seq<Chain.RawEvent>): nat {
    if events == [] then 0
    else CountDecoded(decode, events[..|events| - 1]) + if decode(events[|events| - 1].body).Some? then 1 else 0
  }

  /** The events with a transfer in them, to whomever. */
  function DecodedAt(decode: Decoder, events: seq<Chain.RawEvent>): set<nat> {
    set i: nat | i < |events| && decode(events[i].body) != None
  }

  lemma {:induction false} CountDecodedIs(decode: Decoder, events: seq<Chain.RawEvent>)
    ensures CountDecoded(decode, events) == |DecodedAt(decode, events)|
  {
    if events != [] {
      var n := |events| - 1;
      CountDecodedIs(decode, events[..n]);
      assert DecodedAt(decode, events) ==
             DecodedAt(decode, events[..n]) + if decode(events[n].body) != None then {n} else {};
    }
  }

  method EventsToPaymentRows(decode: Decoder, events: seq<Chain.RawEvent>, m: Merchant)
    returns (rows: seq<PaymentRow>, decoded: nat)
    ensures rows == RowsOf(decode, m, events) && decoded == CountDecoded(decode, events)
  {
    hide Money.StroopsToDecimal;
    rows, decoded := [], 0;
    for i := 0 to |events|
      invariant rows == RowsOf(decode, m, events[..i]) && decoded == CountDecoded(decode, events[..i])
    {
      assert events[..i + 1][..i] == events[..i] && events[..i + 1][i] == events[i];
      var transfer := decode(events[i].body);
      if transfer.None? {
        continue;
      }
      decoded := decoded + 1;
      if transfer.value.to != m.address {
        continue;
      }
      rows := rows + [PaymentRow(m.id, events[i].txHash, events[i].ledger, transfer.value.from,
                                 Money.StroopsToDecimal(transfer.value.stroops), transfer.value.asset,
                                 events[i].ledgerClosedAt)];
    }
    assert events[..|events|] == events;
  }

  /* ----- chunks ----- */

  function Concat<T>(lists: seq<seq<T>>): seq<T> {
    if lists == [] then [] else lists[0] + Concat(lists[1..])
  }

  function Chunks<T>(rows: seq<T>, size: nat): seq<seq<T>>
    requires size > 0
  {
    if rows == [] then []
    else if |rows| <= size then [rows]
    else [rows[..size]] + Chunks(rows[size..], size)
  }

  /** Chunking loses nothing: in order, the chunks are the rows, none is empty or longer than
      `size`, and only the last may be shorter. */
  lemma {:induction false} ChunksPartition<T>(rows: seq<T>, size: nat)
    requires size > 0
    ensures Concat(Chunks(rows, size)) == rows
    ensures forall i :: 0 <= i < |Chunks(rows, size)| ==>
              0 < |Chunks(rows, size)[i]| <= size && (i < |Chunks(rows, size)| - 1 ==> |Chunks(rows, size)[i]| == size)
  {
    if |rows| > size {
      ChunksPartition(rows[size..], size);
      var rest := Chunks(rows[size..], size);
      assert Chunks(rows, size) == [rows[..size]] + rest && rest != [];
      hide Chunks;
      assert ([rows[..size]] + rest)[1..] == rest;
      assert rows == rows[..size] + rows[size..];
    } else if rows != [] {
      assert Concat([rows][1..]) == [];
    }
  }

  /** The number of statements a run makes: a hundred rows each, and one for what is left. */
  lemma {:induction false} StatementCount(rows: seq<PaymentRow>)
    ensures |Chunks(rows, PAYMENTS_BATCH_SIZE)| == (|rows| + 99) / 100
    decreases |rows|
  {
    if |rows| > 100 {
      StatementCount(rows[100..]);
    }
  }

  method ChunkRows<T>(rows: seq<T>, size: nat) returns (chunks: seq<seq<T>>)
    requires size > 0
    ensures chunks == Chunks(rows, size)
  {
    chunks := [];
    assert Chunks<T>([], size) == [];
    hide Chunks;
    var i := 0;
    ghost var rest := rows;
    while i < |rows|
      invariant 0 <= i && rest == (if i <= |rows| then rows[i..] else [])
      invariant chunks + Chunks(rest, size) == Chunks(rows, size)
    {
      var end := if i + size <= |rows| then i + size else |rows|;
      ghost var left := rows[end..];
      ChunkStep(rest, rows[i..end], left, size);
      assert chunks + ([rows[i..end]] + Chunks(left, size)) == (chunks + [rows[i..end]]) + Chunks(left, size);
      chunks := chunks + [rows[i..end]];
      rest := left;
      i := i + size;
    }
  }

  lemma ChunkStep<T>(rest: seq<T>, chunk: seq<T>, left: seq<T>, size: nat)
    requires size > 0 && rest != [] && rest == chunk + left
    requires |chunk| == size || (|chunk| < size && left == [])
    ensures Chunks(rest, size) == [chunk] + Chunks(left, size)
  {
    if |rest| > size {
      assert rest[..size] == chunk && rest[size..] == left;
    } else {
      assert left == [] && rest == chunk;
    }
  }

  /* ----- one statement ----- */

  datatype DbError = SecondTouch | Fault

  /** Rows written by row-by-row upserts, as `RETURNING *` reports them. */
  function Written(p: Payments, rows: seq<PaymentRow>): seq<(Key, Row)>
    decreases |rows|
  {
    if rows == [] then []
    else
      var key, q := KeyOf(rows[0]), Upsert(p, rows[0]);
      (if Indexed(p, key) then [] else [(key, q[key])]) + Written(q, rows[1..])
  }

  /** Postgres refuses a statement that would touch again a row the same statement wrote:
      a key repeated within the chunk that was not indexed before it. */
  predicate Clashes(p: Payments, chunk: seq<PaymentRow>) {
    exists i, j :: 0 <= i < j < |chunk| && KeyOf(chunk[i]) == KeyOf(chunk[j]) && !Indexed(p, KeyOf(chunk[i]))
  }

  /** No statement of the run is refused. */
  predicate ClashFree(p: Payments, chunks: seq<seq<PaymentRow>>)
    decreases |chunks|
  {
    chunks == [] || (!Clashes(p, chunks[0]) && ClashFree(UpsertAll(p, chunks[0]), chunks[1..]))
  }

  /** One multi-row INSERT, as Postgres executes it. */
  function ExecuteInsert(p: Payments, chunk: seq<PaymentRow>): Result<(Payments, seq<(Key, Row)>), DbError> {
    if Clashes(p, chunk) then Err(SecondTouch) else Ok((UpsertAll(p, chunk), Written(p, chunk)))
  }

  /* ----- the transaction ----- */

  datatype Inserted = Inserted(inserted: nat, payments: seq<(Key, Row)>)

  /** `faults(i)` says statement `i` of the transaction fails for a reason outside the model;
      the cursor write is statement number |chunks| and COMMIT the one after. */
  type Faults = nat -> bool

  /** The loop over chunks, shared with `insertPaymentRows` of apps/web/src/app/api/sync/route.ts. */
  method InsertChunks(db: Database, rows: seq<PaymentRow>, faults: Faults) returns (r: Result<seq<(Key, Row)>, DbError>)
    modifies db`payments
    ensures r.Ok? <==> (forall i :: 0 <= i < |Chunks(rows, PAYMENTS_BATCH_SIZE)| ==> !faults(i)) &&
                       ClashFree(old(db.payments), Chunks(rows, PAYMENTS_BATCH_SIZE))
    ensures r.Ok? ==> db.payments == UpsertAll(old(db.payments), rows) && r.value == Written(old(db.payments), rows)
    ensures r == Err(SecondTouch) ==> !ClashFree(old(db.payments), Chunks(rows, PAYMENTS_BATCH_SIZE))
    ensures r == Err(Fault) ==> exists i :: 0 <= i < |Chunks(rows, PAYMENTS_BATCH_SIZE)| && faults(i)
  {
    var chunks := ChunkRows(rows, PAYMENTS_BATCH_SIZE);
    ChunksPartition(rows, PAYMENTS_BATCH_SIZE);
    hide Clashes, Chunks, UpsertAll, Written;
    NothingLeftToWrite();
    ghost var before := db.payments;
    var returned := [];
    assert chunks[0..] == chunks;
    for i := 0 to |chunks|
      invariant forall j :: 0 <= j < i ==> !faults(j)
      invariant ClashFree(db.payments, chunks[i..]) <==> ClashFree(before, chunks)
      invariant UpsertAll(db.payments, Concat(chunks[i..])) == UpsertAll(before, rows)
      invariant returned + Written(db.payments, Concat(chunks[i..])) == Written(before, rows)
    {
      assert chunks[i..][0] == chunks[i] && chunks[i..][1..] == chunks[i + 1..];
      if faults(i) {
        return Err(Fault);
      }
      var statement := ExecuteInsert(db.payments, chunks[i]);
      if statement.Err? {
        return Err(statement.error);
      }
      UpsertSplits(db.payments, chunks[i], Concat(chunks[i + 1..]));
      db.payments := statement.value.0;
      returned := returned + statement.value.1;
    }
    return Ok(returned);
  }

  lemma NothingLeftToWrite()
    ensures forall q :: UpsertAll(q, []) == q && Written(q, []) == []
  {
  }

  lemma {:induction false} UpsertSplits(p: Payments, a: seq<PaymentRow>, b: seq<PaymentRow>)
    ensures UpsertAll(p, a + b) == UpsertAll(UpsertAll(p, a), b)
    ensures Written(p, a + b) == Written(p, a) + Written(UpsertAll(p, a), b)
    decreases |a|
  {
    if a == [] {
      assert a + b == b;
    } else {
      assert (a + b)[0] == a[0] && (a + b)[1..] == a[1..] + b;
      UpsertSplits(Upsert(p, a[0]), a[1..], b);
    }
  }

  /** All chunks and the cursor commit together. The run succeeds exactly when nothing outside
      fails and no chunk repeats a key that was not indexed when the chunk was reached; then the
      tables are those of row-by-row upserts, and otherwise they are untouched. */
  method InsertPaymentsInTransaction(db: Database, merchantId: int, rows: seq<PaymentRow>, sweptThrough: int,
                                     faults: Faults)
    returns (r: Result<Inserted, DbError>)
    modifies db`payments, db`syncState
    ensures r.Ok? <==> (forall i :: 0 <= i <= |Chunks(rows, PAYMENTS_BATCH_SIZE)| + 1 ==> !faults(i)) &&
                       ClashFree(old(db.payments), Chunks(rows, PAYMENTS_BATCH_SIZE))
    ensures r.Err? ==> db.payments == old(db.payments) && db.syncState == old(db.syncState)
    ensures r == Err(SecondTouch) ==> !ClashFree(old(db.payments), Chunks(rows, PAYMENTS_BATCH_SIZE))
    ensures r == Err(Fault) ==> exists i :: 0 <= i <= |Chunks(rows, PAYMENTS_BATCH_SIZE)| + 1 && faults(i)
    ensures r.Ok? ==> db.payments == UpsertAll(old(db.payments), rows) &&
                      db.syncState == AdvanceCursor(old(db.syncState), merchantId, sweptThrough) &&
                      r.value.payments == Written(old(db.payments), rows) && r.value.inserted == |r.value.payments|
  {
    var n := |Chunks(rows, PAYMENTS_BATCH_SIZE)|;
    var payments, syncState := db.payments, db.syncState;
    var inserted := InsertChunks(db, rows, faults);
    if inserted.Ok? {
      if !faults(n) {
        db.syncState := AdvanceCursor(db.syncState, merchantId, sweptThrough);
        if !faults(n + 1) {
          return Ok(Inserted(|inserted.value|, inserted.value));
        }
      }
    }
    db.payments, db.syncState := payments, syncState;
    return Err(if inserted.Err? then inserted.error else Fault);
  }

  /* ----- what the rows promise ----- */

  predicate DistinctKeys(rows: seq<PaymentRow>) {
    forall i, j :: 0 <= i < j < |rows| ==> KeyOf(rows[i]) != KeyOf(rows[j])
  }

  /** What one upsert does, key by key. */
  lemma UpsertAt(p: Payments, r: PaymentRow, key: Key)
    ensures Indexed(Upsert(p, r), key) <==> Indexed(p, key) || key == KeyOf(r)
    ensures key in Upsert(p, r) <==> key in p || key == KeyOf(r)
    ensures key in p && (key != KeyOf(r) || Indexed(p, key)) ==> Upsert(p, r)[key] == p[key]
    ensures key == KeyOf(r) && !Indexed(p, key) ==>
              Upsert(p, r)[key] == WithLedger(if key in p then p[key] else EMPTY_ROW, r)
  {
  }

  /** And column by column: the row at the merchant and the transaction hash takes the transfer unless one is
      there, its other columns and every other row stay as they were. */
  lemma UpsertColumns(p: Payments, r: PaymentRow, key: Key)
    ensures var q, mine := Upsert(p, r), Key(r.merchantId, r.txHash);
            && (key != mine ==> Lookup(q, key) == Lookup(p, key))
            && mine in q
            && (if mine in p && p[mine].ledger != None then q == p
                else
                  && q[mine].ledger == Some(r.ledger) && q[mine].payer == Some(r.payer)
                  && q[mine].amount == Some(r.amount) && q[mine].asset == Some(r.asset) && q[mine].ts == Some(r.ts))
            && (if mine in p then SameAttributionAndBatch(p[mine], q[mine])
                else
                  && q[mine].route == q[mine].httpMethod == q[mine].requestId == None && q[mine].hookReportedAt == None
                  && q[mine].batchId == None && q[mine].receiptLeaf == None && q[mine].receiptProof == None)
  {
  }

  /** The columns that indexing does not own. */
  predicate SameAttributionAndBatch(a: Row, b: Row) {
    && a.route == b.route && a.httpMethod == b.httpMethod && a.requestId == b.requestId
    && a.hookReportedAt == b.hookReportedAt
    && a.batchId == b.batchId && a.receiptLeaf == b.receiptLeaf && a.receiptProof == b.receiptProof
  }

  /** What a list of upserts does: a key is indexed by its first row unless it was indexed
      before, other columns are kept, and no other key changes. */
  lemma {:induction false} UpsertAllAt(p: Payments, rows: seq<PaymentRow>, key: Key)
    ensures var q := UpsertAll(p, rows);
            && (Indexed(q, key) <==> Indexed(p, key) || HasKey(rows, key))
            && (key in q <==> key in p || HasKey(rows, key))
            && (key in p && (Indexed(p, key) || !HasKey(rows, key)) ==> q[key] == p[key])
            && (!Indexed(p, key) && HasKey(rows, key) ==>
                  q[key] == WithLedger(if key in p then p[key] else EMPTY_ROW, FirstWith(rows, key)))
    decreases |rows|
  {
    if rows != [] {
      UpsertAt(p, rows[0], key);
      UpsertAllAt(Upsert(p, rows[0]), rows[1..], key);
      assert HasKey(rows, key) <==> key == KeyOf(rows[0]) || HasKey(rows[1..], key) by {
        assert rows == [rows[0]] + rows[1..];
      }
    }
  }

  predicate HasKey(rows: seq<PaymentRow>, key: Key) {
    exists r :: r in rows && KeyOf(r) == key
  }

  function FirstWith(rows: seq<PaymentRow>, key: Key): (r: PaymentRow)
    requires HasKey(rows, key)
    ensures r in rows && KeyOf(r) == key
  {
    if KeyOf(rows[0]) == key then rows[0]
    else
      assert rows == [rows[0]] + rows[1..];
      FirstWith(rows[1..], key)
  }

  /** The returned rows are exactly the changed ones: a key is returned once if the run changed
      it, not at all otherwise, and with the row the table ends with. */
  lemma {:induction false} WrittenIsTheChange(p: Payments, rows: seq<PaymentRow>, key: Key)
    ensures Lookup(p, key) == Lookup(UpsertAll(p, rows), key) ==>
              forall i :: 0 <= i < |Written(p, rows)| ==> Written(p, rows)[i].0 != key
    ensures Lookup(p, key) != Lookup(UpsertAll(p, rows), key) ==>
              exists i :: IsOnlyReturn(Written(p, rows), i, key, Lookup(UpsertAll(p, rows), key))
    decreases |rows|
  {
    if rows != [] {
      var r, p' := rows[0], Upsert(p, rows[0]);
      var w, w' := Written(p, rows), Written(p', rows[1..]);
      UpsertAt(p, r, key);
      UpsertAllAt(p', rows[1..], key);
      WrittenIsTheChange(p', rows[1..], key);
      hide UpsertAll, Upsert, Written;
      if Indexed(p, KeyOf(r)) {
        assert w == w';
      } else {
        assert w == [(KeyOf(r), p'[KeyOf(r)])] + w';
        if key == KeyOf(r) {
          assert IsOnlyReturn(w, 0, key, Lookup(p', key));
        } else if Lookup(p, key) != Lookup(UpsertAll(p, rows), key) {
          var i :| IsOnlyReturn(w', i, key, Lookup(UpsertAll(p, rows), key));
          assert IsOnlyReturn(w, i + 1, key, Lookup(UpsertAll(p, rows), key));
        }
      }
    }
  }

  /** `w` names `key` at position `i` and nowhere else, with row `row`. */
  predicate IsOnlyReturn(w: seq<(Key, Row)>, i: int, key: Key, row: Option<Row>) {
    0 <= i < |w| && w[i].0 == key && row == Some(w[i].1) && forall j :: 0 <= j < |w| && w[j].0 == key ==> j == i
  }

  /** Distinct keys are never refused, whatever the chunk size. */
  lemma {:induction false} DistinctNeverClash(p: Payments, chunks: seq<seq<PaymentRow>>)
    requires DistinctKeys(Concat(chunks))
    ensures ClashFree(p, chunks)
    decreases |chunks|
  {
    if chunks != [] {
      var rest := Concat(chunks[1..]);
      assert Concat(chunks) == chunks[0] + rest;
      forall i, j | 0 <= i < j < |chunks[0]| ensures KeyOf(chunks[0][i]) != KeyOf(chunks[0][j]) {
        assert KeyOf(Concat(chunks)[i]) != KeyOf(Concat(chunks)[j]);
      }
      forall i, j | 0 <= i < j < |rest| ensures KeyOf(rest[i]) != KeyOf(rest[j]) {
        assert KeyOf(Concat(chunks)[|chunks[0]| + i]) != KeyOf(Concat(chunks)[|chunks[0]| + j]);
      }
      DistinctNeverClash(UpsertAll(p, chunks[0]), chunks[1..]);
    }
  }

  /** Chunk `c` names a key twice that is indexed neither in the table nor by an earlier chunk. */
  ghost predicate Repeats(p: Payments, chunks: seq<seq<PaymentRow>>, c: int, i: int, j: int) {
    0 <= c < |chunks| && 0 <= i < j < |chunks[c]| && KeyOf(chunks[c][i]) == KeyOf(chunks[c][j]) &&
    !Indexed(p, KeyOf(chunks[c][i])) && !HasKey(Concat(chunks[..c]), KeyOf(chunks[c][i]))
  }

  lemma HasKeyConcat(a: seq<PaymentRow>, b: seq<PaymentRow>, key: Key)
    ensures HasKey(a + b, key) <==> HasKey(a, key) || HasKey(b, key)
  {
  }

  /** One chunk further: what the first chunk indexed counts as indexed. */
  lemma RepeatsLater(p: Payments, chunks: seq<seq<PaymentRow>>, c: nat, i: int, j: int)
    requires chunks != []
    ensures Repeats(p, chunks, c + 1, i, j) <==> Repeats(UpsertAll(p, chunks[0]), chunks[1..], c, i, j)
  {
    hide UpsertAll, HasKey;
    if c + 1 < |chunks| && 0 <= i < |chunks[c + 1]| {
      var key := KeyOf(chunks[c + 1][i]);
      assert chunks[..c + 1][0] == chunks[0] && chunks[..c + 1][1..] == chunks[1..][..c];
      HasKeyConcat(chunks[0], Concat(chunks[1..][..c]), key);
      UpsertAllAt(p, chunks[0], key);
    }
  }

  /** A transaction is refused if and only if some chunk repeats such a key. As nothing of it then stays,
      so is every retry. */
  lemma {:induction false} RefusedExactly(p: Payments, chunks: seq<seq<PaymentRow>>)
    ensures !ClashFree(p, chunks) <==> exists c, i, j :: Repeats(p, chunks, c, i, j)
    decreases |chunks|
  {
    hide Repeats, UpsertAll, Clashes;
    if chunks != [] {
      var q, rest := UpsertAll(p, chunks[0]), chunks[1..];
      RefusedExactly(q, rest);
      ClashesIsRepeats(p, chunks);
      if c, i, j :| Repeats(q, rest, c, i, j) {
        assert c >= 0 by { RepeatsIsIndex(q, rest, c, i, j); }
        RepeatsLater(p, chunks, c, i, j);
      }
      if c, i, j :| Repeats(p, chunks, c, i, j) {
        assert c >= 0 by { RepeatsIsIndex(p, chunks, c, i, j); }
        if c > 0 { RepeatsLater(p, chunks, c - 1, i, j); }
      }
    } else {
      forall c, i, j ensures !Repeats(p, chunks, c, i, j) {
        if Repeats(p, chunks, c, i, j) { RepeatsIsIndex(p, chunks, c, i, j); }
      }
    }
  }

  lemma RepeatsIsIndex(p: Payments, chunks: seq<seq<PaymentRow>>, c: int, i: int, j: int)
    requires Repeats(p, chunks, c, i, j)
    ensures 0 <= c < |chunks|
  {
  }

  lemma ClashesIsRepeats(p: Payments, chunks: seq<seq<PaymentRow>>)
    requires chunks != []
    ensures Clashes(p, chunks[0]) <==> exists i, j :: Repeats(p, chunks, 0, i, j)
  {
    assert Concat(chunks[..0]) == [];
    if Clashes(p, chunks[0]) {
      var chunk := chunks[0];
      var i, j :| 0 <= i < j < |chunk| && KeyOf(chunk[i]) == KeyOf(chunk[j]) && !Indexed(p, KeyOf(chunk[i]));
      assert Repeats(p, chunks, 0, i, j);
    }
    if i, j :| Repeats(p, chunks, 0, i, j) {
      assert KeyOf(chunks[0][i]) == KeyOf(chunks[0][j]);
    }
  }

  /** Replaying committed rows, in any chunks, is accepted, changes nothing and returns nothing. */
  lemma {:induction false} ReplayIsNoop(p: Payments, rows: seq<PaymentRow>, chunks: seq<seq<PaymentRow>>)
    requires Concat(chunks) == rows && forall r :: r in rows ==> Indexed(p, KeyOf(r))
    ensures ClashFree(p, chunks) && UpsertAll(p, rows) == p && Written(p, rows) == []
    decreases |chunks|
  {
    if chunks != [] {
      ReplayRows(p, chunks[0]);
      ReplayIsNoop(p, Concat(chunks[1..]), chunks[1..]);
      UpsertSplits(p, chunks[0], Concat(chunks[1..]));
      assert forall r :: r in chunks[0] ==> r in rows;
    }
  }

  lemma {:induction false} ReplayRows(p: Payments, rows: seq<PaymentRow>)
    requires forall r :: r in rows ==> Indexed(p, KeyOf(r))
    ensures UpsertAll(p, rows) == p && Written(p, rows) == []
    decreases |rows|
  {
    if rows != [] {
      assert rows[0] in rows;
      assert forall r :: r in rows[1..] ==> r in rows;
      ReplayRows(p, rows[1..]);
    }
  }
}
