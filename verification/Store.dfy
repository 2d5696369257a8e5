/** The tables this model uses: `payments` keyed by (merchant_id, tx_hash), `sync_state` keyed
    by merchant, `receipt_batches` keyed by selection hash with a unique batch id, and
    `settle_nonces` keyed by nonce. Every SQL statement is a function of table values. */
module Store {
  import opened Wrappers

  datatype Key = Key(merchantId: int, txHash: string)

  /** One row of `payments`; a nullable column is an Option. Times are instants. */
  datatype Row = Row(
    // owned by the ledger
    ledger: Option<int>, payer: Option<string>, amount: Option<string>, asset: Option<string>, ts: Option<string>,
    // owned by the merchant's report
    route: Option<string>, httpMethod: Option<string>, requestId: Option<string>, hookReportedAt: Option<int>,
    // owned by the anchoring flow
    batchId: Option<int>, receiptLeaf: Option<string>, receiptProof: Option<seq<string>>)

  type Payments = map<Key, Row>

  type SyncState = map<int, int>

  datatype Status = Previewed | Submitted | Recorded

  datatype ReceiptProof = ReceiptProof(leaf: string, proof: seq<string>)

  /** One row of `receipt_batches`, keyed by `selection_hash`. */
  datatype Batch = Batch(
    batchId: Option<int>, root: string, count: nat, anchorTx: Option<string>, status: Status,
    proofs: map<string, ReceiptProof>)

  type Batches = map<string, Batch>

  /** `settle_nonces`: when each nonce was first seen. */
  type Nonces = map<string, int>

  class Database {
    var payments: Payments
    var syncState: SyncState
    var batches: Batches
    var nonces: Nonces

    constructor ()
      ensures payments == map[] && syncState == map[] && batches == map[] && nonces == map[]
    {
      payments, syncState, batches, nonces := map[], map[], map[], map[];
    }
  }

  datatype PaymentRow = PaymentRow(
    merchantId: int, txHash: string, ledger: int, payer: string, amount: string, asset: string, ts: string)

  function KeyOf(r: PaymentRow): Key {
    Key(r.merchantId, r.txHash)
  }

  const EMPTY_ROW := Row(None, None, None, None, None, None, None, None, None, None, None, None)

  /** The ledger-owned columns as the transfer states them. */
  function WithLedger(row: Row, r: PaymentRow): Row {
    row.(ledger := Some(r.ledger), payer := Some(r.payer), amount := Some(r.amount), asset := Some(r.asset),
         ts := Some(r.ts))
  }

  function Lookup(p: Payments, key: Key): Option<Row> {
    if key in p then Some(p[key]) else None
  }

  /** The row carries an indexed transfer. */
  predicate Indexed(p: Payments, key: Key) {
    key in p && p[key].ledger.Some?
  }

  /** One tuple of `INSERT ... ON CONFLICT (merchant_id, tx_hash) DO UPDATE ... WHERE payments.ledger IS NULL`. */
  function Upsert(p: Payments, r: PaymentRow): Payments {
    var key := KeyOf(r);
    if key !in p then p[key := WithLedger(EMPTY_ROW, r)]
    else if p[key].ledger.None? then p[key := WithLedger(p[key], r)]
    else p
  }

  /** Row-by-row upserts, in order. */
  function UpsertAll(p: Payments, rows: seq<PaymentRow>): Payments
    decreases |rows|
  {
    if rows == [] then p else UpsertAll(Upsert(p, rows[0]), rows[1..])
  }

  /** `setLastSyncedLedger`: insert, or advance forward only. */
  function AdvanceCursor(s: SyncState, merchantId: int, ledger: int): SyncState {
    if merchantId in s && s[merchantId] >= ledger then s else s[merchantId := ledger]
  }
}
