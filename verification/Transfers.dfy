/** The transfers of a chain to one merchant, and what a payments table shows of them. */
module Transfers {
  import opened Wrappers
  import opened Chain
  import opened Store
  import opened InsertPayments
  import Settlement

  datatype World = World(decode: Decoder, merchant: Merchant)

  /* ----- transfers of a chain ----- */

  predicate HasRow(w: World, e: RawEvent, r: PaymentRow) {
    RowOf(w.decode, w.merchant, e) == Some(r)
  }

  ghost predicate OnChain(w: World, chain: seq<RawEvent>, r: PaymentRow) {
    exists e :: e in chain && HasRow(w, e, r)
  }

  lemma RowMerchant(w: World, e: RawEvent, r: PaymentRow)
    requires HasRow(w, e, r)
    ensures r.merchantId == w.merchant.id && r.ledger == e.ledger
  {
  }

  /** A transaction is in one ledger. */
  ghost predicate OneLedgerPerTx(w: World, chain: seq<RawEvent>) {
    forall e, f, r, s :: e in chain && f in chain && HasRow(w, e, r) && HasRow(w, f, s) && KeyOf(r) == KeyOf(s) ==>
      r.ledger == s.ledger
  }

  /** The transaction of the key makes at most one transfer to the merchant. */
  ghost predicate Lone(w: World, chain: seq<RawEvent>, key: Key) {
    forall r, s :: OnChain(w, chain, r) && OnChain(w, chain, s) && KeyOf(r) == key && KeyOf(s) == key ==> r == s
  }

  /** A chain that a node with this head can report. */
  ghost predicate IsChain(w: World, chain: seq<RawEvent>, head: int) {
    Ordered(chain) && OneLedgerPerTx(w, chain) && forall e :: e in chain ==> e.ledger <= head
  }

  /* ----- what a table shows ----- */

  /** The ledger-owned columns of a row are those of a transfer. */
  predicate LedgerIs(row: Row, r: PaymentRow) {
    row.ledger == Some(r.ledger) && row.payer == Some(r.payer) && row.amount == Some(r.amount) &&
    row.asset == Some(r.asset) && row.ts == Some(r.ts)
  }

  predicate Shows(p: Payments, r: PaymentRow) {
    Indexed(p, KeyOf(r)) && LedgerIs(p[KeyOf(r)], r)
  }

  /** A row shows one transfer. */
  lemma ShownIsUnique(p: Payments, r: PaymentRow, s: PaymentRow)
    requires Shows(p, r) && Shows(p, s) && KeyOf(r) == KeyOf(s)
    ensures r == s
  {
  }

  /** If the key is indexed it shows some transfer. */
  ghost predicate BackedAt(p: Payments, key: Key) {
    Indexed(p, key) ==> exists r :: KeyOf(r) == key && Shows(p, r)
  }

  /** If the key is indexed it shows a transfer of the chain. */
  ghost predicate SoundAt(w: World, chain: seq<RawEvent>, p: Payments, key: Key) {
    Indexed(p, key) ==> exists r :: KeyOf(r) == key && OnChain(w, chain, r) && Shows(p, r)
  }

  /** Every indexed row of the merchant shows a transfer; and one of the chain, but for the stale keys. */
  ghost predicate Sound(w: World, chain: seq<RawEvent>, p: Payments, stale: set<Key>) {
    forall key: Key :: key.merchantId == w.merchant.id ==>
           BackedAt(p, key) && (key !in stale ==> SoundAt(w, chain, p, key))
  }

  /** A sound key carries the ledger of its transaction. */
  lemma IndexedLedger(w: World, chain: seq<RawEvent>, p: Payments, r: PaymentRow) returns (s: PaymentRow)
    requires OneLedgerPerTx(w, chain) && OnChain(w, chain, r)
    requires SoundAt(w, chain, p, KeyOf(r)) && Indexed(p, KeyOf(r))
    ensures KeyOf(s) == KeyOf(r) && OnChain(w, chain, s) && s.ledger == r.ledger && Shows(p, s)
    ensures p[KeyOf(r)].ledger == Some(r.ledger)
  {
    s :| KeyOf(s) == KeyOf(r) && OnChain(w, chain, s) && Shows(p, s);
    var e :| e in chain && HasRow(w, e, r);
    var f :| f in chain && HasRow(w, f, s);
  }

  /* ----- inserts and reports ----- */

  lemma InsertSoundAt(w: World, chain: seq<RawEvent>, p: Payments, events: seq<RawEvent>, key: Key)
    requires key.merchantId == w.merchant.id && forall e :: e in events ==> e in chain
    ensures var q := UpsertAll(p, RowsOf(w.decode, w.merchant, events));
            (SoundAt(w, chain, p, key) ==> SoundAt(w, chain, q, key)) && (BackedAt(p, key) ==> BackedAt(q, key))
  {
    var rows := RowsOf(w.decode, w.merchant, events);
    var q := UpsertAll(p, rows);
    UpsertAllAt(p, rows, key);
    hide UpsertAll, RowsOf, RowOf;
    if Indexed(p, key) {
      assert q[key] == p[key];
    } else if Indexed(q, key) {
      var r := FirstWith(rows, key);
      RowsOfMembers(w.decode, w.merchant, events, r);
      assert OnChain(w, chain, r) && Shows(q, r);
    }
  }

  /** Inserting delivered events indexes them all and nothing that is not on the chain. */
  lemma InsertSound(w: World, chain: seq<RawEvent>, p: Payments, stale: set<Key>, events: seq<RawEvent>)
    requires Sound(w, chain, p, stale) && forall e :: e in events ==> e in chain
    ensures var q := UpsertAll(p, RowsOf(w.decode, w.merchant, events));
            Sound(w, chain, q, stale) && (forall key :: Indexed(p, key) ==> Indexed(q, key)) &&
            (forall e, r :: e in events && HasRow(w, e, r) ==> Indexed(q, KeyOf(r)))
  {
    var rows := RowsOf(w.decode, w.merchant, events);
    var q := UpsertAll(p, rows);
    hide UpsertAll, RowsOf, RowOf, SoundAt, BackedAt;
    forall key: Key | key.merchantId == w.merchant.id
      ensures BackedAt(q, key) && (key !in stale ==> SoundAt(w, chain, q, key))
    {
      InsertSoundAt(w, chain, p, events, key);
    }
    forall key ensures Indexed(p, key) ==> Indexed(q, key) {
      UpsertAllAt(p, rows, key);
    }
    forall e, r | e in events && HasRow(w, e, r) ensures Indexed(q, KeyOf(r)) {
      RowsOfMembers(w.decode, w.merchant, events, r);
      assert HasKey(rows, KeyOf(r));
      UpsertAllAt(p, rows, KeyOf(r));
    }
  }

  /** A report leaves the ledger-owned columns of every indexed row as they were. */
  lemma ReportSound(w: World, chain: seq<RawEvent>, p: Payments, stale: set<Key>, key: Key, s: Settlement.Report)
    requires Sound(w, chain, p, stale)
    ensures var q := p[key := Settlement.ApplyReport(Lookup(p, key), s)];
            Sound(w, chain, q, stale) && forall k :: Indexed(p, k) <==> Indexed(q, k)
  {
  }

  /* ----- another chain ----- */

  predicate Within(ledger: int, upto: Option<int>) {
    upto.Some? && ledger <= upto.value
  }

  /** The chains differ in what the key's transaction does: a transfer of the old one is gone, or the new
      one has another up to ledger `upto`. */
  ghost predicate Moved(w: World, before: seq<RawEvent>, after: seq<RawEvent>, upto: Option<int>, key: Key) {
    || (exists r :: KeyOf(r) == key && OnChain(w, before, r) && !OnChain(w, after, r))
    || (exists r :: KeyOf(r) == key && OnChain(w, after, r) && Within(r.ledger, upto) && !OnChain(w, before, r))
  }

  /** The table has a row for the key, or should have up to ledger `upto`. */
  ghost predicate Matters(w: World, p: Payments, chain: seq<RawEvent>, upto: Option<int>, key: Key) {
    Indexed(p, key) || exists r :: KeyOf(r) == key && OnChain(w, chain, r) && Within(r.ledger, upto)
  }

  function KeysOn(w: World, chain: seq<RawEvent>): set<Key> {
    set e | e in chain && RowOf(w.decode, w.merchant, e).Some? :: KeyOf(RowOf(w.decode, w.merchant, e).value)
  }

  /** The keys that a table `p` has wrong once chain `before` has become `after`: those that were stale or
      have moved, as far as they matter. */
  ghost function StaleKeys(w: World, before: seq<RawEvent>, after: seq<RawEvent>, p: Payments, upto: Option<int>,
                           stale: set<Key>)
    : set<Key>
  {
    set key | key in stale + KeysOn(w, before) + KeysOn(w, after) &&
              (key in stale || Moved(w, before, after, upto, key)) && Matters(w, p, after, upto, key)
  }

  lemma StaleKeysAre(w: World, before: seq<RawEvent>, after: seq<RawEvent>, p: Payments, upto: Option<int>,
                     stale: set<Key>, key: Key)
    ensures key in StaleKeys(w, before, after, p, upto, stale) <==>
            (key in stale || Moved(w, before, after, upto, key)) && Matters(w, p, after, upto, key)
  {
  }

  /** Rows kept from a table that was sound for the old chain are sound for the new one, but for the keys
      that become stale. */
  lemma SoundAfter(w: World, before: seq<RawEvent>, after: seq<RawEvent>, p: Payments, q: Payments, upto: Option<int>,
                   stale: set<Key>)
    requires Sound(w, before, p, stale) && forall key :: Indexed(q, key) ==> Indexed(p, key) && q[key] == p[key]
    ensures Sound(w, after, q, StaleKeys(w, before, after, q, upto, stale))
  {
  }

}
