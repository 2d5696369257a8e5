/** apps/web/src/lib/anchor.ts: previewing a batch of unanchored payments, recording it against
    an on-chain batch id, and serving proofs, over the `payments` and `receipt_batches` tables. */
module Anchor {
  import opened Wrappers
  import opened Bytes
  import opened Store
  import MerkleTree
  import MerkleSoundness
  import Merkle

  const MAX_BATCH_SIZE := 1000

  datatype AnchorablePayment = AnchorablePayment(txHash: string, ledger: int, ts: string)

  datatype BuiltPreview = BuiltPreview(
    selectionHash: string, root: string, count: nat, periodStart: int, periodEnd: int,
    startLedger: int, endLedger: int, proofs: map<string, ReceiptProof>)

  /** What stands outside the tables: the hash, `selectionHashOf` (a hash of the joined transaction
      hashes), `unixSeconds` (None where it throws) and the collation of `ORDER BY tx_hash`. */
  datatype Env = Env(
    sha: Sha, selectionHash: seq<string> -> string, unixSeconds: string -> Option<int>,
      collate: (string, string) -> bool)

  datatype AnchorError =
    | EmptySelection | BadTimestamp | BadHash(cause: Merkle.MerkleError)
    | UnknownSelection | RootMismatch | AlreadyAnchored | UniqueViolation
    | PaymentAlreadyAnchored(txHash: string) | PaymentNotFound(txHash: string) | CommitFailed

  /* ----- selection ----- */

  /** The merchants whose rows the connection may see. A connection opened for a merchant sees that one;
      `withClient` sets none, and then sees no payment under the forced policies of db.ts:594-599 and
      every one as a role that is exempt from them. */
  type Scope = int -> bool

  /** `loadUnanchored`'s WHERE clause. */
  predicate Eligible(p: Payments, key: Key, fromLedger: Option<int>, toLedger: Option<int>) {
    && key in p && p[key].ts.Some? && p[key].ledger.Some? && p[key].batchId.None?
    && (fromLedger.Some? ==> p[key].ledger.value >= fromLedger.value)
    && (toLedger.Some? ==> p[key].ledger.value <= toLedger.value)
  }

  predicate Precedes(env: Env, a: AnchorablePayment, b: AnchorablePayment) {
    a.ledger < b.ledger || (a.ledger == b.ledger && (a.txHash == b.txHash || env.collate(a.txHash, b.txHash)))
  }

  function AsPayment(p: Payments, key: Key): AnchorablePayment
    requires Indexed(p, key) && p[key].ts.Some?
  {
    AnchorablePayment(key.txHash, p[key].ledger.value, p[key].ts.value)
  }

  /** What the query returns: the eligible payments it may see, in (ledger, tx_hash) order, the first
      `MAX_BATCH_SIZE` of them; `keys` says which rows they are. */
  ghost predicate IsSelection(env: Env, p: Payments, sees: Scope, fromLedger: Option<int>, toLedger: Option<int>,
                              keys: seq<Key>, sel: seq<AnchorablePayment>) {
    && |keys| == |sel| <= MAX_BATCH_SIZE
    && (forall i :: 0 <= i < |sel| ==> sees(keys[i].merchantId) && Eligible(p, keys[i], fromLedger, toLedger) &&
                                       AsPayment(p, keys[i]) == sel[i])
    && (forall i, j :: 0 <= i < j < |sel| ==> keys[i] != keys[j] && Precedes(env, sel[i], sel[j]))
    && (forall key: Key :: sees(key.merchantId) && Eligible(p, key, fromLedger, toLedger) ==>
          key in keys ||
          (|sel| == MAX_BATCH_SIZE && forall i :: 0 <= i < |sel| ==> Precedes(env, sel[i], AsPayment(p, key))))
  }

  /** What a selection is: payments that the connection may see, indexed within the bounds and in no batch, in
      ascending ledger order and by hash within a ledger; and if fewer than 1000, all there are. */
  lemma SelectionIs(env: Env, p: Payments, sees: Scope, fromLedger: Option<int>, toLedger: Option<int>,
                    keys: seq<Key>, sel: seq<AnchorablePayment>, i: nat, j: nat, other: Key)
    requires IsSelection(env, p, sees, fromLedger, toLedger, keys, sel) && i < j <= |sel|
    ensures |keys| == |sel| <= 1000
    ensures var key := keys[i];
            && sees(key.merchantId) && key in p && p[key].batchId == None
            && p[key].ledger == Some(sel[i].ledger) && p[key].ts == Some(sel[i].ts) && key.txHash == sel[i].txHash
            && (fromLedger.Some? ==> fromLedger.value <= sel[i].ledger)
            && (toLedger.Some? ==> sel[i].ledger <= toLedger.value)
    ensures j < |sel| ==>
              keys[i] != keys[j] &&
              (sel[i].ledger < sel[j].ledger ||
               (sel[i].ledger == sel[j].ledger &&
                (sel[i].txHash == sel[j].txHash || env.collate(sel[i].txHash, sel[j].txHash))))
    ensures other in p && other !in keys && sees(other.merchantId) && p[other].batchId == None && p[other].ts != None &&
            p[other].ledger != None &&
            (fromLedger.Some? ==> fromLedger.value <= p[other].ledger.value) &&
            (toLedger.Some? ==> p[other].ledger.value <= toLedger.value) ==>
              |sel| == 1000 && sel[i].ledger <= p[other].ledger.value
  {
    assert keys[i] in keys;
  }

  /** The collation of the database compares any two hashes, and consistently. */
  ghost predicate IsCollation(env: Env) {
    (forall a, b :: env.collate(a, b) || env.collate(b, a)) &&
    (forall a, b, c :: env.collate(a, b) && env.collate(b, c) ==> env.collate(a, c))
  }

  /** Rows of the table in the order of the query. */
  ghost predicate InQueryOrder(env: Env, p: Payments, keys: seq<Key>) {
    && (forall i :: 0 <= i < |keys| ==> Indexed(p, keys[i]) && p[keys[i]].ts.Some?)
    && (forall i, j :: 0 <= i < j < |keys| ==>
          keys[i] != keys[j] && Precedes(env, AsPayment(p, keys[i]), AsPayment(p, keys[j])))
  }

  /** The query has an answer, whatever the table, the bounds and what the connection sees. */
  lemma SelectionExists(env: Env, p: Payments, sees: Scope, fromLedger: Option<int>, toLedger: Option<int>)
    returns (keys: seq<Key>, sel: seq<AnchorablePayment>)
    requires IsCollation(env)
    ensures IsSelection(env, p, sees, fromLedger, toLedger, keys, sel)
  {
    var eligible := set key | key in p && sees(key.merchantId) && Eligible(p, key, fromLedger, toLedger);
    var all := ListAll(env, p, eligible);
    var n := if |all| <= MAX_BATCH_SIZE then |all| else MAX_BATCH_SIZE;
    keys := all[..n];
    assert forall i :: 0 <= i < n ==> keys[i] in all;
    sel := seq(n, i requires 0 <= i < n => AsPayment(p, keys[i]));
    hide InQueryOrder, Precedes, IsCollation;
    ListedAre(env, p, all, n);
    forall i | 0 <= i < n
      ensures sees(keys[i].merchantId) && Eligible(p, keys[i], fromLedger, toLedger) && AsPayment(p, keys[i]) == sel[i]
    {
      assert keys[i] in eligible;
    }
    forall key: Key | sees(key.merchantId) && Eligible(p, key, fromLedger, toLedger)
      ensures key in keys ||
              (n == MAX_BATCH_SIZE && forall i :: 0 <= i < n ==> Precedes(env, sel[i], AsPayment(p, key)))
    {
      assert key in eligible;
      if key !in keys { LeftOutIsLater(env, p, all, n, key); }
    }
    hide Eligible;
  }

  lemma ListedAre(env: Env, p: Payments, all: seq<Key>, n: nat)
    requires InQueryOrder(env, p, all) && n <= |all|
    ensures forall i :: 0 <= i < n ==> Indexed(p, all[i]) && p[all[i]].ts.Some?
    ensures forall i, j :: 0 <= i < j < n ==>
              all[..n][i] != all[..n][j] && Precedes(env, AsPayment(p, all[..n][i]), AsPayment(p, all[..n][j]))
  {
    hide Precedes;
  }

  lemma LeftOutIsLater(env: Env, p: Payments, all: seq<Key>, n: nat, key: Key)
    requires InQueryOrder(env, p, all) && n <= |all| && key in all && key !in all[..n]
    ensures n < |all| && forall i :: 0 <= i < n ==> Precedes(env, AsPayment(p, all[i]), AsPayment(p, key))
  {
    var j :| 0 <= j < |all| && all[j] == key;
    assert forall i :: 0 <= i < n ==> all[..n][i] == all[i] && all[i] in all[..n];
    hide Precedes;
  }

  lemma {:induction false} ListAll(env: Env, p: Payments, rows: set<Key>) returns (keys: seq<Key>)
    requires IsCollation(env) && forall key :: key in rows ==> Indexed(p, key) && p[key].ts.Some?
    ensures InQueryOrder(env, p, keys) && forall key :: key in keys <==> key in rows
    decreases |rows|
  {
    keys := [];
    if rows != {} {
      var key :| key in rows;
      var rest := ListAll(env, p, rows - {key});
      keys := ListOne(env, p, rest, key);
    }
  }

  lemma {:induction false} ListOne(env: Env, p: Payments, keys: seq<Key>, key: Key) returns (r: seq<Key>)
    requires IsCollation(env) && InQueryOrder(env, p, keys) && key !in keys && Indexed(p, key) && p[key].ts.Some?
    ensures InQueryOrder(env, p, r) && forall k :: k in r <==> k in keys || k == key
  {
    if keys == [] || Precedes(env, AsPayment(p, key), AsPayment(p, keys[0])) {
      r := [key] + keys;
      if keys != [] {
        forall j | 0 <= j < |keys| ensures Precedes(env, AsPayment(p, key), AsPayment(p, keys[j])) {
          if j > 0 { assert Precedes(env, AsPayment(p, keys[0]), AsPayment(p, keys[j])); }
        }
      }
    } else {
      assert keys == [keys[0]] + keys[1..];
      var rest := ListOne(env, p, keys[1..], key);
      r := [keys[0]] + rest;
      forall j | 0 <= j < |rest|
        ensures keys[0] != rest[j] && Precedes(env, AsPayment(p, keys[0]), AsPayment(p, rest[j]))
      {
        if rest[j] != key {
          assert rest[j] in keys[1..];
          var i :| 0 <= i < |keys[1..]| && keys[1..][i] == rest[j];
          assert keys[i + 1] == rest[j];
        }
      }
    }
  }

  /** And an empty one means that there is nothing to anchor. */
  lemma EmptySelectionIs(env: Env, p: Payments, sees: Scope, fromLedger: Option<int>, toLedger: Option<int>, other: Key)
    requires IsSelection(env, p, sees, fromLedger, toLedger, [], [])
    requires other in p && sees(other.merchantId) && p[other].batchId == None && p[other].ts != None
    requires p[other].ledger != None
    ensures (fromLedger.Some? && p[other].ledger.value < fromLedger.value) ||
            (toLedger.Some? && p[other].ledger.value > toLedger.value)
  {
  }

  /* ----- preview ----- */

  function TxHashes(payments: seq<AnchorablePayment>): seq<string> {
    seq(|payments|, i requires 0 <= i < |payments| => payments[i].txHash)
  }

  /** A stored proof that anyone can check: the leaf is the receipt leaf of the transaction and
      `verifyReceipt` accepts it against the root. */
  predicate GoodProof(sha: Sha, txHash: string, proof: ReceiptProof, root: string) {
    Merkle.ReceiptLeaf(sha, txHash) == Ok(proof.leaf) &&
      Merkle.VerifySpec(sha, proof.leaf, proof.proof, root) == Ok(true)
  }

  /** The root of the tree over the receipt leaves, as text. */
  function RootText(sha: Sha, digests: seq<Digest>): string
    requires digests != []
  {
    EncodeHash(MerkleTree.Root(sha, MerkleSoundness.LeafHashes(sha, digests)))
  }

  /** What `buildPreview` returns for a selection. */
  ghost predicate BuiltFrom(env: Env, payments: seq<AnchorablePayment>, pv: BuiltPreview) {
    && payments != []
    && var n := |payments|;
    && Merkle.TxDigests(TxHashes(payments)).Some?
    && pv.selectionHash == env.selectionHash(TxHashes(payments))
    && pv.root == RootText(env.sha, Merkle.TxDigests(TxHashes(payments)).value)
    && pv.count == n
    && env.unixSeconds(payments[0].ts) == Some(pv.periodStart) &&
       env.unixSeconds(payments[n - 1].ts) == Some(pv.periodEnd)
    && pv.startLedger == payments[0].ledger && pv.endLedger == payments[n - 1].ledger
    && pv.proofs.Keys == (set tx | tx in TxHashes(payments))
    && (n <= MAX_BATCH_SIZE ==> forall tx :: tx in pv.proofs ==> GoodProof(env.sha, tx, pv.proofs[tx], pv.root))
  }

  method ReceiptLeaves(env: Env, payments: seq<AnchorablePayment>) returns (r: Result<seq<string>, AnchorError>)
    ensures r.Ok? <==> Merkle.TxDigests(TxHashes(payments)).Some?
    ensures r.Ok? ==> Merkle.AreReceiptLeaves(env.sha, r.value, TxHashes(payments))
  {
    var leaves := [];
    for i := 0 to |payments|
      invariant |leaves| == i
      invariant forall j :: 0 <= j < i ==> Merkle.ReceiptLeaf(env.sha, payments[j].txHash) == Ok(leaves[j])
    {
      var leaf := Merkle.ReceiptLeaf(env.sha, payments[i].txHash);
      if leaf.Err? {
        assert Merkle.TxBytes(TxHashes(payments)[i]).None?;
        return Err(BadHash(leaf.error));
      }
      leaves := leaves + [leaf.value];
    }
    forall i | 0 <= i < |payments| ensures Merkle.TxBytes(TxHashes(payments)[i]).Some? {
      assert Merkle.ReceiptLeaf(env.sha, payments[i].txHash) == Ok(leaves[i]);
    }
    return Ok(leaves);
  }

  lemma LeafProofIsGood(env: Env, payments: seq<AnchorablePayment>, leaves: seq<string>, batch: Merkle.BatchInfo,
                        i: nat)
    requires Merkle.AreReceiptLeaves(env.sha, leaves, TxHashes(payments)) && Merkle.IsBatchOf(env.sha, batch, leaves)
    requires i < |payments|
    ensures leaves[i] in batch.proofs
    ensures |payments| <= MAX_BATCH_SIZE ==>
              GoodProof(env.sha, payments[i].txHash, ReceiptProof(leaves[i], batch.proofs[leaves[i]]), batch.root)
  {
    hide Merkle.ReceiptLeaf, Merkle.VerifySpec, Merkle.NormaliseAll, Merkle.IsProofOf;
    Merkle.ReceiptLeafDigests(env.sha, leaves, TxHashes(payments));
    assert batch.leaves == leaves && leaves[i] in leaves;
    assert Merkle.ReceiptLeaf(env.sha, TxHashes(payments)[i]) == Ok(leaves[i]);
    if |payments| <= MAX_BATCH_SIZE {
      assert MerkleTree.Pow2(10) == 1024;
      Merkle.BatchProofsVerify(env.sha, batch, leaves, leaves[i], 10);
    }
  }

  /** The record `buildPreview` keys by transaction hash. */
  method CollectProofs(env: Env, payments: seq<AnchorablePayment>, leaves: seq<string>, batch: Merkle.BatchInfo)
    returns (proofs: map<string, ReceiptProof>)
    requires Merkle.AreReceiptLeaves(env.sha, leaves, TxHashes(payments)) && Merkle.IsBatchOf(env.sha, batch, leaves)
    ensures proofs.Keys == (set tx | tx in TxHashes(payments))
    ensures |payments| <= MAX_BATCH_SIZE ==>
              forall tx :: tx in proofs ==> GoodProof(env.sha, tx, proofs[tx], batch.root)
  {
    hide Merkle.ReceiptLeaf, Merkle.VerifySpec, Merkle.IsBatchOf, GoodProof;
    proofs := map[];
    for i := 0 to |payments|
      invariant proofs.Keys == (set tx | tx in TxHashes(payments)[..i])
      invariant |payments| <= MAX_BATCH_SIZE ==>
                  forall tx :: tx in proofs ==> GoodProof(env.sha, tx, proofs[tx], batch.root)
    {
      LeafProofIsGood(env, payments, leaves, batch, i);
      assert TxHashes(payments)[..i + 1] == TxHashes(payments)[..i] + [payments[i].txHash];
      proofs := proofs[payments[i].txHash := ReceiptProof(leaves[i], batch.proofs[leaves[i]])];
    }
    assert TxHashes(payments)[..|payments|] == TxHashes(payments);
  }

  method BuildPreview(env: Env, payments: seq<AnchorablePayment>) returns (r: Result<BuiltPreview, AnchorError>)
    ensures r.Ok? <==> payments != [] && Merkle.TxDigests(TxHashes(payments)).Some? &&
                       env.unixSeconds(payments[0].ts).Some? && env.unixSeconds(payments[|payments| - 1].ts).Some?
    ensures r.Ok? ==> BuiltFrom(env, payments, r.value)
    ensures payments == [] ==> r == Err(EmptySelection)
  {
    hide Merkle.ReceiptLeaf, Merkle.VerifySpec, Merkle.IsBatchOf, Merkle.LeafDigests, GoodProof;
    if payments == [] {
      return Err(EmptySelection);
    }
    var leaves := ReceiptLeaves(env, payments);
    if leaves.Err? {
      return Err(leaves.error);
    }
    Merkle.ReceiptLeafDigests(env.sha, leaves.value, TxHashes(payments));
    var built := Merkle.BuildBatch(env.sha, leaves.value);
    var batch := built.value;
    RootOfBatch(env, batch, leaves.value, TxHashes(payments));
    var start, end := env.unixSeconds(payments[0].ts), env.unixSeconds(payments[|payments| - 1].ts);
    if start.None? || end.None? {
      return Err(BadTimestamp);
    }
    var proofs := CollectProofs(env, payments, leaves.value, batch);
    return Ok(BuiltPreview(env.selectionHash(TxHashes(payments)), batch.root, |payments|, start.value, end.value,
                           payments[0].ledger, payments[|payments| - 1].ledger, proofs));
  }

  lemma RootOfBatch(env: Env, batch: Merkle.BatchInfo, leaves: seq<string>, txHashes: seq<string>)
    requires Merkle.IsBatchOf(env.sha, batch, leaves) && Merkle.AreReceiptLeaves(env.sha, leaves, txHashes)
    ensures Merkle.TxDigests(txHashes).Some? && txHashes != []
    ensures batch.root == RootText(env.sha, Merkle.TxDigests(txHashes).value)
  {
    Merkle.ReceiptLeafDigests(env.sha, leaves, txHashes);
  }

  /** What a preview says of its selection: how many payments it has, that they lie between its two ledgers, and
      that its two times are those of payments in these ledgers. */
  lemma PreviewSpansSelection(env: Env, p: Payments, sees: Scope, fromLedger: Option<int>, toLedger: Option<int>,
                              keys: seq<Key>, sel: seq<AnchorablePayment>, pv: BuiltPreview, i: nat)
    requires IsSelection(env, p, sees, fromLedger, toLedger, keys, sel) && BuiltFrom(env, sel, pv) && i < |sel|
    ensures pv.count == |sel| && pv.startLedger <= sel[i].ledger <= pv.endLedger
    ensures exists k :: 0 <= k < |sel| && sel[k].ledger == pv.startLedger &&
                        env.unixSeconds(sel[k].ts) == Some(pv.periodStart)
    ensures exists k :: 0 <= k < |sel| && sel[k].ledger == pv.endLedger &&
                        env.unixSeconds(sel[k].ts) == Some(pv.periodEnd)
    ensures pv.selectionHash == env.selectionHash(seq(|sel|, k requires 0 <= k < |sel| => sel[k].txHash))
    ensures sel[i].txHash in pv.proofs
  {
    hide GoodProof, RootText;
    var n := |sel|;
    assert 0 < i ==> Precedes(env, sel[0], sel[i]);
    assert i < n - 1 ==> Precedes(env, sel[i], sel[n - 1]);
    assert env.unixSeconds(sel[0].ts) == Some(pv.periodStart) && env.unixSeconds(sel[n - 1].ts) == Some(pv.periodEnd);
    assert TxHashes(sel)[i] == sel[i].txHash;
    assert TxHashes(sel) == seq(|sel|, k requires 0 <= k < |sel| => sel[k].txHash);
  }

  function PreviewedBatch(pv: BuiltPreview): Batch {
    Batch(None, pv.root, pv.count, None, Previewed, pv.proofs)
  }

  datatype Existing = Existing(batchId: int, status: Status, anchorTx: Option<string>)

  /** The first preview of a selection is kept; later ones only report what is stored. */
  function Persist(batches: Batches, pv: BuiltPreview): Batches {
    if pv.selectionHash in batches then batches else batches[pv.selectionHash := PreviewedBatch(pv)]
  }

  /** A preview adds its row unless the selection has one, and no other. */
  lemma PersistIs(batches: Batches, pv: BuiltPreview, sel: string)
    ensures var after := Persist(batches, pv);
            && (sel != pv.selectionHash || sel in batches ==>
                  (sel in after <==> sel in batches) && (sel in batches ==> after[sel] == batches[sel]))
            && pv.selectionHash in after
            && (pv.selectionHash !in batches ==>
                  var b := after[pv.selectionHash];
                  && b.root == pv.root && b.count == pv.count && b.proofs == pv.proofs
                  && b.batchId == None && b.anchorTx == None && b.status.Previewed?)
  {
  }

  method PersistPreview(db: Database, pv: BuiltPreview) returns (existing: Option<Existing>)
    modifies db`batches
    ensures db.batches == Persist(old(db.batches), pv)
    ensures existing.Some? <==> pv.selectionHash in old(db.batches)
    ensures existing.Some? ==> var row := old(db.batches)[pv.selectionHash];
                               var id := if row.batchId.Some? then row.batchId.value else 0;
                               existing.value == Existing(id, row.status, row.anchorTx)
  {
    if pv.selectionHash in db.batches {
      var row := db.batches[pv.selectionHash];
      return Some(Existing(if row.batchId.Some? then row.batchId.value else 0, row.status, row.anchorTx));
    }
    db.batches := db.batches[pv.selectionHash := PreviewedBatch(pv)];
    return None;
  }

  /* ----- record ----- */

  datatype RecordInput = RecordInput(merchantId: int, selectionHash: string, batchId: int, anchorTx: string,
                                     root: string)

  datatype RecordOutcome = RecordOutcome(batchId: int, alreadyRecorded: bool)

  predicate IsAlreadyRecorded(row: Batch, input: RecordInput) {
    row.status == Recorded && row.batchId == Some(input.batchId)
  }

  /** `UNIQUE (batch_id)` would be broken by giving this selection that id. */
  predicate IdTaken(batches: Batches, input: RecordInput) {
    exists sel :: sel in batches && sel != input.selectionHash && batches[sel].batchId == Some(input.batchId)
  }

  /** The payment can carry the batch: it exists and carries no other. */
  predicate Free(p: Payments, merchantId: int, batchId: int, txHash: string) {
    Key(merchantId, txHash) in p &&
      (p[Key(merchantId, txHash)].batchId.None? || p[Key(merchantId, txHash)].batchId == Some(batchId))
  }

  predicate CanRecord(p: Payments, batches: Batches, input: RecordInput) {
    && input.selectionHash in batches
    && var row := batches[input.selectionHash];
    && row.root == input.root
    && (IsAlreadyRecorded(row, input) ||
        (&& (row.batchId.None? || row.batchId == Some(input.batchId))
         && !IdTaken(batches, input)
         && forall tx :: tx in row.proofs ==> Free(p, input.merchantId, input.batchId, tx)))
  }

  /** What can be recorded, column by column. */
  lemma RecordableExactly(p: Payments, batches: Batches, input: RecordInput)
    ensures CanRecord(p, batches, input) <==>
            input.selectionHash in batches && batches[input.selectionHash].root == input.root &&
            var row := batches[input.selectionHash];
            || (row.status.Recorded? && row.batchId == Some(input.batchId))
            || (&& row.batchId in {None, Some(input.batchId)}
                && (forall sel :: sel in batches && batches[sel].batchId == Some(input.batchId) ==>
                    sel == input.selectionHash)
                && forall tx :: tx in row.proofs ==>
                     var key := Key(input.merchantId, tx); key in p && p[key].batchId in {None, Some(input.batchId)})
  {
  }

  function Stamp(row: Row, batchId: int, proof: ReceiptProof): Row {
    row.(batchId := Some(batchId), receiptLeaf := Some(proof.leaf), receiptProof := Some(proof.proof))
  }

  /** The UPDATEs of the proofs in `done`: each writes only where `batch_id IS NULL`. */
  function Stamped(p: Payments, input: RecordInput, proofs: map<string, ReceiptProof>, done: set<string>): Payments
    requires done <= proofs.Keys
  {
    map key | key in p ::
      if key.merchantId == input.merchantId && key.txHash in done && p[key].batchId.None?
      then Stamp(p[key], input.batchId, proofs[key.txHash]) else p[key]
  }

  function RecordedBatch(row: Batch, input: RecordInput): Batch {
    row.(batchId := Some(input.batchId), anchorTx := Some(input.anchorTx), status := Recorded)
  }

  /** The committed effect of recording. */
  function RecordPayments(p: Payments, batches: Batches, input: RecordInput): Payments
    requires CanRecord(p, batches, input)
  {
    var row := batches[input.selectionHash];
    if IsAlreadyRecorded(row, input) then p else Stamped(p, input, row.proofs, row.proofs.Keys)
  }

  function RecordBatches(p: Payments, batches: Batches, input: RecordInput): Batches
    requires CanRecord(p, batches, input)
  {
    var row := batches[input.selectionHash];
    if IsAlreadyRecorded(row, input) then batches else batches[input.selectionHash := RecordedBatch(row, input)]
  }

  /** What a first record writes: the id, the transaction and the status into the row of its selection; the id,
      the leaf and the proof that the row stores into each payment it lists; and nothing else. */
  lemma RecordIs(p: Payments, batches: Batches, input: RecordInput, sel: string, key: Key)
    requires CanRecord(p, batches, input)
    requires !(batches[input.selectionHash].status.Recorded? &&
               batches[input.selectionHash].batchId == Some(input.batchId))
    ensures var q, after, row := RecordPayments(p, batches, input), RecordBatches(p, batches, input),
                                 batches[input.selectionHash];
            && after.Keys == batches.Keys && q.Keys == p.Keys
            && (sel in batches && sel != input.selectionHash ==> after[sel] == batches[sel])
            && after[input.selectionHash] ==
               Batch(Some(input.batchId), row.root, row.count, Some(input.anchorTx), Recorded, row.proofs)
            && (key in p ==>
                  if key.merchantId == input.merchantId && key.txHash in row.proofs && p[key].batchId == None then
                    && q[key].batchId == Some(input.batchId)
                    && q[key].receiptLeaf == Some(row.proofs[key.txHash].leaf)
                    && q[key].receiptProof == Some(row.proofs[key.txHash].proof)
                    && SameButStamp(p[key], q[key])
                  else q[key] == p[key])
  {
  }

  /** The columns that anchoring does not own. */
  predicate SameButStamp(a: Row, b: Row) {
    && a.ledger == b.ledger && a.payer == b.payer && a.amount == b.amount && a.asset == b.asset && a.ts == b.ts
    && a.route == b.route && a.httpMethod == b.httpMethod && a.requestId == b.requestId
    && a.hookReportedAt == b.hookReportedAt
  }

  lemma StampOne(p: Payments, input: RecordInput, proofs: map<string, ReceiptProof>, done: set<string>, tx: string)
    requires done <= proofs.Keys && tx in proofs && tx !in done
    ensures var key, q := Key(input.merchantId, tx), Stamped(p, input, proofs, done);
            Stamped(p, input, proofs, done + {tx}) ==
            if key in p && p[key].batchId.None? then q[key := Stamp(p[key], input.batchId, proofs[tx])] else q
  {
  }

  /** The error names a listed payment that is not there, or is in another batch. */
  predicate ThrownByPayment(p: Payments, input: RecordInput, proofs: map<string, ReceiptProof>, e: AnchorError) {
    match e
    case PaymentNotFound(tx) => tx in proofs && Key(input.merchantId, tx) !in p
    case PaymentAlreadyAnchored(tx) =>
      tx in proofs && Key(input.merchantId, tx) in p &&
      p[Key(input.merchantId, tx)].batchId != None && p[Key(input.merchantId, tx)].batchId != Some(input.batchId)
    case _ => false
  }

  /** The loop over the stored proofs: stamp each payment, or throw at the first that cannot carry
      the batch. The order of a JSON object read back from the database is not fixed. */
  method StampPayments(db: Database, input: RecordInput, proofs: map<string, ReceiptProof>)
    returns (thrown: Option<AnchorError>)
    modifies db`payments
    ensures thrown.None? <==> forall tx :: tx in proofs ==> Free(old(db.payments), input.merchantId, input.batchId, tx)
    ensures thrown.None? ==> db.payments == Stamped(old(db.payments), input, proofs, proofs.Keys)
    ensures thrown.Some? ==> ThrownByPayment(old(db.payments), input, proofs, thrown.value)
  {
    ghost var before := db.payments;
    var todo := proofs.Keys;
    ghost var done: set<string> := {};
    assert Stamped(before, input, proofs, {}) == before;
    while todo != {}
      invariant done <= proofs.Keys && todo == proofs.Keys - done
      invariant db.payments == Stamped(before, input, proofs, done)
      invariant forall tx :: tx in done ==> Free(before, input.merchantId, input.batchId, tx)
      decreases |todo|
    {
      var tx :| tx in todo;
      var key := Key(input.merchantId, tx);
      assert key in db.payments ==> db.payments[key] == before[key];
      StampOne(before, input, proofs, done, tx);
      if key in db.payments && db.payments[key].batchId.None? {
        db.payments := db.payments[key := Stamp(db.payments[key], input.batchId, proofs[tx])];
      } else {
        var existingId := if key in db.payments then db.payments[key].batchId else None;
        if existingId.Some? && existingId.value != input.batchId {
          return Some(PaymentAlreadyAnchored(tx));
        }
        if existingId.None? {
          return Some(PaymentNotFound(tx));
        }
      }
      todo := todo - {tx};
      done := done + {tx};
    }
    assert done == proofs.Keys;
    return None;
  }

  /** Which error a record ends in: the selection is unknown, then the root differs, then it has another id, then
      the id is another selection's, then a payment cannot carry it. */
  predicate ThrownByRecord(p: Payments, batches: Batches, input: RecordInput, e: AnchorError) {
    if input.selectionHash !in batches then e == UnknownSelection
    else
      var row := batches[input.selectionHash];
      if row.root != input.root then e == RootMismatch
      else if row.batchId != None && row.batchId != Some(input.batchId) then e == AlreadyAnchored
      else if IdTaken(batches, input) then
        e == UniqueViolation
      else ThrownByPayment(p, input, row.proofs, e)
  }

  /** The transaction body: writes as it goes, and may throw with writes half done. */
  method RecordAnchoredBatchTx(db: Database, input: RecordInput) returns (r: Result<RecordOutcome, AnchorError>)
    modifies db`payments, db`batches
    ensures r.Ok? <==> CanRecord(old(db.payments), old(db.batches), input)
    ensures r.Ok? ==> db.payments == RecordPayments(old(db.payments), old(db.batches), input) &&
                      db.batches == RecordBatches(old(db.payments), old(db.batches), input) &&
                      r.value == RecordOutcome(input.batchId,
                                               IsAlreadyRecorded(old(db.batches)[input.selectionHash], input))
    ensures r.Err? ==> ThrownByRecord(old(db.payments), old(db.batches), input, r.error)
  {
    if input.selectionHash !in db.batches {
      return Err(UnknownSelection);
    }
    var row := db.batches[input.selectionHash];
    if row.root != input.root {
      return Err(RootMismatch);
    }
    if row.status == Recorded && row.batchId == Some(input.batchId) {
      return Ok(RecordOutcome(input.batchId, true));
    }
    if row.batchId.Some? && row.batchId.value != input.batchId {
      return Err(AlreadyAnchored);
    }
    if IdTaken(db.batches, input) {
      return Err(UniqueViolation);
    }
    var submitted := row.(batchId := Some(input.batchId), anchorTx := Some(input.anchorTx), status := Submitted);
    db.batches := db.batches[input.selectionHash := submitted];
    var stamped := StampPayments(db, input, row.proofs);
    if stamped.Some? {
      return Err(stamped.value);
    }
    db.batches := db.batches[input.selectionHash := db.batches[input.selectionHash].(status := Recorded)];
    return Ok(RecordOutcome(input.batchId, false));
  }

  /** All of it commits or none of it: `fault` is a failure of COMMIT itself. */
  method RecordAnchoredBatch(db: Database, input: RecordInput, fault: bool)
    returns (r: Result<RecordOutcome, AnchorError>)
    modifies db`payments, db`batches
    ensures r.Ok? <==> CanRecord(old(db.payments), old(db.batches), input) && !fault
    ensures r.Err? ==> db.payments == old(db.payments) && db.batches == old(db.batches)
    ensures r.Ok? ==> db.payments == RecordPayments(old(db.payments), old(db.batches), input) &&
                      db.batches == RecordBatches(old(db.payments), old(db.batches), input) &&
                      r.value == RecordOutcome(input.batchId,
                                               IsAlreadyRecorded(old(db.batches)[input.selectionHash], input))
    ensures r.Err? && !fault ==> ThrownByRecord(old(db.payments), old(db.batches), input, r.error)
    ensures CanRecord(old(db.payments), old(db.batches), input) && fault ==> r == Err(CommitFailed)
    ensures r.Ok? && r.value.alreadyRecorded ==> db.payments == old(db.payments) && db.batches == old(db.batches)
  {
    var payments, batches := db.payments, db.batches;
    r := RecordAnchoredBatchTx(db, input);
    if r.Ok? && fault {
      r := Err(CommitFailed);
    }
    if r.Err? {
      db.payments, db.batches := payments, batches;
    }
  }

  /* ----- serving proofs ----- */

  datatype Served = Served(txHash: string, batchId: int, leaf: Option<string>, proof: Option<seq<string>>, root: string)

  /** The rows of `getProof`'s join for a transaction hash, as far as the connection may see them. */
  ghost predicate Serves(p: Payments, batches: Batches, sees: Scope, key: Key, sel: string, s: Served) {
    && key in p && sees(key.merchantId) && sel in batches && p[key].batchId.Some?
    && batches[sel].batchId == p[key].batchId && batches[sel].status == Recorded
    && s == Served(key.txHash, p[key].batchId.value, p[key].receiptLeaf, p[key].receiptProof, batches[sel].root)
  }

  method GetProof(db: Database, sees: Scope, txHash: string) returns (r: Option<Served>)
    ensures r.Some? ==>
              exists key: Key, sel :: key.txHash == txHash && Serves(db.payments, db.batches, sees, key, sel, r.value)
    ensures r.None? ==>
              forall key: Key, sel, s :: key.txHash == txHash ==> !Serves(db.payments, db.batches, sees, key, sel, s)
  {
    var keys := db.payments.Keys;
    while keys != {}
      invariant keys <= db.payments.Keys
      invariant forall key: Key, sel, s :: key in db.payments && key !in keys && key.txHash == txHash ==>
                  !Serves(db.payments, db.batches, sees, key, sel, s)
      decreases |keys|
    {
      var key :| key in keys;
      if key.txHash == txHash && sees(key.merchantId) && db.payments[key].batchId.Some? {
        var row := db.payments[key];
        if exists sel ::
          sel in db.batches && db.batches[sel].batchId == row.batchId && db.batches[sel].status == Recorded
        {
          var sel :| sel in db.batches && db.batches[sel].batchId == row.batchId && db.batches[sel].status == Recorded;
          var served := Served(txHash, row.batchId.value, row.receiptLeaf, row.receiptProof, db.batches[sel].root);
          assert Serves(db.payments, db.batches, sees, key, sel, served);
          return Some(served);
        }
      }
      keys := keys - {key};
    }
    return None;
  }
}
