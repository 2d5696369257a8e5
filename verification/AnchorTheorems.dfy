/** Anchoring over whole runs: selections read and later previewed, records, retries, failed records,
    indexing, reports and rollbacks, of any merchants and in any order. */
module AnchorTheorems {
  import opened Wrappers
  import opened Bytes
  import opened Store
  import opened Anchor
  import Merkle
  import MerkleTree
  import MerkleSoundness
  import Sets
  import Settlement
  import Sync

  /** `loaded` holds the selections that requests have read and not yet persisted a preview of. */
  datatype State = State(payments: Payments, batches: Batches, loaded: map<nat, seq<AnchorablePayment>>)

  datatype Step =
    | Load(id: nat, sees: Scope, fromLedger: Option<int>, toLedger: Option<int>, keys: seq<Key>,
           selection: seq<AnchorablePayment>)
    | Preview(id: nat, preview: BuiltPreview)
    | Record(input: RecordInput, fault: bool)
    | Index(row: PaymentRow)
    | Report(merchantId: int, report: Settlement.Report)
    | Rewind(merchantId: int, ledger: int)

  /** What is fixed over a run: the environment, and whether every query that selects payments sees the
      rows of one merchant only. */
  datatype World = World(env: Env, scoped: bool)

  ghost predicate OneMerchant(sees: Scope) {
    forall a, b :: sees(a) && sees(b) ==> a == b
  }

  /** A request loads what the query returns at that moment and previews what it loaded, however much
      later; the other steps are always possible. */
  ghost predicate Enabled(w: World, st: State, step: Step) {
    match step
    case Load(id, sees, from, to, keys, sel) =>
      id !in st.loaded && IsSelection(w.env, st.payments, sees, from, to, keys, sel) && (w.scoped ==> OneMerchant(sees))
    case Preview(id, pv) => id in st.loaded && BuiltFrom(w.env, st.loaded[id], pv)
    case _ => true
  }

  /** A record that throws, for whatever reason, changes nothing. */
  function Next(st: State, step: Step): State {
    match step
    case Load(id, _, _, _, _, sel) => st.(loaded := st.loaded[id := sel])
    case Preview(id, pv) => st.(batches := Persist(st.batches, pv), loaded := st.loaded - {id})
    case Record(input, fault) =>
      if CanRecord(st.payments, st.batches, input) && !fault then
        st.(payments := RecordPayments(st.payments, st.batches, input),
            batches := RecordBatches(st.payments, st.batches, input))
      else st
    case Index(row) => st.(payments := Upsert(st.payments, row))
    case Report(m, s) =>
      var key := Settlement.ReportKey(m, s);
      st.(payments := st.payments[key := Settlement.ApplyReport(Lookup(st.payments, key), s)])
    case Rewind(m, ledger) => st.(payments := Sync.PurgeAbove(st.payments, m, ledger))
  }

  /* ----- what every step keeps, rollback included ----- */

  ghost predicate GoodBatch(w: World, b: Batch) {
    && (forall tx :: tx in b.proofs ==> GoodProof(w.env.sha, tx, b.proofs[tx], b.root))
    && b.count >= |b.proofs| && (w.scoped ==> b.count == |b.proofs|)
    && ((b.status == Previewed && b.batchId.None?) || (b.status == Recorded && b.batchId.Some?))
  }

  ghost predicate GoodBatches(w: World, batches: Batches) {
    forall sel :: sel in batches ==> GoodBatch(w, batches[sel])
  }

  /** The payment is stamped with exactly what the batch stores for it. */
  predicate Carries(row: Row, b: Batch, txHash: string) {
    txHash in b.proofs && row.batchId == b.batchId &&
    row.receiptLeaf == Some(b.proofs[txHash].leaf) && row.receiptProof == Some(b.proofs[txHash].proof)
  }

  /** `UNIQUE (batch_id)`. */
  predicate IdsUnique(batches: Batches) {
    forall a, b ::
      a in batches && b in batches && batches[a].batchId.Some? && batches[a].batchId == batches[b].batchId ==> a == b
  }

  /** A recorded batch that lists the payment and gave it its stamp. */
  predicate StampedBy(batches: Batches, sel: string, row: Row, txHash: string) {
    sel in batches && batches[sel].batchId.Some? && Carries(row, batches[sel], txHash)
  }

  ghost predicate Listed(p: Payments, batches: Batches, key: Key)
    requires key in p
  {
    p[key].batchId.Some? ==> exists sel :: StampedBy(batches, sel, p[key], key.txHash)
  }

  ghost predicate AnchoredListed(p: Payments, batches: Batches) {
    forall key :: key in p ==> Listed(p, batches, key)
  }

  /** A loaded selection fits a batch, and when queries see one merchant it names each transaction once. */
  ghost predicate GoodSelection(w: World, sel: seq<AnchorablePayment>) {
    |sel| <= MAX_BATCH_SIZE && (w.scoped ==> forall i, j :: 0 <= i < j < |sel| ==> sel[i].txHash != sel[j].txHash)
  }

  ghost predicate GoodLoads(w: World, loaded: map<nat, seq<AnchorablePayment>>) {
    forall id :: id in loaded ==> GoodSelection(w, loaded[id])
  }

  ghost predicate Inv(w: World, st: State) {
    GoodBatches(w, st.batches) && IdsUnique(st.batches) && AnchoredListed(st.payments, st.batches) &&
      GoodLoads(w, st.loaded)
  }

  lemma LoadKeeps(w: World, st: State, step: Step)
    requires Inv(w, st) && step.Load? && Enabled(w, st, step)
    ensures Inv(w, Next(st, step))
  {
  }

  lemma {:induction false} DistinctCount(s: seq<string>)
    ensures |set x | x in s| <= |s|
    ensures (forall i, j :: 0 <= i < j < |s| ==> s[i] != s[j]) ==> |set x | x in s| == |s|
  {
    if s != [] {
      var front, last := s[..|s| - 1], s[|s| - 1];
      DistinctCount(front);
      assert (set x | x in s) == (set x | x in front) + {last};
    }
  }

  lemma BuiltIsGood(w: World, sel: seq<AnchorablePayment>, pv: BuiltPreview)
    requires BuiltFrom(w.env, sel, pv) && GoodSelection(w, sel)
    ensures GoodBatch(w, PreviewedBatch(pv))
  {
    hide GoodProof;
    DistinctCount(TxHashes(sel));
  }

  lemma PersistKeeps(w: World, p: Payments, batches: Batches, pv: BuiltPreview)
    requires GoodBatches(w, batches) && IdsUnique(batches) && AnchoredListed(p, batches) &&
             GoodBatch(w, PreviewedBatch(pv))
    ensures GoodBatches(w, Persist(batches, pv)) && IdsUnique(Persist(batches, pv)) &&
            AnchoredListed(p, Persist(batches, pv))
  {
    hide GoodBatch, Carries;
    var after := Persist(batches, pv);
    forall key | key in p && p[key].batchId.Some? ensures exists sel :: StampedBy(after, sel, p[key], key.txHash) {
      assert Listed(p, batches, key);
      var sel :| StampedBy(batches, sel, p[key], key.txHash);
      assert StampedBy(after, sel, p[key], key.txHash);
    }
  }

  lemma PreviewKeeps(w: World, st: State, step: Step)
    requires Inv(w, st) && step.Preview? && Enabled(w, st, step)
    ensures Inv(w, Next(st, step))
  {
    hide GoodBatches, GoodBatch, IdsUnique, AnchoredListed, BuiltFrom, Persist, GoodSelection;
    BuiltIsGood(w, st.loaded[step.id], step.preview);
    PersistKeeps(w, st.payments, st.batches, step.preview);
  }

  /** Recording for the first time: the batch had no id and its id was nobody's. */
  predicate FirstRecording(p: Payments, batches: Batches, input: RecordInput) {
    && CanRecord(p, batches, input) && !IsAlreadyRecorded(batches[input.selectionHash], input)
    && batches[input.selectionHash].batchId.None?
    && (forall sel :: sel in batches ==> batches[sel].batchId != Some(input.batchId))
    && forall key :: key in p ==> p[key].batchId != Some(input.batchId)
  }

  /** A selection that is recorded now was only previewed, and no batch or payment carries the new id yet. */
  lemma NewIdIsFresh(w: World, st: State, input: RecordInput)
    requires Inv(w, st) && CanRecord(st.payments, st.batches, input)
    requires !IsAlreadyRecorded(st.batches[input.selectionHash], input)
    ensures FirstRecording(st.payments, st.batches, input)
  {
  }

  lemma RecordedIsGood(w: World, row: Batch, input: RecordInput)
    requires GoodBatch(w, row)
    ensures GoodBatch(w, RecordedBatch(row, input))
  {
  }

  lemma RecordKeepsListed(p: Payments, batches: Batches, input: RecordInput)
    requires AnchoredListed(p, batches) && FirstRecording(p, batches, input)
    ensures AnchoredListed(RecordPayments(p, batches, input), RecordBatches(p, batches, input))
  {
    var q, after := RecordPayments(p, batches, input), RecordBatches(p, batches, input);
    forall key | key in q && q[key].batchId.Some? ensures exists sel :: StampedBy(after, sel, q[key], key.txHash) {
      assert Listed(p, batches, key);
      if p[key].batchId.Some? {
        var sel :| StampedBy(batches, sel, p[key], key.txHash);
        assert StampedBy(after, sel, q[key], key.txHash);
      } else {
        assert StampedBy(after, input.selectionHash, q[key], key.txHash);
      }
    }
  }

  lemma RecordKeepsBatches(w: World, p: Payments, batches: Batches, input: RecordInput)
    requires GoodBatches(w, batches) && IdsUnique(batches) && FirstRecording(p, batches, input)
    ensures GoodBatches(w, RecordBatches(p, batches, input)) && IdsUnique(RecordBatches(p, batches, input))
  {
    RecordedIsGood(w, batches[input.selectionHash], input);
    hide GoodBatch;
  }

  lemma RecordKeeps(w: World, st: State, step: Step)
    requires Inv(w, st) && step.Record?
    ensures Inv(w, Next(st, step))
  {
    hide Inv, CanRecord, IsAlreadyRecorded, RecordPayments, RecordBatches;
    var input := step.input;
    if CanRecord(st.payments, st.batches, input) && !step.fault {
      if IsAlreadyRecordedIn(st.batches, input) {
        RecordAgain(st.payments, st.batches, input);
      } else {
        RecordFirst(w, st, input);
      }
    }
  }

  predicate IsAlreadyRecordedIn(batches: Batches, input: RecordInput) {
    input.selectionHash in batches && IsAlreadyRecorded(batches[input.selectionHash], input)
  }

  lemma RecordAgain(p: Payments, batches: Batches, input: RecordInput)
    requires CanRecord(p, batches, input) && IsAlreadyRecordedIn(batches, input)
    ensures RecordPayments(p, batches, input) == p && RecordBatches(p, batches, input) == batches
  {
  }

  lemma RecordFirst(w: World, st: State, input: RecordInput)
    requires Inv(w, st) && CanRecord(st.payments, st.batches, input) && !IsAlreadyRecordedIn(st.batches, input)
    ensures FirstRecording(st.payments, st.batches, input)
    ensures Inv(w, st.(payments := RecordPayments(st.payments, st.batches, input),
                       batches := RecordBatches(st.payments, st.batches, input)))
  {
    NewIdIsFresh(w, st, input);
    hide GoodBatches, IdsUnique, AnchoredListed, FirstRecording, RecordPayments, RecordBatches;
    RecordKeepsListed(st.payments, st.batches, input);
    RecordKeepsBatches(w, st.payments, st.batches, input);
  }

  predicate SameAnchoring(a: Row, b: Row) {
    a.batchId == b.batchId && a.receiptLeaf == b.receiptLeaf && a.receiptProof == b.receiptProof
  }

  /** The anchoring columns of kept rows are kept, and new rows have none. */
  predicate KeepsAnchoring(p: Payments, q: Payments) {
    forall key :: key in q ==> if key in p then SameAnchoring(p[key], q[key]) else q[key].batchId.None?
  }

  lemma ListedKept(p: Payments, q: Payments, batches: Batches)
    requires AnchoredListed(p, batches) && KeepsAnchoring(p, q)
    ensures AnchoredListed(q, batches)
  {
    forall key | key in q && q[key].batchId.Some? ensures exists sel :: StampedBy(batches, sel, q[key], key.txHash) {
      assert key in p && Listed(p, batches, key);
      var sel :| StampedBy(batches, sel, p[key], key.txHash);
      assert StampedBy(batches, sel, q[key], key.txHash);
    }
  }

  /** Indexing, reports and rollbacks touch no anchoring column of the rows that remain. */
  lemma RowStepKeepsAnchoring(st: State, step: Step)
    requires step.Index? || step.Report? || step.Rewind?
    ensures KeepsAnchoring(st.payments, Next(st, step).payments)
    ensures Next(st, step).batches == st.batches && Next(st, step).loaded == st.loaded
    ensures !step.Rewind? ==> st.payments.Keys <= Next(st, step).payments.Keys
  {
  }

  lemma StepKeeps(w: World, st: State, step: Step)
    requires Inv(w, st) && Enabled(w, st, step)
    ensures Inv(w, Next(st, step))
  {
    match step {
      case Load(_, _, _, _, _, _) => LoadKeeps(w, st, step);
      case Preview(_, _) => PreviewKeeps(w, st, step);
      case Record(_, _) => RecordKeeps(w, st, step);
      case _ =>
        RowStepKeepsAnchoring(st, step);
        ListedKept(st.payments, Next(st, step).payments, st.batches);
    }
  }

  /* ----- whole runs ----- */

  /** No batch yet, no payment anchored, no request under way. */
  predicate Fresh(st: State) {
    st.batches == map[] && st.loaded == map[] && forall key :: key in st.payments ==> st.payments[key].batchId.None?
  }

  ghost predicate Reaches(w: World, st: State, steps: seq<Step>, end: State)
    decreases |steps|
  {
    if steps == [] then end == st else Enabled(w, st, steps[0]) && Reaches(w, Next(st, steps[0]), steps[1..], end)
  }

  lemma {:induction false} RunKeeps(w: World, st: State, steps: seq<Step>, end: State)
    requires Inv(w, st) && Reaches(w, st, steps, end)
    ensures Inv(w, end)
    decreases |steps|
  {
    hide Inv, Enabled, Next;
    if steps != [] {
      StepKeeps(w, st, steps[0]);
      RunKeeps(w, Next(st, steps[0]), steps[1..], end);
    }
  }

  lemma FreshIsInv(w: World, st: State)
    requires Fresh(st)
    ensures Inv(w, st) && RecordedOwned(st) && RecordedHeld(st)
  {
  }

  /** End to end: in every state that any run reaches, rollbacks included, whatever `getProof` returns has
      the receipt leaf of its transaction and makes `verifyReceipt` true against the root it names. */
  lemma ServedProofsVerify(w: World, st: State, steps: seq<Step>, end: State, sees: Scope, key: Key, sel: string,
                           s: Served)
    requires Fresh(st) && Reaches(w, st, steps, end)
    requires Serves(end.payments, end.batches, sees, key, sel, s)
    ensures s.txHash == key.txHash && s.leaf.Some? && s.proof.Some?
    ensures end.payments[key].batchId == Some(s.batchId) == end.batches[sel].batchId && s.root == end.batches[sel].root
    ensures sees(key.merchantId) && end.batches[sel].status == Recorded
    ensures Merkle.ReceiptLeaf(w.env.sha, s.txHash) == Ok(s.leaf.value)
    ensures Merkle.VerifySpec(w.env.sha, s.leaf.value, s.proof.value, s.root) == Ok(true)
  {
    FreshIsInv(w, st);
    RunKeeps(w, st, steps, end);
    hide Merkle.ReceiptLeaf, Merkle.VerifySpec;
    assert Listed(end.payments, end.batches, key);
    var sel' :| StampedBy(end.batches, sel', end.payments[key], key.txHash);
    assert sel' == sel;
    assert GoodBatch(w, end.batches[sel]);
    assert GoodProof(w.env.sha, key.txHash, end.batches[sel].proofs[key.txHash], end.batches[sel].root);
  }

  /** And an anchored payment is always served to a connection that may see it: the join finds it. */
  lemma RecordedPaymentsAreServed(w: World, st: State, steps: seq<Step>, end: State, sees: Scope, key: Key)
    requires Fresh(st) && Reaches(w, st, steps, end)
    requires key in end.payments && end.payments[key].batchId.Some? && sees(key.merchantId)
    ensures exists sel, s :: Serves(end.payments, end.batches, sees, key, sel, s)
  {
    FreshIsInv(w, st);
    RunKeeps(w, st, steps, end);
    hide GoodProof;
    var row := end.payments[key];
    assert Listed(end.payments, end.batches, key);
    var sel :| StampedBy(end.batches, sel, row, key.txHash);
    assert GoodBatch(w, end.batches[sel]);
    assert Serves(end.payments, end.batches, sees, key, sel,
                  Served(key.txHash, row.batchId.value, row.receiptLeaf, row.receiptProof, end.batches[sel].root));
  }

  /* ----- recorded batches partition the payments ----- */

  /** The payments that carry the batch's id are among those the batch lists, all of merchant `m`. */
  predicate Held(p: Payments, b: Batch, m: int) {
    forall key :: key in p && p[key].batchId == b.batchId ==> key.merchantId == m && key.txHash in b.proofs
  }

  ghost predicate HasHolder(p: Payments, b: Batch) {
    exists m: int :: Held(p, b, m)
  }

  ghost predicate RecordedHeld(st: State) {
    forall sel :: sel in st.batches && st.batches[sel].batchId.Some? ==> HasHolder(st.payments, st.batches[sel])
  }

  lemma HeldKept(p: Payments, q: Payments, b: Batch)
    requires HasHolder(p, b) && b.batchId.Some? && KeepsAnchoring(p, q)
    ensures HasHolder(q, b)
  {
    var m :| Held(p, b, m);
    assert Held(q, b, m);
  }

  /** A first recording gives its batch a holder and leaves the other recorded batches theirs. */
  lemma RecordHolds(p: Payments, batches: Batches, input: RecordInput)
    requires FirstRecording(p, batches, input)
    ensures var q, after := RecordPayments(p, batches, input), RecordBatches(p, batches, input);
            && HasHolder(q, after[input.selectionHash])
            && forall b: Batch :: b.batchId.Some? && b.batchId != Some(input.batchId) && HasHolder(p, b) ==>
               HasHolder(q, b)
  {
    var q, after := RecordPayments(p, batches, input), RecordBatches(p, batches, input);
    assert Held(q, after[input.selectionHash], input.merchantId);
    forall b: Batch | b.batchId.Some? && b.batchId != Some(input.batchId) && HasHolder(p, b) ensures HasHolder(q, b) {
      var m :| Held(p, b, m);
      assert Held(q, b, m);
    }
  }

  lemma RecordKeepsHeld(w: World, st: State, step: Step)
    requires Inv(w, st) && RecordedHeld(st) && step.Record?
    ensures RecordedHeld(Next(st, step))
  {
    hide Inv, HasHolder, CanRecord, RecordPayments, IsAlreadyRecorded;
    var input := step.input;
    if CanRecord(st.payments, st.batches, input) && !step.fault {
      if IsAlreadyRecordedIn(st.batches, input) {
        RecordAgain(st.payments, st.batches, input);
      } else {
        RecordFirst(w, st, input);
        RecordHolds(st.payments, st.batches, input);
      }
    }
  }

  lemma StepKeepsHeld(w: World, st: State, step: Step)
    requires Inv(w, st) && RecordedHeld(st) && Enabled(w, st, step)
    ensures RecordedHeld(Next(st, step))
  {
    hide IsSelection, BuiltFrom, HasHolder, KeepsAnchoring;
    match step {
      case Load(_, _, _, _, _, _) =>
      case Preview(_, _) =>
      case Record(_, _) => RecordKeepsHeld(w, st, step);
      case _ =>
        RowStepKeepsAnchoring(st, step);
        hide Next;
        forall sel | sel in st.batches && st.batches[sel].batchId.Some?
          ensures HasHolder(Next(st, step).payments, st.batches[sel])
        {
          HeldKept(st.payments, Next(st, step).payments, st.batches[sel]);
        }
    }
  }

  lemma {:induction false} RunKeepsHeld(w: World, st: State, steps: seq<Step>, end: State)
    requires Inv(w, st) && RecordedHeld(st) && Reaches(w, st, steps, end)
    ensures Inv(w, end) && RecordedHeld(end)
    decreases |steps|
  {
    hide Inv, RecordedHeld, Enabled, Next;
    if steps != [] {
      StepKeeps(w, st, steps[0]);
      StepKeepsHeld(w, st, steps[0]);
      RunKeepsHeld(w, Next(st, steps[0]), steps[1..], end);
    }
  }

  /** Without rollback: the payments that carry the batch's id are exactly those the batch lists. */
  predicate Owned(p: Payments, b: Batch, m: int) {
    Held(p, b, m) && forall tx :: tx in b.proofs ==> Key(m, tx) in p && Carries(p[Key(m, tx)], b, tx)
  }

  ghost predicate HasOwner(p: Payments, b: Batch) {
    exists m: int :: Owned(p, b, m)
  }

  ghost predicate RecordedOwned(st: State) {
    forall sel :: sel in st.batches && st.batches[sel].batchId.Some? ==> HasOwner(st.payments, st.batches[sel])
  }

  predicate NoRewind(steps: seq<Step>) {
    forall i :: 0 <= i < |steps| ==> !steps[i].Rewind?
  }

  lemma OwnedKept(p: Payments, q: Payments, b: Batch)
    requires HasOwner(p, b) && b.batchId.Some? && KeepsAnchoring(p, q) && p.Keys <= q.Keys
    ensures HasOwner(q, b)
  {
    var m :| Owned(p, b, m);
    assert Owned(q, b, m);
  }

  lemma RecordOwns(p: Payments, batches: Batches, input: RecordInput)
    requires FirstRecording(p, batches, input)
    ensures var q, after := RecordPayments(p, batches, input), RecordBatches(p, batches, input);
            && Owned(q, after[input.selectionHash], input.merchantId)
            && forall b: Batch :: b.batchId.Some? && b.batchId != Some(input.batchId) && HasOwner(p, b) ==>
               HasOwner(q, b)
  {
    var q, after := RecordPayments(p, batches, input), RecordBatches(p, batches, input);
    var b := after[input.selectionHash];
    assert b.proofs == batches[input.selectionHash].proofs && b.batchId == Some(input.batchId);
    forall tx | tx in b.proofs ensures Key(input.merchantId, tx) in q && Carries(q[Key(input.merchantId, tx)], b, tx) {
      assert Free(p, input.merchantId, input.batchId, tx);
    }
    forall other: Batch | other.batchId.Some? && other.batchId != Some(input.batchId) && HasOwner(p, other)
      ensures HasOwner(q, other)
    {
      var m :| Owned(p, other, m);
      assert Owned(q, other, m);
    }
  }

  lemma StepKeepsOwned(w: World, st: State, step: Step)
    requires Inv(w, st) && RecordedOwned(st) && Enabled(w, st, step) && !step.Rewind?
    ensures RecordedOwned(Next(st, step))
  {
    match step {
      case Load(_, _, _, _, _, _) => hide IsSelection, HasOwner;
      case Preview(_, _) => hide BuiltFrom, HasOwner;
      case Record(_, _) => RecordKeepsOwned(w, st, step);
      case _ => RowStepKeepsOwned(st, step);
    }
  }

  lemma RowStepKeepsOwned(st: State, step: Step)
    requires RecordedOwned(st) && (step.Index? || step.Report?)
    ensures RecordedOwned(Next(st, step))
  {
    RowStepKeepsAnchoring(st, step);
    hide Next, KeepsAnchoring, HasOwner;
    forall sel | sel in st.batches && st.batches[sel].batchId.Some?
      ensures HasOwner(Next(st, step).payments, st.batches[sel])
    {
      OwnedKept(st.payments, Next(st, step).payments, st.batches[sel]);
    }
  }

  lemma RecordKeepsOwned(w: World, st: State, step: Step)
    requires Inv(w, st) && RecordedOwned(st) && step.Record?
    ensures RecordedOwned(Next(st, step))
  {
    hide Inv, Owned, HasOwner, CanRecord, RecordPayments;
    var input := step.input;
    if CanRecord(st.payments, st.batches, input) && !step.fault {
      if IsAlreadyRecordedIn(st.batches, input) {
        RecordAgain(st.payments, st.batches, input);
      } else {
        RecordFirst(w, st, input);
        RecordOwns(st.payments, st.batches, input);
        OwnerExists(RecordPayments(st.payments, st.batches, input),
                    RecordBatches(st.payments, st.batches, input)[input.selectionHash], input.merchantId);
      }
    }
  }

  lemma OwnerExists(p: Payments, b: Batch, m: int)
    requires Owned(p, b, m)
    ensures HasOwner(p, b)
  {
  }

  lemma {:induction false} RunKeepsOwned(w: World, st: State, steps: seq<Step>, end: State)
    requires Inv(w, st) && RecordedOwned(st) && Reaches(w, st, steps, end) && NoRewind(steps)
    ensures Inv(w, end) && RecordedOwned(end)
    decreases |steps|
  {
    hide Inv, RecordedOwned, Enabled, Next;
    if steps != [] {
      StepKeeps(w, st, steps[0]);
      StepKeepsOwned(w, st, steps[0]);
      RunKeepsOwned(w, Next(st, steps[0]), steps[1..], end);
    }
  }

  function Members(st: State, batchId: int): set<Key> {
    set key | key in st.payments && st.payments[key].batchId == Some(batchId)
  }

  /** The batch's selection as payments of merchant `m`. */
  function Selection(m: int, b: Batch): set<Key> {
    set tx | tx in b.proofs :: Key(m, tx)
  }

  /** In every state that a run reaches, rollbacks or not: a batch is previewed without an id or recorded with
      one, never in between; different recorded batches have different ids; and the payments that carry a
      recorded batch's id are of one merchant and among its selection, so at most `count`. Without a rollback
      they are exactly its selection, and `count` of them when selections are read for one merchant at a time. */
  lemma RecordedBatchesPartition(w: World, st: State, steps: seq<Step>, end: State)
    requires Fresh(st) && Reaches(w, st, steps, end)
    ensures forall sel :: sel in end.batches ==>
              end.batches[sel].status != Submitted &&
                (end.batches[sel].status == Recorded <==> end.batches[sel].batchId.Some?)
    ensures forall a, b :: a in end.batches && b in end.batches && a != b &&
                           end.batches[a].status == Recorded && end.batches[b].status == Recorded ==>
              end.batches[a].batchId != end.batches[b].batchId
    ensures forall sel :: sel in end.batches && end.batches[sel].status == Recorded ==>
              var b, members := end.batches[sel], Members(end, end.batches[sel].batchId.value);
              (exists m: int :: members <= Selection(m, b)) && |members| <= b.count
    ensures NoRewind(steps) ==> forall sel :: sel in end.batches && end.batches[sel].status == Recorded ==>
              var b, members := end.batches[sel], Members(end, end.batches[sel].batchId.value);
              (exists m: int :: members == Selection(m, b)) && (w.scoped ==> |members| == b.count)
  {
    FreshIsInv(w, st);
    RunKeepsHeld(w, st, steps, end);
    if NoRewind(steps) { RunKeepsOwned(w, st, steps, end); }
    hide GoodProof, NoRewind, Members, Selection, HasHolder, HasOwner, Reaches, AnchoredListed;
    forall sel | sel in end.batches
      ensures end.batches[sel].status != Submitted &&
              (end.batches[sel].status == Recorded <==> end.batches[sel].batchId.Some?)
    {
      assert GoodBatch(w, end.batches[sel]);
    }
    forall sel | sel in end.batches && end.batches[sel].status == Recorded
      ensures var b, members := end.batches[sel], Members(end, end.batches[sel].batchId.value);
              (exists m: int :: members <= Selection(m, b)) && |members| <= b.count
    {
      HeldMembers(w, end, end.batches[sel]);
    }
    if NoRewind(steps) {
      forall sel | sel in end.batches && end.batches[sel].status == Recorded
        ensures var b, members := end.batches[sel], Members(end, end.batches[sel].batchId.value);
                (exists m: int :: members == Selection(m, b)) && (w.scoped ==> |members| == b.count)
      {
        OwnedMembers(w, end, end.batches[sel]);
      }
    }
  }

  lemma HeldMembers(w: World, st: State, b: Batch)
    requires GoodBatch(w, b) && b.batchId.Some? && HasHolder(st.payments, b)
    ensures var members := Members(st, b.batchId.value);
            (exists m: int :: members <= Selection(m, b)) && |members| <= b.count
  {
    hide GoodProof;
    var m :| Held(st.payments, b, m);
    SelectionSize(m, b);
    assert Members(st, b.batchId.value) <= Selection(m, b);
    Sets.SubsetSize(Members(st, b.batchId.value), Selection(m, b));
  }

  lemma OwnedMembers(w: World, st: State, b: Batch)
    requires GoodBatch(w, b) && b.batchId.Some? && HasOwner(st.payments, b)
    ensures var members := Members(st, b.batchId.value);
            (exists m: int :: members == Selection(m, b)) && (w.scoped ==> |members| == b.count)
  {
    hide GoodProof;
    var m :| Owned(st.payments, b, m);
    SelectionSize(m, b);
    assert Members(st, b.batchId.value) == Selection(m, b);
  }

  lemma SelectionSize(m: int, b: Batch)
    ensures |Selection(m, b)| == |b.proofs|
  {
    KeysCount(m, b.proofs.Keys);
    assert Selection(m, b) == set tx | tx in b.proofs.Keys :: Key(m, tx);
    assert |b.proofs| == |b.proofs.Keys|;
  }

  lemma {:induction false} KeysCount(m: int, txs: set<string>)
    ensures |set tx | tx in txs :: Key(m, tx)| == |txs|
    decreases |txs|
  {
    if txs != {} {
      var tx :| tx in txs;
      KeysCount(m, txs - {tx});
      assert (set x | x in txs :: Key(m, x)) == (set x | x in txs - {tx} :: Key(m, x)) + {Key(m, tx)};
    }
  }

  /* ----- anchoring is write-once ----- */

  /** Once recorded, a batch never changes, rollbacks or not; and without one an anchored payment keeps its
      batch, leaf and proof for good. */
  lemma {:induction false} AnchoringIsWriteOnce(w: World, st: State, steps: seq<Step>, end: State)
    requires Inv(w, st) && Reaches(w, st, steps, end)
    ensures BatchesStay(st, end)
    ensures NoRewind(steps) ==> StampsStay(st, end)
    decreases |steps|
  {
    if steps != [] {
      hide Inv, Next, Enabled, BatchesStay, StampsStay;
      var next := Next(st, steps[0]);
      StepKeeps(w, st, steps[0]);
      AnchoringIsWriteOnce(w, next, steps[1..], end);
      StepIsWriteOnce(w, st, steps[0]);
      assert NoRewind(steps) ==> NoRewind(steps[1..]) && !steps[0].Rewind?;
      StaysCompose(st, next, end);
    }
  }

  lemma StaysCompose(a: State, b: State, c: State)
    ensures BatchesStay(a, b) && BatchesStay(b, c) ==> BatchesStay(a, c)
    ensures StampsStay(a, b) && StampsStay(b, c) ==> StampsStay(a, c)
  {
  }

  predicate BatchesStay(a: State, b: State) {
    forall sel :: sel in a.batches && a.batches[sel].status == Recorded ==>
           sel in b.batches && b.batches[sel] == a.batches[sel]
  }

  predicate StampsStay(a: State, b: State) {
    forall key :: key in a.payments && a.payments[key].batchId.Some? ==>
      key in b.payments && SameAnchoring(a.payments[key], b.payments[key])
  }

  lemma StepIsWriteOnce(w: World, st: State, step: Step)
    requires Inv(w, st) && Enabled(w, st, step)
    ensures BatchesStay(st, Next(st, step))
    ensures !step.Rewind? ==> StampsStay(st, Next(st, step))
  {
    hide Inv, IsSelection, BuiltFrom;
    match step {
      case Load(_, _, _, _, _, _) =>
      case Preview(_, _) =>
      case Record(input, fault) =>
        if CanRecord(st.payments, st.batches, input) && !fault && !IsAlreadyRecordedIn(st.batches, input) {
          RecordFirst(w, st, input);
          RecordedHasId(w, st);
        }
      case _ => RowStepKeepsAnchoring(st, step);
    }
  }

  lemma RecordedHasId(w: World, st: State)
    requires Inv(w, st)
    ensures forall sel :: sel in st.batches && st.batches[sel].status == Recorded ==> st.batches[sel].batchId.Some?
  {
  }

  /** Recording a recorded pair again succeeds and changes nothing, now and after any further steps. */
  lemma RecordingIsIdempotent(w: World, st: State, input: RecordInput, steps: seq<Step>, end: State)
    requires Inv(w, st) && CanRecord(st.payments, st.batches, input)
    requires Reaches(w, Next(st, Record(input, false)), steps, end)
    ensures CanRecord(end.payments, end.batches, input)
    ensures Next(end, Record(input, false)) == end
  {
    var recorded := Next(st, Record(input, false));
    StepKeeps(w, st, Record(input, false));
    AnchoringIsWriteOnce(w, recorded, steps, end);
    assert recorded.batches[input.selectionHash].root == input.root;
    assert IsAlreadyRecordedIn(recorded.batches, input);
    assert IsAlreadyRecordedIn(end.batches, input);
  }

  /* ----- what rollback does to the partition ----- */

  /** Rollback keeps the partition exactly when it purges no anchored payment. */
  lemma RollbackKeepsPartition(w: World, st: State, m: int, ledger: int)
    requires Inv(w, st) && RecordedOwned(st)
    ensures RecordedOwned(Next(st, Rewind(m, ledger))) <==>
            forall key :: key in st.payments && Sync.Purged(key, st.payments[key], m, ledger) ==>
                   st.payments[key].batchId.None?
  {
    hide GoodBatches, IdsUnique, HasOwner, AnchoredListed, GoodLoads, Sync.PurgeAbove, Sync.Purged;
    var after := Next(st, Rewind(m, ledger));
    if key :| key in st.payments && Sync.Purged(key, st.payments[key], m, ledger) && st.payments[key].batchId.Some? {
      PurgedBreaksOwner(st, m, ledger, key);
    } else {
      forall sel | sel in st.batches && st.batches[sel].batchId.Some?
        ensures HasOwner(after.payments, st.batches[sel])
      {
        KeptOwner(st, m, ledger, st.batches[sel]);
      }
    }
  }

  lemma KeptOwner(st: State, m: int, ledger: int, b: Batch)
    requires HasOwner(st.payments, b) && b.batchId.Some?
    requires forall key :: key in st.payments && Sync.Purged(key, st.payments[key], m, ledger) ==>
             st.payments[key].batchId.None?
    ensures HasOwner(Sync.PurgeAbove(st.payments, m, ledger), b)
  {
    var o :| Owned(st.payments, b, o);
    assert Owned(Sync.PurgeAbove(st.payments, m, ledger), b, o);
  }

  /** A purged payment's batch has lost it: another merchant's row never carried the id. */
  lemma PurgedBreaksOwner(st: State, m: int, ledger: int, key: Key)
    requires AnchoredListed(st.payments, st.batches) && RecordedOwned(st)
    requires key in st.payments && Sync.Purged(key, st.payments[key], m, ledger) && st.payments[key].batchId.Some?
    ensures !RecordedOwned(Next(st, Rewind(m, ledger)))
  {
    hide HasOwner, Sync.PurgeAbove, Carries;
    assert Listed(st.payments, st.batches, key);
    var sel :| StampedBy(st.batches, sel, st.payments[key], key.txHash);
    CarriesId(st.payments[key], st.batches[sel], key.txHash);
    OwnerLost(st.payments, m, ledger, st.batches[sel], key);
    assert Next(st, Rewind(m, ledger)).payments == Sync.PurgeAbove(st.payments, m, ledger);
  }

  lemma CarriesId(row: Row, b: Batch, txHash: string)
    requires Carries(row, b, txHash)
    ensures row.batchId == b.batchId && txHash in b.proofs
  {
  }

  lemma OwnerLost(p: Payments, m: int, ledger: int, b: Batch, key: Key)
    requires HasOwner(p, b) && b.batchId.Some? && key.txHash in b.proofs
    requires key in p && p[key].batchId == b.batchId && Sync.Purged(key, p[key], m, ledger)
    ensures !HasOwner(Sync.PurgeAbove(p, m, ledger), b)
  {
  }

  /* ----- a run in which it does not ----- */

  /** A batch of one payment, as `buildPreview` makes it: its leaf is the root and its proof is empty. */
  function SinglePreview(env: Env, d: Digest, ledger: int, seconds: int): BuiltPreview {
    var tx, root := EncodeHash(d), EncodeHash(env.sha(d));
    BuiltPreview(env.selectionHash([tx]), root, 1, seconds, seconds, ledger, ledger, map[tx := ReceiptProof(root, [])])
  }

  lemma SingleIsBuilt(env: Env, d: Digest, ledger: int, ts: string)
    requires env.unixSeconds(ts).Some?
    ensures BuiltFrom(env, [AnchorablePayment(EncodeHash(d), ledger, ts)],
                      SinglePreview(env, d, ledger, env.unixSeconds(ts).value))
  {
    var payments := [AnchorablePayment(EncodeHash(d), ledger, ts)];
    SingleLeaf(env, d);
    SingleRoot(env.sha, EncodeHash(d), d);
    assert TxHashes(payments) == [EncodeHash(d)];
    hide EncodeHash, GoodProof, Merkle.TxDigests, MerkleTree.Root, MerkleSoundness.LeafHashes;
  }

  lemma SingleRoot(sha: Sha, tx: string, d: Digest)
    requires Merkle.TxBytes(tx) == Some(d)
    ensures Merkle.TxDigests([tx]) == Some([d]) && MerkleTree.Root(sha, MerkleSoundness.LeafHashes(sha, [d])) == sha(d)
  {
    hide Merkle.TxBytes;
    assert Merkle.TxDigests([tx]).value == [d];
  }

  lemma SingleLeaf(env: Env, d: Digest)
    ensures Merkle.TxBytes(EncodeHash(d)) == Some(d)
    ensures GoodProof(env.sha, EncodeHash(d), ReceiptProof(EncodeHash(env.sha(d)), []), EncodeHash(env.sha(d)))
  {
    DecodeEncode(d);
    Merkle.TxHashForms(d, EncodeHash(d));
    DecodeEncode(env.sha(d));
    hide EncodeHash, Merkle.TxBytes;
  }

  /** The steps that index a payment of merchant `m` and anchor it as batch `id`. */
  function AnchorOne(w: World, m: int, d: Digest, ledger: int, ts: string, id: int): seq<Step>
    requires w.env.unixSeconds(ts).Some?
  {
    var tx, pv := EncodeHash(d), SinglePreview(w.env, d, ledger, w.env.unixSeconds(ts).value);
    [Index(PaymentRow(m, tx, ledger, "", "", "", ts)),
     Load(0, x => x == m, None, None, [Key(m, tx)], [AnchorablePayment(tx, ledger, ts)]),
     Preview(0, pv),
     Record(RecordInput(m, pv.selectionHash, id, "", pv.root), false)]
  }

  /** From empty tables any payment can be indexed and anchored, and a rollback below its ledger then
      leaves a recorded batch without it. */
  lemma AnchoredPaymentsCanBePurged(w: World, m: int, d: Digest, ledger: int, ts: string, id: int)
    returns (anchored: State)
    requires w.env.unixSeconds(ts).Some?
    ensures Reaches(w, State(map[], map[], map[]), AnchorOne(w, m, d, ledger, ts, id), anchored)
    ensures RecordedOwned(anchored) && Key(m, EncodeHash(d)) in anchored.payments
    ensures anchored.payments[Key(m, EncodeHash(d))].batchId == Some(id)
    ensures !RecordedOwned(Next(anchored, Rewind(m, ledger - 1)))
  {
    var start := State(map[], map[], map[]);
    anchored := AnchorOneReaches(w, m, d, ledger, ts, id);
    hide Reaches, AnchoredListed, RecordedOwned, Inv, EncodeHash;
    FreshIsInv(w, start);
    assert NoRewind(AnchorOne(w, m, d, ledger, ts, id));
    hide AnchorOne;
    RunKeepsOwned(w, start, AnchorOne(w, m, d, ledger, ts, id), anchored);
    RollbackKeepsPartition(w, anchored, m, ledger - 1);
    assert Sync.Purged(Key(m, EncodeHash(d)), anchored.payments[Key(m, EncodeHash(d))], m, ledger - 1);
  }

  lemma AnchorOneReaches(w: World, m: int, d: Digest, ledger: int, ts: string, id: int) returns (anchored: State)
    requires w.env.unixSeconds(ts).Some?
    ensures Reaches(w, State(map[], map[], map[]), AnchorOne(w, m, d, ledger, ts, id), anchored)
    ensures var key := Key(m, EncodeHash(d));
            key in anchored.payments && anchored.payments[key].batchId == Some(id) &&
              anchored.payments[key].ledger == Some(ledger)
  {
    var start, steps := State(map[], map[], map[]), AnchorOne(w, m, d, ledger, ts, id);
    SingleIsBuilt(w.env, d, ledger, ts);
    CanLoadOne(w, m, EncodeHash(d), ledger, ts);
    hide EncodeHash, BuiltFrom, IsSelection, CanRecord, RecordPayments, RecordBatches;
    var a := Next(start, steps[0]);
    var b := Next(a, steps[1]);
    var c := Next(b, steps[2]);
    anchored := Next(c, steps[3]);
    RecordsOne(c, steps[3].input, EncodeHash(d));
    FourSteps(w, start, steps, a, b, c, anchored);
  }

  lemma CanLoadOne(w: World, m: int, tx: string, ledger: int, ts: string)
    ensures IsSelection(w.env, Upsert(map[], PaymentRow(m, tx, ledger, "", "", "", ts)), x => x == m, None, None,
                        [Key(m, tx)], [AnchorablePayment(tx, ledger, ts)])
  {
  }

  lemma RecordsOne(st: State, input: RecordInput, tx: string)
    requires input.selectionHash in st.batches && st.batches.Keys == {input.selectionHash}
    requires var row := st.batches[input.selectionHash];
             row.status == Previewed && row.batchId.None? && row.root == input.root && row.proofs.Keys == {tx}
    requires Key(input.merchantId, tx) in st.payments && st.payments[Key(input.merchantId, tx)].batchId.None?
    ensures CanRecord(st.payments, st.batches, input)
    ensures var p := Next(st, Record(input, false)).payments;
            Key(input.merchantId, tx) in p && p[Key(input.merchantId, tx)].batchId == Some(input.batchId) &&
            p[Key(input.merchantId, tx)].ledger == st.payments[Key(input.merchantId, tx)].ledger
  {
  }

  lemma FourSteps(w: World, st: State, steps: seq<Step>, a: State, b: State, c: State, end: State)
    requires |steps| == 4
    requires Enabled(w, st, steps[0]) && a == Next(st, steps[0]) && Enabled(w, a, steps[1]) && b == Next(a, steps[1])
    requires Enabled(w, b, steps[2]) && c == Next(b, steps[2]) && Enabled(w, c, steps[3]) && end == Next(c, steps[3])
    ensures Reaches(w, st, steps, end)
  {
    hide Enabled, Next;
    assert Reaches(w, end, steps[1..][1..][1..][1..], end);
    assert Reaches(w, c, steps[1..][1..][1..], end);
    assert Reaches(w, b, steps[1..][1..], end);
    assert Reaches(w, a, steps[1..], end);
  }

  /* ----- and the root that is served ----- */

  /** A batch previewed from a selection commits to it: any proof that `verifyReceipt` accepts
      against its root names a payment of the selection, or exhibits a hash collision. */
  lemma PreviewedRootIsSound(env: Env, sel: seq<AnchorablePayment>, pv: BuiltPreview, tx: string, leaf: string,
                             proof: seq<string>)
    requires BuiltFrom(env, sel, pv)
    requires Merkle.ReceiptLeaf(env.sha, tx) == Ok(leaf) && Merkle.VerifySpec(env.sha, leaf, proof, pv.root) == Ok(true)
    ensures Merkle.TxBytes(tx).Some? && DecodeAll(proof).Some?
    ensures match Merkle.ReceiptCollision(env.sha, TxHashes(sel), tx, proof)
            case None => exists i :: 0 <= i < |sel| && Merkle.TxBytes(sel[i].txHash) == Merkle.TxBytes(tx)
            case Some(pair) => IsCollision(env.sha, pair)
  {
    var txs := Merkle.TxDigests(TxHashes(sel)).value;
    DecodeEncode(env.sha(Merkle.TxBytes(tx).value));
    DecodeEncode(MerkleTree.Root(env.sha, MerkleSoundness.LeafHashes(env.sha, txs)));
    MerkleSoundness.BatchSoundness(env.sha, txs, Merkle.TxBytes(tx).value, DecodeAll(proof).value);
    if Merkle.ReceiptCollision(env.sha, TxHashes(sel), tx, proof).None? {
      var i :| 0 <= i < |txs| && txs[i] == Merkle.TxBytes(tx).value;
      assert Merkle.TxBytes(TxHashes(sel)[i]) == Merkle.TxBytes(tx);
    }
  }
}
