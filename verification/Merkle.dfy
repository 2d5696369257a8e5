/** The public functions of packages/sdk/merkle.ts on hexadecimal text, and the two other
    implementations of the same tree: apps/demo-merchant/agent.js and packages/sdk/src/lib.rs. */
module Merkle {
  import opened Wrappers
  import opened Bytes
  import opened Text
  import opened MerkleTree
  import MerkleSoundness

  const MAX_PROOF_LEN := 32

  /** Which input a decoding error names. */
  datatype Label = LeafInput | ProofInput | RootInput | LeavesInput(i: nat) | TxHashInput

  datatype MerkleError = ProofTooLong | HashDecode(input: Label) | EmptyBatch

  datatype BatchInfo = BatchInfo(root: string, leaves: seq<string>, proofs: map<string, seq<string>>)

  /* ----- specifications ----- */

  function VerifySpec(sha: Sha, leaf: string, proof: seq<string>, root: string): Result<bool, MerkleError> {
    if |proof| > MAX_PROOF_LEN then Err(ProofTooLong)
    else if !IsHash(leaf) then Err(HashDecode(LeafInput))
    else if DecodeAll(proof).None? then Err(HashDecode(ProofInput))
    else if !IsHash(root) then Err(HashDecode(RootInput))
    else Ok(Fold(sha, DecodeHash(leaf).value, DecodeAll(proof).value) == DecodeHash(root).value)
  }

  /** `leaf.trim().toLowerCase()`. */
  function Normalise(leaf: string): string {
    LowerAll(Trim(leaf))
  }

  /** `txHash.trim().replace(/^0x/i, '').toLowerCase()`. */
  function NormaliseTx(txHash: string): string {
    var t := Trim(txHash);
    LowerAll(if |t| >= 2 && t[0] == '0' && Lower(t[1]) == 'x' then t[2..] else t)
  }

  function TxBytes(txHash: string): Option<Digest> {
    DecodeHash(NormaliseTx(txHash))
  }

  /** A transaction hash may be written with or without `0x`, in either case. */
  lemma TxHashForms(d: Digest, s: string)
    requires LowerAll(s) == EncodeHash(d)
    ensures TxBytes(s) == Some(d) && TxBytes("0x" + s) == Some(d)
  {
    TxBytesExactly(s, d);
    TxBytesExactly("0x" + s, d);
    DecodeIgnoresCase(s);
    DecodeEncode(d);
    assert LowerAll("0x" + s) == "0x" + LowerAll(s);
    var t := "0x" + s;
    assert t[|t| - 1] == s[|s| - 1];
    TrimNoop(s);
    TrimNoop(t);
  }

  /** Exactly the texts that name the 32 bytes: their digits in either case, with or without `0x`, and with
      any spaces around. */
  lemma TxBytesExactly(text: string, d: Digest)
    ensures TxBytes(text) == Some(d) <==>
            LowerAll(Trim(text)) == EncodeHash(d) || LowerAll(Trim(text)) == "0x" + EncodeHash(d)
  {
    var t := Trim(text);
    var bare := |t| >= 2 && t[0] == '0' && Lower(t[1]) == 'x';
    hide Trim;
    NamesDigest(NormaliseTx(text), d);
    LowerTwice(if bare then t[2..] else t);
    assert IsHash(EncodeHash(d)) by { DecodeEncode(d); }
    if bare {
      assert LowerAll(t) == "0x" + LowerAll(t[2..]);
      assert "0x" + LowerAll(t[2..]) == "0x" + EncodeHash(d) <==> LowerAll(t[2..]) == EncodeHash(d) by {
        assert ("0x" + LowerAll(t[2..]))[2..] == LowerAll(t[2..]) && ("0x" + EncodeHash(d))[2..] == EncodeHash(d);
      }
      assert LowerAll(t)[1] == 'x' && EncodeHash(d)[1] != 'x';
    } else {
      assert |t| >= 2 ==> LowerAll(t)[0] == Lower(t[0]) && LowerAll(t)[1] == Lower(t[1]);
    }
  }

  /** And a leaf: its digits in either case, with any spaces around. */
  lemma LeafExactly(text: string, d: Digest)
    ensures DecodeHash(Normalise(text)) == Some(d) <==> LowerAll(Trim(text)) == EncodeHash(d)
  {
    NamesDigest(Normalise(text), d);
    LowerTwice(Trim(text));
  }

  lemma NamesDigest(s: string, d: Digest)
    ensures DecodeHash(s) == Some(d) <==> LowerAll(s) == EncodeHash(d)
  {
    DecodeEncode(d);
    DecodeIgnoresCase(s);
    if IsHash(s) { EncodeDecode(s); }
  }

  lemma LowerTwice(s: string)
    ensures LowerAll(LowerAll(s)) == LowerAll(s)
  {
  }

  /** `receiptLeaf`: SHA-256 of the 32 bytes of the transaction hash. */
  function ReceiptLeaf(sha: Sha, txHash: string): Result<string, MerkleError> {
    match TxBytes(txHash)
    case None => Err(HashDecode(TxHashInput))
    case Some(bytes) => Ok(EncodeHash(sha(bytes)))
  }

  function NormaliseAll(leaves: seq<string>): seq<string> {
    seq(|leaves|, i requires 0 <= i < |leaves| => Normalise(leaves[i]))
  }

  /** Digests of the leaves when `buildBatch` accepts them all. */
  function LeafDigests(leaves: seq<string>): Option<seq<Digest>> {
    DecodeAll(NormaliseAll(leaves))
  }

  /* ----- packages/sdk/merkle.ts ----- */

  /** Which verdict, and which error in which order. */
  lemma VerdictExactly(sha: Sha, leaf: string, proof: seq<string>, root: string)
    ensures var r := VerifySpec(sha, leaf, proof, root);
            var wellFormed := forall i :: 0 <= i < |proof| ==> IsHash(proof[i]);
            && (r == Err(ProofTooLong) <==> |proof| > 32)
            && (r == Err(HashDecode(LeafInput)) <==> |proof| <= 32 && !IsHash(leaf))
            && (r == Err(HashDecode(ProofInput)) <==> |proof| <= 32 && IsHash(leaf) && !wellFormed)
            && (r == Err(HashDecode(RootInput)) <==> |proof| <= 32 && IsHash(leaf) && wellFormed && !IsHash(root))
            && (r.Ok? <==> |proof| <= 32 && IsHash(leaf) && wellFormed && IsHash(root))
            && (r == Ok(true) <==>
                  |proof| <= 32 && IsHash(leaf) && wellFormed && IsHash(root) &&
                  LowerAll(root) == EncodeHash(Fold(sha, DecodeHash(leaf).value, DecodeAll(proof).value)))
  {
    hide Fold;
    if DecodeAll(proof).Some? && IsHash(leaf) && IsHash(root) {
      EncodeDecode(root);
      DecodeEncode(Fold(sha, DecodeHash(leaf).value, DecodeAll(proof).value));
      DecodeIgnoresCase(root);
    }
  }

  method VerifyReceipt(sha: Sha, leaf: string, proof: seq<string>, root: string)
    returns (r: Result<bool, MerkleError>)
    ensures r == VerifySpec(sha, leaf, proof, root)
  {
    if |proof| > MAX_PROOF_LEN {
      return Err(ProofTooLong);
    }
    var start := DecodeHash(leaf);
    if start.None? {
      return Err(HashDecode(LeafInput));
    }
    var computed := start.value;
    for i := 0 to |proof|
      invariant forall j :: 0 <= j < i ==> IsHash(proof[j])
      invariant DecodeAll(proof[..i]).Some?
      invariant computed == Fold(sha, start.value, DecodeAll(proof[..i]).value)
    {
      var sibling := DecodeHash(proof[i]);
      if sibling.None? {
        return Err(HashDecode(ProofInput));
      }
      ghost var done := DecodeAll(proof[..i + 1]).value;
      assert done[..i] == DecodeAll(proof[..i]).value && done[i] == sibling.value;
      var pair: (Bytes, Bytes) :=
        if LessEq(computed, sibling.value) then (computed, sibling.value) else (sibling.value, computed);
      computed := sha(pair.0 + pair.1);
    }
    assert proof[..|proof|] == proof;
    var expected := DecodeHash(root);
    if expected.None? {
      return Err(HashDecode(RootInput));
    }
    return Ok(computed == expected.value);
  }

  method BuildLevels(sha: Sha, leaves: seq<Digest>) returns (levels: seq<seq<Digest>>)
    ensures levels == Levels(sha, leaves)
  {
    levels := [leaves];
    var level := leaves;
    while |level| > 1
      invariant |levels| > 0 && levels[|levels| - 1] == level
      invariant levels[..|levels| - 1] + Levels(sha, level) == Levels(sha, leaves)
      decreases |level|
    {
      var next := [];
      var i := 0;
      while i < |level|
        invariant i == 2 * |next| <= |level| + 1
        invariant next == NextLevel(sha, level)[..|next|]
      {
        next := next + [if i + 1 < |level| then Combine(sha, level[i], level[i + 1]) else level[i]];
        i := i + 2;
      }
      assert next == NextLevel(sha, level);
      assert (levels + [next])[..|levels|] == levels[..|levels| - 1] + [level];
      levels := levels + [next];
      level := next;
    }
    assert levels == levels[..|levels| - 1] + [level];
  }

  /** One level of the proof loops: push the sibling if there is one, then move up. */
  lemma ProofStep(sha: Sha, level: seq<Digest>, i: nat, sofar: seq<Digest>, whole: seq<Digest>)
    requires i < |level| && |level| > 1
    requires sofar + Proof(sha, level, i) == whole
    ensures i / 2 < |NextLevel(sha, level)|
    ensures (sofar + SiblingsAt(level, i)) + Proof(sha, NextLevel(sha, level), i / 2) == whole
  {
  }

  /** The same step on the list of levels, and its end. */
  lemma ProofLevelStep(sha: Sha, leaves: seq<Digest>, l: nat, i: nat, sofar: seq<Digest>, whole: seq<Digest>)
    requires l < |Levels(sha, leaves)| && i < |Levels(sha, leaves)[l]|
    requires sofar + Proof(sha, Levels(sha, leaves)[l], i) == whole
    ensures l + 1 < |Levels(sha, leaves)| ==>
              var level, next := Levels(sha, leaves)[l], Levels(sha, leaves)[l + 1];
              i / 2 < |next| && (sofar + SiblingsAt(level, i)) + Proof(sha, next, i / 2) == whole
    ensures l + 1 == |Levels(sha, leaves)| ==> sofar == whole
  {
    LevelsStep(sha, leaves, l);
    if l + 1 < |Levels(sha, leaves)| {
      ProofStep(sha, Levels(sha, leaves)[l], i, sofar, whole);
    }
  }

  method ProofFor(sha: Sha, levels: seq<seq<Digest>>, index: nat, ghost leaves: seq<Digest>)
    returns (proof: seq<Digest>)
    requires levels == Levels(sha, leaves) && index < |leaves|
    ensures proof == Proof(sha, leaves, index)
  {
    ghost var whole := Proof(sha, leaves, index);
    proof := [];
    var i: nat := index;
    var l: nat := 0;
    while l < |levels| - 1
      invariant l < |levels| && i < |levels[l]|
      invariant proof + Proof(sha, levels[l], i) == whole
    {
      ProofLevelStep(sha, leaves, l, i, proof, whole);
      ghost var grown := proof + SiblingsAt(levels[l], i);
      var sibling := if i % 2 == 0 then i + 1 else i - 1;
      if sibling < |levels[l]| {
        proof := proof + [levels[l][sibling]];
      }
      assert proof == grown;
      i := i / 2;
      l := l + 1;
    }
    ProofLevelStep(sha, leaves, l, i, proof, whole);
  }

  /** The decoding pass of `buildBatch`: all digests, or the first malformed leaf. */
  method DecodeLeaves(leaves: seq<string>) returns (r: Result<seq<Digest>, MerkleError>)
    ensures r.Ok? ==> LeafDigests(leaves) == Some(r.value)
    ensures r.Err? ==> IsFirstMalformed(leaves, r.error)
  {
    var buffers: seq<Digest> := [];
    for i := 0 to |leaves|
      invariant forall j :: 0 <= j < i ==> IsHash(Normalise(leaves[j]))
      invariant |buffers| == i && forall j :: 0 <= j < i ==> buffers[j] == DecodeHash(Normalise(leaves[j])).value
    {
      var bytes := DecodeHash(Normalise(leaves[i]));
      if bytes.None? {
        return Err(HashDecode(LeavesInput(i)));
      }
      buffers := buffers + [bytes.value];
    }
    assert buffers == LeafDigests(leaves).value;
    return Ok(buffers);
  }

  predicate IsFirstMalformed(leaves: seq<string>, error: MerkleError) {
    && error.HashDecode? && error.input.LeavesInput? && error.input.i < |leaves|
    && !IsHash(Normalise(leaves[error.input.i]))
    && forall j :: 0 <= j < error.input.i ==> IsHash(Normalise(leaves[j]))
  }

  /** Fills the proof record; a repeated leaf keeps the proof of its last position. */
  method RecordProofs(sha: Sha, buffers: seq<Digest>, levels: seq<seq<Digest>>, normalised: seq<string>)
    returns (proofs: map<string, seq<string>>)
    requires levels == Levels(sha, buffers) && |normalised| == |buffers|
    ensures proofs.Keys == (set leaf | leaf in normalised)
    ensures forall leaf :: leaf in proofs ==> IsProofOf(sha, buffers, normalised, leaf, proofs[leaf])
  {
    proofs := map[];
    for i := 0 to |normalised|
      invariant forall leaf :: leaf in proofs <==> leaf in normalised[..i]
      invariant forall leaf :: leaf in proofs ==> IsProofOf(sha, buffers, normalised, leaf, proofs[leaf])
    {
      var proof := ProofFor(sha, levels, i, buffers);
      assert normalised[..i + 1] == normalised[..i] + [normalised[i]];
      proofs := proofs[normalised[i] := EncodeAll(proof)];
    }
    assert normalised[..|normalised|] == normalised;
  }

  method BuildBatch(sha: Sha, leaves: seq<string>) returns (r: Result<BatchInfo, MerkleError>)
    ensures leaves == [] ==> r == Err(EmptyBatch)
    ensures leaves != [] && LeafDigests(leaves).None? ==> r.Err? && IsFirstMalformed(leaves, r.error)
    ensures leaves != [] && LeafDigests(leaves).Some? ==> r.Ok? && IsBatchOf(sha, r.value, leaves)
  {
    if leaves == [] {
      return Err(EmptyBatch);
    }
    var decoded := DecodeLeaves(leaves);
    if decoded.Err? {
      assert !IsHash(NormaliseAll(leaves)[decoded.error.input.i]);
      return Err(decoded.error);
    }
    var normalised := NormaliseAll(leaves);
    var levels := BuildLevels(sha, decoded.value);
    RootOfLevels(sha, decoded.value);
    var root := EncodeHash(levels[|levels| - 1][0]);
    var proofs := RecordProofs(sha, decoded.value, levels, normalised);
    return Ok(BatchInfo(root, normalised, proofs));
  }

  /** A recorded proof is the path of some position at which its leaf occurs (the last one,
      when a leaf is repeated: the record is keyed by leaf). */
  ghost predicate IsProofOf(sha: Sha, digests: seq<Digest>, leaves: seq<string>, leaf: string, proof: seq<string>) {
    exists i :: 0 <= i < |leaves| == |digests| && leaves[i] == leaf && proof == EncodeAll(Proof(sha, digests, i))
  }

  /** What `buildBatch` returns for leaves it accepts. */
  ghost predicate IsBatchOf(sha: Sha, batch: BatchInfo, leaves: seq<string>) {
    && leaves != []
    && LeafDigests(leaves).Some?
    && var digests := LeafDigests(leaves).value;
    && batch.root == EncodeHash(Root(sha, digests))
    && batch.leaves == NormaliseAll(leaves)
    && batch.proofs.Keys == (set leaf | leaf in batch.leaves)
    && forall leaf :: leaf in batch.proofs ==> IsProofOf(sha, digests, batch.leaves, leaf, batch.proofs[leaf])
  }

  /* ----- what the batch promises ----- */

  /** Every proof `buildBatch` returns is accepted by `verifyReceipt`, duplicates included,
      and none is longer than ceil(log2 n). The 32-sibling limit is a limit of 2^32 leaves. */
  lemma BatchProofsVerify(sha: Sha, batch: BatchInfo, leaves: seq<string>, leaf: string, k: nat)
    requires IsBatchOf(sha, batch, leaves) && leaf in batch.leaves
    requires |leaves| <= Pow2(k)
    ensures leaf in batch.proofs && |batch.proofs[leaf]| <= k
    ensures k <= MAX_PROOF_LEN ==> VerifySpec(sha, leaf, batch.proofs[leaf], batch.root) == Ok(true)
  {
    var digests := LeafDigests(leaves).value;
    var i :| 0 <= i < |batch.leaves| == |digests| && batch.leaves[i] == leaf &&
             batch.proofs[leaf] == EncodeAll(Proof(sha, digests, i));
    ProofLength(sha, digests, i, k);
    ProofFoldsToRoot(sha, digests, i);
    DecodeEncodeAll(Proof(sha, digests, i));
    DecodeEncode(Root(sha, digests));
  }

  function TxDigests(txHashes: seq<string>): (r: Option<seq<Digest>>)
    ensures r.Some? <==> forall i :: 0 <= i < |txHashes| ==> TxBytes(txHashes[i]).Some?
    ensures r.Some? ==> |r.value| == |txHashes| &&
                        forall i :: 0 <= i < |txHashes| ==> r.value[i] == TxBytes(txHashes[i]).value
  {
    if forall i :: 0 <= i < |txHashes| ==> TxBytes(txHashes[i]).Some? then
      Some(seq(|txHashes|, i requires 0 <= i < |txHashes| => TxBytes(txHashes[i]).value))
    else None
  }

  /** `leaves` are the receipt leaves of `txHashes`, as the anchoring flow feeds them. */
  predicate AreReceiptLeaves(sha: Sha, leaves: seq<string>, txHashes: seq<string>) {
    |leaves| == |txHashes| &&
    forall i :: 0 <= i < |leaves| ==> ReceiptLeaf(sha, txHashes[i]) == Ok(leaves[i])
  }

  lemma LeafNormalised(d: Digest)
    ensures Normalise(EncodeHash(d)) == EncodeHash(d)
  {
  }

  lemma ReceiptLeafDigests(sha: Sha, leaves: seq<string>, txHashes: seq<string>)
    requires AreReceiptLeaves(sha, leaves, txHashes)
    ensures TxDigests(txHashes).Some?
    ensures NormaliseAll(leaves) == leaves
    ensures LeafDigests(leaves) == Some(MerkleSoundness.LeafHashes(sha, TxDigests(txHashes).value))
  {
    forall i | 0 <= i < |leaves|
      ensures TxBytes(txHashes[i]).Some? && Normalise(leaves[i]) == leaves[i]
      ensures DecodeHash(leaves[i]) == Some(sha(TxBytes(txHashes[i]).value))
    {
      assert ReceiptLeaf(sha, txHashes[i]) == Ok(leaves[i]);
      LeafNormalised(sha(TxBytes(txHashes[i]).value));
      DecodeEncode(sha(TxBytes(txHashes[i]).value));
    }
    assert NormaliseAll(leaves) == leaves;
    assert LeafDigests(leaves).value == MerkleSoundness.LeafHashes(sha, TxDigests(txHashes).value);
  }

  /** The two hash inputs that an accepted proof of a non-member exhibits. */
  function ReceiptCollision(sha: Sha, txHashes: seq<string>, tx: string, proof: seq<string>): Option<(Bytes, Bytes)>
    requires TxDigests(txHashes).Some? && txHashes != [] && TxBytes(tx).Some? && DecodeAll(proof).Some?
  {
    MerkleSoundness.ForgedProofCollision(
      sha, MerkleSoundness.BatchTree(TxDigests(txHashes).value), TxBytes(tx).value, DecodeAll(proof).value)
  }

  /** Soundness of receipts: `verifyReceipt` accepts the receipt leaf of `tx`, under any proof
      at all, against the root of a batch of receipts only if `tx` names a transaction of the
      batch, or else the proof and the batch exhibit a collision. */
  lemma ReceiptSoundness(sha: Sha, batch: BatchInfo, leaves: seq<string>, txHashes: seq<string>,
                         tx: string, leaf: string, proof: seq<string>)
    requires IsBatchOf(sha, batch, leaves) && AreReceiptLeaves(sha, leaves, txHashes)
    requires ReceiptLeaf(sha, tx) == Ok(leaf)
    requires VerifySpec(sha, leaf, proof, batch.root) == Ok(true)
    ensures TxDigests(txHashes).Some? && TxBytes(tx).Some? && DecodeAll(proof).Some?
    ensures match ReceiptCollision(sha, txHashes, tx, proof)
            case None => exists i :: 0 <= i < |txHashes| && TxBytes(txHashes[i]) == TxBytes(tx)
            case Some(pair) => pair.0 != pair.1 && sha(pair.0) == sha(pair.1)
  {
    ReceiptLeafDigests(sha, leaves, txHashes);
    var txs := TxDigests(txHashes).value;
    DecodeEncode(sha(TxBytes(tx).value));
    DecodeEncode(Root(sha, MerkleSoundness.LeafHashes(sha, txs)));
    MerkleSoundness.BatchSoundness(sha, txs, TxBytes(tx).value, DecodeAll(proof).value);
  }

  /** An equal root means equal transactions, counted with multiplicity, whatever the two lengths. */
  lemma EqualRootsEqualReceipts(sha: Sha, a: BatchInfo, aLeaves: seq<string>, aTxs: seq<string>,
                                b: BatchInfo, bLeaves: seq<string>, bTxs: seq<string>)
    requires IsBatchOf(sha, a, aLeaves) && AreReceiptLeaves(sha, aLeaves, aTxs)
    requires IsBatchOf(sha, b, bLeaves) && AreReceiptLeaves(sha, bLeaves, bTxs)
    requires a.root == b.root
    ensures TxDigests(aTxs).Some? && TxDigests(bTxs).Some?
    ensures var xs, ys := TxDigests(aTxs).value, TxDigests(bTxs).value;
            match MerkleSoundness.EqualRootCollision(sha, MerkleSoundness.BatchTree(xs), MerkleSoundness.BatchTree(ys))
            case None => multiset(xs) == multiset(ys)
            case Some(pair) => pair.0 != pair.1 && sha(pair.0) == sha(pair.1)
  {
    ReceiptLeafDigests(sha, aLeaves, aTxs);
    ReceiptLeafDigests(sha, bLeaves, bTxs);
    var xs, ys := TxDigests(aTxs).value, TxDigests(bTxs).value;
    DecodeEncode(Root(sha, MerkleSoundness.LeafHashes(sha, xs)));
    DecodeEncode(Root(sha, MerkleSoundness.LeafHashes(sha, ys)));
    MerkleSoundness.RootCommitsToMultiset(sha, xs, ys);
  }

  /* ----- packages/sdk/src/lib.rs ----- */

  method VerifyMerkleProof(sha: Sha, leaf: Digest, proof: seq<Digest>, root: Digest) returns (r: bool)
    ensures r == (Fold(sha, leaf, proof) == root)
  {
    var computed := leaf;
    for i := 0 to |proof|
      invariant computed == Fold(sha, leaf, proof[..i])
    {
      assert proof[..i + 1][..i] == proof[..i];
      var pair: (Bytes, Bytes) := if LessEq(computed, proof[i]) then (computed, proof[i]) else (proof[i], computed);
      computed := sha(pair.0 + pair.1);
    }
    assert proof[..|proof|] == proof;
    return computed == root;
  }

  /** The Rust verifier has no length limit: it and `verifyReceipt` give one answer exactly on
      proofs of at most 32 siblings, and beyond that only the Rust one answers. */
  lemma RustAgreesUpToMaxLength(sha: Sha, leaf: Digest, proof: seq<Digest>, root: Digest)
    ensures VerifySpec(sha, EncodeHash(leaf), EncodeAll(proof), EncodeHash(root)) == Ok(Fold(sha, leaf, proof) == root)
            <==> |proof| <= MAX_PROOF_LEN
  {
    DecodeEncode(leaf);
    DecodeEncode(root);
    DecodeEncodeAll(proof);
  }

  /* ----- apps/demo-merchant/agent.js: levels and proof in one pass, on hexadecimal text ----- */

  function CombineText(sha: Sha, a: string, b: string): string
    requires IsHash(a) && IsHash(b)
  {
    EncodeHash(Combine(sha, DecodeHash(a).value, DecodeHash(b).value))
  }

  lemma CombineTextOf(sha: Sha, a: Digest, b: Digest)
    ensures IsHash(EncodeHash(a)) && IsHash(EncodeHash(b))
    ensures CombineText(sha, EncodeHash(a), EncodeHash(b)) == EncodeHash(Combine(sha, a, b))
  {
    hide EncodeHash, Combine;
    DecodeEncode(a);
    DecodeEncode(b);
  }

  lemma TextParent(sha: Sha, level: seq<string>, digests: seq<Digest>, k: nat)
    requires level == EncodeAll(digests) && 2 * k < |level|
    ensures IsHash(level[2 * k]) && (2 * k + 1 < |level| ==> IsHash(level[2 * k + 1]))
    ensures EncodeHash(Parent(sha, digests, k)) ==
            if 2 * k + 1 < |level| then CombineText(sha, level[2 * k], level[2 * k + 1]) else level[2 * k]
  {
    hide EncodeHash, IsHash, Combine, CombineText;
    CombineTextOf(sha, digests[2 * k], digests[if 2 * k + 1 < |level| then 2 * k + 1 else 2 * k]);
  }

  method NextTextLevel(sha: Sha, level: seq<string>, ghost digests: seq<Digest>) returns (next: seq<string>)
    requires level == EncodeAll(digests)
    ensures next == EncodeAll(NextLevel(sha, digests))
  {
    next := [];
    var j := 0;
    while j < |level|
      invariant j == 2 * |next| <= |level| + 1
      invariant forall k :: 0 <= k < |next| ==> next[k] == EncodeHash(Parent(sha, digests, k))
    {
      TextParent(sha, level, digests, |next|);
      next := next + [if j + 1 < |level| then CombineText(sha, level[j], level[j + 1]) else level[j]];
      j := j + 2;
    }
  }

  method AgentProofFor(sha: Sha, leaves: seq<string>, index: nat, ghost digests: seq<Digest>)
    returns (proof: seq<string>)
    requires leaves == EncodeAll(digests) && index < |leaves|
    ensures proof == EncodeAll(Proof(sha, digests, index))
  {
    var level := leaves;
    proof := [];
    var i: nat := index;
    ghost var at := digests;
    ghost var path: seq<Digest> := [];
    ghost var whole := Proof(sha, digests, index);
    while |level| > 1
      invariant level == EncodeAll(at) && i < |at|
      invariant proof == EncodeAll(path)
      invariant path + Proof(sha, at, i) == whole
      decreases |level|
    {
      ProofStep(sha, at, i, path, whole);
      var sibling := if i % 2 == 0 then i + 1 else i - 1;
      if sibling < |level| {
        proof := proof + [level[sibling]];
      }
      path := path + SiblingsAt(at, i);
      assert proof == EncodeAll(path);
      level := NextTextLevel(sha, level, at);
      at := NextLevel(sha, at);
      i := i / 2;
    }
    assert path == whole;
  }

  /** None models the `undefined` that an empty list of leaves yields. */
  method BatchRootFor(sha: Sha, leaves: seq<string>, ghost digests: seq<Digest>) returns (root: Option<string>)
    requires leaves == EncodeAll(digests)
    ensures root == if leaves == [] then None else Some(EncodeHash(Root(sha, digests)))
  {
    var level := leaves;
    ghost var at := digests;
    while |level| > 1
      invariant level == EncodeAll(at) && (level == [] <==> leaves == [])
      invariant |at| > 0 ==> Root(sha, at) == Root(sha, digests)
      decreases |level|
    {
      level := NextTextLevel(sha, level, at);
      at := NextLevel(sha, at);
    }
    return if level == [] then None else Some(level[0]);
  }
}
