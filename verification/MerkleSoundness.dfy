/** What an accepted proof and an equal root mean. Nothing is assumed of the hash: each
    theorem ends in "or here are two inputs with one digest", and computes that pair.
    A production leaf hashes the 32 bytes of a transaction hash and an inner node hashes
    64 bytes, so the two kinds of input never coincide. */
module MerkleSoundness {
  import opened Wrappers
  import opened Bytes
  import opened MerkleTree

  datatype Tree = Leaf(tx: Digest) | Node(left: Tree, right: Tree)

  function TreeHash(sha: Sha, t: Tree): Digest {
    match t
    case Leaf(tx) => sha(tx)
    case Node(l, r) => Combine(sha, TreeHash(sha, l), TreeHash(sha, r))
  }

  function TreeTxs(t: Tree): seq<Digest> {
    match t
    case Leaf(tx) => [tx]
    case Node(l, r) => TreeTxs(l) + TreeTxs(r)
  }

  function LeafHashes(sha: Sha, txs: seq<Digest>): seq<Digest> {
    seq(|txs|, i requires 0 <= i < |txs| => sha(txs[i]))
  }

  /* ----- the tree that the levels compute ----- */

  function Merge(forest: seq<Tree>, k: nat): Tree
    requires 2 * k < |forest|
  {
    if 2 * k + 1 < |forest| then Node(forest[2 * k], forest[2 * k + 1]) else forest[2 * k]
  }

  function MergeLevel(forest: seq<Tree>): seq<Tree> {
    seq((|forest| + 1) / 2, k requires 0 <= k < (|forest| + 1) / 2 => Merge(forest, k))
  }

  function GrowTree(forest: seq<Tree>): Tree
    requires |forest| > 0
    decreases |forest|
  {
    if |forest| == 1 then forest[0] else GrowTree(MergeLevel(forest))
  }

  function ForestHashes(sha: Sha, forest: seq<Tree>): seq<Digest> {
    seq(|forest|, i requires 0 <= i < |forest| => TreeHash(sha, forest[i]))
  }

  function ForestTxs(forest: seq<Tree>): seq<Digest> {
    if forest == [] then [] else TreeTxs(forest[0]) + ForestTxs(forest[1..])
  }

  function BatchTree(txs: seq<Digest>): Tree
    requires |txs| > 0
  {
    GrowTree(seq(|txs|, i requires 0 <= i < |txs| => Leaf(txs[i])))
  }

  lemma {:induction false} GrowTreeHash(sha: Sha, forest: seq<Tree>)
    requires |forest| > 0
    ensures TreeHash(sha, GrowTree(forest)) == Root(sha, ForestHashes(sha, forest))
    decreases |forest|
  {
    if |forest| > 1 {
      assert ForestHashes(sha, MergeLevel(forest)) == NextLevel(sha, ForestHashes(sha, forest));
      GrowTreeHash(sha, MergeLevel(forest));
    }
  }

  lemma {:induction false} MergeLevelTxs(forest: seq<Tree>)
    ensures ForestTxs(MergeLevel(forest)) == ForestTxs(forest)
    decreases |forest|
  {
    var merged := MergeLevel(forest);
    if |forest| == 1 {
      assert merged == forest;
    } else if |forest| > 1 {
      assert merged[1..] == MergeLevel(forest[2..]);
      MergeLevelTxs(forest[2..]);
      assert forest[1..][1..] == forest[2..];
    }
  }

  lemma {:induction false} GrowTreeTxs(forest: seq<Tree>)
    requires |forest| > 0
    ensures TreeTxs(GrowTree(forest)) == ForestTxs(forest)
    decreases |forest|
  {
    if |forest| > 1 {
      MergeLevelTxs(forest);
      GrowTreeTxs(MergeLevel(forest));
    } else {
      assert forest[1..] == [];
    }
  }

  lemma {:induction false} LeafForestTxs(txs: seq<Digest>)
    ensures ForestTxs(seq(|txs|, i requires 0 <= i < |txs| => Leaf(txs[i]))) == txs
  {
    var forest := seq(|txs|, i requires 0 <= i < |txs| => Leaf(txs[i]));
    if txs != [] {
      assert forest[1..] == seq(|txs[1..]|, i requires 0 <= i < |txs[1..]| => Leaf(txs[1..][i]));
      LeafForestTxs(txs[1..]);
    }
  }

  /** The root of a batch is the hash of one binary tree whose leaves, left to right, are the batch. */
  lemma BatchTreeMeaning(sha: Sha, txs: seq<Digest>)
    requires |txs| > 0
    ensures TreeHash(sha, BatchTree(txs)) == Root(sha, LeafHashes(sha, txs))
    ensures TreeTxs(BatchTree(txs)) == txs
  {
    var forest := seq(|txs|, i requires 0 <= i < |txs| => Leaf(txs[i]));
    GrowTreeHash(sha, forest);
    GrowTreeTxs(forest);
    LeafForestTxs(txs);
    assert ForestHashes(sha, forest) == LeafHashes(sha, txs);
  }

  /* ----- an accepted proof names a member ----- */

  /** Walks a proof from the root end down the tree; returns the first two different hash
      inputs that had to agree. */
  function ForgedProofCollision(sha: Sha, t: Tree, tx: Digest, proof: seq<Digest>): Option<(Bytes, Bytes)> {
    if proof == [] then
      match t
      case Leaf(y) => if y == tx then None else Some((y, tx))
      case Node(l, r) => Some((PairInput(TreeHash(sha, l), TreeHash(sha, r)), tx))
    else
      var below := proof[..|proof| - 1];
      var input := PairInput(Fold(sha, sha(tx), below), proof[|proof| - 1]);
      match t
      case Leaf(y) => Some((y, input))
      case Node(l, r) =>
        if PairInput(TreeHash(sha, l), TreeHash(sha, r)) != input then
          Some((PairInput(TreeHash(sha, l), TreeHash(sha, r)), input))
        else if TreeHash(sha, l) == Fold(sha, sha(tx), below) then ForgedProofCollision(sha, l, tx, below)
        else ForgedProofCollision(sha, r, tx, below)
  }

  lemma {:induction false} AcceptedProofNamesMember(sha: Sha, t: Tree, tx: Digest, proof: seq<Digest>)
    requires Fold(sha, sha(tx), proof) == TreeHash(sha, t)
    ensures match ForgedProofCollision(sha, t, tx, proof)
            case None => tx in TreeTxs(t)
            case Some(pair) => IsCollision(sha, pair)
  {
    if proof != [] && t.Node? {
      var below, last := proof[..|proof| - 1], proof[|proof| - 1];
      var f, hl, hr := Fold(sha, sha(tx), below), TreeHash(sha, t.left), TreeHash(sha, t.right);
      if PairInput(hl, hr) == PairInput(f, last) {
        PairInputInjective(hl, hr, f, last);
        if hl == f {
          AcceptedProofNamesMember(sha, t.left, tx, below);
        } else {
          AcceptedProofNamesMember(sha, t.right, tx, below);
        }
      }
    }
  }

  /** Soundness of a batch: whatever proof is presented, an accepted transaction is in the batch. */
  lemma BatchSoundness(sha: Sha, txs: seq<Digest>, tx: Digest, proof: seq<Digest>)
    requires |txs| > 0
    requires Fold(sha, sha(tx), proof) == Root(sha, LeafHashes(sha, txs))
    ensures match ForgedProofCollision(sha, BatchTree(txs), tx, proof)
            case None => tx in txs
            case Some(pair) => IsCollision(sha, pair)
  {
    BatchTreeMeaning(sha, txs);
    AcceptedProofNamesMember(sha, BatchTree(txs), tx, proof);
  }

  /* ----- a root commits to the multiset of leaves ----- */

  function EqualRootCollision(sha: Sha, t: Tree, u: Tree): Option<(Bytes, Bytes)> {
    match (t, u)
    case (Leaf(x), Leaf(y)) => if x == y then None else Some((x, y))
    case (Leaf(x), Node(l, r)) => Some((x, PairInput(TreeHash(sha, l), TreeHash(sha, r))))
    case (Node(l, r), Leaf(y)) => Some((PairInput(TreeHash(sha, l), TreeHash(sha, r)), y))
    case (Node(a, b), Node(c, d)) =>
      var i, j := PairInput(TreeHash(sha, a), TreeHash(sha, b)), PairInput(TreeHash(sha, c), TreeHash(sha, d));
      if i != j then Some((i, j))
      else
        var straight := TreeHash(sha, a) == TreeHash(sha, c);
        var first := EqualRootCollision(sha, a, if straight then c else d);
        if first.Some? then first else EqualRootCollision(sha, b, if straight then d else c)
  }

  lemma {:induction false} EqualHashesEqualLeaves(sha: Sha, t: Tree, u: Tree)
    requires TreeHash(sha, t) == TreeHash(sha, u)
    ensures match EqualRootCollision(sha, t, u)
            case None => multiset(TreeTxs(t)) == multiset(TreeTxs(u))
            case Some(pair) => IsCollision(sha, pair)
  {
    if t.Node? && u.Node? {
      var a, b, c, d := t.left, t.right, u.left, u.right;
      var ha, hb, hc, hd := TreeHash(sha, a), TreeHash(sha, b), TreeHash(sha, c), TreeHash(sha, d);
      if PairInput(ha, hb) == PairInput(hc, hd) {
        PairInputInjective(ha, hb, hc, hd);
        if ha == hc {
          EqualHashesEqualLeaves(sha, a, c);
          EqualHashesEqualLeaves(sha, b, d);
        } else {
          EqualHashesEqualLeaves(sha, a, d);
          EqualHashesEqualLeaves(sha, b, c);
        }
      }
    }
  }

  /** Two batches of any lengths with one root hold the same transactions, with multiplicity. */
  lemma RootCommitsToMultiset(sha: Sha, txs: seq<Digest>, others: seq<Digest>)
    requires |txs| > 0 && |others| > 0
    requires Root(sha, LeafHashes(sha, txs)) == Root(sha, LeafHashes(sha, others))
    ensures match EqualRootCollision(sha, BatchTree(txs), BatchTree(others))
            case None => multiset(txs) == multiset(others)
            case Some(pair) => IsCollision(sha, pair)
  {
    BatchTreeMeaning(sha, txs);
    BatchTreeMeaning(sha, others);
    EqualHashesEqualLeaves(sha, BatchTree(txs), BatchTree(others));
  }
}
