/** The level-by-level Merkle tree of packages/sdk/merkle.ts on decoded digests:
    sorted pairs, an odd node at the end of a level promoted unchanged. */
module MerkleTree {
  import opened Bytes

  /** `combine`: the smaller digest first, so proofs carry no position flags. */
  function PairInput(a: Digest, b: Digest): (r: Bytes)
    ensures |r| == 2 * DIGEST_LENGTH
  {
    if LessEq(a, b) then a + b else b + a
  }

  function Combine(sha: Sha, a: Digest, b: Digest): Digest {
    sha(PairInput(a, b))
  }

  lemma CombineCommutes(sha: Sha, a: Digest, b: Digest)
    ensures Combine(sha, a, b) == Combine(sha, b, a)
  {
    LessEqIsTotalOrder(a, b);
  }

  /** The smaller digest goes first: the one with the smaller byte where they first differ. */
  lemma SmallerFirst(sha: Sha, a: Digest, b: Digest, i: nat)
    requires i < |a| && a[..i] == b[..i] && a[i] < b[i]
    ensures PairInput(a, b) == a + b && PairInput(b, a) == a + b
    ensures Combine(sha, a, b) == sha(a + b) && Combine(sha, b, a) == sha(a + b)
  {
    LessEqIsLexicographic(a, b);
    LessEqIsTotalOrder(a, b);
  }

  /** A hash input for an inner node names the unordered pair of its children. */
  lemma PairInputInjective(a: Digest, b: Digest, c: Digest, d: Digest)
    requires PairInput(a, b) == PairInput(c, d)
    ensures (a == c && b == d) || (a == d && b == c)
  {
    var s := PairInput(a, b);
    assert (s[..DIGEST_LENGTH] == a && s[DIGEST_LENGTH..] == b) || (s[..DIGEST_LENGTH] == b && s[DIGEST_LENGTH..] == a);
    assert (s[..DIGEST_LENGTH] == c && s[DIGEST_LENGTH..] == d) || (s[..DIGEST_LENGTH] == d && s[DIGEST_LENGTH..] == c);
  }

  function Parent(sha: Sha, level: seq<Digest>, k: nat): Digest
    requires 2 * k < |level|
  {
    if 2 * k + 1 < |level| then Combine(sha, level[2 * k], level[2 * k + 1]) else level[2 * k]
  }

  function NextLevel(sha: Sha, level: seq<Digest>): seq<Digest> {
    seq((|level| + 1) / 2, k requires 0 <= k < (|level| + 1) / 2 => Parent(sha, level, k))
  }

  function Levels(sha: Sha, level: seq<Digest>): (r: seq<seq<Digest>>)
    ensures |r| > 0 && r[0] == level
    decreases |level|
  {
    if |level| <= 1 then [level] else [level] + Levels(sha, NextLevel(sha, level))
  }

  function Root(sha: Sha, level: seq<Digest>): Digest
    requires |level| > 0
    decreases |level|
  {
    if |level| == 1 then level[0] else Root(sha, NextLevel(sha, level))
  }

  /** The shape of the tree: the left subtree is the largest full one that leaves something to its right. */
  lemma {:induction false} RootSplits(sha: Sha, level: seq<Digest>, k: nat)
    requires Pow2(k) < |level| <= Pow2(k + 1)
    ensures Root(sha, level) == Combine(sha, Root(sha, level[..Pow2(k)]), Root(sha, level[Pow2(k)..]))
    decreases k
  {
    var next := NextLevel(sha, level);
    if k == 0 {
      assert next == [Combine(sha, level[0], level[1])];
    } else {
      var left, right := level[..Pow2(k)], level[Pow2(k)..];
      RootSplits(sha, next, k - 1);
      assert next[..Pow2(k - 1)] == NextLevel(sha, left);
      assert next[Pow2(k - 1)..] == NextLevel(sha, right);
      if |right| == 1 { assert NextLevel(sha, right) == right; }
    }
  }

  function Sibling(i: nat): int {
    if i % 2 == 0 then i + 1 else i - 1
  }

  function SiblingsAt(level: seq<Digest>, i: nat): seq<Digest>
    requires i < |level|
  {
    if Sibling(i) < |level| then [level[Sibling(i)]] else []
  }

  /** Siblings on the path from leaf `i` to the root, leaf end first. */
  function Proof(sha: Sha, level: seq<Digest>, i: nat): seq<Digest>
    requires i < |level|
    decreases |level|
  {
    if |level| == 1 then [] else SiblingsAt(level, i) + Proof(sha, NextLevel(sha, level), i / 2)
  }

  /** The digest `verifyReceipt` computes from a leaf and a proof. */
  function Fold(sha: Sha, leaf: Digest, proof: seq<Digest>): Digest {
    if proof == [] then leaf
    else Combine(sha, Fold(sha, leaf, proof[..|proof| - 1]), proof[|proof| - 1])
  }

  lemma {:induction false} FoldConcat(sha: Sha, leaf: Digest, p: seq<Digest>, q: seq<Digest>)
    ensures Fold(sha, leaf, p + q) == Fold(sha, Fold(sha, leaf, p), q)
  {
    if q == [] {
      assert p + q == p;
    } else {
      var last := |p + q| - 1;
      assert (p + q)[..last] == p + q[..|q| - 1] && (p + q)[last] == q[|q| - 1];
      FoldConcat(sha, leaf, p, q[..|q| - 1]);
    }
  }

  /* ----- every proof verifies ----- */

  lemma FoldOneLevel(sha: Sha, level: seq<Digest>, i: nat)
    requires i < |level|
    ensures i / 2 < |NextLevel(sha, level)|
    ensures Fold(sha, level[i], SiblingsAt(level, i)) == NextLevel(sha, level)[i / 2]
  {
    if Sibling(i) < |level| {
      var s := [level[Sibling(i)]];
      assert s[..0] == [];
      assert Fold(sha, level[i], s) == Combine(sha, level[i], level[Sibling(i)]);
      CombineCommutes(sha, level[i], level[Sibling(i)]);
    }
  }

  lemma {:induction false} ProofFoldsToRoot(sha: Sha, level: seq<Digest>, i: nat)
    requires i < |level|
    ensures Fold(sha, level[i], Proof(sha, level, i)) == Root(sha, level)
    decreases |level|
  {
    if |level| > 1 {
      var next := NextLevel(sha, level);
      FoldOneLevel(sha, level, i);
      FoldConcat(sha, level[i], SiblingsAt(level, i), Proof(sha, next, i / 2));
      ProofFoldsToRoot(sha, next, i / 2);
    }
  }

  /* ----- proof length ----- */

  function Pow2(k: nat): nat {
    if k == 0 then 1 else 2 * Pow2(k - 1)
  }

  lemma {:induction false} ProofLength(sha: Sha, level: seq<Digest>, i: nat, k: nat)
    requires i < |level| <= Pow2(k)
    ensures |Proof(sha, level, i)| <= k
    decreases k
  {
    if |level| > 1 {
      ProofLength(sha, NextLevel(sha, level), i / 2, k - 1);
    }
  }

  /** The first leaf of a level of more than 2^(k-1) digests needs all k siblings, so the
      bound is ceil(log2 n) exactly and no smaller one holds. */
  lemma {:induction false} ProofLengthIsTight(sha: Sha, level: seq<Digest>, k: nat)
    requires k > 0 && Pow2(k - 1) < |level| <= Pow2(k)
    ensures |Proof(sha, level, 0)| == k
    decreases k
  {
    var next := NextLevel(sha, level);
    assert |level| > 1;
    if k > 1 {
      ProofLengthIsTight(sha, next, k - 1);
    } else {
      assert |next| == 1;
    }
  }

  lemma Pow2Of32()
    ensures Pow2(32) == 0x1_0000_0000
  {
    assert Pow2(8) == 256;
    assert Pow2(16) == 0x1_0000;
    assert Pow2(24) == 0x100_0000;
  }

  /* ----- the levels as the loops see them ----- */

  lemma {:induction false} LevelsStep(sha: Sha, level: seq<Digest>, l: nat)
    requires l < |Levels(sha, level)|
    ensures l + 1 < |Levels(sha, level)| <==> |Levels(sha, level)[l]| > 1
    ensures l + 1 < |Levels(sha, level)| ==> Levels(sha, level)[l + 1] == NextLevel(sha, Levels(sha, level)[l])
    ensures |level| > 0 ==> |Levels(sha, level)[l]| > 0
    decreases |level|
  {
    if |level| > 1 && l > 0 {
      LevelsStep(sha, NextLevel(sha, level), l - 1);
    }
  }

  lemma {:induction false} RootOfLevels(sha: Sha, level: seq<Digest>)
    requires |level| > 0
    ensures Levels(sha, level)[|Levels(sha, level)| - 1] == [Root(sha, level)]
    decreases |level|
  {
    if |level| > 1 {
      RootOfLevels(sha, NextLevel(sha, level));
    }
  }
}
