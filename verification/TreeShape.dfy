/** The Merkle tree read from the top: split at the largest power of two below the size, and a missing right half is a
    copy of the left one. */
module TreeShape {
  import opened Bytes
  import opened Merkle

  /** The tree of height `k` over at most `2^k` nodes. */
  function Tree(level: seq<Hash>, k: nat): Hash
    requires 0 < |level| <= Pow2(k)
    decreases k
  {
    if k == 0 then level[0]
    else
      var half := Pow2(k - 1);
      if |level| <= half then Node(Tree(level, k - 1), Tree(level, k - 1))
      else Node(Tree(level[..half], k - 1), Tree(level[half..], k - 1))
  }

  lemma UpSplits(level: seq<Hash>, h: nat)
    requires 2 * h < |level|
    ensures h <= |Up(level)| && Up(level)[..h] == Up(level[..2 * h]) && Up(level)[h..] == Up(level[2 * h..])
  {
    var left, right := level[..2 * h], level[2 * h..];
    forall i | 0 <= i < h ensures Up(level)[i] == Up(left)[i] {
      assert level[2 * i] == left[2 * i] && level[2 * i + 1] == left[2 * i + 1];
    }
    forall i | 0 <= i < |Up(right)| ensures Up(level)[h + i] == Up(right)[i] {
      assert level[2 * (h + i)] == right[2 * i];
      if 2 * i + 1 < |right| {
        assert level[2 * (h + i) + 1] == right[2 * i + 1];
      }
    }
  }

  /** Pairing the nodes of a level first leaves the same tree, one lower. */
  lemma {:induction false} TreeOfUp(level: seq<Hash>, k: nat)
    requires k > 0 && 0 < |level| <= Pow2(k)
    ensures 0 < |Up(level)| <= Pow2(k - 1) && Tree(level, k) == Tree(Up(level), k - 1)
    decreases k
  {
    if k > 1 {
      var half := Pow2(k - 1);
      assert half == 2 * Pow2(k - 2);
      if |level| <= half {
        TreeOfUp(level, k - 1);
      } else {
        UpSplits(level, Pow2(k - 2));
        TreeOfUp(level[..half], k - 1);
        TreeOfUp(level[half..], k - 1);
      }
    }
  }

  /** The root the loop computes bottom-up is the root of the tree read top-down, at the least height that holds the
      leaves. */
  lemma {:induction false} RootIsTree(level: seq<Hash>, k: nat)
    requires 0 < |level| <= Pow2(k) && (k > 0 ==> Pow2(k - 1) < |level|)
    ensures RootOf(level) == Tree(level, k)
    decreases k
  {
    if k > 0 {
      TreeOfUp(level, k);
      RootIsTree(Up(level), k - 1);
    }
  }
}
