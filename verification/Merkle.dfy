/** The transparency log's Merkle tree, in which the odd node of a level is paired with itself.
    The domain-separated hash is a free term: a leaf, a node and the empty tree never collide. */
module Merkle {

  datatype Entry = Entry(seqNo: nat, idPkHex: string, evidenceSha256Hex: string, observedAtUnix: nat)

  datatype Hash = Empty | Leaf(entry: Entry) | Node(left: Hash, right: Hash)

  // ---------------------------------------------------------------- levels

  /** Index of the right partner of pair `k` in a level of `n` nodes. */
  function RightOf(n: nat, k: nat): nat {
    if 2 * k + 1 < n then 2 * k + 1 else 2 * k
  }

  /** The level above. */
  function Up(level: seq<Hash>): (next: seq<Hash>)
    ensures |next| == (|level| + 1) / 2
  {
    seq((|level| + 1) / 2, k requires 0 <= k < (|level| + 1) / 2 => Node(level[2 * k], level[RightOf(|level|, k)]))
  }

  function RootOf(level: seq<Hash>): Hash
    decreases |level|
  {
    if level == [] then Empty
    else if |level| == 1 then level[0]
    else RootOf(Up(level))
  }

  function Leaves(entries: seq<Entry>): (l: seq<Hash>)
    ensures |l| == |entries| && forall i :: 0 <= i < |l| ==> l[i] == Leaf(entries[i])
  {
    seq(|entries|, i requires 0 <= i < |entries| => Leaf(entries[i]))
  }

  function MerkleRoot(entries: seq<Entry>): Hash {
    RootOf(Leaves(entries))
  }

  /** One pass of the pairing loop. */
  method NextLevel(level: seq<Hash>) returns (next: seq<Hash>)
    ensures next == Up(level)
  {
    next := [];
    var i := 0;
    while i < |level|
      invariant 0 <= i && i % 2 == 0 && |next| == i / 2 && i <= |level| + 1
      invariant forall k :: 0 <= k < |next| ==> next[k] == Node(level[2 * k], level[RightOf(|level|, k)])
    {
      var left := level[i];
      var right := if i + 1 < |level| then level[i + 1] else level[i];
      next := next + [Node(left, right)];
      i := i + 2;
    }
  }

  method RootOfLeaves(leaves: seq<Hash>) returns (root: Hash)
    ensures root == RootOf(leaves)
  {
    if leaves == [] {
      return Empty;
    }
    var level := leaves;
    while |level| > 1
      invariant level != [] && RootOf(level) == RootOf(leaves)
    {
      level := NextLevel(level);
    }
    root := level[0];
  }

  // ---------------------------------------------------------------- height

  function Height(h: Hash): nat {
    match h
    case Node(l, _) => 1 + Height(l)
    case _ => 0
  }

  predicate Even(level: seq<Hash>, d: nat) {
    forall i :: 0 <= i < |level| ==> Height(level[i]) == d
  }

  lemma {:induction false} RootHeight(level: seq<Hash>, d: nat)
    requires level != [] && Even(level, d)
    ensures Height(RootOf(level)) >= d && (|level| > 1 ==> Height(RootOf(level)) > d)
    decreases |level|
  {
    if |level| > 1 {
      RootHeight(Up(level), d + 1);
    }
  }

  // ---------------------------------------------------------------- a root binds distinct leaves

  ghost predicate Distinct(level: seq<Hash>) {
    forall i, j :: 0 <= i < j < |level| ==> level[i] != level[j]
  }

  lemma UpDistinct(level: seq<Hash>)
    requires Distinct(level)
    ensures Distinct(Up(level))
  {
    forall i, j | 0 <= i < j < |Up(level)| ensures Up(level)[i] != Up(level)[j] {
      assert level[2 * i] != level[2 * j];
    }
  }

  /** The last node of the level above pairs a leaf with itself exactly when the level is odd. */
  lemma OddLevelRepeats(level: seq<Hash>)
    requires level != [] && Distinct(level)
    ensures var last := Up(level)[|Up(level)| - 1]; |level| % 2 == 1 <==> last.left == last.right
  {
    var k := |Up(level)| - 1;
    assert Up(level)[k] == Node(level[2 * k], level[RightOf(|level|, k)]);
  }

  lemma UpBinds(a: seq<Hash>, b: seq<Hash>)
    requires Distinct(a) && Distinct(b) && Up(a) == Up(b)
    ensures a == b
  {
    if a != [] && b != [] {
      OddLevelRepeats(a);
      OddLevelRepeats(b);
    }
    assert |a| == |b|;
    forall i | 0 <= i < |a| ensures a[i] == b[i] {
      assert Up(a)[i / 2] == Up(b)[i / 2];
    }
  }

  /** Lists of pairwise distinct leaves with one root are one list. */
  lemma {:induction false} RootBindsDistinct(a: seq<Hash>, b: seq<Hash>, d: nat)
    requires a != [] && b != [] && Even(a, d) && Even(b, d) && Distinct(a) && Distinct(b)
    requires RootOf(a) == RootOf(b)
    ensures a == b
    decreases |a|
  {
    RootHeight(a, d);
    RootHeight(b, d);
    if |a| > 1 && |b| > 1 {
      UpDistinct(a);
      UpDistinct(b);
      RootBindsDistinct(Up(a), Up(b), d + 1);
      UpBinds(a, b);
    }
  }

  /** Entry `i` carries number `i`. */
  predicate SeqIndexed(entries: seq<Entry>) {
    forall i :: 0 <= i < |entries| ==> entries[i].seqNo == i
  }

  /** Two logs in which entry `i` carries number `i` and which have one root are the same log, of the same length. */
  lemma RootBindsLog(a: seq<Entry>, b: seq<Entry>)
    requires SeqIndexed(a) && SeqIndexed(b)
    requires MerkleRoot(a) == MerkleRoot(b)
    ensures a == b
  {
    var la, lb := Leaves(a), Leaves(b);
    if a != [] {
      RootNotEmpty(la);
    }
    if b != [] {
      RootNotEmpty(lb);
    }
    if a != [] && b != [] {
      RootBindsDistinct(la, lb, 0);
      forall i | 0 <= i < |a| ensures a[i] == b[i] {
        assert la[i] == lb[i];
      }
    }
  }

  lemma {:induction false} RootNotEmpty(level: seq<Hash>)
    requires level != [] && forall i :: 0 <= i < |level| ==> !level[i].Empty?
    ensures !RootOf(level).Empty?
    decreases |level|
  {
    if |level| > 1 {
      RootNotEmpty(Up(level));
    }
  }

  // ---------------------------------------------------------------- when raw roots collide

  /** Without the numbering rule a root does not fix the leaves: repeating the odd last leaf changes nothing. */
  lemma OddLeafRepeats(level: seq<Hash>)
    requires |level| > 1 && |level| % 2 == 1
    ensures RootOf(level + [level[|level| - 1]]) == RootOf(level)
  {
    var longer := level + [level[|level| - 1]];
    var m := |level| / 2;
    assert |level| == 2 * m + 1 && |Up(level)| == m + 1 && |Up(longer)| == m + 1;
    forall k | 0 <= k < m + 1 ensures Up(longer)[k] == Up(level)[k] {
      assert RightOf(|longer|, k) == 2 * k + 1;
      assert longer[2 * k] == level[2 * k] && longer[2 * k + 1] == level[RightOf(|level|, k)];
    }
    assert Up(longer) == Up(level);
    assert RootOf(longer) == RootOf(Up(longer)) && RootOf(level) == RootOf(Up(level));
  }

  /** The leaf indices of a tree of `n` leaves, left to right, with every repetition. */
  function Slots(n: nat): seq<nat>
    requires n > 0
  {
    if n == 1 then [0] else Doubled(n, Slots((n + 1) / 2))
  }

  function Doubled(n: nat, pairs: seq<nat>): seq<nat> {
    if pairs == [] then [] else [2 * pairs[0], RightOf(n, pairs[0])] + Doubled(n, pairs[1..])
  }

  lemma {:induction false} DoubledInRange(n: nat, pairs: seq<nat>)
    requires forall k :: 0 <= k < |pairs| ==> pairs[k] < (n + 1) / 2
    ensures |Doubled(n, pairs)| == 2 * |pairs|
    ensures forall k :: 0 <= k < |Doubled(n, pairs)| ==> Doubled(n, pairs)[k] < n
    decreases |pairs|
  {
    if pairs != [] {
      DoubledInRange(n, pairs[1..]);
    }
  }

  lemma {:induction false} SlotsInRange(n: nat)
    requires n > 0
    ensures |Slots(n)| >= 1 && (n > 1 ==> |Slots(n)| > 1)
    ensures forall k :: 0 <= k < |Slots(n)| ==> Slots(n)[k] < n
  {
    if n > 1 {
      SlotsInRange((n + 1) / 2);
      DoubledInRange(n, Slots((n + 1) / 2));
    }
  }

  predicate InRange(level: seq<Hash>, idx: seq<nat>) {
    forall k :: 0 <= k < |idx| ==> idx[k] < |level|
  }

  function Gather(level: seq<Hash>, idx: seq<nat>): seq<Hash>
    requires InRange(level, idx)
  {
    if idx == [] then [] else [level[idx[0]]] + Gather(level, idx[1..])
  }

  /** The padded leaf row a tree is really built on. */
  function Row(level: seq<Hash>): seq<Hash>
    requires level != []
  {
    SlotsInRange(|level|);
    Gather(level, Slots(|level|))
  }

  /** The children of a row of nodes. */
  function Children(row: seq<Hash>): seq<Hash>
    requires forall k :: 0 <= k < |row| ==> row[k].Node?
  {
    if row == [] then [] else [row[0].left, row[0].right] + Children(row[1..])
  }

  lemma {:induction false} GatherDoubles(level: seq<Hash>, pairs: seq<nat>)
    requires InRange(Up(level), pairs)
    ensures InRange(level, Doubled(|level|, pairs))
    ensures forall k :: 0 <= k < |Gather(Up(level), pairs)| ==> Gather(Up(level), pairs)[k].Node?
    ensures Gather(level, Doubled(|level|, pairs)) == Children(Gather(Up(level), pairs))
    decreases |pairs|
  {
    DoubledInRange(|level|, pairs);
    if pairs != [] {
      GatherDoubles(level, pairs[1..]);
      var n := |level|;
      var two := [2 * pairs[0], RightOf(n, pairs[0])];
      var rest := Doubled(n, pairs[1..]);
      var idx := two + rest;
      assert idx == Doubled(n, pairs);
      assert idx[1..] == [RightOf(n, pairs[0])] + rest && idx[1..][1..] == rest;
      assert Up(level)[pairs[0]] == Node(level[2 * pairs[0]], level[RightOf(n, pairs[0])]);
    }
  }

  lemma {:induction false} ChildrenInjective(a: seq<Hash>, b: seq<Hash>)
    requires (forall k :: 0 <= k < |a| ==> a[k].Node?) && (forall k :: 0 <= k < |b| ==> b[k].Node?)
    requires Children(a) == Children(b)
    ensures a == b
    decreases |a|
  {
    if a != [] && b != [] {
      assert Children(a)[2..] == Children(a[1..]) && Children(b)[2..] == Children(b[1..]);
      assert Children(a)[0] == Children(b)[0] && Children(a)[1] == Children(b)[1];
      ChildrenInjective(a[1..], b[1..]);
      assert a == [a[0]] + a[1..] && b == [b[0]] + b[1..];
    }
  }

  lemma RowIsChildren(level: seq<Hash>)
    requires |level| > 1
    ensures forall k :: 0 <= k < |Row(Up(level))| ==> Row(Up(level))[k].Node?
    ensures Row(level) == Children(Row(Up(level)))
  {
    SlotsInRange(|Up(level)|);
    GatherDoubles(level, Slots(|Up(level)|));
  }

  lemma {:induction false} GatherLength(level: seq<Hash>, idx: seq<nat>)
    requires InRange(level, idx)
    ensures |Gather(level, idx)| == |idx|
    decreases |idx|
  {
    if idx != [] {
      GatherLength(level, idx[1..]);
    }
  }

  lemma RowLength(level: seq<Hash>)
    requires level != []
    ensures |level| == 1 ==> Row(level) == level
    ensures |level| > 1 ==> |Row(level)| > 1
  {
    SlotsInRange(|level|);
    GatherLength(level, Slots(|level|));
    if |level| == 1 {
      assert Gather(level, [0]) == [level[0]] + Gather(level, [0][1..]);
    }
  }

  /** Exactly when two leaf lists share a root: when padding them, level by level, gives the same row. */
  lemma {:induction false} RootsAgreeIff(a: seq<Hash>, b: seq<Hash>, d: nat)
    requires a != [] && b != [] && Even(a, d) && Even(b, d)
    ensures RootOf(a) == RootOf(b) <==> Row(a) == Row(b)
    decreases |a|
  {
    RootHeight(a, d);
    RootHeight(b, d);
    RowLength(a);
    RowLength(b);
    if |a| > 1 && |b| > 1 {
      RootsAgreeIff(Up(a), Up(b), d + 1);
      RowIsChildren(a);
      RowIsChildren(b);
      if Row(a) == Row(b) {
        ChildrenInjective(Row(Up(a)), Row(Up(b)));
      }
    }
  }
}
