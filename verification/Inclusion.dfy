/** Audit paths: what `build` produces, what `verify` accepts. */
module Inclusion {
  import opened Bytes
  import opened Options
  import opened Merkle

  /** A hex string: one that decodes to a hash, or one that does not. */
  datatype Hex = Encoded(hash: Hash) | Malformed

  datatype InclusionProof = InclusionProof(
    seqNo: nat, treeSize: nat, leafHashHex: Hex, siblingsHex: seq<Hex>, directions: seq<bool>)

  // ---------------------------------------------------------------- building

  function SiblingOf(n: nat, idx: nat): nat
    requires idx < n
  {
    if idx % 2 == 1 then idx - 1 else if idx + 1 < n then idx + 1 else idx
  }

  /** The siblings met on the way up from position `idx`. */
  function Siblings(level: seq<Hash>, idx: nat): seq<Hex>
    requires idx < |level|
    decreases |level|
  {
    if |level| == 1 then [] else [Encoded(level[SiblingOf(|level|, idx)])] + Siblings(Up(level), idx / 2)
  }

  /** `true` where the node is a left child. */
  function Directions(n: nat, idx: nat): seq<bool>
    requires idx < n
    decreases n
  {
    if n == 1 then [] else [idx % 2 == 0] + Directions((n + 1) / 2, idx / 2)
  }

  function Built(entries: seq<Entry>, seqNo: nat): Option<InclusionProof> {
    if seqNo >= |entries| then None
    else Some(InclusionProof(seqNo, |entries|, Encoded(Leaf(entries[seqNo])), Siblings(Leaves(entries), seqNo),
                             Directions(|entries|, seqNo)))
  }

  lemma PathStep(level: seq<Hash>, idx: nat)
    requires idx < |level|
    ensures |level| == 1 ==> Siblings(level, idx) == [] && Directions(|level|, idx) == []
    ensures |level| > 1 ==>
              && Siblings(level, idx) == [Encoded(level[SiblingOf(|level|, idx)])] + Siblings(Up(level), idx / 2)
              && Directions(|level|, idx) == [idx % 2 == 0] + Directions(|Up(level)|, idx / 2)
  {
  }

  method Build(entries: seq<Entry>, seqNo: nat) returns (r: Option<InclusionProof>)
    ensures r == Built(entries, seqNo)
  {
    if seqNo >= |entries| {
      return None;
    }
    hide Siblings, Directions, Up;
    var leaves := Leaves(entries);
    var siblings: seq<Hex> := [];
    var directions: seq<bool> := [];
    var level := leaves;
    var idx: nat := seqNo;
    while |level| > 1
      invariant idx < |level|
      invariant siblings + Siblings(level, idx) == Siblings(leaves, seqNo)
      invariant directions + Directions(|level|, idx) == Directions(|entries|, seqNo)
      decreases |level|
    {
      var isLeft := idx % 2 == 0;
      var siblingIdx := if isLeft then idx + 1 else idx - 1;
      var sibling := if siblingIdx < |level| then level[siblingIdx] else level[idx];
      PathStep(level, idx);
      ghost var s, d := Siblings(Up(level), idx / 2), Directions(|Up(level)|, idx / 2);
      assert siblings + ([Encoded(sibling)] + s) == siblings + [Encoded(sibling)] + s;
      assert directions + ([isLeft] + d) == directions + [isLeft] + d;
      siblings := siblings + [Encoded(sibling)];
      directions := directions + [isLeft];
      level := NextLevel(level);
      idx := idx / 2;
    }
    PathStep(level, idx);
    assert siblings == siblings + Siblings(level, idx) && directions == directions + Directions(|level|, idx);
    r := Some(InclusionProof(seqNo, |entries|, Encoded(leaves[seqNo]), siblings, directions));
  }

  // ---------------------------------------------------------------- verifying

  /** The hash a path leads to, or `None` when a sibling does not decode. */
  function Climb(current: Hash, siblings: seq<Hex>, directions: seq<bool>): Option<Hash>
    requires |siblings| == |directions|
    decreases |siblings|
  {
    if siblings == [] then Some(current)
    else if siblings[0].Malformed? then None
    else Climb(if directions[0] then Node(current, siblings[0].hash) else Node(siblings[0].hash, current),
               siblings[1..], directions[1..])
  }

  predicate Verifies(p: InclusionProof, expectedRoot: Hash, expected: Entry) {
    && |p.siblingsHex| == |p.directions|
    && p.leafHashHex == Encoded(Leaf(expected))
    && Climb(Leaf(expected), p.siblingsHex, p.directions) == Some(expectedRoot)
  }

  method Verify(p: InclusionProof, expectedRoot: Hash, expected: Entry) returns (ok: bool)
    ensures ok == Verifies(p, expectedRoot, expected)
  {
    if |p.siblingsHex| != |p.directions| {
      return false;
    }
    var expectedLeaf := Leaf(expected);
    if p.leafHashHex.Malformed? || p.leafHashHex.hash != expectedLeaf {
      return false;
    }
    var current := expectedLeaf;
    for k := 0 to |p.siblingsHex|
      invariant Climb(current, p.siblingsHex[k..], p.directions[k..]) == Climb(expectedLeaf, p.siblingsHex, p.directions)
    {
      assert p.siblingsHex[k..][1..] == p.siblingsHex[k + 1..] && p.directions[k..][1..] == p.directions[k + 1..];
      if p.siblingsHex[k].Malformed? {
        return false;
      }
      var sibling := p.siblingsHex[k].hash;
      current := if p.directions[k] then Node(current, sibling) else Node(sibling, current);
    }
    ok := current == expectedRoot;
  }

  // ---------------------------------------------------------------- what is built verifies

  lemma ParentOf(level: seq<Hash>, idx: nat)
    requires idx < |level| && |level| > 1
    ensures var sibling := level[SiblingOf(|level|, idx)];
            Up(level)[idx / 2] == if idx % 2 == 0 then Node(level[idx], sibling) else Node(sibling, level[idx])
  {
  }

  lemma {:induction false} PathReachesRoot(level: seq<Hash>, idx: nat)
    requires idx < |level|
    ensures |Siblings(level, idx)| == |Directions(|level|, idx)|
    ensures Climb(level[idx], Siblings(level, idx), Directions(|level|, idx)) == Some(RootOf(level))
    decreases |level|
  {
    if |level| > 1 {
      var up := Up(level);
      PathReachesRoot(up, idx / 2);
      ParentOf(level, idx);
      hide Up;
      var s, d := Siblings(level, idx), Directions(|level|, idx);
      assert s[1..] == Siblings(up, idx / 2) && d[1..] == Directions(|up|, idx / 2);
    }
  }

  /** The path from any leaf is as long as the least `d` with `2^d >= n`. */
  lemma {:induction false} PathLength(n: nat, idx: nat)
    requires idx < n
    ensures var d := |Directions(n, idx)|; n <= Pow2(d) && (d > 0 ==> Pow2(d - 1) < n)
    decreases n
  {
    if n > 1 {
      PathLength((n + 1) / 2, idx / 2);
      assert |Directions(n, idx)| == 1 + |Directions((n + 1) / 2, idx / 2)|;
    }
  }

  /** The directions are the binary digits of the position, lowest first: left is 0. */
  lemma {:induction false} DirectionsAreDigits(n: nat, idx: nat, k: nat)
    requires idx < n && k < |Directions(n, idx)|
    ensures Directions(n, idx)[k] <==> !Bit(idx, k)
    decreases n
  {
    if k > 0 {
      DirectionsAreDigits((n + 1) / 2, idx / 2, k - 1);
    }
  }

  /** For every log and every position in it, the proof of `build` passes `verify` against the root. */
  lemma BuiltProofVerifies(entries: seq<Entry>, seqNo: nat)
    requires seqNo < |entries|
    ensures Verifies(Built(entries, seqNo).value, MerkleRoot(entries), entries[seqNo])
  {
    PathReachesRoot(Leaves(entries), seqNo);
  }

  // ---------------------------------------------------------------- what verifies is in the log

  function EntriesOf(h: Hash): set<Entry> {
    match h
    case Empty => {}
    case Leaf(e) => {e}
    case Node(l, r) => EntriesOf(l) + EntriesOf(r)
  }

  lemma {:induction false} ClimbKeepsEntries(current: Hash, siblings: seq<Hex>, directions: seq<bool>)
    requires |siblings| == |directions| && Climb(current, siblings, directions).Some?
    ensures EntriesOf(current) <= EntriesOf(Climb(current, siblings, directions).value)
    decreases |siblings|
  {
    if siblings != [] {
      var sibling := siblings[0].hash;
      ClimbKeepsEntries(if directions[0] then Node(current, sibling) else Node(sibling, current),
                        siblings[1..], directions[1..]);
    }
  }

  lemma {:induction false} RootHoldsOnlyLeaves(level: seq<Hash>, e: Entry)
    requires e in EntriesOf(RootOf(level))
    ensures exists i :: 0 <= i < |level| && e in EntriesOf(level[i])
    decreases |level|
  {
    if |level| == 1 {
      assert e in EntriesOf(level[0]);
    } else if |level| > 1 {
      RootHoldsOnlyLeaves(Up(level), e);
      var k :| 0 <= k < |Up(level)| && e in EntriesOf(Up(level)[k]);
      assert e in EntriesOf(level[2 * k]) || e in EntriesOf(level[RightOf(|level|, k)]);
    }
  }

  /** Whatever the proof says about itself: if it passes against the root of a numbered log, the entry is
      the log's entry at the position the entry names. */
  lemma AcceptedEntryIsInLog(p: InclusionProof, log: seq<Entry>, e: Entry)
    requires SeqIndexed(log) && Verifies(p, MerkleRoot(log), e)
    ensures e.seqNo < |log| && log[e.seqNo] == e
  {
    ClimbKeepsEntries(Leaf(e), p.siblingsHex, p.directions);
    RootHoldsOnlyLeaves(Leaves(log), e);
    var i :| 0 <= i < |Leaves(log)| && e in EntriesOf(Leaves(log)[i]);
    assert log[i] == e;
  }
}
