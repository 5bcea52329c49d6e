/** The order of last use in a log of keys. */
module Recency {

  /** Position `i` is the last use of its key. */
  ghost predicate IsLast<K>(log: seq<K>, i: nat) {
    i < |log| && forall j :: i < j < |log| ==> log[j] != log[i]
  }

  /** The other keys used after position `i`. */
  ghost function Others<K(!new)>(log: seq<K>, i: nat): set<K>
    requires i < |log|
  {
    set j | i < j < |log| && log[j] != log[i] :: log[j]
  }

  lemma {:induction false} SubsetSize<K>(a: set<K>, b: set<K>)
    requires a <= b
    ensures |a| <= |b|
  {
    if a != {} {
      var x :| x in a;
      SubsetSize(a - {x}, b - {x});
    }
  }

  lemma TwoMore<K>(a: set<K>, x: K, y: K, b: set<K>, max: nat)
    requires a <= b && x in b && y in b && x != y && x !in a && y !in a
    requires |a| == max - 2 && |b| <= max
    ensures b == a + {x, y} && |b| == max
  {
    assert a + {x, y} == a + {x} + {y};
    if z :| z in b && z !in a + {x, y} {
      SubsetSize(a + {x} + {y} + {z}, b);
    }
  }

  /** One more use adds its key. */
  lemma OthersGrow<K(!new)>(log: seq<K>, k: K, i: nat)
    requires i < |log|
    ensures Others(log + [k], i) == Others(log, i) + (if k == log[i] then {} else {k})
    ensures |Others(log, i)| <= |Others(log + [k], i)|
  {
    var log' := log + [k];
    forall n | n in Others(log, i) ensures n in Others(log', i) {
      var j :| i < j < |log| && log[j] != log[i] && n == log[j];
      assert log'[j] == log[j];
    }
    assert log'[|log|] == k;
    SubsetSize(Others(log, i), Others(log', i));
  }

  lemma OthersShrink<K(!new)>(log: seq<K>, i: nat, j: nat)
    requires i <= j < |log| && log[i] == log[j]
    ensures |Others(log, j)| <= |Others(log, i)|
  {
    forall n | n in Others(log, j) ensures n in Others(log, i) {
      var k :| j < k < |log| && log[k] != log[j] && n == log[k];
    }
    SubsetSize(Others(log, j), Others(log, i));
  }

  lemma {:induction false} LastOf<K>(log: seq<K>, k: K, i: nat) returns (last: nat)
    requires i < |log| && log[i] == k
    ensures i <= last && IsLast(log, last) && log[last] == k
    decreases |log| - i
  {
    if IsLast(log, i) {
      last := i;
    } else {
      var j :| i < j < |log| && log[j] == k;
      last := LastOf(log, k, j);
    }
  }

  lemma SameLast<K>(log: seq<K>, i: nat, j: nat)
    requires IsLast(log, i) && IsLast(log, j) && log[i] == log[j]
    ensures i == j
  {
  }

  lemma OthersAreOther<K(!new)>(log: seq<K>, i: nat)
    requires i < |log|
    ensures log[i] !in Others(log, i)
  {
  }

  lemma StillLast<K>(log: seq<K>, n: K, i: nat)
    requires i < |log| && IsLast(log + [n], i)
    ensures IsLast(log, i) && log[i] != n
  {
    var log' := log + [n];
    assert log'[|log|] == n;
    forall j | i < j < |log| ensures log[j] != log[i] {
      assert log'[j] == log[j];
    }
  }
}
