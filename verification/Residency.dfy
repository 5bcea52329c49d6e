/** Which keys a bounded table with least-recently-used eviction holds, told from the log of its uses alone. */
module Residency {
  import opened Lru
  import opened Recency

  /** The table against the log: stamps in the order of last use, whoever was used after a held key is held, and
      whoever is not was followed by `max` others and left a full table. Without a cap (`max == 0`) nobody goes. */
  ghost predicate Tracks<K(!new)>(stamps: map<K, Stamp>, log: seq<K>, max: nat) {
    && (forall k :: k in stamps ==> k in log)
    && (max > 0 ==> |stamps| <= max)
    && InUseOrder(stamps, log) && Together(stamps, log) && Remembers(stamps, log, max)
  }

  ghost predicate InUseOrder<K(!new)>(stamps: map<K, Stamp>, log: seq<K>) {
    forall i: nat, j: nat :: IsLast(log, i) && IsLast(log, j) && i < j && log[i] in stamps && log[j] in stamps
                             ==> stamps[log[i]].order < stamps[log[j]].order
  }

  ghost predicate Together<K(!new)>(stamps: map<K, Stamp>, log: seq<K>) {
    forall i: nat :: IsLast(log, i) && log[i] in stamps ==> Others(log, i) <= stamps.Keys
  }

  ghost predicate Remembers<K(!new)>(stamps: map<K, Stamp>, log: seq<K>, max: nat) {
    forall i: nat :: IsLast(log, i) && log[i] !in stamps ==> max > 0 && |stamps| >= max && |Others(log, i)| >= max
  }

  /** One use of `n`: it gets the latest stamp; everyone else keeps theirs, except that in a full table without `n` the
      least recent goes. */
  ghost predicate Uses<K(!new)>(stamps: map<K, Stamp>, after: map<K, Stamp>, n: K, max: nat) {
    && n in after
    && (forall k :: k in after && k != n ==> k in stamps && after[k] == stamps[k] && stamps[k].order < after[n].order)
    && (forall k :: k in stamps && k != n && k !in after
                    ==> n !in stamps && max > 0 && |stamps| >= max && LeastRecent(stamps, k))
    && |stamps| <= |after| && (max > 0 ==> |after| <= max)
  }

  // ---------------------------------------------------------------- one use

  lemma LastBefore<K>(log: seq<K>, n: K, i: nat)
    requires IsLast(log + [n], i) && (log + [n])[i] != n
    ensures i < |log| && IsLast(log, i) && log[i] == (log + [n])[i]
  {
    assert i < |log|;
    StillLast(log, n, i);
  }

  lemma UseKeepsOrder<K(!new)>(stamps: map<K, Stamp>, after: map<K, Stamp>, log: seq<K>, n: K, max: nat)
    requires InUseOrder(stamps, log) && Uses(stamps, after, n, max)
    ensures InUseOrder(after, log + [n])
  {
    var log' := log + [n];
    forall i: nat, j: nat | IsLast(log', i) && IsLast(log', j) && i < j && log'[i] in after && log'[j] in after
      ensures after[log'[i]].order < after[log'[j]].order
    {
      assert log'[|log|] == n && log'[i] != n;
      LastBefore(log, n, i);
      if log'[j] != n {
        LastBefore(log, n, j);
      }
    }
  }

  /** The least recent key was not used after any other held one. */
  lemma LeastIsOldest<K(!new)>(stamps: map<K, Stamp>, log: seq<K>, v: K, i: nat)
    requires InUseOrder(stamps, log) && LeastRecent(stamps, v) && IsLast(log, i) && log[i] in stamps && log[i] != v
    ensures v !in Others(log, i)
  {
    if v in Others(log, i) {
      var j: nat :| i < j < |log| && log[j] == v;
      var last := LastOf(log, v, j);
    }
  }

  lemma UseKeepsTogether<K(!new)>(stamps: map<K, Stamp>, after: map<K, Stamp>, log: seq<K>, n: K, max: nat)
    requires InUseOrder(stamps, log) && Together(stamps, log) && Uses(stamps, after, n, max)
    ensures Together(after, log + [n])
  {
    var log' := log + [n];
    forall i: nat | IsLast(log', i) && log'[i] in after ensures Others(log', i) <= after.Keys {
      assert log'[|log|] == n;
      if log'[i] != n {
        LastBefore(log, n, i);
        OthersGrow(log, n, i);
        OthersAreOther(log, i);
        forall k | k in Others(log, i) && k != n ensures k in after {
          if k !in after {
            LeastIsOldest(stamps, log, k, i);
          }
        }
      }
    }
  }

  /** The key that goes was followed by `max` others. */
  lemma LeastIsCrowded<K(!new)>(stamps: map<K, Stamp>, log: seq<K>, n: K, i: nat)
    requires InUseOrder(stamps, log) && (forall k :: k in stamps ==> k in log) && n !in stamps
    requires IsLast(log, i) && LeastRecent(stamps, log[i])
    ensures |stamps| <= |Others(log + [n], i)|
  {
    var v := log[i];
    OthersGrow(log, n, i);
    forall k | k in stamps && k != v ensures k in Others(log, i) {
      var j: nat :| j < |log| && log[j] == k;
      var last := LastOf(log, k, j);
      assert log[last] == k;
    }
    hide IsLast, LeastRecent, InUseOrder, Others;
    SubsetSize(stamps.Keys - {v} + {n}, Others(log + [n], i));
  }

  lemma UseKeepsRemembers<K(!new)>(stamps: map<K, Stamp>, after: map<K, Stamp>, log: seq<K>, n: K, max: nat)
    requires Tracks(stamps, log, max) && Uses(stamps, after, n, max)
    ensures Remembers(after, log + [n], max)
  {
    hide Together, InUseOrder, Others;
    var log' := log + [n];
    forall i: nat | IsLast(log', i) && log'[i] !in after ensures max > 0 && |after| >= max && |Others(log', i)| >= max {
      LastBefore(log, n, i);
      OthersGrow(log, n, i);
      if log[i] in stamps {
        LeastIsCrowded(stamps, log, n, i);
      }
    }
  }

  lemma UseKeepsTracks<K(!new)>(stamps: map<K, Stamp>, after: map<K, Stamp>, log: seq<K>, n: K, max: nat)
    requires Tracks(stamps, log, max) && Uses(stamps, after, n, max)
    ensures Tracks(after, log + [n], max)
  {
    UseKeepsOrder(stamps, after, log, n, max);
    UseKeepsTogether(stamps, after, log, n, max);
    UseKeepsRemembers(stamps, after, log, n, max);
    hide InUseOrder, Together, Remembers;
  }

  lemma EmptyTracks<K(!new)>(max: nat)
    ensures Tracks<K>(map[], [], max)
  {
  }

  // ---------------------------------------------------------------- what is held

  /** The key was used, and since then by fewer than `max` others. */
  ghost predicate Recent<K(!new)>(log: seq<K>, k: K, max: nat) {
    exists i: nat :: IsLast(log, i) && log[i] == k && (max == 0 || |Others(log, i)| < max)
  }

  /** Exactly the recent keys are held. */
  lemma HeldIffRecent<K(!new)>(stamps: map<K, Stamp>, log: seq<K>, k: K, max: nat)
    requires Tracks(stamps, log, max)
    ensures k in stamps <==> Recent(log, k, max)
  {
    hide InUseOrder;
    if k in log {
      var j: nat :| j < |log| && log[j] == k;
      var i := LastOf(log, k, j);
      forall l: nat | IsLast(log, l) && log[l] == k ensures l == i {
        SameLast(log, i, l);
      }
      if k in stamps && max > 0 {
        OthersAreOther(log, i);
        hide Others;
        SubsetSize(Others(log, i) + {k}, stamps.Keys);
      }
    }
  }

  function Users<K>(log: seq<K>): set<K> {
    set k | k in log
  }

  /** And there are as many as keys were ever used, up to the cap. */
  lemma HeldCount<K(!new)>(stamps: map<K, Stamp>, log: seq<K>, max: nat)
    requires Tracks(stamps, log, max)
    ensures max > 0 ==> (|stamps| >= max <==> |Users(log)| >= max)
    ensures max == 0 || |stamps| < max ==> stamps.Keys == Users(log)
  {
    hide InUseOrder, Together;
    assert stamps.Keys <= Users(log);
    SubsetSize(stamps.Keys, Users(log));
    if k :| k in log && k !in stamps {
      var j: nat :| j < |log| && log[j] == k;
      var i := LastOf(log, k, j);
      assert log[i] !in stamps;
    } else {
      assert stamps.Keys == Users(log);
    }
  }
}
