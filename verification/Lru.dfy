/** The ordered index that three bounded tables keep beside their map: one row `(instant, seq, key)` per key.
    Instants never go back under the lock; the sequence numbers are all different. */
module Lru {

  datatype Stamp = Stamp(at: real, order: nat)

  datatype Row<K> = Row(stamp: Stamp, key: K)

  predicate Earlier(a: Stamp, b: Stamp) {
    a.at < b.at || (a.at == b.at && a.order < b.order)
  }

  /** The order of the index, with any order of the keys as the last tie-break. */
  predicate RowBefore<K(==)>(a: Row<K>, b: Row<K>, keyBefore: (K, K) -> bool) {
    Earlier(a.stamp, b.stamp) || (a.stamp == b.stamp && keyBefore(a.key, b.key))
  }

  function RowsOf<K>(stamps: map<K, Stamp>): set<Row<K>> {
    set k | k in stamps :: Row(stamps[k], k)
  }

  /** The index holds exactly one row per key of the map, with the key's own stamp; sequence numbers are below
      the counter, different, and in step with the instants, none of which lies in the future. */
  ghost predicate Coherent<K(!new)>(stamps: map<K, Stamp>, rows: set<Row<K>>, next: nat, now: real) {
    && rows == RowsOf(stamps)
    && (forall k :: k in stamps ==> stamps[k].order < next && stamps[k].at <= now)
    && (forall k, l :: k in stamps && l in stamps && k != l ==> stamps[k].order != stamps[l].order)
    && (forall k, l :: k in stamps && l in stamps && stamps[k].order < stamps[l].order ==> stamps[k].at <= stamps[l].at)
  }

  /** The key stamped least recently. */
  ghost predicate LeastRecent<K(!new)>(stamps: map<K, Stamp>, k: K) {
    k in stamps && forall l :: l in stamps && l != k ==> stamps[k].order < stamps[l].order
  }

  /** The first row of the index is the row of the least recently stamped key, whatever the order on keys is. */
  lemma FirstRowIsLeastRecent<K(!new)>(stamps: map<K, Stamp>, rows: set<Row<K>>, next: nat, now: real,
                                       r: Row<K>, keyBefore: (K, K) -> bool)
    requires Coherent(stamps, rows, next, now) && r in rows
    ensures (forall q :: q in rows && q != r ==> RowBefore(r, q, keyBefore))
            <==> LeastRecent(stamps, r.key)
  {
    var k := r.key;
    assert r == Row(stamps[k], k);
    if forall q :: q in rows && q != r ==> RowBefore(r, q, keyBefore) {
      forall l | l in stamps && l != k ensures stamps[k].order < stamps[l].order {
        assert Row(stamps[l], l) in rows;
      }
    }
    if LeastRecent(stamps, k) {
      forall q | q in rows && q != r ensures RowBefore(r, q, keyBefore) {
        assert q == Row(stamps[q.key], q.key);
      }
    }
  }

  ghost predicate Numbered<K(!new)>(stamps: map<K, Stamp>) {
    forall k, l :: k in stamps && l in stamps && k != l ==> stamps[k].order != stamps[l].order
  }

  lemma {:induction false} LeastRecentExists<K(!new)>(stamps: map<K, Stamp>)
    requires Numbered(stamps) && stamps != map[]
    ensures exists k :: LeastRecent(stamps, k)
    decreases |stamps|
  {
    var k :| k in stamps;
    var rest := stamps - {k};
    assert stamps.Keys == rest.Keys + {k};
    if rest == map[] {
      assert LeastRecent(stamps, k);
    } else {
      LeastRecentExists(rest);
      var l :| LeastRecent(rest, l);
      if stamps[k].order < stamps[l].order {
        assert LeastRecent(stamps, k);
      } else {
        assert LeastRecent(stamps, l);
      }
    }
  }

  ghost function Victim<K(!new)>(stamps: map<K, Stamp>): K
    requires exists k :: LeastRecent(stamps, k)
    ensures LeastRecent(stamps, Victim(stamps))
  {
    var k :| LeastRecent(stamps, k);
    k
  }

  lemma LeastRecentUnique<K(!new)>(stamps: map<K, Stamp>, k: K, l: K)
    requires LeastRecent(stamps, k) && LeastRecent(stamps, l)
    ensures k == l
  {
  }

  lemma RowsWithout<K>(stamps: map<K, Stamp>, k: K)
    ensures RowsOf(stamps - {k}) == RowsOf(stamps) - (if k in stamps then {Row(stamps[k], k)} else {})
  {
    var gone := if k in stamps then {Row(stamps[k], k)} else {};
    forall r | r in RowsOf(stamps) - gone ensures r in RowsOf(stamps - {k}) {
      assert r.key in stamps - {k};
    }
  }

  lemma RowsWith<K>(stamps: map<K, Stamp>, k: K, s: Stamp)
    ensures RowsOf(stamps[k := s]) == RowsOf(stamps - {k}) + {Row(s, k)}
  {
    forall r | r in RowsOf(stamps - {k}) ensures r in RowsOf(stamps[k := s]) {
      assert r.key in stamps[k := s];
    }
    forall r | r in RowsOf(stamps[k := s]) ensures r in RowsOf(stamps - {k}) + {Row(s, k)} {
      if r.key != k {
        assert r.key in stamps - {k};
      }
    }
    assert k in stamps[k := s];
  }

  lemma EmptyCoherent<K(!new)>(now: real)
    ensures Coherent<K>(map[], {}, 0, now)
  {
  }

  /** Dropping a key with its row. */
  lemma DropKeepsCoherent<K(!new)>(stamps: map<K, Stamp>, rows: set<Row<K>>, next: nat, now: real, k: K)
    requires Coherent(stamps, rows, next, now) && k in stamps
    ensures Coherent(stamps - {k}, rows - {Row(stamps[k], k)}, next, now)
  {
    RowsWithout(stamps, k);
    hide RowsOf;
  }

  /** Stamping a key, new or known: its old row goes, its new row comes with the next number. */
  lemma StampKeepsCoherent<K(!new)>(stamps: map<K, Stamp>, rows: set<Row<K>>, next: nat, now: real, k: K)
    requires Coherent(stamps, rows, next, now)
    ensures var old' := if k in stamps then {Row(stamps[k], k)} else {};
            Coherent(stamps[k := Stamp(now, next)], rows - old' + {Row(Stamp(now, next), k)}, next + 1, now)
  {
    RowsWithout(stamps, k);
    RowsWith(stamps, k, Stamp(now, next));
    hide RowsOf;
  }

  /** Time passes. */
  lemma LaterKeepsCoherent<K(!new)>(stamps: map<K, Stamp>, rows: set<Row<K>>, next: nat, now: real, later: real)
    requires Coherent(stamps, rows, next, now) && now <= later
    ensures Coherent(stamps, rows, next, later)
  {
  }

  // ---------------------------------------------------------------- tables with a value beside the stamp

  datatype Stamped<V> = Stamped(value: V, stamp: Stamp)

  function Stamps<K, V>(entries: map<K, Stamped<V>>): map<K, Stamp> {
    map k | k in entries :: entries[k].stamp
  }

  lemma StampsUpdate<K, V>(entries: map<K, Stamped<V>>, k: K, e: Stamped<V>)
    ensures Stamps(entries[k := e]) == Stamps(entries)[k := e.stamp]
    ensures Stamps(entries - {k}) == Stamps(entries) - {k}
    ensures Stamps(entries).Keys == entries.Keys
  {
  }

  lemma StampAt<K, V>(entries: map<K, Stamped<V>>, k: K)
    requires k in Stamps(entries) || k in entries
    ensures k in entries && k in Stamps(entries) && Stamps(entries)[k] == entries[k].stamp
  {
  }

  // ---------------------------------------------------------------- the first row

  lemma FirstRowExists<K(!new)>(stamps: map<K, Stamp>, rows: set<Row<K>>, next: nat, now: real, keyBefore: (K, K) -> bool)
    requires Coherent(stamps, rows, next, now) && stamps != map[]
    ensures exists k :: LeastRecent(stamps, k)
    ensures exists r :: r in rows && forall q :: q in rows && q != r ==> RowBefore(r, q, keyBefore)
  {
    LeastRecentExists(stamps);
    var v := Victim(stamps);
    assert Row(stamps[v], v) in rows;
    FirstRowIsLeastRecent(stamps, rows, next, now, Row(stamps[v], v), keyBefore);
  }

  lemma NoRowsNoKeys<K(!new)>(stamps: map<K, Stamp>, rows: set<Row<K>>, next: nat, now: real)
    requires Coherent(stamps, rows, next, now)
    ensures rows == {} <==> stamps == map[]
  {
    if stamps != map[] {
      var k :| k in stamps;
      assert Row(stamps[k], k) in rows;
    }
  }

  /** The first row of a coherent index, whatever the order of the keys is. */
  method OldestRow<K(==, !new)>(ghost stamps: map<K, Stamp>, rows: set<Row<K>>, ghost next: nat, ghost now: real,
                                keyBefore: (K, K) -> bool) returns (row: Row<K>)
    requires Coherent(stamps, rows, next, now) && rows != {}
    ensures row.key in stamps && row == Row(stamps[row.key], row.key)
    ensures LeastRecent(stamps, row.key) && row.key == Victim(stamps)
  {
    NoRowsNoKeys(stamps, rows, next, now);
    FirstRowExists(stamps, rows, next, now, keyBefore);
    row :| row in rows && forall q :: q in rows && q != row ==> RowBefore(row, q, keyBefore);
    FirstRowIsLeastRecent(stamps, rows, next, now, row, keyBefore);
    LeastRecentUnique(stamps, row.key, Victim(stamps));
  }
}
