/**
 The relational step both aggregations share: `groupby(key).agg({'TransactionID':
 'nunique'})`, the number of distinct transaction IDs in each group of rows.
 */
module Grouping {
  import opened Table

  /** A row of an intermediate frame: a grouping key beside its `TransactionID`. */
  datatype Keyed<K> = Keyed(key: K, tid: TransactionId)

  /** The distinct keys of a frame: the groups `groupby` forms. */
  function Keys<K(==)>(rows: seq<Keyed<K>>): set<K>
  {
    set e | e in rows :: e.key
  }

  /** The distinct transaction IDs of the rows whose key is `k`. */
  function TidsOf<K(==)>(rows: seq<Keyed<K>>, k: K): set<TransactionId>
  {
    set e | e in rows && e.key == k :: e.tid
  }

  /**
   Groups the rows by key, collecting the transaction IDs of each group:
   one entry per distinct key, holding exactly that key's transaction IDs.
   */
  function GroupTids<K(==)>(rows: seq<Keyed<K>>): (g: map<K, set<TransactionId>>)
    ensures g.Keys == Keys(rows)
    ensures forall k :: k in g ==> g[k] == TidsOf(rows, k)
  {
    if rows == [] then map[]
    else
      var g := GroupTids(rows[1..]);
      var e := rows[0];
      ConsSplit(rows);
      g[e.key := (if e.key in g then g[e.key] else {}) + {e.tid}]
  }

  /** How the key set and the groups of a frame grow by its first row. */
  lemma ConsSplit<K>(rows: seq<Keyed<K>>)
    requires rows != []
    ensures Keys(rows) == Keys(rows[1..]) + {rows[0].key}
    ensures forall k :: TidsOf(rows, k) == TidsOf(rows[1..], k) + (if k == rows[0].key then {rows[0].tid} else {})
  {
    assert forall e :: e in rows <==> e == rows[0] || e in rows[1..] by {
      assert rows == [rows[0]] + rows[1..];
    }
  }

  /**
   `agg({'TransactionID': 'nunique'})`: for each distinct key, the number of
   distinct transaction IDs among its rows, which is never zero.
   */
  function NUnique<K(==)>(rows: seq<Keyed<K>>): (counts: map<K, nat>)
    ensures counts.Keys == Keys(rows)
    ensures forall k :: k in counts ==> counts[k] == |TidsOf(rows, k)| && counts[k] >= 1
  {
    var g := GroupTids(rows);
    GroupsNonEmpty(rows);
    map k | k in g :: |g[k]|
  }

  /** Every group that exists holds at least one transaction ID. */
  lemma GroupsNonEmpty<K>(rows: seq<Keyed<K>>)
    ensures forall k :: k in Keys(rows) ==> TidsOf(rows, k) != {}
  {
    forall k | k in Keys(rows) ensures TidsOf(rows, k) != {} {
      var e :| e in rows && e.key == k;
      assert e.tid in TidsOf(rows, k);
    }
  }
}
