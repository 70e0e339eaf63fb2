/**
 `popular_items`: renames `Item` to `Item A`, groups the rows by item and
 counts the distinct transaction IDs of each group as `Trx A`.
 */
module Popular {
  import opened Table
  import opened Grouping

  /** The frame after the rename: one `(Item A, TransactionID)` row per input row. */
  function ItemRows(data: seq<Record>): (rows: seq<Keyed<Item>>)
    ensures forall e :: e in rows <==> Record(e.tid, e.key) in data
  {
    if data == [] then []
    else
      assert forall r :: r in data <==> r == data[0] || r in data[1..] by {
        assert data == [data[0]] + data[1..];
      }
      [Keyed(data[0].item, data[0].tid)] + ItemRows(data[1..])
  }

  /**
   The `Trx A` table: one entry per distinct item of the input, holding the
   number of distinct transactions that have a row with that item, so that a
   repeated row never counts twice. Each count is at least 1 and at most the
   number of distinct transactions.
   */
  function PopularItems(data: seq<Record>): (trxA: map<Item, nat>)
    ensures trxA.Keys == Items(data)
    ensures forall i :: i in trxA ==> trxA[i] == |TransactionsWith(data, i)|
    ensures forall i :: i in trxA ==> 1 <= trxA[i] <= |Transactions(data)|
  {
    var rows := ItemRows(data);
    ItemRowsMeaning(data);
    NUnique(rows)
  }

  /** The groups of the renamed frame are the items, and their IDs the transactions holding them. */
  lemma ItemRowsMeaning(data: seq<Record>)
    ensures Keys(ItemRows(data)) == Items(data)
    ensures forall i :: TidsOf(ItemRows(data), i) == TransactionsWith(data, i)
    ensures forall i :: i in Items(data) ==> 1 <= |TransactionsWith(data, i)| <= |Transactions(data)|
  {
    var rows := ItemRows(data);
    forall i ensures i in Keys(rows) <==> i in Items(data) {
      if i in Items(data) {
        var r :| r in data && r.item == i;
        assert Keyed(r.item, r.tid) in rows;
      }
    }
    forall i ensures TidsOf(rows, i) == TransactionsWith(data, i) {
      forall t ensures t in TidsOf(rows, i) <==> t in TransactionsWith(data, i) {
        InTransactionsWith(data, t, i);
        assert Keyed(i, t) in rows <==> Record(t, i) in data;
      }
    }
    forall i | i in Items(data) ensures 1 <= |TransactionsWith(data, i)| <= |Transactions(data)| {
      TransactionsWithBounds(data, i);
    }
  }

  /** An empty table has no popular items. */
  lemma PopularItemsOfEmpty()
    ensures PopularItems([]) == map[]
  {
  }

  /** Row order and repeated rows do not change the counts. */
  lemma PopularItemsSameRows(d1: seq<Record>, d2: seq<Record>)
    requires SameRows(d1, d2)
    ensures PopularItems(d1) == PopularItems(d2)
  {
    SameRowsSameSets(d1, d2);
  }

  /** Appending a copy of an existing row, as a duplicated item in a basket does, changes no count. */
  lemma DuplicateRowKeepsPopularItems(data: seq<Record>, r: Record)
    requires r in data
    ensures PopularItems(data + [r]) == PopularItems(data)
  {
    PopularItemsSameRows(data + [r], data);
  }
}
