/**
 The transaction table that both aggregations read, and the set-based meaning
 of the statistics computed from it: the distinct transactions, the basket of
 each transaction, and the transactions that contain an item or a pair of items.
 */
module Table {

  type TransactionId = int
  type Item = string

  /** One row of the table: the columns `TransactionID` and `Item`. */
  datatype Record = Record(tid: TransactionId, item: Item)

  /** The distinct values of the `TransactionID` column. */
  function Transactions(data: seq<Record>): set<TransactionId>
  {
    set r | r in data :: r.tid
  }

  /** The distinct values of the `Item` column. */
  function Items(data: seq<Record>): set<Item>
  {
    set r | r in data :: r.item
  }

  /** The basket of transaction `t`: the distinct items of its rows. */
  function Basket(data: seq<Record>, t: TransactionId): set<Item>
  {
    set r | r in data && r.tid == t :: r.item
  }

  /** The distinct transactions that have some row with item `i`. */
  function TransactionsWith(data: seq<Record>, i: Item): set<TransactionId>
  {
    set r | r in data && r.item == i :: r.tid
  }

  /** The distinct transactions whose basket holds both `a` and `b`. */
  function TransactionsWithBoth(data: seq<Record>, a: Item, b: Item): set<TransactionId>
  {
    set t | t in Transactions(data) && a in Basket(data, t) && b in Basket(data, t)
  }

  /** Two tables with the same rows, whatever their order and repetitions. */
  ghost predicate SameRows(d1: seq<Record>, d2: seq<Record>)
  {
    forall r :: r in d1 <==> r in d2
  }

  lemma InBasket(data: seq<Record>, t: TransactionId, i: Item)
    ensures i in Basket(data, t) <==> Record(t, i) in data
  {
    if Record(t, i) in data {
      var r := Record(t, i);
      assert r in data && r.tid == t;
    }
  }

  lemma InTransactionsWith(data: seq<Record>, t: TransactionId, i: Item)
    ensures t in TransactionsWith(data, i) <==> Record(t, i) in data
  {
    if Record(t, i) in data {
      var r := Record(t, i);
      assert r in data && r.item == i;
    }
  }

  lemma InTransactionsWithBoth(data: seq<Record>, t: TransactionId, a: Item, b: Item)
    ensures t in TransactionsWithBoth(data, a, b) <==> Record(t, a) in data && Record(t, b) in data
  {
    InBasket(data, t, a);
    InBasket(data, t, b);
    if Record(t, a) in data {
      var r := Record(t, a);
      assert r in data;
      assert t in Transactions(data);
    }
  }

  /** A subset is no larger than the set that holds it. */
  lemma {:induction false} SubsetCard<T>(small: set<T>, big: set<T>)
    requires small <= big
    ensures |small| <= |big|
  {
    if small != {} {
      var x :| x in small;
      SubsetCard(small - {x}, big - {x});
    }
  }

  /**
   Every item of the table lies in at least one transaction and in no more
   than all of them: the count of an item is between 1 and the number of
   distinct transactions.
   */
  lemma TransactionsWithBounds(data: seq<Record>, i: Item)
    requires i in Items(data)
    ensures 1 <= |TransactionsWith(data, i)| <= |Transactions(data)|
  {
    var r :| r in data && r.item == i;
    InTransactionsWith(data, r.tid, i);
    assert r.tid in TransactionsWith(data, i);
    SubsetCard(TransactionsWith(data, i), Transactions(data));
  }

  /** The transactions holding both `a` and `b` are among those holding `a`. */
  lemma BothWithinEither(data: seq<Record>, a: Item, b: Item)
    ensures TransactionsWithBoth(data, a, b) <= TransactionsWith(data, a)
    ensures |TransactionsWithBoth(data, a, b)| <= |TransactionsWith(data, a)|
  {
    forall t | t in TransactionsWithBoth(data, a, b)
      ensures t in TransactionsWith(data, a)
    {
      InTransactionsWithBoth(data, t, a, b);
      InTransactionsWith(data, t, a);
    }
    SubsetCard(TransactionsWithBoth(data, a, b), TransactionsWith(data, a));
  }

  /** Co-occurrence is symmetric. */
  lemma BothSymmetric(data: seq<Record>, a: Item, b: Item)
    ensures TransactionsWithBoth(data, a, b) == TransactionsWithBoth(data, b, a)
  {
  }

  /** Every set-based statistic depends on the rows alone, not on their order or repetition. */
  lemma SameRowsSameSets(d1: seq<Record>, d2: seq<Record>)
    requires SameRows(d1, d2)
    ensures Items(d1) == Items(d2) && Transactions(d1) == Transactions(d2)
    ensures forall i :: TransactionsWith(d1, i) == TransactionsWith(d2, i)
    ensures forall a, b :: TransactionsWithBoth(d1, a, b) == TransactionsWithBoth(d2, a, b)
  {
    forall a, b ensures TransactionsWithBoth(d1, a, b) == TransactionsWithBoth(d2, a, b) {
      forall t ensures t in TransactionsWithBoth(d1, a, b) <==> t in TransactionsWithBoth(d2, a, b) {
        InTransactionsWithBoth(d1, t, a, b);
        InTransactionsWithBoth(d2, t, a, b);
      }
    }
  }
}
