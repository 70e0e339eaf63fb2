/**
 Worked tables: three grocery baskets, and a basket that lists one item twice.
 Each lemma holds for every table with exactly those rows, in any order and
 with any repetitions.
 */
module Scenarios {
  import opened Table
  import opened Rounding
  import opened Popular
  import opened Combinations

  /** T1 = {milk, bread}, T2 = {milk, bread, eggs}, T3 = {bread}. */
  const Groceries: seq<Record> := [
    Record(1, "milk"), Record(1, "bread"),
    Record(2, "milk"), Record(2, "bread"), Record(2, "eggs"),
    Record(3, "bread")
  ]

  /** T4 lists milk twice. */
  const RepeatedMilk: seq<Record> := [Record(4, "milk"), Record(4, "milk")]

  /** Milk is in two transactions, bread in three and eggs in one. */
  lemma GroceriesPopularItems(data: seq<Record>)
    requires SameRows(data, Groceries)
    ensures PopularItems(data).Keys == {"milk", "bread", "eggs"}
    ensures PopularItems(data)["milk"] == 2
    ensures PopularItems(data)["bread"] == 3
    ensures PopularItems(data)["eggs"] == 1
  {
    GroceryItems(data);
    GroceryMilk(data);
    GroceryBread(data);
    GroceryEggs(data);
  }

  lemma GroceryItems(data: seq<Record>)
    requires SameRows(data, Groceries)
    ensures Items(data) == {"milk", "bread", "eggs"}
  {
    forall i ensures i in Items(data) <==> i in {"milk", "bread", "eggs"} {
      if i in {"milk", "bread", "eggs"} {
        var t := if i == "eggs" then 2 else 1;
        assert Record(t, i) in Groceries;
      }
    }
  }

  lemma GroceryMilk(data: seq<Record>)
    requires SameRows(data, Groceries)
    ensures |TransactionsWith(data, "milk")| == 2
  {
    forall t ensures t in TransactionsWith(data, "milk") <==> t in {1, 2} {
      InTransactionsWith(data, t, "milk");
    }
    assert TransactionsWith(data, "milk") == {1, 2};
  }

  lemma GroceryBread(data: seq<Record>)
    requires SameRows(data, Groceries)
    ensures |TransactionsWith(data, "bread")| == 3
  {
    forall t ensures t in TransactionsWith(data, "bread") <==> t in {1, 2, 3} {
      InTransactionsWith(data, t, "bread");
    }
    assert TransactionsWith(data, "bread") == {1, 2, 3};
  }

  lemma GroceryEggs(data: seq<Record>)
    requires SameRows(data, Groceries)
    ensures |TransactionsWith(data, "eggs")| == 1
  {
    forall t ensures t in TransactionsWith(data, "eggs") <==> t in {2} {
      InTransactionsWith(data, t, "eggs");
    }
    assert TransactionsWith(data, "eggs") == {2};
  }

  /**
   Milk and bread share two baskets. Every milk basket holds bread, so
   `(milk, bread)` has probability 100%, while only two of the three bread
   baskets hold milk, so `(bread, milk)` has 66.7%: the same `Trx AB`, different
   probabilities.
   */
  lemma GroceriesMilkAndBread(data: seq<Record>)
    requires SameRows(data, Groceries)
    ensures ("milk", "bread") in CreateCombinations(data)
    ensures ("bread", "milk") in CreateCombinations(data)
    ensures CreateCombinations(data)[("milk", "bread")] == Combination(2, 2, 100.0)
    ensures CreateCombinations(data)[("bread", "milk")] == Combination(2, 3, 66.7)
  {
    GroceryCounts(data);
    GroceryMilkAndBreadBaskets(data);
    GroceryPercentages();
    RowOf(data, "milk", "bread", 2, 2, 100.0);
    RowOf(data, "bread", "milk", 2, 3, 66.7);
  }

  lemma GroceryCounts(data: seq<Record>)
    requires SameRows(data, Groceries)
    ensures "milk" in PopularItems(data) && PopularItems(data)["milk"] == 2
    ensures "bread" in PopularItems(data) && PopularItems(data)["bread"] == 3
  {
    GroceriesPopularItems(data);
  }

  /** The row of `(a, b)` from the counts it is made of. */
  lemma RowOf(data: seq<Record>, a: Item, b: Item, ab: nat, trxA: nat, percent: real)
    requires a != b && ab > 0 && |TransactionsWithBoth(data, a, b)| == ab
    requires a in PopularItems(data) && PopularItems(data)[a] == trxA
    requires trxA > 0 && ProbPercent(ab, trxA) == percent
    ensures (a, b) in CreateCombinations(data)
    ensures CreateCombinations(data)[(a, b)] == Combination(ab, trxA, percent)
  {
  }

  /** Two out of two is 100%; two out of three, rounded to thousandths, is 66.7%. */
  lemma GroceryPercentages()
    ensures ProbPercent(2, 2) == 100.0
    ensures ProbPercent(2, 3) == 66.7
  {
    assert RoundHalfEven(2000, 3) == 667;
    assert RoundHalfEven(2000, 2) == 1000;
  }

  /** Baskets 1 and 2 hold both milk and bread. */
  lemma GroceryMilkAndBreadBaskets(data: seq<Record>)
    requires SameRows(data, Groceries)
    ensures |TransactionsWithBoth(data, "milk", "bread")| == 2
    ensures |TransactionsWithBoth(data, "bread", "milk")| == 2
  {
    forall t ensures t in TransactionsWithBoth(data, "milk", "bread") <==> t in {1, 2} {
      InTransactionsWithBoth(data, t, "milk", "bread");
    }
    assert TransactionsWithBoth(data, "milk", "bread") == {1, 2};
    BothSymmetric(data, "milk", "bread");
  }

  /** A repeated row counts once, and the lone item pairs with nothing. */
  lemma RepeatedMilkCountsOnce(data: seq<Record>)
    requires SameRows(data, RepeatedMilk)
    ensures PopularItems(data).Keys == {"milk"}
    ensures PopularItems(data)["milk"] == 1
    ensures CreateCombinations(data).Keys == {}
  {
    assert Record(4, "milk") in data;
    assert Items(data) == {"milk"};
    forall t ensures t in TransactionsWith(data, "milk") <==> t == 4 {
      InTransactionsWith(data, t, "milk");
    }
    assert TransactionsWith(data, "milk") == {4};
    forall a, b | a != b ensures TransactionsWithBoth(data, a, b) == {} {
      forall t ensures t !in TransactionsWithBoth(data, a, b) {
        InTransactionsWithBoth(data, t, a, b);
      }
    }
  }
}
