/**
 `create_combinations`: joins the table with itself on `TransactionID`, drops
 the rows pairing an item with itself, counts the distinct transactions behind
 each ordered pair `(Item A, Item B)` as `Trx AB`, joins in `Trx A` from
 `popular_items` on `Item A`, and derives `Prob (%)`.
 */
module Combinations {
  import opened Table
  import opened Grouping
  import opened Popular
  import opened Rounding

  /** An ordered pair `(Item A, Item B)`. */
  type Pair = (Item, Item)

  /** One row of the result, keyed by its pair: `Trx AB`, `Trx A` and `Prob (%)`. */
  datatype Combination = Combination(trxAB: nat, trxA: nat, probPercent: real)

  /** The rows of `right` in the transaction of `x`, each joined to `x`. */
  function Matches(x: Record, right: seq<Record>): (rows: seq<Keyed<Pair>>)
    ensures forall e :: e in rows <==> e.tid == x.tid && e.key.0 == x.item && Record(e.tid, e.key.1) in right
  {
    if right == [] then []
    else
      assert forall r :: r in right <==> r == right[0] || r in right[1..] by {
        assert right == [right[0]] + right[1..];
      }
      (if right[0].tid == x.tid then [Keyed((x.item, right[0].item), x.tid)] else [])
      + Matches(x, right[1..])
  }

  /**
   `pd.merge(left, right, on=['TransactionID'])`: a row `(T, A, B)` for every row
   `(T, A)` of `left` and every row `(T, B)` of `right`. When both sides are the
   same table every left row meets at least itself, so the left join loses no row
   and adds no missing values.
   */
  function SelfJoin(left: seq<Record>, right: seq<Record>): (rows: seq<Keyed<Pair>>)
    ensures forall e :: e in rows <==> Record(e.tid, e.key.0) in left && Record(e.tid, e.key.1) in right
  {
    if left == [] then []
    else
      assert forall r :: r in left <==> r == left[0] || r in left[1..] by {
        assert left == [left[0]] + left[1..];
      }
      Matches(left[0], right) + SelfJoin(left[1..], right)
  }

  /** Every row of the table meets at least itself in the self-join, so the left join leaves no row unmatched. */
  lemma SelfJoinKeepsEveryRow(data: seq<Record>)
    ensures forall r :: r in data ==> Keyed((r.item, r.item), r.tid) in SelfJoin(data, data)
  {
  }

  /** The mask `Item A != Item B`: keeps exactly the rows pairing two different items. */
  function DropSelfPairs(rows: seq<Keyed<Pair>>): (kept: seq<Keyed<Pair>>)
    ensures forall e :: e in kept <==> e in rows && e.key.0 != e.key.1
  {
    if rows == [] then []
    else
      assert forall e :: e in rows <==> e == rows[0] || e in rows[1..] by {
        assert rows == [rows[0]] + rows[1..];
      }
      (if rows[0].key.0 != rows[0].key.1 then [rows[0]] else []) + DropSelfPairs(rows[1..])
  }

  /** The joined and masked frame of `data`. */
  function PairRows(data: seq<Record>): seq<Keyed<Pair>>
  {
    DropSelfPairs(SelfJoin(data, data))
  }

  /**
   The groups of the joined frame are the ordered pairs of different items
   that share a basket, and the IDs in each group are the transactions whose
   basket holds both.
   */
  lemma PairRowsMeaning(data: seq<Record>)
    ensures forall p :: p in Keys(PairRows(data)) <==> p.0 != p.1 && TransactionsWithBoth(data, p.0, p.1) != {}
    ensures forall p :: p in Keys(PairRows(data)) ==> TidsOf(PairRows(data), p) == TransactionsWithBoth(data, p.0, p.1)
    ensures forall p :: p in Keys(PairRows(data)) ==> p.0 in Items(data)
  {
    var rows := PairRows(data);
    forall p: Pair, t: TransactionId ensures Keyed(p, t) in rows <==> p.0 != p.1 && t in TransactionsWithBoth(data, p.0, p.1) {
      InTransactionsWithBoth(data, t, p.0, p.1);
    }
    forall p: Pair ensures p in Keys(rows) <==> p.0 != p.1 && TransactionsWithBoth(data, p.0, p.1) != {} {
      if p.0 != p.1 && TransactionsWithBoth(data, p.0, p.1) != {} {
        var t :| t in TransactionsWithBoth(data, p.0, p.1);
        assert Keyed(p, t) in rows;
      }
    }
    forall p: Pair | p in Keys(rows) ensures p.0 in Items(data) {
      var e :| e in rows && e.key == p;
      assert Record(e.tid, p.0) in data;
    }
  }

  /**
   The pair table. A row exists for `(A, B)` exactly when `A != B` and some
   basket holds both; its `Trx AB` is the number of distinct such baskets, its
   `Trx A` is the count `popular_items` reports for `A`, `0 < Trx AB <= Trx A`
   (so the division has a nonzero denominator), and `Prob (%)` is the rounded
   percentage of those two columns.
   */
  function CreateCombinations(data: seq<Record>): (comb: map<Pair, Combination>)
    ensures forall p :: p in comb <==> p.0 != p.1 && TransactionsWithBoth(data, p.0, p.1) != {}
    ensures forall p :: p in comb ==> comb[p].trxAB == |TransactionsWithBoth(data, p.0, p.1)|
    ensures forall p :: p in comb ==> p.0 in PopularItems(data) && comb[p].trxA == PopularItems(data)[p.0]
    ensures forall p :: p in comb ==> 0 < comb[p].trxAB <= comb[p].trxA
    ensures forall p :: p in comb ==> comb[p].probPercent == ProbPercent(comb[p].trxAB, comb[p].trxA)
  {
    var rows := PairRows(data);
    var trxAB := NUnique(rows);
    var trxA := PopularItems(data);
    PairRowsMeaning(data);
    BothWithinEveryPair(data);
    map p | p in trxAB :: Combination(trxAB[p], trxA[p.0], ProbPercent(trxAB[p], trxA[p.0]))
  }

  /** For every pair, the joint count is bounded by the count of its first item. */
  lemma BothWithinEveryPair(data: seq<Record>)
    ensures forall a, b :: |TransactionsWithBoth(data, a, b)| <= |TransactionsWith(data, a)|
  {
    forall a, b ensures |TransactionsWithBoth(data, a, b)| <= |TransactionsWith(data, a)| {
      BothWithinEither(data, a, b);
    }
  }

  /**
   The co-occurrence count is symmetric: a row `(A, B)` exists exactly when
   `(B, A)` does, and the two carry the same `Trx AB`.
   */
  lemma CombinationsSymmetric(data: seq<Record>, a: Item, b: Item)
    ensures (a, b) in CreateCombinations(data) <==> (b, a) in CreateCombinations(data)
    ensures (a, b) in CreateCombinations(data) ==>
      CreateCombinations(data)[(a, b)].trxAB == CreateCombinations(data)[(b, a)].trxAB
  {
    var comb := CreateCombinations(data);
    BothSymmetric(data, a, b);
    assert (a, b) in comb <==> a != b && TransactionsWithBoth(data, a, b) != {};
    assert (b, a) in comb <==> b != a && TransactionsWithBoth(data, b, a) != {};
  }

  /** No row pairs an item with itself. */
  lemma NoSelfPairs(data: seq<Record>, a: Item)
    ensures (a, a) !in CreateCombinations(data)
  {
  }

  /** A basket with at most one distinct item takes part in no pair. */
  lemma SmallBasketContributesNoPair(data: seq<Record>, t: TransactionId)
    requires |Basket(data, t)| <= 1
    ensures forall p :: p in CreateCombinations(data) ==> t !in TransactionsWithBoth(data, p.0, p.1)
  {
    var comb := CreateCombinations(data);
    forall p | p in comb ensures t !in TransactionsWithBoth(data, p.0, p.1) {
      assert p.0 != p.1;
      if t in TransactionsWithBoth(data, p.0, p.1) {
        PairNeedsTwoItems(data, t, p.0, p.1);
      }
    }
  }

  /** A basket that holds two different items has at least two distinct items. */
  lemma PairNeedsTwoItems(data: seq<Record>, t: TransactionId, a: Item, b: Item)
    requires a != b && t in TransactionsWithBoth(data, a, b)
    ensures |Basket(data, t)| >= 2
  {
    assert |{a, b}| == 2;
    SubsetCard({a, b}, Basket(data, t));
  }

  /**
   The exact conditional probability `Trx AB / Trx A` of every row lies in
   (0, 1], and its `Prob (%)` lies in [0, 100], within 0.05 of the exact
   percentage.
   */
  lemma ProbabilityBounds(data: seq<Record>, p: Pair)
    requires p in CreateCombinations(data)
    ensures 0.0 < Ratio(CreateCombinations(data)[p]) <= 1.0
    ensures 0.0 <= CreateCombinations(data)[p].probPercent <= 100.0
    ensures PercentNearRatio(CreateCombinations(data)[p])
  {
    RowBounds(CreateCombinations(data)[p]);
  }

  /** The exact conditional probability `Trx AB / Trx A` of a row. */
  function Ratio(c: Combination): real
    requires c.trxA > 0
  {
    c.trxAB as real / c.trxA as real
  }

  /** `Prob (%)` lies within 0.05 of the exact percentage `100 * Trx AB / Trx A`. */
  predicate PercentNearRatio(c: Combination)
  {
    NearPercent(c.probPercent, c.trxAB, c.trxA)
  }

  /** A row whose counts satisfy `0 < Trx AB <= Trx A` has its probabilities in range. */
  lemma RowBounds(c: Combination)
    requires 0 < c.trxAB <= c.trxA && c.probPercent == ProbPercent(c.trxAB, c.trxA)
    ensures 0.0 < Ratio(c) <= 1.0
    ensures 0.0 <= c.probPercent <= 100.0
    ensures PercentNearRatio(c)
  {
    RatioInUnit(c.trxAB, c.trxA);
  }

  /** A positive count out of a larger or equal one is a ratio in (0, 1]. */
  lemma RatioInUnit(ab: nat, a: nat)
    requires 0 < ab <= a
    ensures 0.0 < ab as real / a as real <= 1.0
  {
    var A, B := a as real, ab as real;
    assert 0.0 < B <= A;
    assert (B / A) * A == B;
  }

  /** An empty table has no pairs. */
  lemma CombinationsOfEmpty()
    ensures CreateCombinations([]) == map[]
  {
  }

  /** Row order and repeated rows do not change the pair table. */
  lemma CombinationsSameRows(d1: seq<Record>, d2: seq<Record>)
    requires SameRows(d1, d2)
    ensures CreateCombinations(d1) == CreateCombinations(d2)
  {
    CreateCombinationsIsPairTable(d1);
    CreateCombinationsIsPairTable(d2);
    PairTablesAgree(d1, d2, CreateCombinations(d1), CreateCombinations(d2));
  }

  /**
   The contract of `CreateCombinations`, stated over an arbitrary map, with
   `|TransactionsWith(data, A)|` in place of the `popular_items` lookup. It
   exists so that `CombinationsSameRows` can compare two tables without
   unfolding the body of `CreateCombinations`.
   */
  ghost predicate IsPairTable(data: seq<Record>, comb: map<Pair, Combination>)
  {
    && (forall p :: p in comb <==> p.0 != p.1 && TransactionsWithBoth(data, p.0, p.1) != {})
    && (forall p :: p in comb ==>
          var ab, a := |TransactionsWithBoth(data, p.0, p.1)|, |TransactionsWith(data, p.0)|;
          a > 0 && comb[p] == Combination(ab, a, ProbPercent(ab, a)))
  }

  lemma CreateCombinationsIsPairTable(data: seq<Record>)
    ensures IsPairTable(data, CreateCombinations(data))
  {
  }

  /** Two pair tables of tables with the same rows are equal: the contract determines the table. */
  lemma PairTablesAgree(d1: seq<Record>, d2: seq<Record>, c1: map<Pair, Combination>, c2: map<Pair, Combination>)
    requires SameRows(d1, d2) && IsPairTable(d1, c1) && IsPairTable(d2, c2)
    ensures c1 == c2
  {
    SameRowsSameSets(d1, d2);
    assert c1.Keys == c2.Keys;
  }

  /** Appending a copy of an existing row changes no pair count or probability. */
  lemma DuplicateRowKeepsCombinations(data: seq<Record>, r: Record)
    requires r in data
    ensures CreateCombinations(data + [r]) == CreateCombinations(data)
  {
    CombinationsSameRows(data + [r], data);
  }
}
