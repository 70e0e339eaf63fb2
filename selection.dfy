/**
 The one computation of the page: keeping the rows of
 the pair table whose `Item A` is the item the user selected.
 */
module Selection {
  import opened Table
  import opened Popular
  import opened Combinations

  /** `item_combinations[item_combinations['Item A'] == selected]`: the rows for one `Item A`, unchanged. */
  function SelectItemA(comb: map<Pair, Combination>, selected: Item): (rows: map<Pair, Combination>)
    ensures rows.Keys <= comb.Keys
    ensures forall p :: p in rows ==> p.0 == selected && rows[p] == comb[p]
    ensures forall p :: p in comb && p.0 == selected ==> p in rows
  {
    map p | p in comb && p.0 == selected :: comb[p]
  }

  /**
   Over the pair table of `data`, the selection for item `a` holds one row per
   other item that shares a basket with `a`, and all of them carry the same
   `Trx A`: the count `popular_items` reports for `a`.
   */
  lemma SelectionOfTable(data: seq<Record>, a: Item)
    ensures forall b :: (a, b) in SelectItemA(CreateCombinations(data), a) <==> b != a && TransactionsWithBoth(data, a, b) != {}
    ensures forall p :: p in SelectItemA(CreateCombinations(data), a) ==>
      a in PopularItems(data) && SelectItemA(CreateCombinations(data), a)[p].trxA == PopularItems(data)[a]
  {
  }

  /** Selecting an item that occurs nowhere in the table yields no rows rather than an error. */
  lemma SelectAbsentItem(data: seq<Record>, a: Item)
    requires a !in Items(data)
    ensures SelectItemA(CreateCombinations(data), a) == map[]
  {
  }
}
