# Product bundling: the aggregation core

This project models the two aggregations behind the product-bundling page
(`src/main.py`):

- `popular_items` counts, for every item, the distinct transactions that have
  a row with it (`Trx A`).
- `create_combinations` joins the transaction table with itself on
  `TransactionID` and drops the rows that pair an item with itself. It counts
  the distinct transactions behind each ordered pair `(Item A, Item B)`
  (`Trx AB`), joins in `Trx A` on `Item A`, and derives `Prob (%)` as
  `round(Trx AB / Trx A, 3) * 100`.
- The page then keeps the pair rows whose `Item A` is the selected item.
  That filter is modelled too.

The input table is a `seq<Record>`, where a record is `(tid, item)`. Both
results are maps. `PopularItems` returns `map<Item, nat>`. `CreateCombinations`
returns `map<(Item, Item), Combination>`, where each `Combination` holds
`Trx AB`, `Trx A` and `Prob (%)`. A map has one entry per group. The grouped
data frames are sorted by key (pandas `groupby` sorts by default), while a
map has no order; nothing in the core depends on that order.

The model has two sides:

- The operational side follows the pandas pipeline step by step. `ItemRows`
  is the rename. `SelfJoin` is the merge on `TransactionID`. `DropSelfPairs`
  is the `Item A != Item B` mask. `GroupTids` and `NUnique` are
  `groupby(...).agg({'TransactionID': 'nunique'})`. The map comprehension in
  `CreateCombinations` is the merge with `popular_items` plus the probability
  column.
- The specification side is set-based. It is written in module `Table` as the
  basket of a transaction, the transactions holding an item, and the
  transactions whose basket holds two items.

The contracts connect the two sides for every input table.

Modules: `Table` (records and their set meaning), `Grouping` (group and count
distinct IDs), `Popular`, `Rounding` (line 51), `Combinations`, `Selection`
(line 90), `Scenarios` (worked tables).

## Model

| member | source | states |
|---|---|---|
| `Table.TransactionsWithBounds` | src/main.py:18 | every item of the table lies in at least one and at most all of the distinct transactions |
| `Table.BothWithinEither` | src/main.py:45-51 | the transactions holding A and B are a subset of those holding A, so their count is at most A's count |
| `Table.BothSymmetric` | src/main.py:41-47 | the set of transactions holding both A and B is the same for (A, B) and (B, A) |
| `Table.SameRowsSameSets` | src/main.py:18 | items, transactions and co-occurrence sets depend only on which rows occur, not on their order or repetition |
| `Grouping.GroupTids` | src/main.py:18 | grouping yields one entry per distinct key, holding exactly the transaction IDs of that key's rows |
| `Grouping.NUnique` | src/main.py:18 | `nunique` per group equals the number of distinct transaction IDs of the group's rows and is at least 1 |
| `Popular.ItemRows` | src/main.py:15 | the renamed frame has a row (item, T) exactly when the input has the record (T, item) |
| `Popular.PopularItems` | src/main.py:4-22 | keys are exactly the distinct input items; each `Trx A` is the number of distinct transactions having a row with that item, between 1 and the number of distinct transactions |
| `Popular.PopularItemsOfEmpty` | src/main.py:18 | an empty table yields an empty `Trx A` table |
| `Popular.PopularItemsSameRows` | src/main.py:18 | tables with the same rows in any order or multiplicity give the same counts |
| `Popular.DuplicateRowKeepsPopularItems` | src/main.py:18 | repeating an existing row does not inflate any count |
| `Rounding.RoundHalfEven` | src/main.py:51 | the result is within half a unit of the exact quotient and even on an exact tie |
| `Rounding.RoundingIsUnique` | src/main.py:51 | those two properties determine the rounded value uniquely |
| `Rounding.ProbPercent` | src/main.py:51 | `Prob (%)` is nonnegative, within 0.05 of the exact percentage `100 * Trx AB / Trx A`, and at most 100 when `Trx AB <= Trx A` |
| `Rounding.TieRoundsToEven` | src/main.py:51 | an exact tie goes to the even thousandth: 203 out of 400 gives `Prob (%)` 50.8 |
| `Combinations.Matches` | src/main.py:41 | the joined rows of one left row are exactly the right rows of the same transaction paired with it |
| `Combinations.SelfJoin` | src/main.py:41 | the merge on `TransactionID` holds (T, A, B) exactly when (T, A) is a left row and (T, B) a right row |
| `Combinations.SelfJoinKeepsEveryRow` | src/main.py:41 | every row of the table has a match in the left self-join: it meets itself, so no row of the join is missing a value |
| `Combinations.DropSelfPairs` | src/main.py:42 | the mask keeps exactly the joined rows whose two items differ |
| `Combinations.PairRowsMeaning` | src/main.py:41-47 | the pair groups are the ordered pairs of different items sharing a basket, each holding exactly the transactions whose basket has both |
| `Combinations.CreateCombinations` | src/main.py:24-53 | a row (A, B) exists iff A != B and some basket holds both; `Trx AB` is the number of such baskets; `Trx A` is `popular_items`' count for A; `0 < Trx AB <= Trx A`; `Prob (%)` is the rounded percentage of those two columns |
| `Combinations.CombinationsSymmetric` | src/main.py:41-47 | (A, B) is a row iff (B, A) is, and both carry the same `Trx AB` |
| `Combinations.NoSelfPairs` | src/main.py:42 | no row pairs an item with itself |
| `Combinations.SmallBasketContributesNoPair` | src/main.py:41-42 | a transaction whose basket has at most one distinct item is behind no pair row |
| `Combinations.ProbabilityBounds` | src/main.py:50-51 | for every row the exact ratio `Trx AB / Trx A` lies in (0, 1] and `Prob (%)` lies in [0, 100], within 0.05 of the exact percentage |
| `Combinations.CombinationsOfEmpty` | src/main.py:41-47 | an empty table yields an empty pair table |
| `Combinations.CombinationsSameRows` | src/main.py:41-51 | tables with the same rows in any order or multiplicity give the same pair table |
| `Combinations.PairTablesAgree` | src/main.py:41-51 | the pair-table contract determines the table: two maps that meet it for tables with the same rows are equal |
| `Combinations.DuplicateRowKeepsCombinations` | src/main.py:41-51 | repeating an existing row changes no pair count or probability |
| `Selection.SelectItemA` | src/main.py:90 | the filtered rows are exactly the rows whose `Item A` is the selected item, with their values unchanged |
| `Selection.SelectionOfTable` | src/main.py:87-90 | on the pair table, the selection for A holds a row (A, B) iff B != A shares a basket with A, and every such row has A's `Trx A` |
| `Selection.SelectAbsentItem` | src/main.py:87-90 | selecting an item absent from the table yields no rows rather than an error |
| `Scenarios.GroceriesPopularItems` | src/main.py:18-20 | on baskets {milk, bread}, {milk, bread, eggs}, {bread}: milk 2, bread 3, eggs 1 |
| `Scenarios.GroceriesMilkAndBread` | src/main.py:41-51 | on the same baskets: (milk, bread) has `Trx AB` 2, `Trx A` 2 and 100%, while (bread, milk) has 2, 3 and 66.7%, so the two directions differ |
| `Scenarios.RepeatedMilkCountsOnce` | src/main.py:18-45 | a basket listing milk twice counts once for milk and produces no pair row |

## Left out

- `main()` (src/main.py:56-124) is left out. It holds the page text, layout, select box and table rendering, which are presentation only. The
  one computation in it, the filter at line 90, is `Selection.SelectItemA`.
- Reading the CSV file (line 77) is file I/O. The table is a parameter instead.
- The key order of the grouped frames is dropped. `groupby` at lines 18 and 45 sorts by `Item A` and by (`Item A`, `Item B`), and the left merge at line 50 keeps that order. The maps of the model have no order, and nothing in the core depends on it.
- Sorting (lines 83, 98, 104) and taking the first row (lines 83, 112) are left out. They are display steps, and no core function promises an order.
- Rounding.ProbPercent: computes `round(x, 3) * 100` on the exact rational quotient. Line 51 applies `round` to a pandas Series, which scales by 1000, rounds to the nearest integer with ties to even and divides by 1000, all in binary floating point, and then multiplies by 100 in floating point. None of the float steps are modelled. Besides the last binary digits, this matters on exact ties, where `Prob (%)` can differ from the model by 0.1 percentage point. For `Trx AB` = 203 and `Trx A` = 400 the exact ratio 0.5075 is a tie, and the model gives 50.8. In floats, 0.5075 * 1000 is 507.49999999999994, which rounds to 507, so the program gives 50.7.
- Column names and renames (lines 15, 20, 35, 38, 47) are not modelled, and neither is the frame layout. Rows are records, and results are maps keyed by item or by pair.
- Null handling is not modelled: missing IDs or items, `nunique` skipping NaN, `!=` on NaN. Every record is taken to have an ID and an item. The code validates no record, so the model rejects none; a malformed-record error would be a check the code does not perform.
- The left joins (`how='left'` at lines 41 and 50) are modelled as total lookups. No left row goes unmatched: every row meets itself in the self-join (`Combinations.SelfJoinKeepsEveryRow`), and every `Item A` is a key of `popular_items` (`Combinations.CreateCombinations`). So no missing value ever arises.
- A zero `Trx A` denominator is never reached. `CreateCombinations` proves `Trx A >= Trx AB > 0` for every row, so no division-error path is modelled.
- `TransactionID` is an unbounded integer and `Item` a string. Pandas dtypes are not modelled.

## Notes

- `create_combinations` passes the renamed frame (`Item A` already) to
  `popular_items`. There the rename of `Item` does nothing, and grouping by
  `Item A` gives the same counts as on the original table. The model therefore
  uses `PopularItems(data)` for the join.
- Running either function twice on the same table gives the same results,
  because both are functions of the table. Beyond that,
  `PopularItemsSameRows` and `CombinationsSameRows` show that the results
  depend only on which rows occur.
