# IT asset valuation and three-way split

This project models the core of an IT-inventory tool. The tool values
every asset (laptops, desktops, monitors, printers and scanners,
server-room equipment) from a market-price table and a remark-driven
depreciation rule. It then splits the assets into three groups A, B and C
of as nearly equal total value as it can. The model covers:

- `get_market_price`: exact lookups by model, by name and by "name model";
  then per-category heuristics; then fallbacks (`Pricing`);
- `calculate_asset_value`, and the display labels that `divide_into_groups`
  attaches (`Depreciation`);
- the plain greedy split of `divide_into_groups`: a stable sort by value,
  largest first, then each asset to the group with the smallest total
  (`GreedyPartition`, built on `Groups` and `Sorting`);
- `divide_assets_equally` (`EqualDistribution`), in three steps. First the
  high-value items (worth more than 10% of a third of the total) are dealt
  round-robin. Then the rest is placed greedily. Then up to 100 rounds
  search for a swap between the richest and the poorest group that
  shrinks their spread;
- `generate_allocation_remark` (`AllocationRemark`): the clauses it picks
  and how it joins them into one sentence.

Values are exact. A current value is held in hundredths of a currency unit
as market price times retained whole percent. Every fractional threshold of
the source is restated without division: "high value" is `30 * v > total`;
"within 1%" is `300 * (max - min) <= total`; the remark thresholds are
`2nv > 3total`, `300g < 99total`, and so on. Strings are `seq<char>` with
ASCII case mapping (`Strings`), and `Wrappers` gives `Option` and `Result`.

## Model

| member | source | states |
|---|---|---|
| Pricing.MarketPrice | process_assets.py:108-293 | An unknown category costs 50000. The exact lookups by model, then name, then the combined key win in that order. Otherwise the category heuristic decides. With a positive table the price is positive. |
| Pricing.LaptopTier | process_assets.py:134-180 | The first laptop branch that fires, by brand then by processor family. Each gives a positive reconditioned price strictly below the new one, and a new price other than the 60000 fallback. No branch fires only if the processor is outside i7/i5/i3. A processor outside those families with no Elite or ThinkPad/X230 name fires no branch. |
| Pricing.LaptopPrice | process_assets.py:134-182 | Laptop heuristic price; always positive. |
| Pricing.ReconditionedLaptopCheaper | process_assets.py:136-182 | In every laptop branch a reconditioned unit costs strictly less than a new one. The new price equals the 60000 fallback exactly when no branch fires. |
| Pricing.LaptopWithoutFamilyFallsThrough | process_assets.py:174-182 | A laptop without an i7/i5/i3 processor and without an Elite/ThinkPad/X230 name falls through to 60000, whatever its brand. |
| Pricing.PCPrice | process_assets.py:184-207 | The desktop price is one of the nine listed tiers. It is 650000 exactly when the name says server/proliant or the processor is a Xeon. |
| Pricing.DesktopTiers | process_assets.py:184-207 | The i9 tiers are split at generations 13 and 11, and the i3 tiers at generation 10. Anything unmatched costs 70000. |
| Pricing.DesktopPriceMonotoneInGeneration | process_assets.py:188-203 | A newer generation never lowers a desktop's heuristic price. |
| Pricing.MonitorPrice | process_assets.py:209-220 | The monitor price is one of the five listed values, and positive. |
| Pricing.PrinterPrice | process_assets.py:222-250 | The printer/scanner price is one of the twelve listed values, and positive. |
| Pricing.ServerRoomPrice | process_assets.py:252-291 | The server-room price is one of the fifteen listed values, and positive. |
| Pricing.HeuristicPrice | process_assets.py:134-293 | The heuristic price of any category is positive. |
| Pricing.UnheuristicCategoryDefault | process_assets.py:115-133 | A category that is in the table but has no heuristics, and where every exact lookup misses, costs the 50000 default. |
| Pricing.SourceTablePositive | process_assets.py:8-106 | Every price in the inventory's table is positive. |
| Pricing.SourcePricesPositive | process_assets.py:8-293 | Every market price computed from the inventory's table is positive. |
| Depreciation.ClassifyRemark | process_assets.py:319-350 | The tests run in source order on the lower-cased remark. It is Excellent exactly when it contains "excellent". It is Good exactly when it contains "good" but not "excellent". It is Moderate exactly when it contains "moderate" or "fair" but neither of the first two. It is unrecognised exactly when it contains none of the four words. |
| Depreciation.FirstKeywordWins | process_assets.py:324-329 | A remark holding "good" but not "excellent" is Good, whatever else it holds. |
| Depreciation.TierPercent | process_assets.py:322-349 | A reconditioned laptop keeps 40/30/20 percent; any other asset keeps 70/60/50. |
| Depreciation.TierOrdering | process_assets.py:322-349 | For every condition a reconditioned laptop keeps strictly less. A remark without a keyword reads as Good (reconditioned) or Excellent (otherwise). The tiers fall from excellent to good to moderate. |
| Depreciation.RetainedPercent | process_assets.py:299-349 | A scrap-listed desktop keeps 10% whatever its remark. Otherwise the tier percent applies, where the reconditioned test is the purchase type or any text field mentioning "recondition". The result is a multiple of 10 between 10 and 70. |
| Depreciation.CurrentValueCents | process_assets.py:295-353 | With a positive table the value is positive and lies between 10% and 70% of the market price. |
| Depreciation.ScrapOverridesRemarks | process_assets.py:299-305 | Changing a scrapped desktop's remark never changes its value: exactly 10% of market price. |
| Depreciation.ScrapSerialExample | process_assets.py:301-305 | Desktop serial 11 of the inventory keeps 10% of its market price. |
| Depreciation.NewLaptopExample | process_assets.py:336-340 | A new laptop at 100000 with remark "Excellent condition" is worth 70000.00. |
| Depreciation.ReconditionedLaptopExample | process_assets.py:322-329 | A reconditioned laptop at 50000 with remark "Good, working" is worth 15000.00. |
| Depreciation.MonitorExample | process_assets.py:336-349 | A monitor at 12000 whose remark names no condition is worth 8400.00. |
| Depreciation.DepreciationLabel | process_assets.py:585-623 | The label is 90 for a scrapped desktop. Otherwise it is 100 minus the tier percent, where the tier is chosen by the purchase type alone. |
| Depreciation.DisplayCategory | process_assets.py:589-626 | The displayed category is never "Special", because the scrap label is overwritten before it is stored. An Excellent, Good or Moderate remark shows as such. An unrecognised remark shows as Good for a laptop bought reconditioned, and as Excellent otherwise. |
| Depreciation.Value | process_assets.py:580-626 | The per-asset record holds the market price, price times retained percent, the depreciation label, and a category other than Special. |
| Depreciation.LabelMatchesValue | process_assets.py:308-316 | Label and value agree (label + retained = 100) unless a laptop not bought reconditioned mentions reconditioning somewhere. |
| Depreciation.LabelDisagreesWithValue | process_assets.py:585-623 | A new-purchase laptop with a blank remark whose status reads "Reconditioned" keeps 30% of its price (valued as reconditioned) but is labelled with a 30% depreciation (the label looks at the purchase type only), so label and value disagree. |
| Groups.MinGroup | process_assets.py:639 | `min(group_values, key=...)` picks the group with the smallest total. No earlier group in A, B, C order has a total that small. |
| Groups.MaxGroup | process_equal_distribution.py:555 | `max(...)` picks the group with the largest total. No earlier group has a total that large. |
| Groups.ExtremesDiffer | process_equal_distribution.py:555-556 | With unequal totals the largest and the smallest group differ. |
| Groups.Place | process_assets.py:641-644 | Appending an asset adds exactly its value to that group's total. The other groups stay unchanged. Totals and per-type counts stay consistent with the members. |
| Groups.PlaceOnMinimumSpread | process_assets.py:637-644 | Adding a value to the smallest group never lifts the spread above the larger of the old spread and that value. |
| Groups.SumPermutation | process_assets.py:629 | Reordering assets does not change their total. |
| Groups.ExactlyOneGroup | process_assets.py:634-644 | In a partition of assets 0..n-1 every asset lies in exactly one group, once, and the group sizes add up to n. |
| Sorting.SortDesc | process_assets.py:629 | `sorted(..., reverse=True)`: a permutation of the same length, descending by value, and stable (equal values keep their order). |
| Sorting.Insert | process_assets.py:629 | One insertion step of the sort: the result is the list with exactly the one entry added. |
| Sorting.InsertDescending | process_assets.py:629 | Insertion keeps a descending list descending. |
| Sorting.InsertTies | process_assets.py:629 | Among the entries of its own value, the inserted entry comes first and the others keep their order. |
| GreedyPartition.Greedy | process_assets.py:636-644 | The greedy loop adds exactly the listed assets, and grows the grand total by their sum. It keeps totals and type counts consistent with the members. |
| GreedyPartition.GreedySpreadBound | process_assets.py:636-644 | If no listed value exceeds m and the spread starts at most m, the greedy loop ends with spread at most m. |
| GreedyPartition.GreedyOrder | process_assets.py:629 | The visiting order is a permutation of all assets, largest first, equal values in load order. |
| GreedyPartition.PlainGreedy | process_assets.py:628-649 | Every asset lands in exactly one group. The group totals sum to the grand total and match their members, and so do the type counts. The final spread is at most the largest single value. |
| GreedyPartition.DivideIntoGroups | process_assets.py:577-649 | Every asset is valued (positively) and then partitioned greedily, with the same guarantees as the plain greedy split. |
| EqualDistribution.HighItems | process_equal_distribution.py:514-516 | Every kept entry is high-value. |
| EqualDistribution.RegularItems | process_equal_distribution.py:517 | Every kept entry is not high-value. |
| EqualDistribution.SplitSorted | process_equal_distribution.py:512-517 | On a list sorted largest first, the high-value items are exactly a prefix and the regular items the rest; both halves stay descending. |
| EqualDistribution.NoHighItems | process_equal_distribution.py:514-517 | With nothing above the threshold, every asset is regular. |
| EqualDistribution.OrderSplit | process_equal_distribution.py:512-517 | High and regular items together are the sorted list; between them they cover all assets and all value. |
| EqualDistribution.RoundRobin | process_equal_distribution.py:523-530 | Item j goes to group A, B, C cyclically (j mod 3). Totals and counts stay consistent. |
| EqualDistribution.Dealt | process_equal_distribution.py:522-530 | The dealt groups hold exactly the high-value items, each group its own cyclic stride. |
| EqualDistribution.SeedIsRoundRobin | process_equal_distribution.py:522-541 | After the greedy step each group still starts with its round-robin share of high-value items. |
| EqualDistribution.GreedyExtends | process_equal_distribution.py:533-541 | The greedy step only appends to the groups. |
| EqualDistribution.Seeded | process_equal_distribution.py:502-541 | After dealing and greedy placement every asset is in exactly one group, and totals and counts match the members. |
| EqualDistribution.Top | process_equal_distribution.py:559-564 | The swap candidates are exactly the first min(n, 5) entries of the group sorted by value, largest first and stable. They are drawn from the group and listed largest first. No member left out is worth more than any candidate. |
| EqualDistribution.FirstInRow | process_equal_distribution.py:564-585 | The first candidate of the poorer group whose swap lowers the spread, or none if no candidate does. |
| EqualDistribution.FirstSwap | process_equal_distribution.py:562-587 | The first improving pair in row-major order. It reports none only if no pair among the candidates improves. |
| EqualDistribution.Remove | process_equal_distribution.py:578-579 | `list.remove`: exactly one occurrence leaves; an absent entry leaves the list unchanged; nothing new appears. |
| EqualDistribution.FirstIndex | process_equal_distribution.py:578-579 | The position `list.remove` acts on: it holds the entry, and no earlier position does. |
| EqualDistribution.RemoveFirstOccurrence | process_equal_distribution.py:578-579 | `list.remove` deletes the first occurrence and keeps everything else in its order: the list before it, then the list after it. |
| EqualDistribution.SumRemove | process_equal_distribution.py:578-583 | Removing an asset lowers its group's sum by exactly its value. |
| EqualDistribution.Exchange | process_equal_distribution.py:578-583 | One side of a swap. The new member list is the old one with the outgoing asset removed by `list.remove`, then the incoming asset appended last. The total is adjusted by the difference, and the type counts are kept as they were. |
| EqualDistribution.DivideAssetsEquallyAsWritten | process_equal_distribution.py:499-592 | The source as written. With a positive total it gives the same groups as the corrected model. With a zero total (no assets, or only zero-valued ones) it fails with a division by zero. |
| EqualDistribution.ApplySwap | process_equal_distribution.py:566-583 | A swap leaves the third group and all type counts unchanged, and keeps the grand total. Its spread is the one the search computed. It permutes the members and keeps totals consistent. |
| EqualDistribution.SwapStep | process_equal_distribution.py:546-590 | A swap found lowers the spread strictly, preserving members, grand total and counts. None found means the partition is stuck. |
| EqualDistribution.Refine | process_equal_distribution.py:543-590 | At most the budgeted swaps. The spread never grows, and strictly falls if a swap happened. Stopping early means within 1% or stuck. Members, grand total and counts are preserved. |
| EqualDistribution.RefineBalanced | process_equal_distribution.py:549-552 | Groups already within 1% are returned untouched. |
| EqualDistribution.RefineAsWritten | process_equal_distribution.py:549 | The source's refinement: with a positive total it agrees with `Refine`; with a zero total it fails on the first division. |
| EqualDistribution.EmptyInputRaises | process_equal_distribution.py:499-549 | An empty asset list makes the source's `divide_assets_equally` fail with a division by zero. |
| EqualDistribution.DivideAssetsEqually | process_equal_distribution.py:499-592 | Every asset is in exactly one group, totals match, the grand total is the sum of all values. The spread is at most the seeded spread, the counts are those of the seeding, and there are at most 100 swaps. Stopping before the budget means within 1% or stuck. |
| EqualDistribution.EmptyStays | process_equal_distribution.py:543-552 | With no assets, the groups are empty with totals 0 and the refinement changes nothing. |
| EqualDistribution.NoMembers | process_equal_distribution.py:505-509 | A partition of no assets has empty groups with totals 0. |
| AllocationRemark.ValueClass | process_equal_distribution.py:611-617 | High-value exactly when the value exceeds 1.5 times the average. Lower-value exactly when it is below half the average. Otherwise standard. |
| AllocationRemark.BalanceClause | process_equal_distribution.py:619-625 | Below target exactly when the group total is under 99% of a third. Above target exactly when it is over 101%. Otherwise balanced. |
| AllocationRemark.CountClause | process_equal_distribution.py:627-631 | "Fewer items" exactly when the group size is more than one below n/3. "More items" exactly when more than one above. Otherwise no clause. |
| AllocationRemark.QualityClause | process_equal_distribution.py:633-640 | The first of excellent/good/moderate found in the lower-cased remark picks the clause. None found means no clause. |
| AllocationRemark.Decide | process_equal_distribution.py:598-653 | Each decision holds a clause of its own kind, given by the per-threshold rules above. The type-mix clause appears exactly when the group's count of the type is at most a third of that type's total. The closing note appears exactly when the asset is high-value. |
| AllocationRemark.Clauses | process_equal_distribution.py:609-653 | The clause list starts with the value class and the balance clause and has two to six entries. |
| AllocationRemark.ClausesIncreasing | process_equal_distribution.py:609-653 | Each decision is reported at most once, in the fixed order value, balance, count, quality, type mix, note. |
| AllocationRemark.ClausesListed | process_equal_distribution.py:609-653 | A clause is listed exactly when one of the decisions calls for it. |
| AllocationRemark.Render | process_equal_distribution.py:655 | `". ".join(...).capitalize() + "."`: ends with a full stop and opens with the capitalised first clause. |
| AllocationRemark.RenderShowsClause | process_equal_distribution.py:655 | Every clause after the first appears, lower-cased, in the sentence. |
| AllocationRemark.AllocationRemarkOf | process_equal_distribution.py:598-655 | The remark of an asset opens with its capitalised value class and ends with a full stop. |
| AllocationRemark.RemarkShowsDecision | process_equal_distribution.py:609-655 | Every clause the decisions call for, after the value class, shows in the asset's remark. |
| Strings.Capitalize | process_equal_distribution.py:655 | `str.capitalize`: first character upper-cased, the rest lower-cased. |
| Strings.Strip | process_assets.py:111-113 | `str.strip`: the result is a slice of the input. Everything cut before it is white space, and so is everything cut after it. The result neither starts nor ends with white space. |
| Strings.StripClean | process_assets.py:111-113 | A string with no white space is its own strip. |
| Strings.StripIdempotent | process_assets.py:111-113 | Stripping twice equals stripping once. |

## Left out

- File and spreadsheet reading, JSON/HTML/Excel output, printing and the
  script-level driver code are not modelled. The assets arrive as a list of
  records. Fields missing from a record are "" (text) or 0 (`Gen`, serial).
- Floating point is not modelled: every value is exact hundredths, and
  `round(x, 2)` is the identity on them. The float tests `variance_pct <= 1.0`,
  `> target * 0.10` and the remark's `* 0.99`, `* 1.01`, `* 1.5` and `* 0.5`
  are restated as exact integer comparisons. Near a boundary they can differ
  from the binary-float result.
- Case mapping is ASCII only; Python's Unicode `lower`, `upper` and `strip`
  tables are not modelled.
- The one-line "Assigned to balance total value (Group X: BDT ...)" note
  written by `divide_into_groups` is not modelled: it only formats a float.
- `list.remove` in the swap compares dictionaries by equality. The model
  removes the first occurrence of an asset's index. This is equivalent as
  long as no two assets have identical records.
- The values that `divide_assets_equally` balances are computed in the
  source by its own per-type float valuation
  (process_equal_distribution.py:166-461, with tables other than those of
  `calculate_asset_value`). That valuation is not modelled: the equal
  division takes the values `vals` and the types as parameters.
- After a swap, the source does not update `asset_counts`. The model keeps
  them unchanged too, so remark type-mix decisions read the counts of the
  seeding.
- AllocationRemark.AllocationRemarkOf: the remark's words are stated
  clause by clause (first clause, each later clause present). Parsing the
  sentence back into its decisions is not stated. Doing so would need facts
  about long string literals, which the model does not prove.
- AllocationRemark.Render: the remark is stated to contain each later
  clause, not to equal an exact concatenation. Because of `capitalize`,
  only the first clause keeps an upper-case letter.
- AllocationRemark.AllocationRemarkOf: the source also divides by
  `len(all_assets)`. Since it is called only for assets inside a group,
  the list is never empty there, and the model requires a valid asset index.
- EqualDistribution.Refine: the number of rounds is a fuel parameter
  (100 in `DivideAssetsEqually`). The exact sequence of swaps is determined
  by `FirstSwap`, but no closed form of the final groups is stated.

## Findings

| source | as written | input that shows it | evidently intended | confidence | as-written member | corrected member |
|---|---|---|---|---|---|---|
| process_equal_distribution.py:549 | `variance_pct` divides the spread by `target_value = total / 3`, which is 0 when the total is 0 | an empty asset list (or only zero-valued assets) | zero spread counts as balanced, and the refinement returns at once | not executed | EqualDistribution.EmptyInputRaises | EqualDistribution.DivideAssetsEqually |
