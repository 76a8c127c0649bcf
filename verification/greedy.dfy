/** The valuation-and-partition step `divide_into_groups`
    (process_assets.py): every asset is valued, the assets are sorted by
    value, largest first, and each goes to the group with the smallest
    running total. */
module GreedyPartition {
  import opened Groups
  import opened Sorting
  import opened Pricing
  import opened Depreciation

  /** Assigns the listed assets, in order, each to the group whose running
      total is smallest at that moment (ties to A, then B, then C). */
  function Greedy(vals: seq<nat>, types: seq<string>, p: Partition, items: seq<nat>): (r: Partition)
    requires |vals| == |types| && Below(items, |vals|)
    ensures multiset(AllMembers(r)) == multiset(AllMembers(p)) + multiset(items)
    ensures GrandTotal(r) == GrandTotal(p) + Sum(vals, items)
    ensures TotalsMatch(vals, p) ==> TotalsMatch(vals, r)
    ensures CountsMatch(types, p) ==> CountsMatch(types, r)
    decreases |items|
  {
    if |items| == 0 then p
    else
      assert items == [items[0]] + items[1..];
      Greedy(vals, types, Place(vals, types, p, MinGroup(p), items[0]), items[1..])
  }

  /** If no listed value exceeds `m` and the spread starts at most `m`, the
      greedy step ends with a spread of at most `m`. */
  lemma {:induction false} GreedySpreadBound(vals: seq<nat>, types: seq<string>, p: Partition, items: seq<nat>, m: int)
    requires |vals| == |types| && Below(items, |vals|)
    requires forall k :: 0 <= k < |items| ==> vals[items[k]] <= m
    requires Spread(p) <= m
    ensures Spread(Greedy(vals, types, p, items)) <= m
    decreases |items|
  {
    if |items| > 0 {
      var q := Place(vals, types, p, MinGroup(p), items[0]);
      PlaceOnMinimumSpread(vals, types, p, items[0]);
      GreedySpreadBound(vals, types, q, items[1..], m);
    }
  }

  /** The largest value, 0 for an empty list. */
  function Largest(vals: seq<nat>): (m: nat)
    ensures forall i :: 0 <= i < |vals| ==> vals[i] <= m
    ensures |vals| > 0 ==> m in vals
    ensures |vals| == 0 ==> m == 0
  {
    if |vals| == 0 then 0
    else
      var rest := Largest(vals[1..]);
      assert forall i :: 1 <= i < |vals| ==> vals[i] == vals[1..][i - 1];
      if vals[0] >= rest then vals[0] else rest
  }

  /** Sum of all values: never negative, 0 for no values. */
  function SumAll(vals: seq<nat>): (r: int)
    ensures r >= 0
    ensures |vals| == 0 ==> r == 0
  {
    SumNonNegative(vals, Range(|vals|));
    Sum(vals, Range(|vals|))
  }

  /** The greedy partition of assets 0 .. n-1 with the given values: sort
      largest first (equal values in load order), then place greedily.
      Every asset lands in exactly one group, no value is created or lost,
      totals and type counts describe the members, and the final spread
      never exceeds the largest single value. */
  function PlainGreedy(vals: seq<nat>, types: seq<string>): (r: Partition)
    requires |vals| == |types|
    ensures PartitionsRange(r, |vals|)
    ensures GrandTotal(r) == SumAll(vals)
    ensures TotalsMatch(vals, r) && CountsMatch(types, r)
    ensures Spread(r) <= Largest(vals)
  {
    var n := |vals|;
    var order := SortDesc(vals, Range(n));
    EmptyPartitionMatches(vals, types);
    SumPermutation(vals, Range(n), order);
    var r := Greedy(vals, types, EmptyPartition, order);
    GreedySpreadBound(vals, types, EmptyPartition, order, Largest(vals));
    assert multiset(AllMembers(EmptyPartition)) == multiset{};
    r
  }

  /** The order in which the plain greedy step visits the assets: largest
      value first, equal values in load order. */
  lemma GreedyOrder(vals: seq<nat>)
    ensures var order := SortDesc(vals, Range(|vals|));
            multiset(order) == multiset(Range(|vals|))
            && Descending(vals, order)
            && SameTies(vals, Range(|vals|), order)
  {
  }

  /** The valued asset list and the partition `divide_into_groups` returns. */
  datatype Allocation = Allocation(valuations: seq<Valuation>, groups: Partition)

  function Values(valuations: seq<Valuation>): (vals: seq<nat>)
    requires forall i :: 0 <= i < |valuations| ==> valuations[i].cents >= 0
    ensures |vals| == |valuations|
    ensures forall i :: 0 <= i < |vals| ==> vals[i] == valuations[i].cents
  {
    seq(|valuations|, i requires 0 <= i < |valuations| => valuations[i].cents as nat)
  }

  function Types(assets: seq<Asset>): (types: seq<string>)
    ensures |types| == |assets|
    ensures forall i :: 0 <= i < |assets| ==> types[i] == assets[i].assetType
  {
    seq(|assets|, i requires 0 <= i < |assets| => assets[i].assetType)
  }

  /** `divide_into_groups`: value every asset, then partition greedily by
      current value. */
  function DivideIntoGroups(cfg: Config, assets: seq<Asset>): (r: Allocation)
    requires PositiveTable(cfg.prices)
    ensures |r.valuations| == |assets|
    ensures forall i :: 0 <= i < |assets| ==> r.valuations[i] == Value(cfg, assets[i])
    ensures forall i :: 0 <= i < |assets| ==> r.valuations[i].cents > 0
    ensures PartitionsRange(r.groups, |assets|)
    ensures GrandTotal(r.groups) == SumAll(Values(r.valuations))
    ensures TotalsMatch(Values(r.valuations), r.groups)
    ensures CountsMatch(Types(assets), r.groups)
    ensures Spread(r.groups) <= Largest(Values(r.valuations))
  {
    var valuations := seq(|assets|, i requires 0 <= i < |assets| => Value(cfg, assets[i]));
    Allocation(valuations, PlainGreedy(Values(valuations), Types(assets)))
  }
}
