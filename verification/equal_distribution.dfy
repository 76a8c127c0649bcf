/** The three-phase partitioner `divide_assets_equally`
    (process_equal_distribution.py): high-value assets are dealt round-robin,
    the rest are placed greedily, then a bounded search swaps single assets
    between the largest and the smallest group while that narrows the
    spread. */
module EqualDistribution {
  import opened Wrappers
  import opened Groups
  import opened Sorting
  import opened GreedyPartition

  /** Iteration budget of the refinement. */
  const MaxIterations: nat := 100

  /** Number of largest assets of each group the swap search looks at. */
  const CandidatePool: nat := 5

  /** More than 10% of the per-group target `total / 3`, without dividing. */
  predicate IsHighValue(v: int, total: int)
  {
    30 * v > total
  }

  /** The high-value entries of `s`, in their order in `s`. */
  function HighItems(vals: seq<nat>, s: seq<nat>, total: int): (r: seq<nat>)
    requires Below(s, |vals|)
    ensures Below(r, |vals|)
    ensures forall k :: 0 <= k < |r| ==> IsHighValue(vals[r[k]], total)
    decreases |s|
  {
    if |s| == 0 then []
    else
      var rest := HighItems(vals, s[1..], total);
      if IsHighValue(vals[s[0]], total) then [s[0]] + rest else rest
  }

  /** The remaining entries of `s`, in their order in `s`. */
  function RegularItems(vals: seq<nat>, s: seq<nat>, total: int): (r: seq<nat>)
    requires Below(s, |vals|)
    ensures Below(r, |vals|)
    ensures forall k :: 0 <= k < |r| ==> !IsHighValue(vals[r[k]], total)
    decreases |s|
  {
    if |s| == 0 then []
    else
      var rest := RegularItems(vals, s[1..], total);
      if IsHighValue(vals[s[0]], total) then rest else [s[0]] + rest
  }

  lemma {:induction false} NoHighItems(vals: seq<nat>, s: seq<nat>, total: int)
    requires Below(s, |vals|)
    requires forall k :: 0 <= k < |s| ==> !IsHighValue(vals[s[k]], total)
    ensures HighItems(vals, s, total) == []
    ensures RegularItems(vals, s, total) == s
    decreases |s|
  {
    if |s| > 0 {
      NoHighItems(vals, s[1..], total);
      assert s == [s[0]] + s[1..];
    }
  }

  /** Both halves of a descending list are descending. */
  lemma HalvesDescending(vals: seq<nat>, h: seq<nat>, g: seq<nat>)
    requires Below(h + g, |vals|) && Descending(vals, h + g)
    ensures Below(h, |vals|) && Below(g, |vals|)
    ensures Descending(vals, h) && Descending(vals, g)
  {
    var s := h + g;
    assert forall k :: 0 <= k < |h| ==> h[k] == s[k];
    assert forall k :: 0 <= k < |g| ==> g[k] == s[|h| + k];
  }

  /** Below a value that is not high, nothing is high. */
  lemma {:induction false} NothingHighAfter(vals: seq<nat>, s: seq<nat>, total: int)
    requires Below(s, |vals|) && Descending(vals, s) && |s| > 0
    requires !IsHighValue(vals[s[0]], total)
    ensures forall k :: 0 <= k < |s| ==> !IsHighValue(vals[s[k]], total)
  {
    forall k | 0 <= k < |s|
      ensures !IsHighValue(vals[s[k]], total)
    {
      if k > 0 {
        assert vals[s[0]] >= vals[s[k]];
      }
    }
  }

  lemma {:induction false} SplitConcat(vals: seq<nat>, s: seq<nat>, total: int)
    requires Below(s, |vals|) && Descending(vals, s)
    ensures HighItems(vals, s, total) + RegularItems(vals, s, total) == s
    decreases |s|
  {
    if |s| > 0 {
      if IsHighValue(vals[s[0]], total) {
        assert Descending(vals, s[1..]) by {
          assert forall k :: 0 <= k < |s| - 1 ==> s[1..][k] == s[k + 1];
        }
        SplitConcat(vals, s[1..], total);
        assert s == [s[0]] + s[1..];
      } else {
        NothingHighAfter(vals, s, total);
        NoHighItems(vals, s, total);
      }
    }
  }

  /** On a list sorted largest first the high-value entries are exactly a
      prefix and the regular ones the rest: the two lists split the sorted
      list and both stay sorted. */
  lemma SplitSorted(vals: seq<nat>, s: seq<nat>, total: int)
    requires Below(s, |vals|) && Descending(vals, s)
    ensures HighItems(vals, s, total) + RegularItems(vals, s, total) == s
    ensures Descending(vals, HighItems(vals, s, total))
    ensures Descending(vals, RegularItems(vals, s, total))
  {
    SplitConcat(vals, s, total);
    HalvesDescending(vals, HighItems(vals, s, total), RegularItems(vals, s, total));
  }

  /** Group of the k-th high-value asset: A, B, C, A, B, C, ... */
  function Slot(k: nat): GroupId
  {
    if k % 3 == 0 then A else if k % 3 == 1 then B else C
  }

  /** The entries of `items` from position `k` on whose position is dealt to
      group `g`. */
  function Stride(items: seq<nat>, k: nat, g: GroupId): seq<nat>
    requires k <= |items|
    decreases |items| - k
  {
    if k == |items| then [] else (if Slot(k) == g then [items[k]] else []) + Stride(items, k + 1, g)
  }

  /** Deals `items[k..]` round-robin: position j goes to `Slot(j)`,
      whatever the running totals are. */
  function RoundRobin(vals: seq<nat>, types: seq<string>, p: Partition, items: seq<nat>, k: nat): (r: Partition)
    requires |vals| == |types| && Below(items, |vals|) && k <= |items|
    ensures forall g :: Get(r, g).members == Get(p, g).members + Stride(items, k, g)
    ensures multiset(AllMembers(r)) == multiset(AllMembers(p)) + multiset(items[k..])
    ensures Below(items[k..], |vals|)
    ensures GrandTotal(r) == GrandTotal(p) + Sum(vals, items[k..])
    ensures TotalsMatch(vals, p) ==> TotalsMatch(vals, r)
    ensures CountsMatch(types, p) ==> CountsMatch(types, r)
    decreases |items| - k
  {
    if k == |items| then
      assert items[k..] == [];
      p
    else
      var q := Place(vals, types, p, Slot(k), items[k]);
      DealStep(vals, types, p, items, k);
      RoundRobin(vals, types, q, items, k + 1)
  }

  /** Dealing one asset moves it from the undealt rest into its slot. */
  lemma DealStep(vals: seq<nat>, types: seq<string>, p: Partition, items: seq<nat>, k: nat)
    requires |vals| == |types| && Below(items, |vals|) && k < |items|
    ensures var q := Place(vals, types, p, Slot(k), items[k]);
            && (forall g :: Get(q, g).members + Stride(items, k + 1, g) == Get(p, g).members + Stride(items, k, g))
            && multiset(AllMembers(q)) + multiset(items[k + 1..]) == multiset(AllMembers(p)) + multiset(items[k..])
            && Below(items[k..], |vals|) && Below(items[k + 1..], |vals|)
            && GrandTotal(q) + Sum(vals, items[k + 1..]) == GrandTotal(p) + Sum(vals, items[k..])
  {
    var q := Place(vals, types, p, Slot(k), items[k]);
    forall g
      ensures Get(q, g).members + Stride(items, k + 1, g) == Get(p, g).members + Stride(items, k, g)
    {
      DealMembers(vals, types, p, items, k, g);
    }
    DealRest(vals, items, k);
  }

  lemma DealRest(vals: seq<nat>, items: seq<nat>, k: nat)
    requires Below(items, |vals|) && k < |items|
    ensures Below(items[k..], |vals|) && Below(items[k + 1..], |vals|)
    ensures multiset(items[k..]) == multiset{items[k]} + multiset(items[k + 1..])
    ensures Sum(vals, items[k..]) == vals[items[k]] + Sum(vals, items[k + 1..])
  {
    assert items[k..] == [items[k]] + items[k + 1..];
    assert items[k..][1..] == items[k + 1..];
  }

  lemma DealMembers(vals: seq<nat>, types: seq<string>, p: Partition, items: seq<nat>, k: nat, g: GroupId)
    requires |vals| == |types| && Below(items, |vals|) && k < |items|
    ensures Get(Place(vals, types, p, Slot(k), items[k]), g).members + Stride(items, k + 1, g)
            == Get(p, g).members + Stride(items, k, g)
  {
    var q := Place(vals, types, p, Slot(k), items[k]);
    if g == Slot(k) {
      assert Get(q, g).members == Get(p, g).members + [items[k]];
      StrideHit(Get(p, g).members, items, k, g);
    } else {
      assert Get(q, g) == Get(p, g);
      StrideMiss(Get(p, g).members, items, k, g);
    }
  }

  lemma StrideHit(m: seq<nat>, items: seq<nat>, k: nat, g: GroupId)
    requires k < |items| && Slot(k) == g
    ensures (m + [items[k]]) + Stride(items, k + 1, g) == m + Stride(items, k, g)
  {
    assert Stride(items, k, g) == [items[k]] + Stride(items, k + 1, g);
  }

  lemma StrideMiss(m: seq<nat>, items: seq<nat>, k: nat, g: GroupId)
    requires k < |items| && Slot(k) != g
    ensures m + Stride(items, k + 1, g) == m + Stride(items, k, g)
  {
    assert Stride(items, k, g) == [] + Stride(items, k + 1, g);
  }

  /** The asset indices, largest value first, equal values in load order. */
  function SortedOrder(vals: seq<nat>): (r: seq<nat>)
    ensures Below(r, |vals|) && Descending(vals, r)
    ensures multiset(r) == multiset(Range(|vals|))
  {
    SortDesc(vals, Range(|vals|))
  }

  /** The high-value assets of the sorted list. */
  function HighOf(vals: seq<nat>): (r: seq<nat>)
    ensures Below(r, |vals|)
  {
    HighItems(vals, SortedOrder(vals), SumAll(vals))
  }

  /** The remaining assets of the sorted list. */
  function RegularOf(vals: seq<nat>): (r: seq<nat>)
    ensures Below(r, |vals|)
  {
    RegularItems(vals, SortedOrder(vals), SumAll(vals))
  }

  /** The high-value and the regular assets together are all the assets,
      once each, and their values add up to the total. */
  lemma OrderSplit(vals: seq<nat>)
    ensures HighOf(vals) + RegularOf(vals) == SortedOrder(vals)
    ensures multiset(HighOf(vals)) + multiset(RegularOf(vals)) == multiset(Range(|vals|))
    ensures Sum(vals, HighOf(vals)) + Sum(vals, RegularOf(vals)) == SumAll(vals)
  {
    var order := SortedOrder(vals);
    var h := HighOf(vals);
    var g := RegularOf(vals);
    SplitSorted(vals, order, SumAll(vals));
    assert h + g == order;
    assert multiset(h) + multiset(g) == multiset(Range(|vals|)) by {
      assert multiset(h + g) == multiset(h) + multiset(g);
    }
    SumSplit(vals, h, g, order);
  }

  lemma SumSplit(vals: seq<nat>, h: seq<nat>, g: seq<nat>, order: seq<nat>)
    requires Below(h, |vals|) && Below(g, |vals|) && h + g == order
    requires multiset(order) == multiset(Range(|vals|))
    ensures Sum(vals, h) + Sum(vals, g) == SumAll(vals)
  {
    SumPermutation(vals, Range(|vals|), order);
    SumAppend(vals, h, g);
  }

  /** Phase 1: the high-value assets dealt round-robin onto empty groups. */
  function Dealt(vals: seq<nat>, types: seq<string>): (r: Partition)
    requires |vals| == |types|
    ensures forall g :: Get(r, g).members == Stride(HighOf(vals), 0, g)
    ensures multiset(AllMembers(r)) == multiset(HighOf(vals))
    ensures GrandTotal(r) == Sum(vals, HighOf(vals))
    ensures TotalsMatch(vals, r) && CountsMatch(types, r)
  {
    DealFromEmpty(vals, types, HighOf(vals));
    RoundRobin(vals, types, EmptyPartition, HighOf(vals), 0)
  }

  lemma DealFromEmpty(vals: seq<nat>, types: seq<string>, high: seq<nat>)
    requires |vals| == |types| && Below(high, |vals|)
    ensures var r := RoundRobin(vals, types, EmptyPartition, high, 0);
            && (forall g :: Get(r, g).members == Stride(high, 0, g))
            && multiset(AllMembers(r)) == multiset(high)
            && GrandTotal(r) == Sum(vals, high)
            && TotalsMatch(vals, r) && CountsMatch(types, r)
  {
    EmptyPartitionMatches(vals, types);
    assert high[0..] == high;
    var r := RoundRobin(vals, types, EmptyPartition, high, 0);
    forall g
      ensures Get(r, g).members == Stride(high, 0, g)
    {
      assert Get(EmptyPartition, g).members == [];
      assert Get(r, g).members == [] + Stride(high, 0, g);
    }
  }

  /** Phases 0-2: sort largest first, deal the high-value assets
      round-robin, place the regular ones greedily. */
  function Seeded(vals: seq<nat>, types: seq<string>): (r: Partition)
    requires |vals| == |types|
    ensures PartitionsRange(r, |vals|)
    ensures GrandTotal(r) == SumAll(vals)
    ensures TotalsMatch(vals, r) && CountsMatch(types, r)
  {
    OrderSplit(vals);
    Greedy(vals, types, Dealt(vals, types), RegularOf(vals))
  }

  /** The round-robin seed of `Seeded`: the i-th high-value asset, in sorted
      order, heads group `Slot(i)`'s list before any regular asset. */
  lemma SeedIsRoundRobin(vals: seq<nat>, types: seq<string>, g: GroupId)
    requires |vals| == |types|
    ensures Stride(HighOf(vals), 0, g) <= Get(Seeded(vals, types), g).members
  {
    GreedyExtends(vals, types, Dealt(vals, types), RegularOf(vals), g);
  }

  /** The greedy step only appends to a group's list. */
  lemma {:induction false} GreedyExtends(vals: seq<nat>, types: seq<string>, p: Partition, items: seq<nat>, g: GroupId)
    requires |vals| == |types| && Below(items, |vals|)
    ensures Get(p, g).members <= Get(Greedy(vals, types, p, items), g).members
    decreases |items|
  {
    if |items| > 0 {
      var q := Place(vals, types, p, MinGroup(p), items[0]);
      GreedyExtends(vals, types, q, items[1..], g);
    }
  }

  /** Within 1% of the target: `(max - min) / (total / 3) <= 1%`, multiplied
      out. */
  predicate WithinTolerance(p: Partition, total: int)
  {
    300 * Spread(p) <= total
  }

  /** The group that is neither `hi` nor `lo`. */
  function Third(hi: GroupId, lo: GroupId): (g: GroupId)
    requires hi != lo
    ensures g != hi && g != lo
  {
    if hi != A && lo != A then A else if hi != B && lo != B then B else C
  }

  /** The (at most) five most valuable members, largest first, equal values in
      list order: the head of the stable descending sort of `s`. */
  function Top(vals: seq<nat>, s: seq<nat>): (r: seq<nat>)
    requires Below(s, |vals|)
    ensures |r| == (if |s| < CandidatePool then |s| else CandidatePool)
    ensures Below(r, |vals|) && r == SortDesc(vals, s)[..|r|]
    ensures forall k :: 0 <= k < |r| ==> r[k] in s
    ensures multiset(r) <= multiset(s) && Descending(vals, r)
    ensures forall k, x :: 0 <= k < |r| && x in multiset(s) - multiset(r) ==> vals[x] <= vals[r[k]]
  {
    var m := if |s| < CandidatePool then |s| else CandidatePool;
    var sorted := SortDesc(vals, s);
    PrefixDescending(vals, sorted, m);
    PrefixMembers(sorted, s, m);
    PrefixBound(vals, sorted, m);
    sorted[..m]
  }

  /** A prefix of a rearrangement of `s` is drawn from `s`. */
  lemma PrefixMembers(sorted: seq<nat>, s: seq<nat>, m: nat)
    requires multiset(sorted) == multiset(s) && m <= |sorted|
    ensures forall k :: 0 <= k < m ==> sorted[..m][k] in s
    ensures multiset(sorted[..m]) <= multiset(s)
  {
    assert sorted == sorted[..m] + sorted[m..];
    forall k | 0 <= k < m
      ensures sorted[..m][k] in s
    {
      assert sorted[k] in multiset(sorted);
    }
  }

  /** Every entry a prefix of a descending list leaves behind is worth at
      most each entry of the prefix. */
  lemma PrefixBound(vals: seq<nat>, sorted: seq<nat>, m: nat)
    requires Below(sorted, |vals|) && Descending(vals, sorted) && m <= |sorted|
    ensures forall k, x :: 0 <= k < m && x in multiset(sorted) - multiset(sorted[..m]) ==> vals[x] <= vals[sorted[..m][k]]
  {
    var rest := sorted[m..];
    assert sorted == sorted[..m] + rest;
    assert multiset(sorted) - multiset(sorted[..m]) == multiset(rest);
    forall k, x | 0 <= k < m && x in multiset(sorted) - multiset(sorted[..m])
      ensures vals[x] <= vals[sorted[..m][k]]
    {
      assert x in rest;
      var j :| 0 <= j < |rest| && rest[j] == x;
      assert sorted[m + j] == x;
    }
  }

  /** Spread after `x` of group `hi` and `y` of group `lo` change places. */
  function SwapSpread(vals: seq<nat>, p: Partition, hi: GroupId, lo: GroupId, x: nat, y: nat): int
    requires hi != lo && x < |vals| && y < |vals|
  {
    var newHi := Total(p, hi) - vals[x] + vals[y];
    var newLo := Total(p, lo) - vals[y] + vals[x];
    var other := Total(p, Third(hi, lo));
    Max(newHi, Max(newLo, other)) - Min(newHi, Min(newLo, other))
  }

  predicate Improves(vals: seq<nat>, p: Partition, hi: GroupId, lo: GroupId, x: nat, y: nat)
    requires hi != lo && x < |vals| && y < |vals|
  {
    SwapSpread(vals, p, hi, lo, x, y) < Spread(p)
  }

  /** First position from `j` on at which swapping `x` with `ys[j']` helps. */
  function FirstInRow(vals: seq<nat>, p: Partition, hi: GroupId, lo: GroupId, x: nat, ys: seq<nat>, j: nat): (r: Option<nat>)
    requires hi != lo && x < |vals| && Below(ys, |vals|) && j <= |ys|
    ensures r.Some? ==> j <= r.value < |ys| && Improves(vals, p, hi, lo, x, ys[r.value])
    ensures r.Some? ==> forall k :: j <= k < r.value ==> !Improves(vals, p, hi, lo, x, ys[k])
    ensures r.None? ==> forall k :: j <= k < |ys| ==> !Improves(vals, p, hi, lo, x, ys[k])
    decreases |ys| - j
  {
    if j == |ys| then None
    else if Improves(vals, p, hi, lo, x, ys[j]) then Some(j)
    else FirstInRow(vals, p, hi, lo, x, ys, j + 1)
  }

  /** First improving pair `(xs[i'], ys[j'])` with `i' >= i`, rows tried in
      order and, within a row, columns in order. */
  function FirstSwap(vals: seq<nat>, p: Partition, hi: GroupId, lo: GroupId, xs: seq<nat>, ys: seq<nat>, i: nat): (r: Option<(nat, nat)>)
    requires hi != lo && Below(xs, |vals|) && Below(ys, |vals|) && i <= |xs|
    ensures r.Some? ==> i <= r.value.0 < |xs| && r.value.1 < |ys|
                        && Improves(vals, p, hi, lo, xs[r.value.0], ys[r.value.1])
    ensures r.Some? ==> forall a, b :: i <= a < r.value.0 && 0 <= b < |ys| ==> !Improves(vals, p, hi, lo, xs[a], ys[b])
    ensures r.Some? ==> forall b :: 0 <= b < r.value.1 ==> !Improves(vals, p, hi, lo, xs[r.value.0], ys[b])
    ensures r.None? ==> forall a, b :: i <= a < |xs| && 0 <= b < |ys| ==> !Improves(vals, p, hi, lo, xs[a], ys[b])
    decreases |xs| - i
  {
    if i == |xs| then None
    else
      match FirstInRow(vals, p, hi, lo, xs[i], ys, 0)
      case Some(j) => Some((i, j))
      case None => FirstSwap(vals, p, hi, lo, xs, ys, i + 1)
  }

  /** `s` without the first occurrence of `x`. */
  function Remove(s: seq<nat>, x: nat): (r: seq<nat>)
    ensures x in s ==> multiset(r) == multiset(s) - multiset{x}
    ensures x !in s ==> r == s
    ensures forall y :: y in r ==> y in s
    decreases |s|
  {
    if |s| == 0 then []
    else if s[0] == x then
      assert s == [s[0]] + s[1..];
      s[1..]
    else
      assert s == [s[0]] + s[1..];
      [s[0]] + Remove(s[1..], x)
  }

  /** Position of the first occurrence of `x` in `s`. */
  function FirstIndex(s: seq<nat>, x: nat): (i: nat)
    requires x in s
    ensures i < |s| && s[i] == x && x !in s[..i]
    decreases |s|
  {
    if s[0] == x then 0
    else
      assert s == [s[0]] + s[1..];
      var i := FirstIndex(s[1..], x);
      assert s[..i + 1] == [s[0]] + s[1..][..i];
      i + 1
  }

  /** `list.remove` takes out the first occurrence only and keeps the order
      of everything else. */
  lemma {:induction false} RemoveFirstOccurrence(s: seq<nat>, x: nat)
    requires x in s
    ensures Remove(s, x) == s[..FirstIndex(s, x)] + s[FirstIndex(s, x) + 1..]
    decreases |s|
  {
    if s[0] == x {
      assert s[..0] == [];
    } else {
      var t := s[1..];
      assert s == [s[0]] + t;
      var i := FirstIndex(t, x);
      assert FirstIndex(s, x) == i + 1;
      assert Remove(s, x) == [s[0]] + Remove(t, x);
      RemoveFirstOccurrence(t, x);
      ConsSplit(s, i);
    }
  }

  /** Splitting the tail of `s` around position `i` splits `s` around `i + 1`. */
  lemma ConsSplit(s: seq<nat>, i: nat)
    requires i + 1 < |s|
    ensures [s[0]] + (s[1..][..i] + s[1..][i + 1..]) == s[..i + 1] + s[i + 2..]
  {
    assert s[..i + 1] == [s[0]] + s[1..][..i];
    assert s[i + 2..] == s[1..][i + 1..];
  }

  lemma {:induction false} SumRemove(vals: seq<nat>, s: seq<nat>, x: nat)
    requires Below(s, |vals|) && x in s
    ensures Below(Remove(s, x), |vals|)
    ensures Sum(vals, Remove(s, x)) == Sum(vals, s) - vals[x]
    decreases |s|
  {
    if s[0] != x {
      SumRemove(vals, s[1..], x);
      var r := Remove(s, x);
      assert r[0] == s[0] && r[1..] == Remove(s[1..], x);
    }
  }

  /** One group after `out` leaves it and `inn` is appended; its type counts
      are kept as they were. */
  function Exchange(vals: seq<nat>, grp: Group, out: nat, inn: nat): (r: Group)
    requires out < |vals| && inn < |vals|
    ensures r.total == grp.total - vals[out] + vals[inn]
    ensures r.counts == grp.counts
    ensures r.members == Remove(grp.members, out) + [inn]
    ensures out in grp.members ==> multiset(r.members) == multiset(grp.members) - multiset{out} + multiset{inn}
  {
    Group(Remove(grp.members, out) + [inn], grp.total - vals[out] + vals[inn], grp.counts)
  }

  /** An exchange keeps a group's total equal to the value of its members. */
  lemma ExchangeSum(vals: seq<nat>, grp: Group, out: nat, inn: nat)
    requires out < |vals| && inn < |vals|
    ensures Below(grp.members, |vals|) && grp.total == Sum(vals, grp.members) && out in grp.members ==>
              Below(Exchange(vals, grp, out, inn).members, |vals|)
              && Exchange(vals, grp, out, inn).total == Sum(vals, Exchange(vals, grp, out, inn).members)
  {
    if Below(grp.members, |vals|) && grp.total == Sum(vals, grp.members) && out in grp.members {
      SumRemove(vals, grp.members, out);
      SumAppend(vals, Remove(grp.members, out), [inn]);
      assert Sum(vals, [inn]) == vals[inn];
    }
  }

  /** Swaps `x` of group `hi` with `y` of group `lo`: only those two groups'
      lists and totals change; the third group and every type count stay as
      they were. */
  function ApplySwap(vals: seq<nat>, p: Partition, hi: GroupId, lo: GroupId, x: nat, y: nat): (r: Partition)
    requires hi != lo && x < |vals| && y < |vals|
    ensures Spread(r) == SwapSpread(vals, p, hi, lo, x, y)
    ensures Get(r, Third(hi, lo)) == Get(p, Third(hi, lo))
    ensures forall g :: Get(r, g).counts == Get(p, g).counts
    ensures GrandTotal(r) == GrandTotal(p)
    ensures x in Get(p, hi).members && y in Get(p, lo).members ==>
              multiset(AllMembers(r)) == multiset(AllMembers(p))
    ensures TotalsMatch(vals, p) && x in Get(p, hi).members && y in Get(p, lo).members ==>
              TotalsMatch(vals, r)
  {
    var newHi := Exchange(vals, Get(p, hi), x, y);
    var newLo := Exchange(vals, Get(p, lo), y, x);
    var q := Put(p, hi, newHi);
    var r := Put(q, lo, newLo);
    ExchangeSum(vals, Get(p, hi), x, y);
    ExchangeSum(vals, Get(p, lo), y, x);
    SwapBookkeeping(vals, p, hi, lo, x, y, newHi, newLo);
    r
  }

  /** Spread, grand total and members of a partition, told by role: the
      groups `hi`, `lo` and the third one. */
  lemma ByRole(p: Partition, hi: GroupId, lo: GroupId)
    requires hi != lo
    ensures var t := Third(hi, lo);
            && Spread(p) == Max(Total(p, hi), Max(Total(p, lo), Total(p, t)))
                            - Min(Total(p, hi), Min(Total(p, lo), Total(p, t)))
            && GrandTotal(p) == Total(p, hi) + Total(p, lo) + Total(p, t)
            && multiset(AllMembers(p)) == multiset(Get(p, hi).members) + multiset(Get(p, lo).members)
                                          + multiset(Get(p, t).members)
  {
    assert multiset(AllMembers(p)) == multiset(p.a.members) + multiset(p.b.members) + multiset(p.c.members);
  }

  lemma SwapBookkeeping(vals: seq<nat>, p: Partition, hi: GroupId, lo: GroupId, x: nat, y: nat, newHi: Group, newLo: Group)
    requires hi != lo && x < |vals| && y < |vals|
    requires newHi.total == Total(p, hi) - vals[x] + vals[y]
    requires newLo.total == Total(p, lo) - vals[y] + vals[x]
    requires x in Get(p, hi).members ==>
               multiset(newHi.members) == multiset(Get(p, hi).members) - multiset{x} + multiset{y}
    requires y in Get(p, lo).members ==>
               multiset(newLo.members) == multiset(Get(p, lo).members) - multiset{y} + multiset{x}
    requires TotalsMatch(vals, p) && x in Get(p, hi).members ==>
               Below(newHi.members, |vals|) && newHi.total == Sum(vals, newHi.members)
    requires TotalsMatch(vals, p) && y in Get(p, lo).members ==>
               Below(newLo.members, |vals|) && newLo.total == Sum(vals, newLo.members)
    ensures var r := Put(Put(p, hi, newHi), lo, newLo);
            && Spread(r) == SwapSpread(vals, p, hi, lo, x, y)
            && GrandTotal(r) == GrandTotal(p)
            && (x in Get(p, hi).members && y in Get(p, lo).members ==>
                  multiset(AllMembers(r)) == multiset(AllMembers(p)))
            && (TotalsMatch(vals, p) && x in Get(p, hi).members && y in Get(p, lo).members ==>
                  TotalsMatch(vals, r))
  {
    var r := Put(Put(p, hi, newHi), lo, newLo);
    var t := Third(hi, lo);
    assert Get(r, hi) == newHi && Get(r, lo) == newLo && Get(r, t) == Get(p, t);
    SwapTotals(vals, p, r, hi, lo, x, y);
    if x in Get(p, hi).members && y in Get(p, lo).members {
      SwapMembers(p, r, hi, lo, x, y);
    }
    if TotalsMatch(vals, p) && x in Get(p, hi).members && y in Get(p, lo).members {
      SwapKeepsTotals(vals, p, r, hi, lo);
    }
  }

  lemma SwapTotals(vals: seq<nat>, p: Partition, r: Partition, hi: GroupId, lo: GroupId, x: nat, y: nat)
    requires hi != lo && x < |vals| && y < |vals|
    requires Total(r, hi) == Total(p, hi) - vals[x] + vals[y]
    requires Total(r, lo) == Total(p, lo) - vals[y] + vals[x]
    requires Get(r, Third(hi, lo)) == Get(p, Third(hi, lo))
    ensures Spread(r) == SwapSpread(vals, p, hi, lo, x, y)
    ensures GrandTotal(r) == GrandTotal(p)
  {
    ByRole(p, hi, lo);
    ByRole(r, hi, lo);
  }

  lemma SwapMembers(p: Partition, r: Partition, hi: GroupId, lo: GroupId, x: nat, y: nat)
    requires hi != lo && x in Get(p, hi).members && y in Get(p, lo).members
    requires multiset(Get(r, hi).members) == multiset(Get(p, hi).members) - multiset{x} + multiset{y}
    requires multiset(Get(r, lo).members) == multiset(Get(p, lo).members) - multiset{y} + multiset{x}
    requires Get(r, Third(hi, lo)) == Get(p, Third(hi, lo))
    ensures multiset(AllMembers(r)) == multiset(AllMembers(p))
  {
    ByRole(p, hi, lo);
    ByRole(r, hi, lo);
    SwapMultiset(multiset(Get(p, hi).members), multiset(Get(p, lo).members), x, y);
  }

  lemma SwapMultiset(m: multiset<nat>, n: multiset<nat>, x: nat, y: nat)
    requires x in m && y in n
    ensures (m - multiset{x} + multiset{y}) + (n - multiset{y} + multiset{x}) == m + n
  {
    var l := (m - multiset{x} + multiset{y}) + (n - multiset{y} + multiset{x});
    forall z
      ensures l[z] == (m + n)[z]
    {
    }
  }

  lemma SwapKeepsTotals(vals: seq<nat>, p: Partition, r: Partition, hi: GroupId, lo: GroupId)
    requires hi != lo && TotalsMatch(vals, p)
    requires Get(r, Third(hi, lo)) == Get(p, Third(hi, lo))
    requires Below(Get(r, hi).members, |vals|) && Get(r, hi).total == Sum(vals, Get(r, hi).members)
    requires Below(Get(r, lo).members, |vals|) && Get(r, lo).total == Sum(vals, Get(r, lo).members)
    ensures TotalsMatch(vals, r)
  {
    forall g
      ensures Below(Get(r, g).members, |vals|) && Get(r, g).total == Sum(vals, Get(r, g).members)
    {
      if g != hi && g != lo {
        assert g == Third(hi, lo);
      }
    }
  }

  /** No pair among the top candidates of the largest and the smallest group
      would narrow the spread. */
  ghost predicate Stuck(vals: seq<nat>, p: Partition)
    requires TotalsMatch(vals, p)
  {
    var hi := MaxGroup(p);
    var lo := MinGroup(p);
    hi != lo ==>
      var xs := Top(vals, Get(p, hi).members);
      var ys := Top(vals, Get(p, lo).members);
      forall a, b :: 0 <= a < |xs| && 0 <= b < |ys| ==> !Improves(vals, p, hi, lo, xs[a], ys[b])
  }

  /** Result of the refinement: the groups and the number of swaps made. */
  datatype Refined = Refined(groups: Partition, swaps: nat)

  /** One iteration of the search: the first improving swap between the top
      candidates of the largest group and of the smallest group, applied;
      `None` when no candidate pair helps. */
  function SwapStep(vals: seq<nat>, p: Partition): (r: Option<Partition>)
    requires TotalsMatch(vals, p) && Spread(p) > 0
    ensures r.Some? ==> TotalsMatch(vals, r.value)
    ensures r.Some? ==> Spread(r.value) < Spread(p)
    ensures r.Some? ==> multiset(AllMembers(r.value)) == multiset(AllMembers(p))
    ensures r.Some? ==> GrandTotal(r.value) == GrandTotal(p)
    ensures r.Some? ==> forall g :: Get(r.value, g).counts == Get(p, g).counts
    ensures r.None? ==> Stuck(vals, p)
  {
    var hi := MaxGroup(p);
    var lo := MinGroup(p);
    ExtremesDiffer(p);
    var xs := Top(vals, Get(p, hi).members);
    var ys := Top(vals, Get(p, lo).members);
    match FirstSwap(vals, p, hi, lo, xs, ys, 0)
    case None => None
    case Some((a, b)) => Some(ApplySwap(vals, p, hi, lo, xs[a], ys[b]))
  }

  /** The swap refinement with at most `fuel` iterations.  It stops once the
      groups are within tolerance or no candidate swap helps; each swap
      strictly narrows the spread, keeps every asset and the grand total,
      and leaves the type counts alone. */
  function Refine(vals: seq<nat>, p: Partition, total: int, fuel: nat): (r: Refined)
    requires 0 <= total && TotalsMatch(vals, p)
    ensures TotalsMatch(vals, r.groups)
    ensures r.swaps <= fuel
    ensures Spread(r.groups) <= Spread(p)
    ensures r.swaps > 0 ==> Spread(r.groups) < Spread(p)
    ensures r.swaps < fuel ==> WithinTolerance(r.groups, total) || Stuck(vals, r.groups)
    ensures multiset(AllMembers(r.groups)) == multiset(AllMembers(p))
    ensures GrandTotal(r.groups) == GrandTotal(p)
    ensures forall g :: Get(r.groups, g).counts == Get(p, g).counts
    decreases fuel
  {
    if fuel == 0 || WithinTolerance(p, total) then Refined(p, 0)
    else
      match SwapStep(vals, p)
      case None => Refined(p, 0)
      case Some(q) =>
        var next := Refine(vals, q, total, fuel - 1);
        Refined(next.groups, next.swaps + 1)
  }

  /** Why the source's refinement can fail. */
  datatype ArithmeticError = DivisionByZero

  /** The refinement as written: the tolerance test of every iteration
      divides by the target `total / 3`, which raises when the total is 0.
      With a positive total it agrees with the guarded refinement; with a
      zero total and any budget it raises. */
  function RefineAsWritten(vals: seq<nat>, p: Partition, total: int, fuel: nat): (r: Result<Refined, ArithmeticError>)
    requires 0 <= total && TotalsMatch(vals, p)
    ensures total > 0 ==> r == Ok(Refine(vals, p, total, fuel))
    ensures total == 0 && fuel > 0 ==> r == Err(DivisionByZero)
    decreases fuel
  {
    if fuel == 0 then Ok(Refined(p, 0))
    else if total == 0 then Err(DivisionByZero)
    else if WithinTolerance(p, total) then Ok(Refined(p, 0))
    else
      match SwapStep(vals, p)
      case None => Ok(Refined(p, 0))
      case Some(q) =>
        match RefineAsWritten(vals, q, total, fuel - 1)
        case Ok(next) => Ok(Refined(next.groups, next.swaps + 1))
        case Err(e) => Err(e)
  }

  /** `divide_assets_equally` as written: an empty list, or one whose values
      are all 0, raises a division by zero. */
  function DivideAssetsEquallyAsWritten(vals: seq<nat>, types: seq<string>): (r: Result<Refined, ArithmeticError>)
    requires |vals| == |types|
    ensures SumAll(vals) > 0 ==> r == Ok(DivideAssetsEqually(vals, types))
    ensures SumAll(vals) == 0 ==> r == Err(DivisionByZero)
  {
    var p := Seeded(vals, types);
    RefineAsWritten(vals, p, SumAll(vals), MaxIterations)
  }

  /** The failing input: no assets at all. */
  lemma EmptyInputRaises(vals: seq<nat>, types: seq<string>)
    requires |vals| == 0 && |types| == 0
    ensures DivideAssetsEquallyAsWritten(vals, types) == Err(DivisionByZero)
  {
  }

  /** `divide_assets_equally` with the division-free tolerance test: it
      always terminates; every asset lands in exactly one group; the grand
      total is the sum of all values; the refinement never widens the
      spread of the seeded groups and leaves their type counts as they were;
      it makes at most 100 swaps, and stops early only within tolerance or
      when no candidate swap helps.  No assets give no swap (and, by
      `NoMembers`, three empty groups with total 0). */
  function DivideAssetsEqually(vals: seq<nat>, types: seq<string>): (r: Refined)
    requires |vals| == |types|
    ensures TotalsMatch(vals, r.groups)
    ensures PartitionsRange(r.groups, |vals|)
    ensures GrandTotal(r.groups) == SumAll(vals)
    ensures Spread(r.groups) <= Spread(Seeded(vals, types))
    ensures forall g :: Get(r.groups, g).counts == Get(Seeded(vals, types), g).counts
    ensures r.swaps <= MaxIterations
    ensures r.swaps < MaxIterations ==> WithinTolerance(r.groups, SumAll(vals)) || Stuck(vals, r.groups)
    ensures |vals| == 0 ==> r.swaps == 0
  {
    var p := Seeded(vals, types);
    EmptyStays(vals, p);
    Refine(vals, p, SumAll(vals), MaxIterations)
  }

  /** With no assets the seeded groups are empty and already balanced. */
  lemma EmptyStays(vals: seq<nat>, p: Partition)
    requires PartitionsRange(p, |vals|) && TotalsMatch(vals, p)
    ensures |vals| == 0 ==> Refine(vals, p, SumAll(vals), MaxIterations) == Refined(p, 0)
    ensures |vals| == 0 ==> forall g :: |Get(p, g).members| == 0 && Total(p, g) == 0
  {
    if |vals| == 0 {
      NoMembers(vals, p);
      assert Total(p, A) == 0 && Total(p, B) == 0 && Total(p, C) == 0;
      assert Spread(p) == 0;
      assert SumAll(vals) == 0;
      RefineBalanced(vals, p, 0, MaxIterations);
    }
  }

  /** A partition of no assets lists nothing; its totals are 0. */
  lemma NoMembers(vals: seq<nat>, p: Partition)
    requires PartitionsRange(p, 0) && TotalsMatch(vals, p)
    ensures forall g :: Get(p, g).members == [] && Total(p, g) == 0
  {
    ExactlyOneGroup(p, 0, 0);
    assert |p.a.members| + |p.b.members| + |p.c.members| == 0;
    forall g
      ensures Get(p, g).members == [] && Total(p, g) == 0
    {
      assert Get(p, g).total == Sum(vals, Get(p, g).members);
    }
  }

  /** Groups already within tolerance are returned as they are. */
  lemma RefineBalanced(vals: seq<nat>, p: Partition, total: int, fuel: nat)
    requires 0 <= total && TotalsMatch(vals, p) && WithinTolerance(p, total)
    ensures Refine(vals, p, total, fuel) == Refined(p, 0)
  {
  }
}
