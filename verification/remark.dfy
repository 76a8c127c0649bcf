/** The allocation remark `generate_allocation_remark`
    (process_equal_distribution.py) attaches to every asset after the equal
    distribution: six decisions about the asset and its group, written as
    reason clauses, joined with ". ", capitalised and closed with a full
    stop.  Every threshold is compared exactly, as an integer inequality
    cleared of the source's divisions. */
module AllocationRemark {
  import opened Wrappers
  import opened Strings
  import opened Groups
  import opened GreedyPartition
  import opened EqualDistribution

  /** One reason clause of a remark. */
  datatype Clause =
    | HighValueItem | LowerValueItem | StandardValueItem
    | BelowTarget | AboveTarget | Balanced
    | FewerItems | MoreItems
    | ExcellentCondition | GoodCondition | ModerateCondition
    | BalancesTypeMix
    | HighValueDistributed

  /** The decision a clause reports, numbered in the order the clauses
      appear: value class, group balance, item count, condition, type mix,
      high-value note. */
  function Kind(c: Clause): nat
  {
    match c
    case HighValueItem => 0
    case LowerValueItem => 0
    case StandardValueItem => 0
    case BelowTarget => 1
    case AboveTarget => 1
    case Balanced => 1
    case FewerItems => 2
    case MoreItems => 2
    case ExcellentCondition => 3
    case GoodCondition => 3
    case ModerateCondition => 3
    case BalancesTypeMix => 4
    case HighValueDistributed => 5
  }

  function ClauseText(c: Clause): string
  {
    match c
    case HighValueItem => "High-value item"
    case LowerValueItem => "Lower-value item"
    case StandardValueItem => "Standard-value item"
    case BelowTarget => "assigned to balance total value (group was below target)"
    case AboveTarget => "assigned despite group being above target to maintain type balance"
    case Balanced => "assigned to maintain balanced distribution"
    case FewerItems => "compensates for receiving fewer items"
    case MoreItems => "group received more items but lower total value"
    case ExcellentCondition => "excellent condition adds value"
    case GoodCondition => "good condition"
    case ModerateCondition => "moderate condition"
    case BalancesTypeMix => "balances asset type mix"
    case HighValueDistributed => "high-value item distributed to ensure equal group totals"
  }

  /** The six decisions of one remark: the value class and the balance
      clause are always present, the count and condition clauses may be
      absent, the last two are present or not. */
  datatype Decisions = Decisions(
    value: Clause,
    balance: Clause,
    count: Option<Clause>,
    quality: Option<Clause>,
    typeMix: bool,
    highValue: bool)

  /** Each decision holds a clause of its own kind. */
  predicate Sorted(d: Decisions)
  {
    Kind(d.value) == 0 && Kind(d.balance) == 1
    && (d.count.Some? ==> Kind(d.count.value) == 2)
    && (d.quality.Some? ==> Kind(d.quality.value) == 3)
  }

  /** Number of assets of type `t` among all of them. */
  function TypeTotal(types: seq<string>, t: string): nat
  {
    CountOf(types, Range(|types|), t)
  }

  /** Value class: above one and a half times the average of `total`
      over `n` assets, below half of it, or neither. */
  function ValueClass(n: nat, v: nat, total: int): (c: Clause)
    requires total >= 0
    ensures Kind(c) == 0
    ensures c == HighValueItem <==> 2 * n * v > 3 * total
    ensures c == LowerValueItem <==> 2 * n * v < total
  {
    var scaled := 2 * n * v;
    if scaled > 3 * total then HighValueItem
    else if scaled < total then LowerValueItem
    else StandardValueItem
  }

  /** Group balance: below 99% of a third of `total`, above 101% of it, or
      neither. */
  function BalanceClause(groupTotal: int, total: int): (c: Clause)
    requires total >= 0
    ensures Kind(c) == 1
    ensures c == BelowTarget <==> 300 * groupTotal < 99 * total
    ensures c == AboveTarget <==> 300 * groupTotal > 101 * total
  {
    if 300 * groupTotal < 99 * total then BelowTarget
    else if 300 * groupTotal > 101 * total then AboveTarget
    else Balanced
  }

  /** Item count: more than one below a third of `n`, more than one above
      it, or no clause. */
  function CountClause(size: nat, n: nat): (c: Option<Clause>)
    ensures c.Some? ==> Kind(c.value) == 2
    ensures c == Some(FewerItems) <==> 3 * size < n - 3
    ensures c == Some(MoreItems) <==> 3 * size > n + 3
    ensures c.None? <==> n - 3 <= 3 * size <= n + 3
  {
    if 3 * size < n - 3 then Some(FewerItems)
    else if 3 * size > n + 3 then Some(MoreItems)
    else None
  }

  /** Condition: the first of "excellent", "good", "moderate" in the
      lower-cased remark, or no clause. */
  function QualityClause(remark: string): (c: Option<Clause>)
    ensures c.Some? ==> Kind(c.value) == 3
    ensures c == Some(ExcellentCondition) <==> Contains(Lower(remark), "excellent")
    ensures c == Some(GoodCondition) <==>
              !Contains(Lower(remark), "excellent") && Contains(Lower(remark), "good")
    ensures c == Some(ModerateCondition) <==>
              !Contains(Lower(remark), "excellent") && !Contains(Lower(remark), "good")
              && Contains(Lower(remark), "moderate")
    ensures c.None? <==>
              !Contains(Lower(remark), "excellent") && !Contains(Lower(remark), "good")
              && !Contains(Lower(remark), "moderate")
  {
    var low := Lower(remark);
    if Contains(low, "excellent") then Some(ExcellentCondition)
    else if Contains(low, "good") then Some(GoodCondition)
    else if Contains(low, "moderate") then Some(ModerateCondition)
    else None
  }

  /** The decisions for an asset of value `v`, remark text `remark` and
      type `t` assigned to group `grp`, among `n` assets worth `total` in
      all, `typeTotal` of them of type `t`.  The type-mix clause compares
      the group's recorded count of the type with a third of `typeTotal`;
      the high-value note compares the value with a tenth of a third of
      `total`. */
  function Decide(n: nat, total: int, grp: Group, v: nat, remark: string, t: string, typeTotal: nat)
    : (d: Decisions)
    requires total >= 0
    ensures Sorted(d)
    ensures d.value == ValueClass(n, v, total)
    ensures d.balance == BalanceClause(grp.total, total)
    ensures d.count == CountClause(|grp.members|, n)
    ensures d.quality == QualityClause(remark)
    ensures d.typeMix <==> 3 * CountIn(grp.counts, t) <= typeTotal
    ensures d.highValue <==> IsHighValue(v, total)
  {
    Decisions(
      ValueClass(n, v, total),
      BalanceClause(grp.total, total),
      CountClause(|grp.members|, n),
      QualityClause(remark),
      3 * CountIn(grp.counts, t) <= typeTotal,
      IsHighValue(v, total))
  }

  /** The list of an optional clause. */
  function Listed(c: Option<Clause>): (r: seq<Clause>)
    ensures |r| <= 1
    ensures forall x :: x in r <==> c == Some(x)
  {
    match c
    case None => []
    case Some(x) => [x]
  }

  /** The clauses of the decisions, in their fixed order. */
  function Clauses(d: Decisions): (r: seq<Clause>)
    ensures 2 <= |r| <= 6
    ensures r[0] == d.value && r[1] == d.balance
  {
    [d.value, d.balance] + Listed(d.count) + Listed(d.quality)
    + (if d.typeMix then [BalancesTypeMix] else [])
    + (if d.highValue then [HighValueDistributed] else [])
  }

  /** Clause kinds strictly increase along `cs`: no decision is reported
      twice and the decisions appear in their fixed order. */
  predicate Increasing(cs: seq<Clause>)
  {
    forall i, j :: 0 <= i < j < |cs| ==> Kind(cs[i]) < Kind(cs[j])
  }

  /** The kind of the clause at position `i` of a clause list whose pieces
      of kinds 2, 3, 4 and 5 start at `p1`, `p2`, `p3` and `p4`. */
  function Rank(i: nat, p1: nat, p2: nat, p3: nat, p4: nat): nat
  {
    if i < p1 then i
    else if i < p2 then 2
    else if i < p3 then 3
    else if i < p4 then 4
    else 5
  }

  /** A sorted set of decisions lists each decision once, in order. */
  lemma ClausesIncreasing(d: Decisions)
    requires Sorted(d)
    ensures Increasing(Clauses(d))
  {
    var front := [d.value, d.balance];
    var count := Listed(d.count);
    var quality := Listed(d.quality);
    var mix: seq<Clause> := if d.typeMix then [BalancesTypeMix] else [];
    var note: seq<Clause> := if d.highValue then [HighValueDistributed] else [];
    var r := Clauses(d);
    assert r == front + count + quality + mix + note;
    // where each piece starts in r
    var p1 := |front|;
    var p2 := p1 + |count|;
    var p3 := p2 + |quality|;
    var p4 := p3 + |mix|;
    forall i | 0 <= i < |r|
      ensures Kind(r[i]) == Rank(i, p1, p2, p3, p4)
    {
      if i < p1 {
        assert r[i] == front[i];
      } else if i < p2 {
        assert r[i] == count[i - p1];
      } else if i < p3 {
        assert r[i] == quality[i - p2];
      } else if i < p4 {
        assert r[i] == mix[i - p3];
      } else {
        assert r[i] == note[i - p4];
      }
    }
    forall i, j | 0 <= i < j < |r|
      ensures Kind(r[i]) < Kind(r[j])
    {
      RankIncreasing(i, j, p1, p2, p3, p4, |r|);
    }
  }

  lemma RankIncreasing(i: nat, j: nat, p1: nat, p2: nat, p3: nat, p4: nat, len: nat)
    requires p1 == 2 && p1 <= p2 <= p1 + 1 && p2 <= p3 <= p2 + 1 && p3 <= p4 <= p3 + 1 && p4 <= len <= p4 + 1
    requires i < j < len
    ensures Rank(i, p1, p2, p3, p4) < Rank(j, p1, p2, p3, p4)
  {
  }

  /** The clause list holds exactly the clauses of the decisions. */
  lemma ClausesListed(d: Decisions, c: Clause)
    ensures c in Clauses(d) <==>
              c == d.value || c == d.balance || d.count == Some(c) || d.quality == Some(c)
              || (c == BalancesTypeMix && d.typeMix) || (c == HighValueDistributed && d.highValue)
  {
    var mix: seq<Clause> := if d.typeMix then [BalancesTypeMix] else [];
    var note: seq<Clause> := if d.highValue then [HighValueDistributed] else [];
    assert Clauses(d) == [d.value, d.balance] + Listed(d.count) + Listed(d.quality) + mix + note;
  }

  /** The texts of the clauses, in order. */
  function Texts(cs: seq<Clause>): (r: seq<string>)
    ensures |r| == |cs|
    ensures forall k :: 0 <= k < |cs| ==> r[k] == ClauseText(cs[k])
  {
    seq(|cs|, k requires 0 <= k < |cs| => ClauseText(cs[k]))
  }

  /** `". ".join(texts).capitalize() + "."`: the remark starts with the
      capitalised first text and ends with a full stop. */
  function Render(cs: seq<Clause>): (s: string)
    ensures |s| > 0 && s[|s| - 1] == '.'
    ensures |cs| > 0 ==> |ClauseText(cs[0])| < |s|
                         && s[..|ClauseText(cs[0])|] == Capitalize(ClauseText(cs[0]))
  {
    var joined := Join(Texts(cs), ". ");
    if |cs| > 0 then
      JoinStartsWithHead(Texts(cs), ". ");
      CapitalizePrefix(joined, ClauseText(cs[0]));
      Capitalize(joined) + "."
    else
      Capitalize(joined) + "."
  }

  /** Every clause after the first shows in the remark, lower-cased. */
  lemma RenderShowsClause(cs: seq<Clause>, k: nat)
    requires 0 < k < |cs|
    ensures Contains(Render(cs), Lower(ClauseText(cs[k])))
  {
    var texts := Texts(cs);
    var joined := Join(texts, ". ");
    var o := JoinOccurs(texts, ". ", k);
    CapitalizeOccurrence(joined, texts[k], o);
    var s := Render(cs);
    assert s == Capitalize(joined) + ".";
    var t := Lower(ClauseText(cs[k]));
    assert s[o..o + |t|] == Capitalize(joined)[o..o + |t|];
    ContainsWitness(s, t, o);
  }

  /** The decisions `generate_allocation_remark` takes for asset `i` of
      group `g`: all assets are counted and summed, and the group's own
      totals and counts are read as they stand. */
  function DecisionsOf(vals: seq<nat>, types: seq<string>, remarks: seq<string>, p: Partition, g: GroupId, i: nat)
    : (d: Decisions)
    requires i < |vals| && |types| == |vals| && |remarks| == |vals|
    ensures Sorted(d)
  {
    Decide(|vals|, SumAll(vals), Get(p, g), vals[i], remarks[i], types[i], TypeTotal(types, types[i]))
  }

  /** `generate_allocation_remark` for asset `i` of group `g`: the remark
      opens with the capitalised value class and ends with a full stop. */
  function AllocationRemarkOf(vals: seq<nat>, types: seq<string>, remarks: seq<string>, p: Partition, g: GroupId, i: nat)
    : (s: string)
    requires i < |vals| && |types| == |vals| && |remarks| == |vals|
    ensures |s| > 0 && s[|s| - 1] == '.'
    ensures var first := ClauseText(DecisionsOf(vals, types, remarks, p, g, i).value);
            |first| < |s| && s[..|first|] == Capitalize(first)
  {
    Render(Clauses(DecisionsOf(vals, types, remarks, p, g, i)))
  }

  /** Every clause the decisions call for, after the value class, shows in
      the remark, lower-cased. */
  lemma RemarkShowsDecision(vals: seq<nat>, types: seq<string>, remarks: seq<string>, p: Partition, g: GroupId, i: nat, c: Clause)
    requires i < |vals| && |types| == |vals| && |remarks| == |vals|
    requires c in Clauses(DecisionsOf(vals, types, remarks, p, g, i)) && Kind(c) > 0
    ensures Contains(AllocationRemarkOf(vals, types, remarks, p, g, i), Lower(ClauseText(c)))
  {
    var cs := Clauses(DecisionsOf(vals, types, remarks, p, g, i));
    var k :| 0 <= k < |cs| && cs[k] == c;
    RenderShowsClause(cs, k);
  }
}
