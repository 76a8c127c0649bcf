/** The three-group state shared by both partitioners: each group lists the
    indices of its assets (positions in the valued asset list) in the order
    they were added, its running total in hundredths of a currency unit and
    its per-type item counts. */
module Groups {

  datatype GroupId = A | B | C

  datatype Group = Group(members: seq<nat>, total: int, counts: map<string, nat>)

  datatype Partition = Partition(a: Group, b: Group, c: Group)

  const EmptyGroup: Group := Group([], 0, map[])

  const EmptyPartition: Partition := Partition(EmptyGroup, EmptyGroup, EmptyGroup)

  /** Position of a group in the fixed precedence A < B < C. */
  function Rank(g: GroupId): nat
  {
    match g
    case A => 0
    case B => 1
    case C => 2
  }

  function Get(p: Partition, g: GroupId): Group
  {
    match g
    case A => p.a
    case B => p.b
    case C => p.c
  }

  /** Replaces one group and keeps the two others. */
  function Put(p: Partition, g: GroupId, grp: Group): (r: Partition)
    ensures Get(r, g) == grp
    ensures forall h :: h != g ==> Get(r, h) == Get(p, h)
  {
    match g
    case A => p.(a := grp)
    case B => p.(b := grp)
    case C => p.(c := grp)
  }

  function Total(p: Partition, g: GroupId): int
  {
    Get(p, g).total
  }

  /** Every member of every group, A's first. */
  function AllMembers(p: Partition): seq<nat>
  {
    p.a.members + p.b.members + p.c.members
  }

  function GrandTotal(p: Partition): int
  {
    p.a.total + p.b.total + p.c.total
  }

  function Max(x: int, y: int): int { if x >= y then x else y }
  function Min(x: int, y: int): int { if x <= y then x else y }

  function MaxTotal(p: Partition): int { Max(p.a.total, Max(p.b.total, p.c.total)) }
  function MinTotal(p: Partition): int { Min(p.a.total, Min(p.b.total, p.c.total)) }

  /** Largest minus smallest group total. */
  function Spread(p: Partition): int { MaxTotal(p) - MinTotal(p) }

  /** The group `min(groups, key=total)` picks: the first group, in the order
      A, B, C, whose total is smallest. */
  function MinGroup(p: Partition): (g: GroupId)
    ensures forall h :: Total(p, g) <= Total(p, h)
    ensures forall h :: Rank(h) < Rank(g) ==> Total(p, h) > Total(p, g)
    ensures Total(p, g) == MinTotal(p)
  {
    if p.a.total <= p.b.total && p.a.total <= p.c.total then A
    else if p.b.total <= p.c.total then B
    else C
  }

  /** The group `max(groups, key=total)` picks: the first group, in the order
      A, B, C, whose total is largest. */
  function MaxGroup(p: Partition): (g: GroupId)
    ensures forall h :: Total(p, g) >= Total(p, h)
    ensures forall h :: Rank(h) < Rank(g) ==> Total(p, h) < Total(p, g)
    ensures Total(p, g) == MaxTotal(p)
  {
    if p.a.total >= p.b.total && p.a.total >= p.c.total then A
    else if p.b.total >= p.c.total then B
    else C
  }

  /** With unequal totals the largest and the smallest group differ. */
  lemma ExtremesDiffer(p: Partition)
    requires Spread(p) > 0
    ensures MaxGroup(p) != MinGroup(p)
  {
  }

  /** All indices of `s` are below `n`. */
  predicate Below(s: seq<nat>, n: nat)
  {
    forall k :: 0 <= k < |s| ==> s[k] < n
  }

  /** Sum of the values of the listed assets. */
  function Sum(vals: seq<nat>, s: seq<nat>): int
    requires Below(s, |vals|)
    decreases |s|
  {
    if |s| == 0 then 0 else vals[s[0]] + Sum(vals, s[1..])
  }

  lemma {:induction false} SumAppend(vals: seq<nat>, s: seq<nat>, t: seq<nat>)
    requires Below(s, |vals|) && Below(t, |vals|)
    ensures Below(s + t, |vals|)
    ensures Sum(vals, s + t) == Sum(vals, s) + Sum(vals, t)
    decreases |s|
  {
    if |s| == 0 {
      assert s + t == t;
    } else {
      assert (s + t)[0] == s[0];
      assert (s + t)[1..] == s[1..] + t;
      SumAppend(vals, s[1..], t);
    }
  }

  lemma {:induction false} SumNonNegative(vals: seq<nat>, s: seq<nat>)
    requires Below(s, |vals|)
    ensures Sum(vals, s) >= 0
    decreases |s|
  {
    if |s| > 0 {
      SumNonNegative(vals, s[1..]);
    }
  }

  /** Taking out the asset at position `j`. */
  lemma SumWithout(vals: seq<nat>, t: seq<nat>, j: nat)
    requires Below(t, |vals|) && j < |t|
    ensures Below(t[..j] + t[j + 1..], |vals|)
    ensures multiset(t[..j] + t[j + 1..]) == multiset(t) - multiset{t[j]}
    ensures Sum(vals, t) == vals[t[j]] + Sum(vals, t[..j] + t[j + 1..])
  {
    var tail := t[j..];
    assert t == t[..j] + tail;
    assert tail[0] == t[j] && tail[1..] == t[j + 1..];
    SumAppend(vals, t[..j], tail);
    SumAppend(vals, t[..j], t[j + 1..]);
    assert multiset(t) == multiset(t[..j]) + multiset(tail);
    assert tail == [t[j]] + t[j + 1..];
  }

  /** Reordering the listed assets does not change their sum. */
  lemma {:induction false} SumPermutation(vals: seq<nat>, s: seq<nat>, t: seq<nat>)
    requires Below(s, |vals|) && multiset(s) == multiset(t)
    ensures Below(t, |vals|)
    ensures Sum(vals, s) == Sum(vals, t)
    decreases |s|
  {
    assert Below(t, |vals|) by {
      forall k | 0 <= k < |t|
        ensures t[k] < |vals|
      {
        assert t[k] in multiset(s);
      }
    }
    if |s| > 0 {
      var x := s[0];
      assert x in multiset(t);
      var j :| 0 <= j < |t| && t[j] == x;
      SumWithout(vals, t, j);
      assert s == [x] + s[1..];
      assert multiset(s[1..]) == multiset(s) - multiset{x};
      SumPermutation(vals, s[1..], t[..j] + t[j + 1..]);
    }
  }

  /** `counts.get(t, 0)`. */
  function CountIn(counts: map<string, nat>, t: string): nat
  {
    if t in counts then counts[t] else 0
  }

  /** Number of listed assets of type `t`. */
  function CountOf(types: seq<string>, s: seq<nat>, t: string): nat
    requires Below(s, |types|)
    decreases |s|
  {
    if |s| == 0 then 0 else (if types[s[0]] == t then 1 else 0) + CountOf(types, s[1..], t)
  }

  lemma {:induction false} CountOfSnoc(types: seq<string>, s: seq<nat>, i: nat, t: string)
    requires Below(s, |types|) && i < |types|
    ensures Below(s + [i], |types|)
    ensures CountOf(types, s + [i], t) == CountOf(types, s, t) + (if types[i] == t then 1 else 0)
    decreases |s|
  {
    if |s| > 0 {
      assert (s + [i])[1..] == s[1..] + [i];
      CountOfSnoc(types, s[1..], i, t);
    }
  }

  /** Every group's total is the sum of its members' values. */
  ghost predicate TotalsMatch(vals: seq<nat>, p: Partition)
  {
    forall g :: Below(Get(p, g).members, |vals|) && Get(p, g).total == Sum(vals, Get(p, g).members)
  }

  /** Every group's per-type counts are the numbers of its members of each
      type. */
  ghost predicate CountsMatch(types: seq<string>, p: Partition)
  {
    forall g :: Below(Get(p, g).members, |types|)
      && forall t :: CountIn(Get(p, g).counts, t) == CountOf(types, Get(p, g).members, t)
  }

  lemma EmptyPartitionMatches(vals: seq<nat>, types: seq<string>)
    ensures TotalsMatch(vals, EmptyPartition) && CountsMatch(types, EmptyPartition)
    ensures AllMembers(EmptyPartition) == [] && GrandTotal(EmptyPartition) == 0
  {
  }

  lemma PutGrandTotal(p: Partition, g: GroupId, grp: Group)
    ensures GrandTotal(Put(p, g, grp)) == GrandTotal(p) - Total(p, g) + grp.total
  {
  }

  lemma PutKeepsTotals(vals: seq<nat>, p: Partition, g: GroupId, grp: Group)
    requires TotalsMatch(vals, p)
    requires Below(grp.members, |vals|) && grp.total == Sum(vals, grp.members)
    ensures TotalsMatch(vals, Put(p, g, grp))
  {
    var r := Put(p, g, grp);
    forall h
      ensures Below(Get(r, h).members, |vals|) && Get(r, h).total == Sum(vals, Get(r, h).members)
    {
      if h != g {
        assert Get(r, h) == Get(p, h);
      }
    }
  }

  lemma PutKeepsCounts(types: seq<string>, p: Partition, g: GroupId, grp: Group)
    requires CountsMatch(types, p)
    requires Below(grp.members, |types|)
    requires forall t :: CountIn(grp.counts, t) == CountOf(types, grp.members, t)
    ensures CountsMatch(types, Put(p, g, grp))
  {
    var r := Put(p, g, grp);
    forall h
      ensures Below(Get(r, h).members, |types|)
              && forall t :: CountIn(Get(r, h).counts, t) == CountOf(types, Get(r, h).members, t)
    {
      if h != g {
        assert Get(r, h) == Get(p, h);
      }
    }
  }

  /** The members of the groups other than `g`, in order. */
  lemma AllMembersSplit(p: Partition, g: GroupId, grp: Group)
    ensures multiset(AllMembers(Put(p, g, grp)))
            == multiset(AllMembers(p)) - multiset(Get(p, g).members) + multiset(grp.members)
  {
  }

  /** One group after asset `i` is appended to it. */
  function Grow(vals: seq<nat>, types: seq<string>, grp: Group, i: nat): Group
    requires i < |vals| && i < |types|
  {
    Group(grp.members + [i], grp.total + vals[i], grp.counts[types[i] := CountIn(grp.counts, types[i]) + 1])
  }

  lemma GrowKeepsTotal(vals: seq<nat>, types: seq<string>, grp: Group, i: nat)
    requires i < |vals| && i < |types|
    ensures Below(grp.members, |vals|) && grp.total == Sum(vals, grp.members) ==>
              Below(Grow(vals, types, grp, i).members, |vals|)
              && Grow(vals, types, grp, i).total == Sum(vals, Grow(vals, types, grp, i).members)
  {
    if Below(grp.members, |vals|) {
      SumAppend(vals, grp.members, [i]);
      assert Sum(vals, [i]) == vals[i];
    }
  }

  lemma GrowKeepsCounts(vals: seq<nat>, types: seq<string>, grp: Group, i: nat)
    requires i < |vals| && i < |types|
    ensures (Below(grp.members, |types|)
             && forall t :: CountIn(grp.counts, t) == CountOf(types, grp.members, t)) ==>
              Below(Grow(vals, types, grp, i).members, |types|)
              && forall t :: CountIn(Grow(vals, types, grp, i).counts, t)
                             == CountOf(types, Grow(vals, types, grp, i).members, t)
  {
    if Below(grp.members, |types|) && forall t :: CountIn(grp.counts, t) == CountOf(types, grp.members, t) {
      GrowCounts(vals, types, grp, i);
    }
  }

  lemma GrowCounts(vals: seq<nat>, types: seq<string>, grp: Group, i: nat)
    requires i < |vals| && i < |types|
    requires Below(grp.members, |types|)
    requires forall t :: CountIn(grp.counts, t) == CountOf(types, grp.members, t)
    ensures Below(Grow(vals, types, grp, i).members, |types|)
    ensures forall t :: CountIn(Grow(vals, types, grp, i).counts, t)
                        == CountOf(types, Grow(vals, types, grp, i).members, t)
  {
    forall t
      ensures CountIn(Grow(vals, types, grp, i).counts, t) == CountOf(types, grp.members + [i], t)
    {
      CountOfSnoc(types, grp.members, i, t);
    }
  }

  /** Appends asset `i` to group `g`, adding its value to the running total
      and one to the count of its type; the other groups are untouched. */
  function Place(vals: seq<nat>, types: seq<string>, p: Partition, g: GroupId, i: nat): (r: Partition)
    requires i < |vals| && i < |types|
    ensures Get(r, g).members == Get(p, g).members + [i]
    ensures Total(r, g) == Total(p, g) + vals[i]
    ensures forall h :: h != g ==> Get(r, h) == Get(p, h)
    ensures multiset(AllMembers(r)) == multiset(AllMembers(p)) + multiset{i}
    ensures GrandTotal(r) == GrandTotal(p) + vals[i]
    ensures TotalsMatch(vals, p) ==> TotalsMatch(vals, r)
    ensures CountsMatch(types, p) ==> CountsMatch(types, r)
  {
    var grown := Grow(vals, types, Get(p, g), i);
    AllMembersSplit(p, g, grown);
    PutGrandTotal(p, g, grown);
    PlaceTotals(vals, types, p, g, i);
    PlaceCounts(vals, types, p, g, i);
    Put(p, g, grown)
  }

  lemma PlaceTotals(vals: seq<nat>, types: seq<string>, p: Partition, g: GroupId, i: nat)
    requires i < |vals| && i < |types|
    ensures TotalsMatch(vals, p) ==> TotalsMatch(vals, Put(p, g, Grow(vals, types, Get(p, g), i)))
  {
    var grp := Get(p, g);
    GrowKeepsTotal(vals, types, grp, i);
    if TotalsMatch(vals, p) {
      PutKeepsTotals(vals, p, g, Grow(vals, types, grp, i));
    }
  }

  lemma PlaceCounts(vals: seq<nat>, types: seq<string>, p: Partition, g: GroupId, i: nat)
    requires i < |vals| && i < |types|
    ensures CountsMatch(types, p) ==> CountsMatch(types, Put(p, g, Grow(vals, types, Get(p, g), i)))
  {
    var grp := Get(p, g);
    GrowKeepsCounts(vals, types, grp, i);
    if CountsMatch(types, p) {
      PutKeepsCounts(types, p, g, Grow(vals, types, grp, i));
    }
  }

  /** Adding a non-negative value to the currently smallest group leaves a
      spread no larger than the old spread or the added value. */
  lemma PlaceOnMinimumSpread(vals: seq<nat>, types: seq<string>, p: Partition, i: nat)
    requires i < |vals| && i < |types|
    ensures Spread(Place(vals, types, p, MinGroup(p), i)) <= Max(Spread(p), vals[i])
  {
    var g := MinGroup(p);
    var r := Place(vals, types, p, g, i);
    assert Total(r, g) == Total(p, g) + vals[i];
    assert forall h :: h != g ==> Total(r, h) == Total(p, h);
    assert Get(r, A) == r.a && Get(r, B) == r.b && Get(r, C) == r.c;
    assert Get(p, A) == p.a && Get(p, B) == p.b && Get(p, C) == p.c;
  }

  /** The indices 0 .. n-1 in ascending order. */
  function Range(n: nat): (r: seq<nat>)
    ensures |r| == n
    ensures forall k :: 0 <= k < n ==> r[k] == k
  {
    seq(n, k requires 0 <= k < n => k)
  }

  /** A partition of assets 0 .. n-1: every index lies in exactly one group,
      exactly once, and nothing else is listed. */
  predicate PartitionsRange(p: Partition, n: nat)
  {
    multiset(AllMembers(p)) == multiset(Range(n))
  }

  lemma RangeOccurrences(n: nat, i: int)
    ensures multiset(Range(n))[i] == (if 0 <= i < n then 1 else 0)
  {
    if n > 0 {
      assert Range(n) == Range(n - 1) + [n - 1];
      RangeOccurrences(n - 1, i);
    }
  }

  /** Unfolds `PartitionsRange`: each index below `n` occurs once in exactly
      one group, and no group lists anything else. */
  lemma ExactlyOneGroup(p: Partition, n: nat, i: int)
    requires PartitionsRange(p, n)
    ensures 0 <= i < n ==>
              multiset(p.a.members)[i] + multiset(p.b.members)[i] + multiset(p.c.members)[i] == 1
    ensures !(0 <= i < n) ==> i !in p.a.members && i !in p.b.members && i !in p.c.members
    ensures |p.a.members| + |p.b.members| + |p.c.members| == n
  {
    RangeOccurrences(n, i);
    assert multiset(AllMembers(p)) == multiset(p.a.members) + multiset(p.b.members) + multiset(p.c.members);
    assert |multiset(AllMembers(p))| == |AllMembers(p)|;
  }
}
