/** Python's `sorted(xs, key=value, reverse=True)` on lists of asset
    indices: descending by value, and stable, so assets of equal value keep
    their relative order. */
module Sorting {
  import opened Groups

  /** Values never increase along `s`. */
  ghost predicate Descending(vals: seq<nat>, s: seq<nat>)
    requires Below(s, |vals|)
  {
    forall k, l :: 0 <= k < l < |s| ==> vals[s[k]] >= vals[s[l]]
  }

  /** The entries of `s` whose value is `w`, in their order in `s`. */
  function WithValue(vals: seq<nat>, s: seq<nat>, w: nat): seq<nat>
    requires Below(s, |vals|)
    decreases |s|
  {
    if |s| == 0 then []
    else (if vals[s[0]] == w then [s[0]] else []) + WithValue(vals, s[1..], w)
  }

  /** `t` lists the equal-valued entries of `s` in the same relative order. */
  ghost predicate SameTies(vals: seq<nat>, s: seq<nat>, t: seq<nat>)
    requires Below(s, |vals|) && Below(t, |vals|)
  {
    forall w :: WithValue(vals, t, w) == WithValue(vals, s, w)
  }

  lemma MultisetBelow(s: seq<nat>, t: seq<nat>, n: nat)
    requires Below(s, n) && multiset(t) <= multiset(s)
    ensures Below(t, n)
  {
    forall k | 0 <= k < |t|
      ensures t[k] < n
    {
      assert t[k] in multiset(t);
    }
  }

  /** Puts `x` in front of the first entry of `s` worth no more than it. */
  function Insert(vals: seq<nat>, x: nat, s: seq<nat>): (r: seq<nat>)
    requires x < |vals| && Below(s, |vals|)
    ensures multiset(r) == multiset(s) + multiset{x}
    ensures Below(r, |vals|)
    decreases |s|
  {
    var r := if |s| == 0 || vals[x] >= vals[s[0]] then [x] + s
             else [s[0]] + Insert(vals, x, s[1..]);
    assert |s| > 0 ==> s == [s[0]] + s[1..];
    MultisetBelow(s + [x], r, |vals|);
    r
  }

  /** Putting in front of a descending list a value no smaller than any of
      its entries keeps it descending. */
  lemma ConsDescending(vals: seq<nat>, y: nat, t: seq<nat>)
    requires y < |vals| && Below(t, |vals|) && Descending(vals, t)
    requires forall l :: 0 <= l < |t| ==> vals[t[l]] <= vals[y]
    ensures Below([y] + t, |vals|) && Descending(vals, [y] + t)
  {
    var r := [y] + t;
    forall k, l | 0 <= k < l < |r|
      ensures vals[r[k]] >= vals[r[l]]
    {
      assert r[l] == t[l - 1];
      if k > 0 {
        assert r[k] == t[k - 1];
      }
    }
  }

  lemma {:induction false} InsertDescending(vals: seq<nat>, x: nat, s: seq<nat>)
    requires x < |vals| && Below(s, |vals|) && Descending(vals, s)
    ensures Descending(vals, Insert(vals, x, s))
    decreases |s|
  {
    if |s| > 0 && vals[x] < vals[s[0]] {
      var tail := s[1..];
      assert Descending(vals, tail) by {
        forall k, l | 0 <= k < l < |tail|
          ensures vals[tail[k]] >= vals[tail[l]]
        {
          assert tail[k] == s[k + 1] && tail[l] == s[l + 1];
        }
      }
      InsertDescending(vals, x, tail);
      var rest := Insert(vals, x, tail);
      assert Insert(vals, x, s) == [s[0]] + rest;
      forall l | 0 <= l < |rest|
        ensures vals[rest[l]] <= vals[s[0]]
      {
        assert rest[l] in multiset(rest);
        if rest[l] != x {
          assert rest[l] in multiset(tail);
          var m :| 0 <= m < |tail| && tail[m] == rest[l];
          assert s[m + 1] == rest[l];
        }
      }
      ConsDescending(vals, s[0], rest);
    } else {
      forall l | 0 <= l < |s|
        ensures vals[s[l]] <= vals[x]
      {
        if l > 0 {
          assert vals[s[0]] >= vals[s[l]];
        }
      }
      ConsDescending(vals, x, s);
    }
  }

  lemma WithValueCons(vals: seq<nat>, y: nat, t: seq<nat>, w: nat)
    requires y < |vals| && Below(t, |vals|)
    ensures Below([y] + t, |vals|)
    ensures WithValue(vals, [y] + t, w) == (if vals[y] == w then [y] else []) + WithValue(vals, t, w)
  {
    assert ([y] + t)[1..] == t;
  }

  lemma {:induction false} InsertTies(vals: seq<nat>, x: nat, s: seq<nat>, w: nat)
    requires x < |vals| && Below(s, |vals|)
    ensures WithValue(vals, Insert(vals, x, s), w)
            == (if vals[x] == w then [x] else []) + WithValue(vals, s, w)
    decreases |s|
  {
    if |s| > 0 && vals[x] < vals[s[0]] {
      var rest := Insert(vals, x, s[1..]);
      assert Insert(vals, x, s) == [s[0]] + rest;
      InsertTies(vals, x, s[1..], w);
      WithValueCons(vals, s[0], rest, w);
      if vals[x] == w {
        assert vals[s[0]] != w;
      }
    } else {
      WithValueCons(vals, x, s, w);
    }
  }

  /** Stable descending insertion sort. */
  function SortDesc(vals: seq<nat>, s: seq<nat>): (r: seq<nat>)
    requires Below(s, |vals|)
    ensures multiset(r) == multiset(s) && |r| == |s|
    ensures Below(r, |vals|)
    ensures Descending(vals, r)
    ensures SameTies(vals, s, r)
    decreases |s|
  {
    if |s| == 0 then []
    else
      var rest := SortDesc(vals, s[1..]);
      SortStep(vals, s, rest);
      Insert(vals, s[0], rest)
  }

  /** Inserting the head of `s` into a stable descending sort of its tail
      gives a stable descending sort of `s`. */
  lemma SortStep(vals: seq<nat>, s: seq<nat>, rest: seq<nat>)
    requires Below(s, |vals|) && |s| > 0 && Below(rest, |vals|)
    requires multiset(rest) == multiset(s[1..])
    requires Descending(vals, rest) && SameTies(vals, s[1..], rest)
    ensures multiset(Insert(vals, s[0], rest)) == multiset(s)
    ensures |Insert(vals, s[0], rest)| == |s|
    ensures Descending(vals, Insert(vals, s[0], rest))
    ensures SameTies(vals, s, Insert(vals, s[0], rest))
  {
    var r := Insert(vals, s[0], rest);
    assert s == [s[0]] + s[1..];
    assert |r| == |multiset(r)| == |multiset(s)| == |s|;
    InsertDescending(vals, s[0], rest);
    forall w
      ensures WithValue(vals, r, w) == WithValue(vals, s, w)
    {
      InsertTies(vals, s[0], rest, w);
    }
  }

  /** A prefix of a descending list is descending. */
  lemma PrefixDescending(vals: seq<nat>, s: seq<nat>, n: nat)
    requires Below(s, |vals|) && Descending(vals, s) && n <= |s|
    ensures Below(s[..n], |vals|) && Descending(vals, s[..n])
  {
  }
}
