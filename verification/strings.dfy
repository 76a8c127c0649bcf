/** Text helpers standing in for the Python string methods the valuation and
    remark code rely on: `in` (substring test), `lower()`, `upper()`,
    `strip()`, `capitalize()` and `". ".join(...)`.  Case mapping and white
    space are ASCII only. */
module Strings {

  /** ASCII lower-case of one character; every other character is kept. */
  function LowerChar(c: char): (r: char)
    ensures 'A' <= c <= 'Z' ==> r as int == c as int + 32
    ensures !('A' <= c <= 'Z') ==> r == c
  {
    if 'A' <= c <= 'Z' then (c as int + 32) as char else c
  }

  /** ASCII upper-case of one character; every other character is kept. */
  function UpperChar(c: char): (r: char)
    ensures 'a' <= c <= 'z' ==> r as int == c as int - 32
    ensures !('a' <= c <= 'z') ==> r == c
  {
    if 'a' <= c <= 'z' then (c as int - 32) as char else c
  }

  predicate IsUpper(c: char) { 'A' <= c <= 'Z' }

  /** `s.lower()`: same length, each character lower-cased. */
  function Lower(s: string): (r: string)
    ensures |r| == |s|
    ensures forall i :: 0 <= i < |s| ==> r[i] == LowerChar(s[i])
  {
    seq(|s|, i requires 0 <= i < |s| => LowerChar(s[i]))
  }

  /** `s.upper()`: same length, each character upper-cased. */
  function Upper(s: string): (r: string)
    ensures |r| == |s|
    ensures forall i :: 0 <= i < |s| ==> r[i] == UpperChar(s[i])
  {
    seq(|s|, i requires 0 <= i < |s| => UpperChar(s[i]))
  }

  /** `sub` occurs in `s` starting at position `i`. */
  predicate OccursAt(s: string, sub: string, i: int)
  {
    0 <= i && i + |sub| <= |s| && s[i..i + |sub|] == sub
  }

  /** Python's `sub in s`. */
  predicate Contains(s: string, sub: string)
  {
    exists i :: 0 <= i <= |s| - |sub| && OccursAt(s, sub, i)
  }

  lemma ContainsWitness(s: string, sub: string, i: int)
    requires OccursAt(s, sub, i)
    ensures Contains(s, sub)
  {
  }

  /** A string that lacks the first character of `sub` cannot contain `sub`. */
  lemma NotContainsMissingHead(s: string, sub: string)
    requires |sub| > 0
    requires forall i :: 0 <= i < |s| ==> s[i] != sub[0]
    ensures !Contains(s, sub)
  {
    forall i | 0 <= i <= |s| - |sub|
      ensures !OccursAt(s, sub, i)
    {
      assert s[i..i + |sub|][0] == s[i];
    }
  }

  /** The empty string contains no non-empty string. */
  lemma EmptyContainsNothing(sub: string)
    requires |sub| > 0
    ensures !Contains("", sub)
  {
  }

  /** Python's `str.isspace()` restricted to ASCII: space, tab, line feed,
      vertical tab, form feed, carriage return and the separators 0x1c-0x1f. */
  predicate IsSpace(c: char)
  {
    c == ' ' || (9 <= c as int <= 13) || (28 <= c as int <= 31)
  }

  function StripLeft(s: string): (r: string)
    ensures |r| <= |s| && r == s[|s| - |r|..]
    ensures |r| > 0 ==> !IsSpace(r[0])
    ensures forall k :: 0 <= k < |s| - |r| ==> IsSpace(s[k])
    decreases |s|
  {
    if |s| > 0 && IsSpace(s[0]) then StripLeft(s[1..]) else s
  }

  function StripRight(s: string): (r: string)
    ensures |r| <= |s| && r == s[..|r|]
    ensures |r| > 0 ==> !IsSpace(r[|r| - 1])
    ensures forall k :: |r| <= k < |s| ==> IsSpace(s[k])
    decreases |s|
  {
    if |s| > 0 && IsSpace(s[|s| - 1]) then StripRight(s[..|s| - 1]) else s
  }

  /** Number of white-space characters `s` starts with. */
  function LeadingSpaces(s: string): (n: nat)
    ensures n <= |s|
    ensures forall k :: 0 <= k < n ==> IsSpace(s[k])
    ensures n < |s| ==> !IsSpace(s[n])
  {
    |s| - |StripLeft(s)|
  }

  /** `r` is `s` with white space cut off its two ends and nothing else: the
      leading white space, then `r`, then nothing but white space. */
  ghost predicate CutsSpace(s: string, r: string)
  {
    && LeadingSpaces(s) + |r| <= |s|
    && r == s[LeadingSpaces(s)..LeadingSpaces(s) + |r|]
    && (forall k :: LeadingSpaces(s) + |r| <= k < |s| ==> IsSpace(s[k]))
  }

  /** `s.strip()`: the longest slice of `s` that neither starts nor ends with
      white space, obtained by cutting white space only: the leading white
      space, then the slice, then nothing but white space. */
  function Strip(s: string): (r: string)
    ensures |r| <= |s|
    ensures |r| > 0 ==> !IsSpace(r[0]) && !IsSpace(r[|r| - 1])
    ensures CutsSpace(s, r)
  {
    StripCutsSpace(s);
    StripRight(StripLeft(s))
  }

  lemma StripCutsSpace(s: string)
    ensures var r := StripRight(StripLeft(s));
            && |r| <= |s|
            && (|r| > 0 ==> !IsSpace(r[0]) && !IsSpace(r[|r| - 1]))
            && CutsSpace(s, r)
  {
    var l := StripLeft(s);
    var r := StripRight(l);
    var i := |s| - |l|;
    assert LeadingSpaces(s) == i;
    assert l == s[i..];
    assert r == l[..|r|];
    SliceOfSuffix(s, i, |r|);
    if |r| > 0 {
      assert r[0] == l[0];
    }
    forall k | i + |r| <= k < |s|
      ensures IsSpace(s[k])
    {
      assert s[k] == l[k - i];
    }
    assert CutsSpace(s, r);
  }

  lemma SliceOfSuffix(s: string, i: nat, m: nat)
    requires i + m <= |s|
    ensures s[i..][..m] == s[i..i + m]
  {
  }

  /** A string without white space is its own strip. */
  lemma StripClean(s: string)
    ensures (forall k :: 0 <= k < |s| ==> !IsSpace(s[k])) ==> Strip(s) == s
  {
    if forall k :: 0 <= k < |s| ==> !IsSpace(s[k]) {
      var l := StripLeft(s);
      assert |s| > 0 ==> !IsSpace(s[0]);
      assert |l| == |s|;
      assert l == s;
      var r := StripRight(l);
      assert |l| > 0 ==> !IsSpace(l[|l| - 1]);
      assert |r| == |l|;
    }
  }

  /** Stripping twice is stripping once. */
  lemma StripIdempotent(s: string)
    ensures Strip(Strip(s)) == Strip(s)
  {
    var r := Strip(s);
    if |r| > 0 {
      assert StripLeft(r) == r;
      assert StripRight(r) == r;
    }
  }

  /** `s.capitalize()`: first character upper-cased, all others lower-cased. */
  function Capitalize(s: string): (r: string)
    ensures |r| == |s|
    ensures |s| > 0 ==> r[0] == UpperChar(s[0])
    ensures forall i :: 0 < i < |s| ==> r[i] == LowerChar(s[i])
  {
    if |s| == 0 then "" else [UpperChar(s[0])] + Lower(s[1..])
  }

  /** Capitalising a string and then cutting a prefix gives the capitalised
      prefix. */
  lemma CapitalizePrefix(s: string, p: string)
    requires |p| <= |s| && s[..|p|] == p
    ensures Capitalize(s)[..|p|] == Capitalize(p)
  {
    var l := Capitalize(s)[..|p|];
    forall i | 0 <= i < |p|
      ensures l[i] == Capitalize(p)[i]
    {
      assert s[i] == p[i];
    }
  }

  /** After the first character, capitalising lower-cases: an occurrence of
      `t` past position 0 becomes an occurrence of `t.lower()`. */
  lemma CapitalizeOccurrence(s: string, t: string, i: int)
    requires OccursAt(s, t, i) && i > 0
    ensures OccursAt(Capitalize(s), Lower(t), i)
  {
    var c := Capitalize(s);
    forall k | 0 <= k < |t|
      ensures c[i + k] == Lower(t)[k]
    {
      assert s[i..i + |t|][k] == s[i + k];
    }
    assert c[i..i + |t|] == Lower(t);
  }

  /** `sep.join(parts)`. */
  function Join(parts: seq<string>, sep: string): (r: string)
    ensures |parts| == 1 ==> r == parts[0]
    decreases |parts|
  {
    if |parts| == 0 then ""
    else if |parts| == 1 then parts[0]
    else parts[0] + sep + Join(parts[1..], sep)
  }

  /** Joining keeps the first part as a prefix. */
  lemma {:induction false} JoinStartsWithHead(parts: seq<string>, sep: string)
    requires |parts| > 0
    ensures |Join(parts, sep)| >= |parts[0]|
    ensures Join(parts, sep)[..|parts[0]|] == parts[0]
  {
    if |parts| > 1 {
      var rest := Join(parts[1..], sep);
      assert Join(parts, sep) == parts[0] + (sep + rest);
    }
  }

  /** Every part occurs in the joined string; every part after the first
      starts past the first part and a separator. */
  lemma {:induction false} JoinOccurs(parts: seq<string>, sep: string, k: nat) returns (o: nat)
    requires k < |parts|
    ensures OccursAt(Join(parts, sep), parts[k], o)
    ensures k > 0 ==> o >= |parts[0]| + |sep|
    decreases |parts|
  {
    if k == 0 {
      JoinStartsWithHead(parts, sep);
      o := 0;
    } else {
      var rest := Join(parts[1..], sep);
      var o1 := JoinOccurs(parts[1..], sep, k - 1);
      var j := Join(parts, sep);
      assert j == (parts[0] + sep) + rest;
      o := |parts[0]| + |sep| + o1;
      assert j[o..o + |parts[k]|] == rest[o1..o1 + |parts[k]|];
    }
  }
}
