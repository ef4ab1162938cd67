/** Sequence operations that the Python code gets from list comprehensions, slices and `str.join`. */
module Seqs {

  /** `[x for x in s if keep(x)]`. */
  function Filter<T>(keep: T -> bool, s: seq<T>): (r: seq<T>)
    ensures |r| <= |s|
    ensures forall i :: 0 <= i < |r| ==> keep(r[i])
    ensures forall x :: x in r ==> x in s
  {
    if s == [] then [] else (if keep(s[0]) then [s[0]] else []) + Filter(keep, s[1..])
  }

  /** Filtering a concatenation filters each part: the kept elements stay in their order. */
  lemma {:induction false} FilterConcat<T>(keep: T -> bool, a: seq<T>, b: seq<T>)
    ensures Filter(keep, a + b) == Filter(keep, a) + Filter(keep, b)
  {
    if a == [] {
      assert a + b == b;
    } else {
      assert (a + b)[1..] == a[1..] + b;
      FilterConcat(keep, a[1..], b);
    }
  }

  lemma FilterCons<T>(keep: T -> bool, x: T, s: seq<T>)
    ensures Filter(keep, [x] + s) == (if keep(x) then [x] else []) + Filter(keep, s)
  {
    assert ([x] + s)[1..] == s;
  }

  lemma FilterSnoc<T>(keep: T -> bool, s: seq<T>, x: T)
    ensures Filter(keep, s + [x]) == Filter(keep, s) + (if keep(x) then [x] else [])
  {
    FilterConcat(keep, s, [x]);
    assert [x][1..] == [];
  }

  /** Filtering a sequence cut in three filters each part. */
  lemma FilterSplit<T>(keep: T -> bool, s: seq<T>, a: nat, b: nat)
    requires a <= b <= |s|
    ensures Filter(keep, s) == Filter(keep, s[..a]) + Filter(keep, s[a..b]) + Filter(keep, s[b..])
  {
    var front, mid, back := s[..a], s[a..b], s[b..];
    SplitThree(s, a, b);
    FilterConcat(keep, front + mid, back);
    FilterConcat(keep, front, mid);
  }

  /** When nothing is kept before `a` or from `b` on, the filter keeps only what lies between. */
  lemma FilterMiddle<T>(keep: T -> bool, s: seq<T>, a: nat, b: nat)
    requires a <= b <= |s| && Filter(keep, s[..a]) == [] && Filter(keep, s[b..]) == []
    ensures Filter(keep, s[a..b]) == Filter(keep, s)
  {
    FilterSplit(keep, s, a, b);
  }

  /** Nothing is dropped when every element is kept. */
  lemma {:induction false} FilterKeepsAll<T>(keep: T -> bool, s: seq<T>)
    requires forall i :: 0 <= i < |s| ==> keep(s[i])
    ensures Filter(keep, s) == s
  {
    if s != [] {
      FilterKeepsAll(keep, s[1..]);
    }
  }

  /** Everything is dropped when no element is kept. */
  lemma {:induction false} FilterDropsAll<T>(keep: T -> bool, s: seq<T>)
    requires forall i :: 0 <= i < |s| ==> !keep(s[i])
    ensures Filter(keep, s) == []
  {
    if s != [] {
      FilterDropsAll(keep, s[1..]);
    }
  }

  /** A kept value occurs in the result exactly as often as in the input; a dropped value never. */
  lemma {:induction false} FilterCount<T>(keep: T -> bool, s: seq<T>, x: T)
    ensures multiset(Filter(keep, s))[x] == if keep(x) then multiset(s)[x] else 0
  {
    if s != [] {
      FilterCount(keep, s[1..], x);
      assert s == [s[0]] + s[1..];
    }
  }

  /** The parts laid end to end: `"".join(parts)`. */
  function Concat<T>(parts: seq<seq<T>>): seq<T>
  {
    if parts == [] then [] else Concat(parts[..|parts| - 1]) + parts[|parts| - 1]
  }

  /** `[f(x) for x in xs]`. */
  function Map<T, U>(f: T -> U, xs: seq<T>): (r: seq<U>)
    ensures |r| == |xs|
  {
    if xs == [] then [] else [f(xs[0])] + Map(f, xs[1..])
  }

  lemma {:induction false} MapAt<T, U>(f: T -> U, xs: seq<T>, k: nat)
    requires k < |xs|
    ensures Map(f, xs)[k] == f(xs[k])
  {
    if k > 0 {
      MapAt(f, xs[1..], k - 1);
    }
  }

  lemma {:induction false} MapSnoc<T, U>(f: T -> U, xs: seq<T>, x: T)
    ensures Map(f, xs + [x]) == Map(f, xs) + [f(x)]
  {
    if xs != [] {
      assert (xs + [x])[1..] == xs[1..] + [x];
      MapSnoc(f, xs[1..], x);
    } else {
      assert [x][1..] == [];
    }
  }

  /** Concatenation from the front, matching the back-to-front definition. */
  lemma {:induction false} ConcatCons<T>(p: seq<T>, parts: seq<seq<T>>)
    ensures Concat([p] + parts) == p + Concat(parts)
    decreases |parts|
  {
    if parts == [] {
      assert ([p] + parts)[..0] == [];
    } else {
      var pre := parts[..|parts| - 1];
      assert ([p] + parts)[..|parts|] == [p] + pre;
      ConcatCons(p, pre);
    }
  }

  lemma ConcatSnoc<T>(parts: seq<seq<T>>, p: seq<T>)
    ensures Concat(parts + [p]) == Concat(parts) + p
  {
    assert (parts + [p])[..|parts|] == parts;
  }

  /** An element is in the concatenation exactly when it is in one of the parts. */
  lemma {:induction false} ConcatMember<T>(parts: seq<seq<T>>, x: T)
    ensures x in Concat(parts) <==> exists k :: 0 <= k < |parts| && x in parts[k]
  {
    if parts != [] {
      var pre := parts[..|parts| - 1];
      ConcatMember(pre, x);
      assert forall k :: 0 <= k < |pre| ==> pre[k] == parts[k];
    }
  }

  /** `sep.join(parts)`. */
  function Join<T>(sep: seq<T>, parts: seq<seq<T>>): seq<T>
  {
    if parts == [] then []
    else if |parts| == 1 then parts[0]
    else parts[0] + sep + Join(sep, parts[1..])
  }

  lemma JoinCons<T>(sep: seq<T>, x: seq<T>, rest: seq<seq<T>>)
    requires |rest| >= 1
    ensures Join(sep, [x] + rest) == x + sep + Join(sep, rest)
  {
    assert ([x] + rest)[1..] == rest;
  }

  /** An empty first part leaves only the separator in front of the rest. */
  lemma JoinConsEmpty<T>(sep: seq<T>, rest: seq<seq<T>>)
    requires |rest| >= 1
    ensures Join(sep, [[]] + rest) == sep + Join(sep, rest)
  {
    JoinCons(sep, [], rest);
  }

  lemma ConsTwo<T>(a: T, b: T, rest: seq<T>)
    ensures [a] + ([b] + rest) == [a, b] + rest
  {
  }

  /** A suffix of a slice is a prefix of a suffix of the whole. */
  lemma SuffixOfSlice<T>(s: seq<T>, a: nat, b: nat, i: nat)
    requires a <= b <= |s| && i <= b - a
    ensures s[a..b][i..] == s[a + i..][..b - a - i]
  {
  }

  /** A sequence that starts with `p` is `p` followed by the rest. */
  lemma PrefixRest<T>(s: seq<T>, p: seq<T>)
    requires |p| <= |s| && s[..|p|] == p
    ensures s == p + s[|p|..]
  {
  }

  /** Putting one more element in front of the first part puts it in front of the joined result. */
  lemma JoinExtendHead<T>(sep: seq<T>, c: T, parts: seq<seq<T>>)
    requires |parts| >= 1
    ensures Join(sep, [[c] + parts[0]] + parts[1..]) == [c] + Join(sep, parts)
  {
    var q := [[c] + parts[0]] + parts[1..];
    if |parts| > 1 {
      assert q[1..] == parts[1..];
    }
  }

  lemma TakeAll<T>(s: seq<T>)
    ensures s[..|s|] == s
  {
  }

  /** Cutting a sequence at `i` and gluing the pieces back. */
  lemma CutAt<T>(s: seq<T>, i: nat, k: nat)
    requires i <= k <= |s|
    ensures s[..i] + s[i..k] == s[..k] && s[..i] + s[i..] == s
  {
  }

  /** Splitting the last element off the second part of a concatenation. */
  lemma SnocSplit<T>(a: seq<T>, r: seq<T>)
    requires r != []
    ensures a + r == (a + r[..|r| - 1]) + [r[|r| - 1]]
  {
  }

  lemma TakeOneMore<T>(s: seq<T>, i: nat)
    requires i < |s|
    ensures s[..i + 1] == s[..i] + [s[i]]
  {
  }

  /** A slice of a slice is a slice of the whole. */
  lemma SliceOfSlice<T>(s: seq<T>, a: nat, b: nat, i: nat, j: nat)
    requires a <= b <= |s| && i <= j <= b - a
    ensures s[a..b][i..j] == s[a + i..a + j]
  {
    var x, y := s[a..b][i..j], s[a + i..a + j];
    assert |x| == |y|;
    assert forall k :: 0 <= k < |x| ==> x[k] == s[a + i + k] == y[k];
  }

  /** Cutting a sequence at two points gives three parts that make it up again. */
  lemma SplitThree<T>(s: seq<T>, a: nat, b: nat)
    requires a <= b <= |s|
    ensures s == s[..a] + s[a..b] + s[b..]
  {
  }

  /** Python's `s[:n]` for n >= 0. */
  function Take<T>(s: seq<T>, n: nat): seq<T>
  {
    if n <= |s| then s[..n] else s
  }

  /** Python's `s[-k:]` for k >= 0: the last k elements, and all of `s` both when k >= |s|
      and when k == 0 (because -0 is 0 and `s[0:]` is the whole sequence). */
  function PyTail<T>(s: seq<T>, k: nat): seq<T>
  {
    if k == 0 || k >= |s| then s else s[|s| - k..]
  }
}
