/**
  `Array.prototype.sort` with a comparator that orders by a rank, highest
  first. JavaScript's sort is stable, and for a comparator that is a total
  preorder a stable sort has exactly one possible result: sorted, a
  permutation, and elements of equal rank in their original order. The model
  computes that result by insertion sort.
 */
module Sorting {
  import opened Text

  /** A rank compared lexicographically: `major` first, then `minor`. */
  datatype Rank = Rank(major: int, minor: int)

  /** `a` ranks strictly below `b`, so a descending comparator puts `b` first. */
  predicate Below(a: Rank, b: Rank) {
    a.major < b.major || (a.major == b.major && a.minor < b.minor)
  }

  predicate Descending<T>(s: seq<T>, key: T -> Rank) {
    forall i, j :: 0 <= i < j < |s| ==> !Below(key(s[i]), key(s[j]))
  }

  /** Inserts `x` from the right end: it moves left past every element that
      ranks strictly below it and stops at the first one that does not. */
  function Insert<T>(s: seq<T>, x: T, key: T -> Rank): (r: seq<T>)
    ensures |r| == |s| + 1
    decreases |s|
  {
    if s == [] || !Below(key(s[|s| - 1]), key(x)) then s + [x]
    else Insert(s[..|s| - 1], x, key) + [s[|s| - 1]]
  }

  /** Insertion adds `x` and loses nothing. */
  lemma {:induction false} InsertPermutes<T>(s: seq<T>, x: T, key: T -> Rank)
    ensures multiset(Insert(s, x, key)) == multiset(s) + multiset{x}
    decreases |s|
  {
    if !(s == [] || !Below(key(s[|s| - 1]), key(x))) {
      InsertPermutes(s[..|s| - 1], x, key);
      assert s == s[..|s| - 1] + [s[|s| - 1]];
    }
  }

  /** The result of a stable sort by `key`, highest rank first. */
  function SortDesc<T>(s: seq<T>, key: T -> Rank): (r: seq<T>)
    ensures |r| == |s|
  {
    if s == [] then []
    else Insert(SortDesc(s[..|s| - 1], key), s[|s| - 1], key)
  }

  /** The elements of `s` whose rank is `r`, in their order in `s`. */
  function WithRank<T>(s: seq<T>, key: T -> Rank, r: Rank): seq<T> {
    if s == [] then []
    else WithRank(s[..|s| - 1], key, r) + (if key(s[|s| - 1]) == r then [s[|s| - 1]] else [])
  }

  lemma WithRankAppend<T>(s: seq<T>, x: T, key: T -> Rank, r: Rank)
    ensures WithRank(s + [x], key, r) == WithRank(s, key, r) + (if key(x) == r then [x] else [])
  {
    assert (s + [x])[..|s|] == s;
  }

  lemma {:induction false} InsertDescending<T>(s: seq<T>, x: T, key: T -> Rank)
    requires Descending(s, key)
    ensures Descending(Insert(s, x, key), key)
    decreases |s|
  {
    if s == [] || !Below(key(s[|s| - 1]), key(x)) {
      var r := s + [x];
      forall i, j | 0 <= i < j < |r| ensures !Below(key(r[i]), key(r[j])) {
        if j == |s| {
          assert !Below(key(s[i]), key(s[|s| - 1]));
        }
      }
    } else {
      var init, last := s[..|s| - 1], s[|s| - 1];
      InsertDescending(init, x, key);
      var m := Insert(init, x, key);
      InsertPermutes(init, x, key);
      var r := m + [last];
      forall i, j | 0 <= i < j < |r| ensures !Below(key(r[i]), key(r[j])) {
        if j == |m| {
          assert r[i] in multiset(m);
          if r[i] != x {
            assert r[i] in init;
          }
        }
      }
    }
  }

  /** Insertion keeps the elements of every rank in their order, with `x`
      after the ones of its own rank. */
  lemma {:induction false} InsertStable<T>(s: seq<T>, x: T, key: T -> Rank, r: Rank)
    ensures WithRank(Insert(s, x, key), key, r)
         == WithRank(s, key, r) + (if key(x) == r then [x] else [])
    decreases |s|
  {
    if s == [] || !Below(key(s[|s| - 1]), key(x)) {
      WithRankAppend(s, x, key, r);
    } else {
      var init, last := s[..|s| - 1], s[|s| - 1];
      InsertStable(init, x, key, r);
      WithRankAppend(Insert(init, x, key), last, key, r);
      assert s == init + [last];
      WithRankAppend(init, last, key, r);
    }
  }

  /** What a stable descending sort promises: sorted, a permutation, and the
      same order among elements of equal rank. */
  lemma {:induction false} SortDescCorrect<T>(s: seq<T>, key: T -> Rank)
    ensures Descending(SortDesc(s, key), key)
    ensures multiset(SortDesc(s, key)) == multiset(s)
    ensures forall r :: WithRank(SortDesc(s, key), key, r) == WithRank(s, key, r)
  {
    if s != [] {
      var init, last := s[..|s| - 1], s[|s| - 1];
      SortDescCorrect(init, key);
      InsertPermutes(SortDesc(init, key), last, key);
      assert s == init + [last];
      InsertDescending(SortDesc(init, key), last, key);
      forall r ensures WithRank(SortDesc(s, key), key, r) == WithRank(s, key, r) {
        InsertStable(SortDesc(init, key), last, key, r);
      }
    }
  }

  /** Sorting what is already sorted changes nothing. */
  lemma {:induction false} SortDescSorted<T>(s: seq<T>, key: T -> Rank)
    requires Descending(s, key)
    ensures SortDesc(s, key) == s
  {
    if s != [] {
      var init, last := s[..|s| - 1], s[|s| - 1];
      assert Descending(init, key) by {
        forall i, j | 0 <= i < j < |init| ensures !Below(key(init[i]), key(init[j])) {
          assert init[i] == s[i] && init[j] == s[j];
        }
      }
      SortDescSorted(init, key);
      assert init == [] || !Below(key(init[|init| - 1]), key(last)) by {
        if init != [] {
          assert init[|init| - 1] == s[|s| - 2];
        }
      }
      assert init + [last] == s;
    }
  }

  /** With no element of rank `r`, no element has rank `r`. */
  lemma {:induction false} WithRankEmpty<T>(s: seq<T>, key: T -> Rank, r: Rank)
    requires WithRank(s, key, r) == []
    ensures forall j :: 0 <= j < |s| ==> key(s[j]) != r
  {
    if s != [] {
      WithRankEmpty(s[..|s| - 1], key, r);
      assert forall j :: 0 <= j < |s| - 1 ==> s[..|s| - 1][j] == s[j];
    }
  }

  /** The first element of rank `r` is the first of `WithRank`. */
  lemma {:induction false} WithRankHead<T>(s: seq<T>, key: T -> Rank, r: Rank) returns (i: nat)
    requires WithRank(s, key, r) != []
    ensures i < |s| && s[i] == WithRank(s, key, r)[0] && key(s[i]) == r
    ensures forall j :: 0 <= j < i ==> key(s[j]) != r
  {
    var init := s[..|s| - 1];
    if WithRank(init, key, r) != [] {
      i := WithRankHead(init, key, r);
      assert s[i] == init[i];
      assert forall j :: 0 <= j < i ==> s[j] == init[j];
    } else {
      i := |s| - 1;
      WithRankEmpty(init, key, r);
      assert forall j :: 0 <= j < i ==> s[j] == init[j];
    }
  }

  /** A sequence that starts with rank `r` lists that element first among
      those of rank `r`. */
  lemma {:induction false} WithRankFront<T>(s: seq<T>, key: T -> Rank, r: Rank)
    requires s != [] && key(s[0]) == r
    ensures WithRank(s, key, r) != [] && WithRank(s, key, r)[0] == s[0]
  {
    if |s| == 1 {
      assert s[..0] == [];
    } else {
      var init := s[..|s| - 1];
      assert init[0] == s[0];
      WithRankFront(init, key, r);
    }
  }

  /** The first element after the sort is the earliest element of highest
      rank: nothing ranks above it, and everything before it in the input
      ranks strictly below it. */
  lemma SortDescHead<T>(s: seq<T>, key: T -> Rank) returns (i: nat)
    requires s != []
    ensures i < |s| && SortDesc(s, key)[0] == s[i]
    ensures forall j :: 0 <= j < |s| ==> !Below(key(s[i]), key(s[j]))
    ensures forall j :: 0 <= j < i ==> Below(key(s[j]), key(s[i]))
  {
    var t := SortDesc(s, key);
    var r := key(t[0]);
    SortDescCorrect(s, key);
    forall j | 0 <= j < |s| ensures !Below(r, key(s[j])) {
      assert s[j] in multiset(t);
      var m :| 0 <= m < |t| && t[m] == s[j];
      assert m == 0 || !Below(key(t[0]), key(t[m]));
    }
    WithRankFront(t, key, r);
    i := WithRankHead(s, key, r);
  }

  /** Sorts `a` in place, as `a.sort(comparator)` does. */
  method SortInPlace<T>(a: array<T>, key: T -> Rank)
    modifies a
    ensures a[..] == SortDesc(old(a[..]), key)
  {
    ghost var input := a[..];
    var i := 0;
    while i < a.Length
      invariant 0 <= i <= a.Length
      invariant a[..i] == SortDesc(input[..i], key)
      invariant a[i..] == input[i..]
    {
      InsertLast(a, i, key);
      assert input[..i + 1][..i] == input[..i];
      assert a[i + 1..] == input[i + 1..];
      i := i + 1;
    }
    assert input[..a.Length] == input;
  }

  /** One step of the insertion sort: `a[i]` joins the sorted `a[..i]`. */
  method InsertLast<T>(a: array<T>, i: nat, key: T -> Rank)
    requires i < a.Length
    modifies a
    ensures a[..i + 1] == Insert(old(a[..i]), old(a[i]), key)
    ensures a[i + 1..] == old(a[i + 1..])
  {
    ghost var sorted, tail := a[..i], a[i + 1..];
    var x := a[i];
    var j := i;
    ghost var gap := x;
    assert sorted[..j] == sorted && sorted[j..] == [];
    assert a[..] == sorted[..j] + [gap] + sorted[j..] + tail by {
      assert a[..] == a[..i] + [a[i]] + a[i + 1..];
    }
    while j > 0 && Below(key(a[j - 1]), key(x))
      invariant 0 <= j <= i
      invariant a[..] == sorted[..j] + [gap] + sorted[j..] + tail
      invariant Insert(sorted, x, key) == Insert(sorted[..j], x, key) + sorted[j..]
    {
      GapAt(sorted, tail, j, gap);
      InsertShift(sorted, x, key, j);
      GapShift(sorted, tail, j, gap);
      a[j] := a[j - 1];
      gap := sorted[j - 1];
      j := j - 1;
    }
    GapFill(sorted, tail, j, gap, x);
    a[j] := x;
    assert Insert(sorted[..j], x, key) == sorted[..j] + [x];
    GapDone(a[..], sorted[..j] + [x] + sorted[j..], tail);
  }

  /** Moving the gap one place left: `x` still belongs after `s[j - 1]`'s
      predecessors when it ranks above `s[j - 1]`. */
  lemma InsertShift<T>(s: seq<T>, x: T, key: T -> Rank, j: nat)
    requires 0 < j <= |s|
    requires Below(key(s[j - 1]), key(x))
    ensures Insert(s[..j], x, key) + s[j..] == Insert(s[..j - 1], x, key) + s[j - 1..]
  {
    var pre := s[..j - 1];
    assert Insert(s[..j], x, key) == Insert(pre, x, key) + [s[j - 1]] by {
      assert s[..j][..j - 1] == pre;
    }
    assert s[j - 1..] == [s[j - 1]] + s[j..];
    AppendAssoc(Insert(pre, x, key), [s[j - 1]], s[j..]);
  }

  /** The array during the step: sorted prefix, the gap, the shifted part and
      the untouched rest. */
  lemma GapAt<T>(s: seq<T>, tail: seq<T>, j: nat, g: T)
    requires 0 < j <= |s|
    ensures (s[..j] + [g] + s[j..] + tail)[j - 1] == s[j - 1]
  {
  }

  lemma GapShift<T>(s: seq<T>, tail: seq<T>, j: nat, g: T)
    requires 0 < j <= |s|
    ensures (s[..j] + [g] + s[j..] + tail)[j := s[j - 1]] == s[..j - 1] + [s[j - 1]] + s[j - 1..] + tail
  {
  }

  lemma GapFill<T>(s: seq<T>, tail: seq<T>, j: nat, g: T, x: T)
    requires j <= |s|
    ensures (s[..j] + [g] + s[j..] + tail)[j := x] == s[..j] + [x] + s[j..] + tail
  {
  }

  lemma GapDone<T>(b: seq<T>, front: seq<T>, tail: seq<T>)
    requires b == front + tail
    ensures b[..|front|] == front && b[|front|..] == tail
  {
  }
}
