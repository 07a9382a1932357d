/**
  The dictionary both scripts fill to group channels by base name:
  `if (!groups[b]) groups[b] = []; groups[b].push(channel)`. A group is the
  channels with one label in input order, and the dictionary's entries are
  enumerated in the order their labels were first seen.
 */
module Grouping {

  /** The labels in the order they first appear, each once. */
  function Labels<T>(s: seq<T>, labelOf: T -> string): (r: seq<string>)
    ensures forall b :: b in r <==> exists k :: 0 <= k < |s| && labelOf(s[k]) == b
    ensures forall i, j :: 0 <= i < j < |r| ==> r[i] != r[j]
  {
    if s == [] then []
    else
      var r := Labels(s[..|s| - 1], labelOf);
      var b := labelOf(s[|s| - 1]);
      assert forall k :: 0 <= k < |s| - 1 ==> s[..|s| - 1][k] == s[k];
      if b in r then r else r + [b]
  }

  /** `groups[b]`: the elements labelled `b`, in input order. */
  function Group<T>(s: seq<T>, labelOf: T -> string, b: string): seq<T> {
    if s == [] then []
    else Group(s[..|s| - 1], labelOf, b) + (if labelOf(s[|s| - 1]) == b then [s[|s| - 1]] else [])
  }

  lemma {:induction false} GroupConcat<T>(x: seq<T>, y: seq<T>, labelOf: T -> string, b: string)
    ensures Group(x + y, labelOf, b) == Group(x, labelOf, b) + Group(y, labelOf, b)
    decreases |y|
  {
    if y == [] {
      assert x + y == x;
    } else {
      var y0 := y[..|y| - 1];
      assert (x + y)[..|x + y| - 1] == x + y0;
      GroupConcat(x, y0, labelOf, b);
    }
  }

  /** A group holds exactly the copies of its own elements. */
  lemma {:induction false} GroupMultiset<T>(s: seq<T>, labelOf: T -> string, b: string, c: T)
    ensures multiset(Group(s, labelOf, b))[c] == if labelOf(c) == b then multiset(s)[c] else 0
  {
    if s != [] {
      GroupMultiset(s[..|s| - 1], labelOf, b, c);
      assert s == s[..|s| - 1] + [s[|s| - 1]];
    }
  }

  /** Every element of a group carries the group's label. */
  lemma GroupLabels<T>(s: seq<T>, labelOf: T -> string, b: string)
    ensures forall k :: 0 <= k < |Group(s, labelOf, b)| ==> labelOf(Group(s, labelOf, b)[k]) == b
  {
    forall k | 0 <= k < |Group(s, labelOf, b)| ensures labelOf(Group(s, labelOf, b)[k]) == b {
      var c := Group(s, labelOf, b)[k];
      GroupMultiset(s, labelOf, b, c);
    }
  }

  lemma {:induction false} GroupSame<T>(s: seq<T>, labelOf: T -> string, b: string)
    requires forall k :: 0 <= k < |s| ==> labelOf(s[k]) == b
    ensures Group(s, labelOf, b) == s
  {
    if s != [] {
      GroupSame(s[..|s| - 1], labelOf, b);
      assert s == s[..|s| - 1] + [s[|s| - 1]];
    }
  }

  lemma {:induction false} GroupOther<T>(s: seq<T>, labelOf: T -> string, b: string)
    requires forall k :: 0 <= k < |s| ==> labelOf(s[k]) != b
    ensures Group(s, labelOf, b) == []
  {
    if s != [] {
      GroupOther(s[..|s| - 1], labelOf, b);
    }
  }

  /** A label is listed exactly when its group is not empty. */
  lemma GroupPresent<T>(s: seq<T>, labelOf: T -> string, b: string)
    ensures b in Labels(s, labelOf) <==> Group(s, labelOf, b) != []
  {
    if b in Labels(s, labelOf) {
      var k :| 0 <= k < |s| && labelOf(s[k]) == b;
      GroupMultiset(s, labelOf, b, s[k]);
      assert s[k] in multiset(s);
    } else {
      GroupOther(s, labelOf, b);
    }
  }

  /** Every listed label has a group. */
  lemma LabelsPresent<T>(s: seq<T>, labelOf: T -> string)
    ensures forall k :: 0 <= k < |Labels(s, labelOf)| ==> Group(s, labelOf, Labels(s, labelOf)[k]) != []
  {
    forall k | 0 <= k < |Labels(s, labelOf)| ensures Group(s, labelOf, Labels(s, labelOf)[k]) != [] {
      GroupPresent(s, labelOf, Labels(s, labelOf)[k]);
    }
  }

  /** One more element read: it joins its own group, and its label is
      listed if it is new. */
  lemma GroupStep<T>(s: seq<T>, labelOf: T -> string, i: nat)
    requires i < |s|
    ensures forall b ::
      Group(s[..i + 1], labelOf, b) == Group(s[..i], labelOf, b) + (if labelOf(s[i]) == b then [s[i]] else [])
    ensures Labels(s[..i + 1], labelOf)
      == if labelOf(s[i]) in Labels(s[..i], labelOf) then Labels(s[..i], labelOf)
         else Labels(s[..i], labelOf) + [labelOf(s[i])]
  {
    assert s[..i + 1][..i] == s[..i];
  }

  /** The grouping loop: one pass that files every element under its label
      and records each label when it is first seen. */
  method GroupBy<T>(s: seq<T>, labelOf: T -> string) returns (groups: map<string, seq<T>>, order: seq<string>)
    ensures order == Labels(s, labelOf)
    ensures forall b :: b in groups <==> b in order
    ensures forall b :: b in groups ==> groups[b] == Group(s, labelOf, b)
  {
    groups := map[];
    order := [];
    var i := 0;
    while i < |s|
      invariant 0 <= i <= |s|
      invariant order == Labels(s[..i], labelOf)
      invariant forall b :: b in groups <==> b in order
      invariant forall b :: b in groups ==> groups[b] == Group(s[..i], labelOf, b)
    {
      var c := s[i];
      var b := labelOf(c);
      GroupStep(s, labelOf, i);
      if b !in groups {
        GroupPresent(s[..i], labelOf, b);
        groups := groups[b := []];
        order := order + [b];
      }
      groups := groups[b := groups[b] + [c]];
      i := i + 1;
    }
    assert s[..i] == s;
  }
}
