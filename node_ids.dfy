/**
 * Fresh node ids (`getNextNodeId`) and the graph the editor starts with.
 *
 * The allocator keeps the ids that start with `node`, reads the number after
 * that prefix with `parseInt`, sorts the numbers ascending and walks them with a
 * counter starting at 1: the first number that differs from the counter is a
 * gap, and the id is `node` followed by the counter.
 */
module NodeIds {
  import opened Options
  import opened Text
  import opened Js
  import opened NodeTypes

  const Prefix := "node"

  /** The id `node<n>` (`` `node${n}` ``). */
  function NodeId(n: nat): string {
    Prefix + Decimal(n)
  }

  /** `parseInt(id.replace('node', ''), 10)`; `None` is `NaN`. */
  function SuffixOf(id: string): Option<int> {
    ParseInt(RemoveFirst(id, Prefix))
  }

  /** The values `pick` finds in `ids`, in list order (a `filter` followed by a `map`). */
  function Picked(ids: seq<string>, pick: string -> Option<int>): seq<int> {
    if ids == [] then []
    else (if pick(ids[0]).Some? then [pick(ids[0]).value] else []) + Picked(ids[1..], pick)
  }

  /** The number after `node` in a `node`-prefixed id; other ids are filtered out. */
  function Pick(id: string): Option<int> {
    if StartsWith(id, Prefix) then SuffixOf(id) else None
  }

  /**
   * The allocator is only defined when every `node`-prefixed id has a number after
   * the prefix: a `NaN` would make the numeric sort comparator inconsistent.
   */
  predicate SuffixesParse(ids: seq<string>) {
    forall id :: id in ids && StartsWith(id, Prefix) ==> SuffixOf(id).Some?
  }

  /**
   * `ids.filter(id => id.startsWith('node')).map(id => parseInt(id.replace('node', ''), 10))`,
   * in list order.
   */
  function Suffixes(ids: seq<string>): seq<int>
    requires SuffixesParse(ids)
  {
    Picked(ids, Pick)
  }

  /** Each number is at most the next one (`AscendingPairs` gives the pairwise form). */
  predicate Ascending(s: seq<int>) {
    |s| < 2 || (s[0] <= s[1] && Ascending(s[1..]))
  }

  predicate Distinct(s: seq<int>) {
    forall i, j :: 0 <= i < j < |s| ==> s[i] != s[j]
  }

  predicate AllPositive(s: seq<int>) {
    forall i :: 0 <= i < |s| ==> s[i] >= 1
  }

  function Insert(x: int, s: seq<int>): (r: seq<int>)
    requires Ascending(s)
    ensures Ascending(r)
    ensures multiset(r) == multiset(s) + multiset{x}
  {
    if s == [] || x <= s[0] then
      assert ([x] + s)[1..] == s;
      [x] + s
    else
      var rest := Insert(x, s[1..]);
      InsertBelow(x, s, rest);
      [s[0]] + rest
  }

  /** The step of `Insert` past the head `s[0]`: the head stays below the rest. */
  lemma InsertBelow(x: int, s: seq<int>, rest: seq<int>)
    requires Ascending(s) && s != [] && s[0] < x
    requires Ascending(rest) && multiset(rest) == multiset(s[1..]) + multiset{x}
    ensures Ascending([s[0]] + rest)
    ensures multiset([s[0]] + rest) == multiset(s) + multiset{x}
  {
    assert s == [s[0]] + s[1..];
    assert rest[0] in multiset(rest);
    assert s[0] <= rest[0] by {
      if rest[0] != x {
        assert rest[0] in multiset(s[1..]);
        assert rest[0] in multiset(s);
        HeadIsLeast(s, rest[0]);
      }
    }
    assert ([s[0]] + rest)[1..] == rest;
  }

  /** `.sort((a, b) => a - b)`: the numbers in ascending order. */
  function SortAscending(s: seq<int>): (r: seq<int>)
    ensures Ascending(r)
    ensures multiset(r) == multiset(s)
  {
    if s == [] then []
    else
      assert s == [s[0]] + s[1..];
      Insert(s[0], SortAscending(s[1..]))
  }

  /**
   * The counter the gap search stops at, started at `next` on the sorted numbers
   * `s`: the numbers before it count up from `next` one by one, and the number at
   * its position, if any, breaks the run.
   */
  function GapFrom(s: seq<int>, next: int): (r: int)
    ensures next <= r <= next + |s|
    ensures forall i :: 0 <= i < r - next ==> s[i] == next + i
    ensures r - next < |s| ==> s[r - next] != r
  {
    if s == [] || s[0] != next then next else GapFrom(s[1..], next + 1)
  }

  /** The number `getNextNodeId` puts after `node`. */
  function NextSuffix(ids: seq<string>): (n: nat)
    requires SuffixesParse(ids)
    ensures n >= 1
  {
    GapFrom(SortAscending(Suffixes(ids)), 1)
  }

  /** `getNextNodeId` (index.ts:39-60): the id of the node to add next. */
  method GetNextNodeId(nodes: seq<AppNode>) returns (id: string)
    requires SuffixesParse(Ids(nodes))
    ensures id == NodeId(NextSuffix(Ids(nodes)))
  {
    var nodeIds := SortAscending(Suffixes(Ids(nodes)));
    var nextId := 1;
    for i := 0 to |nodeIds|
      invariant nextId == i + 1
      invariant GapFrom(nodeIds[i..], nextId) == GapFrom(nodeIds, 1)
    {
      assert nodeIds[i..][1..] == nodeIds[i + 1..];
      if nodeIds[i] != nextId {
        return NodeId(nextId);
      }
      nextId := nextId + 1;
    }
    return NodeId(nextId);
  }

  // ---------------------------------------------------------------------------
  // Facts about sequences of numbers used by the properties below

  lemma {:induction false} DistinctCountsAtMostOne(s: seq<int>, x: int)
    requires Distinct(s)
    ensures multiset(s)[x] <= 1
  {
    if s != [] {
      var init := s[..|s| - 1];
      assert s == init + [s[|s| - 1]];
      DistinctCountsAtMostOne(init, x);
      if s[|s| - 1] == x {
        assert x !in init;
      }
    }
  }

  lemma CountsAtMostOneDistinct(s: seq<int>)
    requires forall x :: multiset(s)[x] <= 1
    ensures Distinct(s)
  {
    forall i, j | 0 <= i < j < |s| ensures s[i] != s[j] {
      assert s == s[..j] + [s[j]] + s[j + 1..];
      assert multiset(s) == multiset(s[..j]) + multiset{s[j]} + multiset(s[j + 1..]);
      assert s[i] in multiset(s[..j]);
      assert multiset(s)[s[i]] >= 1 + multiset{s[j]}[s[i]];
    }
  }

  /** Rearranging a sequence keeps it free of repetitions. */
  lemma DistinctPermutation(a: seq<int>, b: seq<int>)
    requires Distinct(a) && multiset(a) == multiset(b)
    ensures Distinct(b)
  {
    forall x ensures multiset(b)[x] <= 1 {
      DistinctCountsAtMostOne(a, x);
    }
    CountsAtMostOneDistinct(b);
  }

  /** Removing the first element of `a` and an equal element of `b` keeps the two permutations of each other. */
  lemma RemoveMatching<T>(a: seq<T>, b: seq<T>, j: nat)
    requires multiset(a) == multiset(b) && a != [] && j < |b| && b[j] == a[0]
    ensures multiset(b[..j] + b[j + 1..]) == multiset(a[1..])
  {
    var x := a[0];
    assert b == b[..j] + [x] + b[j + 1..];
    assert multiset(b) == multiset(b[..j]) + multiset{x} + multiset(b[j + 1..]);
    assert a == [x] + a[1..];
    assert multiset(a) == multiset{x} + multiset(a[1..]);
    assert multiset(b[..j] + b[j + 1..]) == multiset(b[..j]) + multiset(b[j + 1..]);
    assert multiset(b[..j] + b[j + 1..]) == multiset(b) - multiset{x};
    assert multiset(a[1..]) == multiset(a) - multiset{x};
  }

  /** The head of an ascending sequence is at most any of its elements. */
  lemma {:induction false} HeadIsLeast(a: seq<int>, x: int)
    requires Ascending(a) && x in multiset(a)
    ensures a[0] <= x
  {
    if a[0] != x {
      assert a == [a[0]] + a[1..];
      assert x in multiset(a[1..]);
      HeadIsLeast(a[1..], x);
    }
  }

  /** Every pair of positions, not just neighbours, is in order. */
  lemma {:induction false} AscendingPairs(s: seq<int>)
    requires Ascending(s)
    ensures forall i, j :: 0 <= i < j < |s| ==> s[i] <= s[j]
  {
    if |s| >= 2 {
      AscendingPairs(s[1..]);
      forall i, j | 0 <= i < j < |s| ensures s[i] <= s[j] {
        if i > 0 {
          assert s[i] == s[1..][i - 1] && s[j] == s[1..][j - 1];
        } else {
          assert s[j] in multiset(s);
          HeadIsLeast(s, s[j]);
        }
      }
    }
  }

  /** Numbers in order pairwise are ascending. */
  lemma {:induction false} PairsAscending(s: seq<int>)
    requires forall i, j :: 0 <= i < j < |s| ==> s[i] <= s[j]
    ensures Ascending(s)
  {
    if |s| >= 2 {
      forall i, j | 0 <= i < j < |s| - 1 ensures s[1..][i] <= s[1..][j] {
        assert s[1..][i] == s[i + 1] && s[1..][j] == s[j + 1];
      }
      PairsAscending(s[1..]);
    }
  }

  /** Two ascending sequences with the same elements are the same sequence. */
  lemma {:induction false} AscendingUnique(a: seq<int>, b: seq<int>)
    requires Ascending(a) && Ascending(b) && multiset(a) == multiset(b)
    ensures a == b
  {
    if a == [] {
      assert |b| == |multiset(b)| == 0;
    } else {
      assert |b| == |multiset(b)| > 0;
      assert b[0] in multiset(b) && a[0] in multiset(a);
      HeadIsLeast(a, b[0]);
      HeadIsLeast(b, a[0]);
      RemoveMatching(a, b, 0);
      assert b[..0] + b[1..] == b[1..];
      AscendingUnique(a[1..], b[1..]);
      assert a == [a[0]] + a[1..] && b == [b[0]] + b[1..];
    }
  }

  // ---------------------------------------------------------------------------
  // What the parsed suffixes are

  lemma {:induction false} PickedConcat(a: seq<string>, b: seq<string>, pick: string -> Option<int>)
    ensures Picked(a + b, pick) == Picked(a, pick) + Picked(b, pick)
  {
    if a != [] {
      assert (a + b)[1..] == a[1..] + b;
      PickedConcat(a[1..], b, pick);
    } else {
      assert a + b == b;
    }
  }

  /** Each picked value comes from an id of the list, and each id contributes what `pick` finds in it. */
  lemma {:induction false} PickedMembership(ids: seq<string>, pick: string -> Option<int>, x: int)
    ensures x in Picked(ids, pick) <==> exists id :: id in ids && pick(id) == Some(x)
  {
    if ids != [] {
      PickedMembership(ids[1..], pick, x);
      assert forall id :: id in ids <==> id == ids[0] || id in ids[1..];
    }
  }

  /** An id made of `node` and a rest starts with `node`, and its suffix is what `parseInt` reads in the rest. */
  lemma SuffixOfPrefixed(rest: string)
    ensures StartsWith(Prefix + rest, Prefix)
    ensures SuffixOf(Prefix + rest) == ParseInt(rest)
  {
    var id := Prefix + rest;
    assert id[..|Prefix|] == Prefix;
    RemoveFirstOfPrefix(id, Prefix);
    assert id[|Prefix|..] == rest;
  }

  /** The id `node<n>` starts with `node` and its suffix reads back as `n`. */
  lemma SuffixOfNodeId(n: nat)
    ensures StartsWith(NodeId(n), Prefix)
    ensures SuffixOf(NodeId(n)) == Some(n)
  {
    SuffixOfPrefixed(Decimal(n));
    ParseDecimal(n);
  }

  /** When `pick` finds `ns[i]` in each `ids[i]`, the picked values are `ns`. */
  lemma {:induction false} PickedAll(ids: seq<string>, pick: string -> Option<int>, ns: seq<int>)
    requires |ids| == |ns| && forall i :: 0 <= i < |ids| ==> pick(ids[i]) == Some(ns[i])
    ensures Picked(ids, pick) == ns
  {
    if ids != [] {
      PickedAll(ids[1..], pick, ns[1..]);
    }
  }

  /** The picked values of a list split around position `j`. */
  lemma PickedSplit(b: seq<string>, j: nat, pick: string -> Option<int>)
    requires j < |b|
    ensures Picked(b, pick) == Picked(b[..j], pick) + Picked([b[j]], pick) + Picked(b[j + 1..], pick)
  {
    var left, x, right := b[..j], b[j], b[j + 1..];
    SplitAt(b, j);
    PickedConcat(left + [x], right, pick);
    PickedConcat(left, [x], pick);
  }

  /** A list is its part before `j`, its element at `j` and its part after `j`; used by `PickedSplit`. */
  lemma SplitAt<T>(b: seq<T>, j: nat)
    requires j < |b|
    ensures b == (b[..j] + [b[j]]) + b[j + 1..]
  {
  }

  /** Moving the middle part of a concatenation to the front keeps its multiset; used by `PickedWithout`. */
  lemma MultisetMiddle(p: seq<int>, q: seq<int>, r: seq<int>)
    ensures multiset(p + q + r) == multiset(q) + multiset(p + r)
  {
  }

  /** Taking one id out of the list takes what was picked from it out of the picked values. */
  lemma PickedWithout(b: seq<string>, j: nat, pick: string -> Option<int>)
    requires j < |b|
    ensures multiset(Picked(b, pick))
      == multiset(Picked([b[j]], pick)) + multiset(Picked(b[..j] + b[j + 1..], pick))
  {
    PickedSplit(b, j, pick);
    PickedConcat(b[..j], b[j + 1..], pick);
    MultisetMiddle(Picked(b[..j], pick), Picked([b[j]], pick), Picked(b[j + 1..], pick));
  }

  /** Rearranging the ids rearranges the picked values. */
  lemma {:induction false} PickedPermutation(a: seq<string>, b: seq<string>, pick: string -> Option<int>)
    requires multiset(a) == multiset(b)
    ensures multiset(Picked(a, pick)) == multiset(Picked(b, pick))
  {
    if a == [] {
      assert |b| == |multiset(b)| == 0;
    } else {
      var x := a[0];
      assert x in multiset(b);
      var j :| 0 <= j < |b| && b[j] == x;
      var rest := b[..j] + b[j + 1..];
      RemoveMatching(a, b, j);
      PickedWithout(b, j, pick);
      PickedPermutation(a[1..], rest, pick);
      assert a == [x] + a[1..];
      PickedConcat([x], a[1..], pick);
    }
  }

  /** The id `node0<n>`: `node<n>` with a zero before the number. */
  function PaddedNodeId(n: nat): string {
    Prefix + "0" + Decimal(n)
  }

  /** When each id starts with `node` followed by the number `ns[i]`, the suffixes are `ns`. */
  lemma SuffixesAre(ids: seq<string>, ns: seq<int>)
    requires |ids| == |ns|
    requires forall i :: 0 <= i < |ids| ==> StartsWith(ids[i], Prefix) && SuffixOf(ids[i]) == Some(ns[i])
    ensures SuffixesParse(ids) && Suffixes(ids) == ns
  {
    PickedAll(ids, Pick, ns);
  }

  /** `node0<n>` is a different id from `node<n>` with the same suffix `n`. */
  lemma PaddedSuffix(n: nat)
    ensures PaddedNodeId(n) != NodeId(n)
    ensures StartsWith(PaddedNodeId(n), Prefix) && SuffixOf(PaddedNodeId(n)) == Some(n)
  {
    assert |PaddedNodeId(n)| == |NodeId(n)| + 1;
    assert PaddedNodeId(n) == Prefix + ("0" + Decimal(n));
    SuffixOfPrefixed("0" + Decimal(n));
    ParseZeroPadded(n);
  }

  /** The ids `node<n>` for the numbers `ns`, in order. */
  function NodeIdList(ns: seq<nat>): (ids: seq<string>)
    ensures |ids| == |ns| && forall i :: 0 <= i < |ns| ==> ids[i] == NodeId(ns[i])
  {
    seq(|ns|, i requires 0 <= i < |ns| => NodeId(ns[i]))
  }

  /** The suffixes of `node<n1>, node<n2>, ...` are `n1, n2, ...`. */
  lemma {:induction false} SuffixesOfNodeIds(ns: seq<nat>)
    ensures SuffixesParse(NodeIdList(ns))
    ensures Suffixes(NodeIdList(ns)) == ns
  {
    var ids := NodeIdList(ns);
    assert SuffixesParse(ids) by {
      forall id | id in ids && StartsWith(id, Prefix) ensures SuffixOf(id).Some? {
        var i :| 0 <= i < |ids| && ids[i] == id;
        SuffixOfNodeId(ns[i]);
      }
    }
    if ns != [] {
      SuffixOfNodeId(ns[0]);
      assert ids[1..] == NodeIdList(ns[1..]);
      SuffixesOfNodeIds(ns[1..]);
    }
  }

  /** Sorting numbers that are already ascending leaves them as they are. */
  lemma SortAscendingSorted(s: seq<int>)
    requires Ascending(s)
    ensures SortAscending(s) == s
  {
    AscendingUnique(SortAscending(s), s);
  }

  // ---------------------------------------------------------------------------
  // Properties of getNextNodeId

  /** The id returned is `node` followed by the number the label is later built from (App.tsx:85-86). */
  lemma NextIdReadsBack(ids: seq<string>)
    requires SuffixesParse(ids)
    ensures StartsWith(NodeId(NextSuffix(ids)), Prefix)
    ensures SuffixOf(NodeId(NextSuffix(ids))) == Some(NextSuffix(ids))
  {
    SuffixOfNodeId(NextSuffix(ids));
  }

  /** An id that does not start with `node` (such as `header`) has no effect, wherever it stands. */
  lemma NonNodeIdIgnored(before: seq<string>, x: string, after: seq<string>)
    requires !StartsWith(x, Prefix)
    requires SuffixesParse(before + after)
    ensures SuffixesParse(before + [x] + after)
    ensures NextSuffix(before + [x] + after) == NextSuffix(before + after)
  {
    assert SuffixesParse(before + [x] + after) by {
      forall id | id in before + [x] + after ensures id == x || id in before + after {}
    }
    PickedConcat(before, after, Pick);
    PickedConcat(before + [x], after, Pick);
    PickedConcat(before, [x], Pick);
    assert Picked([x], Pick) == [];
    assert Suffixes(before + [x] + after) == Suffixes(before + after);
  }

  /** The result depends only on which ids there are, not on their order. */
  lemma OrderIndependent(a: seq<string>, b: seq<string>)
    requires SuffixesParse(a) && multiset(a) == multiset(b)
    ensures SuffixesParse(b)
    ensures NextSuffix(a) == NextSuffix(b)
  {
    assert SuffixesParse(b) by {
      forall id | id in b ensures id in a {
        assert id in multiset(b);
      }
    }
    PickedPermutation(a, b, Pick);
    AscendingUnique(SortAscending(Suffixes(a)), SortAscending(Suffixes(b)));
  }

  /** `[1, 2, ..., k]` */
  function UpTo(k: nat): (s: seq<int>)
    ensures |s| == k && forall i :: 0 <= i < k ==> s[i] == i + 1
  {
    seq(k, i requires 0 <= i < k => i + 1)
  }

  /** When the suffixes are exactly 1..k (in any order), the next id is `node<k+1>`. */
  lemma NoGapGivesNext(ids: seq<string>, k: nat)
    requires SuffixesParse(ids)
    requires multiset(Suffixes(ids)) == multiset(UpTo(k))
    ensures NextSuffix(ids) == k + 1
  {
    PairsAscending(UpTo(k));
    AscendingUnique(SortAscending(Suffixes(ids)), UpTo(k));
  }

  /** On ascending distinct positive numbers the gap search stops at the smallest missing positive. */
  lemma GapIsSmallestMissing(s: seq<int>)
    requires Ascending(s) && Distinct(s) && AllPositive(s)
    ensures GapFrom(s, 1) !in s
    ensures forall j :: 1 <= j < GapFrom(s, 1) ==> j in s
  {
    AscendingPairs(s);
    var n := GapFrom(s, 1);
    forall j | 1 <= j < n ensures j in s {
      assert s[j - 1] == j;
    }
    if n - 1 < |s| {
      assert s[n - 1] > n by {
        if n >= 2 {
          assert s[n - 2] == n - 1;
        }
      }
      forall i | 0 <= i < |s| ensures s[i] != n {
        if i >= n - 1 {
          assert s[i] >= s[n - 1];
        }
      }
    }
  }

  /**
   * When the suffixes are distinct positive numbers, the result is the smallest
   * positive number that is not a suffix.
   */
  lemma SmallestMissing(ids: seq<string>)
    requires SuffixesParse(ids)
    requires Distinct(Suffixes(ids)) && AllPositive(Suffixes(ids))
    ensures NextSuffix(ids) !in Suffixes(ids)
    ensures forall j :: 1 <= j < NextSuffix(ids) ==> j in Suffixes(ids)
  {
    var suffixes := Suffixes(ids);
    var s := SortAscending(suffixes);
    DistinctPermutation(suffixes, s);
    assert forall x :: x in s <==> x in suffixes by {
      forall x ensures x in s <==> x in suffixes {
        assert x in s <==> x in multiset(s);
      }
    }
    assert AllPositive(s) by {
      forall i | 0 <= i < |s| ensures s[i] >= 1 {
        assert s[i] in suffixes;
      }
    }
    GapIsSmallestMissing(s);
  }

  /**
   * With distinct positive suffixes the new id is fresh: no existing id equals it.
   */
  lemma NextIdIsFresh(ids: seq<string>)
    requires SuffixesParse(ids)
    requires Distinct(Suffixes(ids)) && AllPositive(Suffixes(ids))
    ensures NodeId(NextSuffix(ids)) !in ids
  {
    var n := NextSuffix(ids);
    SmallestMissing(ids);
    if NodeId(n) in ids {
      SuffixOfNodeId(n);
      PickedMembership(ids, Pick, n);
    }
  }
}
