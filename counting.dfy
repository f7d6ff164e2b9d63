/**
 * Python's `collections.Counter` as used by the statistics step: building a
 * counter from a sequence of strings, and `most_common(n)`.
 *
 * A counter is a dictionary, so its keys iterate in insertion order, which is
 * the order in which each value was first seen. `most_common(n)` returns the
 * `n` entries with the largest counts, largest first, and keeps entries with
 * equal counts in insertion order.
 */
module Counting {

  /** No element of `s` occurs twice. */
  ghost predicate Distinct(s: seq<string>) {
    forall i, j :: 0 <= i < j < |s| ==> s[i] != s[j]
  }

  /** The set of values that occur in `s`. */
  ghost function Elements(s: seq<string>): set<string> {
    set x | x in s
  }

  function Min(a: nat, b: nat): nat {
    if a <= b then a else b
  }

  /** The first components of a sequence of pairs, in order. */
  function Firsts<A, B>(ps: seq<(A, B)>): seq<A> {
    seq(|ps|, i requires 0 <= i < |ps| => ps[i].0)
  }

  /** The position of the first occurrence of `x` in `s`. */
  function FirstIndex(s: seq<string>, x: string): (i: nat)
    requires x in s
    ensures i < |s| && s[i] == x && x !in s[..i]
  {
    if s[0] == x then 0
    else
      var j := FirstIndex(s[1..], x);
      assert s[..j + 1] == [s[0]] + s[1..][..j];
      j + 1
  }

  /** A position that holds its value for the first time is that value's first index. */
  lemma FirstIndexAt(s: seq<string>, i: nat)
    requires i < |s| && s[i] !in s[..i]
    ensures FirstIndex(s, s[i]) == i
  {
  }

  /** Appending to a sequence does not move the first occurrence of a value already in it. */
  lemma FirstIndexExtend(p: seq<string>, x: string, y: string)
    requires y in p
    ensures FirstIndex(p + [x], y) == FirstIndex(p, y)
  {
    var i := FirstIndex(p, y);
    assert (p + [x])[..i] == p[..i];
    FirstIndexAt(p + [x], i);
  }

  /**
   * The distinct values of `s` in the order of their first occurrence: the
   * key order of a dictionary filled from `s` by insertion.
   */
  function FirstSeen(s: seq<string>): (keys: seq<string>)
    ensures Distinct(keys)
    ensures forall x :: x in keys <==> x in s
  {
    if s == [] then []
    else
      var last := s[|s| - 1];
      var earlier := FirstSeen(s[..|s| - 1]);
      assert s == s[..|s| - 1] + [last];
      if last in earlier then earlier else earlier + [last]
  }

  /** The keys of `FirstSeen(s)` are ordered by their first occurrence in `s`. */
  lemma {:induction false} FirstSeenOrder(s: seq<string>, i: nat, j: nat)
    requires i < j < |FirstSeen(s)|
    ensures FirstIndex(s, FirstSeen(s)[i]) < FirstIndex(s, FirstSeen(s)[j])
  {
    var n := |s| - 1;
    var p := s[..n];
    var last := s[n];
    var earlier := FirstSeen(p);
    assert s == p + [last];
    var a, b := FirstSeen(s)[i], FirstSeen(s)[j];
    if last in earlier || j < |earlier| {
      FirstSeenOrder(p, i, j);
      FirstIndexExtend(p, last, a);
      FirstIndexExtend(p, last, b);
    } else {
      assert b == last && last !in p;
      FirstIndexAt(s, n);
      FirstIndexExtend(p, last, a);
    }
  }

  /** Comparing positions in `FirstSeen(s)` is comparing first occurrences in `s`. */
  lemma FirstSeenOrderIff(s: seq<string>, a: string, b: string)
    requires a in s && b in s
    ensures FirstIndex(FirstSeen(s), a) < FirstIndex(FirstSeen(s), b)
            <==> FirstIndex(s, a) < FirstIndex(s, b)
  {
    var keys := FirstSeen(s);
    var ia, ib := FirstIndex(keys, a), FirstIndex(keys, b);
    if ia < ib {
      FirstSeenOrder(s, ia, ib);
    } else if ib < ia {
      FirstSeenOrder(s, ib, ia);
    }
  }

  /** A sequence without repetitions has as many distinct values as elements. */
  lemma {:induction false} DistinctCardinality(s: seq<string>)
    requires Distinct(s)
    ensures |Elements(s)| == |s|
  {
    if s != [] {
      var p := s[..|s| - 1];
      assert Distinct(p);
      DistinctCardinality(p);
      assert Elements(s) == Elements(p) + {s[|s| - 1]};
      assert s[|s| - 1] !in Elements(p);
    }
  }

  /** `FirstSeen(s)` has one key per distinct value of `s`. */
  lemma FirstSeenCardinality(s: seq<string>)
    ensures |FirstSeen(s)| == |Elements(s)|
  {
    assert Elements(FirstSeen(s)) == Elements(s);
    DistinctCardinality(FirstSeen(s));
  }

  /** A counter: a dictionary from value to count, with its keys in insertion order. */
  datatype Counter = Counter(keys: seq<string>, counts: map<string, nat>)
  {
    ghost predicate Valid() {
      && Distinct(keys)
      && (forall x :: x in counts <==> x in keys)
      && (forall x :: x in counts ==> counts[x] >= 1)
    }
  }

  /** `c` is what `Counter(s)` builds. */
  ghost predicate Tallies(c: Counter, s: seq<string>) {
    && c.keys == FirstSeen(s)
    && (forall x :: x in c.counts <==> x in s)
    && (forall x :: x in c.counts ==> c.counts[x] == multiset(s)[x])
  }

  /**
   * `Counter(s)`: tallies the values of `s` one at a time, adding a key the
   * first time a value is seen and incrementing its count after that.
   */
  method Count(s: seq<string>) returns (c: Counter)
    ensures c.Valid()
    ensures c.keys == FirstSeen(s)
    ensures forall x :: x in c.counts <==> x in s
    ensures forall x :: x in c.counts ==> c.counts[x] == multiset(s)[x]
  {
    var keys: seq<string> := [];
    var counts: map<string, nat> := map[];
    for i := 0 to |s|
      invariant keys == FirstSeen(s[..i])
      invariant forall x :: x in counts <==> x in s[..i]
      invariant forall x :: x in counts ==> counts[x] == multiset(s[..i])[x]
    {
      var x := s[i];
      assert s[..i + 1][..i] == s[..i];
      assert s[..i + 1] == s[..i] + [x];
      if x in counts {
        counts := counts[x := counts[x] + 1];
      } else {
        keys := keys + [x];
        counts := counts[x := 1];
      }
    }
    assert s[..|s|] == s;
    c := Counter(keys, counts);
  }

  /**
   * `a` comes before `b` in `c.most_common()`: it has the larger count, or
   * the same count and the earlier key.
   */
  ghost predicate Outranks(c: Counter, a: string, b: string) {
    && a in c.counts && b in c.counts && a in c.keys && b in c.keys
    && (|| c.counts[a] > c.counts[b]
        || (c.counts[a] == c.counts[b] && FirstIndex(c.keys, a) < FirstIndex(c.keys, b)))
  }

  /**
   * What `c.most_common(n)` returns: `min(n, len(c))` entries, each a key with
   * its count, ranked by `Outranks`, and ranked above every key left out.
   */
  ghost predicate IsMostCommon(c: Counter, n: nat, top: seq<(string, nat)>) {
    && |top| == Min(n, |c.keys|)
    && (forall i :: 0 <= i < |top| ==> top[i].0 in c.counts && top[i].1 == c.counts[top[i].0])
    && (forall i, j :: 0 <= i < j < |top| ==> Outranks(c, top[i].0, top[j].0))
    && (forall i, x :: 0 <= i < |top| && x in c.counts && x !in Firsts(top) ==> Outranks(c, top[i].0, x))
  }

  /** In a valid counter every key is its own first index. */
  lemma KeyPositions(c: Counter)
    requires c.Valid()
    ensures forall m :: 0 <= m < |c.keys| ==> FirstIndex(c.keys, c.keys[m]) == m
  {
  }

  /** `rs` is strictly increasing and every element is below `bound`. */
  ghost predicate AscendingBelow(rs: seq<nat>, bound: nat) {
    && (forall a, b :: 0 <= a < b < |rs| ==> rs[a] < rs[b])
    && (forall k :: 0 <= k < |rs| ==> rs[k] < bound)
  }

  /**
   * Scans the positions `remaining` of not yet taken keys, in insertion
   * order, for the first one whose count is largest.
   */
  method FirstLargest(c: Counter, remaining: seq<nat>) returns (b: nat)
    requires c.Valid() && AscendingBelow(remaining, |c.keys|) && remaining != []
    ensures b < |remaining|
    ensures forall k :: 0 <= k < |remaining| && k != b ==>
      Outranks(c, c.keys[remaining[b]], c.keys[remaining[k]])
  {
    KeyPositions(c);
    b := 0;
    for j := 1 to |remaining|
      invariant b < j
      invariant forall k :: 0 <= k < j && k != b ==>
        Outranks(c, c.keys[remaining[b]], c.keys[remaining[k]])
    {
      if c.counts[c.keys[remaining[j]]] > c.counts[c.keys[remaining[b]]] {
        b := j;
      }
    }
  }

  /**
   * The state of the selection in `MostCommon`: `top` holds the keys at
   * positions `picked`, ranked and ranked above every key whose position is
   * still in `remaining`; every position is in one of the two.
   */
  ghost predicate Selecting(c: Counter, top: seq<(string, nat)>, picked: seq<nat>, remaining: seq<nat>) {
    && c.Valid()
    && |top| == |picked|
    && |top| + |remaining| == |c.keys|
    && AscendingBelow(remaining, |c.keys|)
    && (forall i :: 0 <= i < |picked| ==>
         picked[i] < |c.keys| && top[i] == (c.keys[picked[i]], c.counts[c.keys[picked[i]]]))
    && (forall m :: 0 <= m < |c.keys| ==> m in remaining || m in picked)
    && (forall i, j :: 0 <= i < j < |top| ==> Outranks(c, top[i].0, top[j].0))
    && (forall i, k :: 0 <= i < |top| && 0 <= k < |remaining| ==>
         Outranks(c, top[i].0, c.keys[remaining[k]]))
  }

  /** Moving the best remaining key to the end of `top` keeps the selection state. */
  lemma SelectionStep(c: Counter, top: seq<(string, nat)>, picked: seq<nat>, remaining: seq<nat>, b: nat)
    requires Selecting(c, top, picked, remaining)
    requires b < |remaining|
    requires forall k :: 0 <= k < |remaining| && k != b ==>
      Outranks(c, c.keys[remaining[b]], c.keys[remaining[k]])
    ensures var m := remaining[b];
      Selecting(c, top + [(c.keys[m], c.counts[c.keys[m]])], picked + [m], remaining[..b] + remaining[b + 1..])
  {
  }

  /** A finished selection is the answer of `most_common`. */
  lemma SelectionDone(c: Counter, n: nat, top: seq<(string, nat)>, picked: seq<nat>, remaining: seq<nat>)
    requires Selecting(c, top, picked, remaining)
    requires |top| <= n && (|top| == n || remaining == [])
    ensures IsMostCommon(c, n, top)
  {
    forall i, x | 0 <= i < |top| && x in c.counts && x !in Firsts(top)
      ensures Outranks(c, top[i].0, x)
    {
      var m := FirstIndex(c.keys, x);
      assert forall k :: 0 <= k < |picked| ==> Firsts(top)[k] == c.keys[picked[k]];
      assert m !in picked;
      var k :| 0 <= k < |remaining| && remaining[k] == m;
    }
  }

  /**
   * `c.most_common(n)`: repeatedly takes, among the keys not yet taken, the
   * first one in insertion order whose count is largest.
   */
  method MostCommon(c: Counter, n: nat) returns (top: seq<(string, nat)>)
    requires c.Valid()
    ensures IsMostCommon(c, n, top)
  {
    top := [];
    ghost var picked: seq<nat> := [];
    var remaining: seq<nat> := seq(|c.keys|, m => m);
    forall m | 0 <= m < |c.keys| ensures m in remaining {
      assert remaining[m] == m;
    }
    while |top| < n && remaining != []
      invariant |top| <= n
      invariant Selecting(c, top, picked, remaining)
    {
      var b := FirstLargest(c, remaining);
      var m := remaining[b];
      SelectionStep(c, top, picked, remaining, b);
      top := top + [(c.keys[m], c.counts[c.keys[m]])];
      picked := picked + [m];
      remaining := remaining[..b] + remaining[b + 1..];
    }
    SelectionDone(c, n, top, picked, remaining);
  }

  /**
   * `a` comes before `b` when `s` is counted and ranked: it occurs more often,
   * or as often and first occurs earlier.
   */
  ghost predicate Precedes(s: seq<string>, a: string, b: string) {
    && a in s && b in s
    && (|| multiset(s)[a] > multiset(s)[b]
        || (multiset(s)[a] == multiset(s)[b] && FirstIndex(s, a) < FirstIndex(s, b)))
  }

  /**
   * `top` is `Counter(s).most_common(k)`, stated on `s` alone: one entry per
   * distinct value up to `k`, each with its number of occurrences, ranked by
   * `Precedes` and ranked above every value left out.
   */
  ghost predicate IsRanking(s: seq<string>, k: nat, top: seq<(string, nat)>) {
    && |top| == Min(k, |Elements(s)|)
    && (forall i :: 0 <= i < |top| ==> top[i].0 in s && top[i].1 == multiset(s)[top[i].0])
    && (forall i, j :: 0 <= i < j < |top| ==> Precedes(s, top[i].0, top[j].0))
    && (forall i, x :: 0 <= i < |top| && x in s && x !in Firsts(top) ==> Precedes(s, top[i].0, x))
  }

  /** For the counter of `s`, ranking in the counter is ranking in `s`. */
  lemma OutranksIsPrecedes(c: Counter, s: seq<string>, a: string, b: string)
    requires Tallies(c, s) && a in s && b in s
    ensures Outranks(c, a, b) <==> Precedes(s, a, b)
  {
    FirstSeenOrderIff(s, a, b);
  }

  /** The most common entries of the counter of `s` are the ranking of `s`. */
  lemma MostCommonRanksSequence(c: Counter, s: seq<string>, k: nat, top: seq<(string, nat)>)
    requires c.Valid() && Tallies(c, s) && IsMostCommon(c, k, top)
    ensures IsRanking(s, k, top)
  {
    FirstSeenCardinality(s);
    forall a, b | a in s && b in s ensures Outranks(c, a, b) <==> Precedes(s, a, b) {
      OutranksIsPrecedes(c, s, a, b);
    }
  }

  /** If `top` ranks `s`, `top` reports a value at position `i` at least as high as the other ranking `other` does, when they agree before `i`. */
  lemma RankedNoLower(s: seq<string>, k: nat, top: seq<(string, nat)>, other: seq<(string, nat)>, i: nat)
    requires IsRanking(s, k, top) && IsRanking(s, k, other)
    requires i < |top| && top[..i] == other[..i]
    ensures top[i].0 == other[i].0 || Precedes(s, top[i].0, other[i].0)
  {
  }

  /** `Precedes` never holds both ways. */
  lemma PrecedesAsymmetric(s: seq<string>, a: string, b: string)
    ensures !(Precedes(s, a, b) && Precedes(s, b, a))
  {
  }

  /** Two rankings of the same sequence agree on their first `i` entries. */
  lemma {:induction false} RankingsAgree(s: seq<string>, k: nat, top1: seq<(string, nat)>, top2: seq<(string, nat)>, i: nat)
    requires IsRanking(s, k, top1) && IsRanking(s, k, top2)
    requires i <= |top1|
    ensures top1[..i] == top2[..i]
  {
    if i > 0 {
      RankingsAgree(s, k, top1, top2, i - 1);
      RankedNoLower(s, k, top1, top2, i - 1);
      RankedNoLower(s, k, top2, top1, i - 1);
      PrecedesAsymmetric(s, top1[i - 1].0, top2[i - 1].0);
      assert top1[..i] == top1[..i - 1] + [top1[i - 1]];
      assert top2[..i] == top2[..i - 1] + [top2[i - 1]];
    }
  }

  /** The ranking of a sequence is determined: at most one `top` satisfies `IsRanking`. */
  lemma RankingUnique(s: seq<string>, k: nat, top1: seq<(string, nat)>, top2: seq<(string, nat)>)
    requires IsRanking(s, k, top1) && IsRanking(s, k, top2)
    ensures top1 == top2
  {
    RankingsAgree(s, k, top1, top2, |top1|);
    assert top1 == top1[..|top1|] && top2 == top2[..|top2|];
  }
}
