/**
 * `Counter(values).most_common()`: a tally of the values in first-seen order,
 * then a stable sort of the tally by count, largest first.
 */
module Ranking {

  /** A (value, count) pair as `most_common()` yields it. */
  type Entry<T> = (T, nat)

  function Keys<T>(t: seq<Entry<T>>): seq<T>
  {
    seq(|t|, i requires 0 <= i < |t| => t[i].0)
  }

  /** The sum of the counts. */
  function Total<T>(t: seq<Entry<T>>): nat
  {
    if t == [] then 0 else t[0].1 + Total(t[1..])
  }

  predicate DistinctKeys<T(==)>(t: seq<Entry<T>>)
  {
    forall i, j :: 0 <= i < j < |t| ==> t[i].0 != t[j].0
  }

  /** The position of the first occurrence of `x`. */
  function FirstIndex<T(==)>(xs: seq<T>, x: T): (k: nat)
    requires x in xs
    ensures k < |xs| && xs[k] == x && x !in xs[..k]
  {
    if xs[0] == x then 0 else 1 + FirstIndex(xs[1..], x)
  }

  // ---------------------------------------------------------------------------
  // Counter: counting in first-seen order
  // ---------------------------------------------------------------------------

  lemma {:induction false} TotalAppend<T>(t: seq<Entry<T>>, e: Entry<T>)
    ensures Total(t + [e]) == Total(t) + e.1
  {
    if t != [] {
      assert (t + [e])[1..] == t[1..] + [e];
      TotalAppend(t[1..], e);
    }
  }

  lemma {:induction false} TotalUpdate<T>(t: seq<Entry<T>>, k: nat, e: Entry<T>)
    requires k < |t|
    ensures Total(t[k := e]) + t[k].1 == Total(t) + e.1
  {
    if k > 0 {
      assert t[k := e][1..] == t[1..][k - 1 := e];
      TotalUpdate(t[1..], k - 1, e);
    }
  }

  /** One `counter[x] += 1` on an insertion-ordered dictionary: bump an existing key in place, or append a new one. */
  function Bump<T(==)>(t: seq<Entry<T>>, x: T): (r: seq<Entry<T>>)
    requires DistinctKeys(t)
    ensures |r| == if x in Keys(t) then |t| else |t| + 1
    ensures forall i :: 0 <= i < |t| ==> r[i] == (t[i].0, if t[i].0 == x then t[i].1 + 1 else t[i].1)
    ensures x !in Keys(t) ==> r[|t|] == (x, 1)
    ensures DistinctKeys(r)
    ensures Total(r) == Total(t) + 1
  {
    if x in Keys(t) then
      var k := FirstIndex(Keys(t), x);
      assert t[k].0 == x;
      TotalUpdate(t, k, (x, t[k].1 + 1));
      t[k := (x, t[k].1 + 1)]
    else
      assert forall i :: 0 <= i < |t| ==> t[i].0 != x by {
        forall i | 0 <= i < |t| ensures t[i].0 != x { assert Keys(t)[i] == t[i].0; }
      }
      TotalAppend(t, (x, 1));
      t + [(x, 1)]
  }

  /** `Counter(xs)`: the values of `xs` counted one after the other. */
  function Tally<T(==)>(xs: seq<T>): (t: seq<Entry<T>>)
    ensures DistinctKeys(t)
    decreases |xs|
  {
    if xs == [] then [] else Bump(Tally(xs[..|xs| - 1]), xs[|xs| - 1])
  }

  /** `t` holds every value of `xs` with its number of occurrences, in order of first occurrence. */
  ghost predicate IsTallyOf<T>(xs: seq<T>, t: seq<Entry<T>>)
  {
    && (forall i :: 0 <= i < |t| ==> t[i].0 in xs && t[i].1 == multiset(xs)[t[i].0])
    && (forall x :: x in xs ==> x in Keys(t))
    && (forall i, j :: 0 <= i < j < |t| ==> FirstIndex(xs, t[i].0) < FirstIndex(xs, t[j].0))
  }

  lemma FirstIndexUnique<T>(xs: seq<T>, x: T, k: nat)
    requires k < |xs| && xs[k] == x && x !in xs[..k]
    ensures FirstIndex(xs, x) == k
  {
  }

  lemma FirstIndexAppend<T>(p: seq<T>, x: T, y: T)
    requires y in p + [x]
    ensures y in p ==> FirstIndex(p + [x], y) == FirstIndex(p, y)
    ensures y !in p ==> FirstIndex(p + [x], y) == |p|
  {
    var xs := p + [x];
    if y in p {
      var k := FirstIndex(p, y);
      assert xs[..k] == p[..k];
      FirstIndexUnique(xs, y, k);
    } else {
      assert xs[..|p|] == p;
      assert xs[|p|] == y;
      FirstIndexUnique(xs, y, |p|);
    }
  }

  lemma BumpCounts<T>(p: seq<T>, x: T, t: seq<Entry<T>>)
    requires DistinctKeys(t) && IsTallyOf(p, t)
    ensures forall i :: 0 <= i < |Bump(t, x)| ==>
      Bump(t, x)[i].0 in p + [x] && Bump(t, x)[i].1 == multiset(p + [x])[Bump(t, x)[i].0]
  {
    var r := Bump(t, x);
    assert multiset(p + [x]) == multiset(p) + multiset{x};
    forall i | 0 <= i < |r|
      ensures r[i].0 in p + [x] && r[i].1 == multiset(p + [x])[r[i].0]
    {
      if i < |t| {
        assert r[i].0 == t[i].0;
      } else {
        assert x !in Keys(t);
        assert x !in p;
      }
    }
  }

  lemma BumpCovers<T>(p: seq<T>, x: T, t: seq<Entry<T>>)
    requires DistinctKeys(t) && IsTallyOf(p, t)
    ensures forall y :: y in p + [x] ==> y in Keys(Bump(t, x))
  {
    var r := Bump(t, x);
    forall y | y in p + [x]
      ensures y in Keys(r)
    {
      if y in Keys(t) {
        var k :| 0 <= k < |t| && Keys(t)[k] == y;
        assert Keys(r)[k] == y;
      } else {
        assert y !in p;
        assert Keys(r)[|t|] == y;
      }
    }
  }

  lemma BumpOrder<T>(p: seq<T>, x: T, t: seq<Entry<T>>)
    requires DistinctKeys(t) && IsTallyOf(p, t)
    requires forall i :: 0 <= i < |Bump(t, x)| ==> Bump(t, x)[i].0 in p + [x]
    ensures forall i, j :: 0 <= i < j < |Bump(t, x)| ==>
      FirstIndex(p + [x], Bump(t, x)[i].0) < FirstIndex(p + [x], Bump(t, x)[j].0)
  {
    var r := Bump(t, x);
    forall i, j | 0 <= i < j < |r|
      ensures FirstIndex(p + [x], r[i].0) < FirstIndex(p + [x], r[j].0)
    {
      FirstIndexAppend(p, x, r[i].0);
      FirstIndexAppend(p, x, r[j].0);
      assert r[i].0 == t[i].0;
      if j == |t| {
        assert x !in Keys(t);
        assert x !in p;
      } else {
        assert r[j].0 == t[j].0;
      }
    }
  }

  /** Counting the values one by one yields a tally of them: each value once, with its count, in first-seen order. */
  lemma {:induction false} TallyIsTallyOf<T>(xs: seq<T>)
    ensures IsTallyOf(xs, Tally(xs))
    ensures Total(Tally(xs)) == |xs|
    decreases |xs|
  {
    if xs != [] {
      var p, x := xs[..|xs| - 1], xs[|xs| - 1];
      assert xs == p + [x];
      TallyIsTallyOf(p);
      BumpCounts(p, x, Tally(p));
      BumpCovers(p, x, Tally(p));
      BumpOrder(p, x, Tally(p));
    }
  }

  // ---------------------------------------------------------------------------
  // most_common(): a stable sort by count, largest first
  // ---------------------------------------------------------------------------

  /** Inserts `e` before the first entry whose count does not exceed its own. */
  function Insert<T>(e: Entry<T>, s: seq<Entry<T>>): seq<Entry<T>>
  {
    if s == [] || s[0].1 <= e.1 then [e] + s else [s[0]] + Insert(e, s[1..])
  }

  /** `sorted(t, key=count, reverse=True)`, which keeps entries of equal count in their order in `t`. */
  function MostCommon<T>(t: seq<Entry<T>>): seq<Entry<T>>
  {
    if t == [] then [] else Insert(t[0], MostCommon(t[1..]))
  }

  ghost predicate NonIncreasing<T>(s: seq<Entry<T>>)
  {
    forall i, j :: 0 <= i < j < |s| ==> s[i].1 >= s[j].1
  }

  lemma {:induction false} InsertPermutes<T>(e: Entry<T>, s: seq<Entry<T>>)
    ensures multiset(Insert(e, s)) == multiset(s) + multiset{e}
    ensures Total(Insert(e, s)) == e.1 + Total(s)
  {
    if s == [] || s[0].1 <= e.1 {
      assert ([e] + s)[1..] == s;
    } else {
      InsertPermutes(e, s[1..]);
      assert s == [s[0]] + s[1..];
      assert ([s[0]] + Insert(e, s[1..]))[1..] == Insert(e, s[1..]);
    }
  }

  /** most_common() reorders the tally and nothing else. */
  lemma {:induction false} MostCommonPermutes<T>(t: seq<Entry<T>>)
    ensures multiset(MostCommon(t)) == multiset(t)
    ensures Total(MostCommon(t)) == Total(t)
  {
    if t != [] {
      MostCommonPermutes(t[1..]);
      InsertPermutes(t[0], MostCommon(t[1..]));
      assert t == [t[0]] + t[1..];
    }
  }

  lemma {:induction false} InsertNonIncreasing<T>(e: Entry<T>, s: seq<Entry<T>>)
    requires NonIncreasing(s)
    ensures NonIncreasing(Insert(e, s))
  {
    if !(s == [] || s[0].1 <= e.1) {
      InsertNonIncreasing(e, s[1..]);
      InsertPermutes(e, s[1..]);
      var r := Insert(e, s);
      forall j | 1 <= j < |r| ensures s[0].1 >= r[j].1 {
        var y := r[j];
        assert y in multiset(Insert(e, s[1..]));
        if y != e {
          assert y in s[1..];
        }
      }
    }
  }

  /** The counts in the output of most_common() never increase from left to right. */
  lemma {:induction false} MostCommonNonIncreasing<T>(t: seq<Entry<T>>)
    ensures NonIncreasing(MostCommon(t))
  {
    if t != [] {
      MostCommonNonIncreasing(t[1..]);
      InsertNonIncreasing(t[0], MostCommon(t[1..]));
    }
  }

  /** Sorting an already sorted list changes nothing. */
  lemma {:induction false} MostCommonOfSorted<T>(t: seq<Entry<T>>)
    requires NonIncreasing(t)
    ensures MostCommon(t) == t
  {
    if t != [] {
      MostCommonOfSorted(t[1..]);
      assert t == [t[0]] + t[1..];
    }
  }

  /** Applying most_common() to its own output gives the same list. */
  lemma MostCommonIdempotent<T>(t: seq<Entry<T>>)
    ensures MostCommon(MostCommon(t)) == MostCommon(t)
  {
    MostCommonNonIncreasing(t);
    MostCommonOfSorted(MostCommon(t));
  }

  // ---------------------------------------------------------------------------
  // The ranking order: count descending, then first occurrence ascending
  // ---------------------------------------------------------------------------

  /** `a` comes strictly before `b`: a larger count, or the same count and an earlier first occurrence. */
  ghost predicate Before<T>(xs: seq<T>, a: Entry<T>, b: Entry<T>)
    requires a.0 in xs && b.0 in xs
  {
    a.1 > b.1 || (a.1 == b.1 && FirstIndex(xs, a.0) < FirstIndex(xs, b.0))
  }

  ghost predicate RankedBy<T>(xs: seq<T>, s: seq<Entry<T>>)
  {
    && (forall i :: 0 <= i < |s| ==> s[i].0 in xs)
    && (forall i, j :: 0 <= i < j < |s| ==> Before(xs, s[i], s[j]))
  }

  lemma ConsRanked<T>(xs: seq<T>, h: Entry<T>, s: seq<Entry<T>>)
    requires h.0 in xs && RankedBy(xs, s)
    requires forall i :: 0 <= i < |s| ==> Before(xs, h, s[i])
    ensures RankedBy(xs, [h] + s)
  {
    var r := [h] + s;
    forall i, j | 0 <= i < j < |r| ensures Before(xs, r[i], r[j]) {
      if i > 0 {
        assert r[i] == s[i - 1] && r[j] == s[j - 1];
      }
    }
  }

  lemma {:induction false} InsertRanked<T>(xs: seq<T>, e: Entry<T>, s: seq<Entry<T>>)
    requires e.0 in xs && RankedBy(xs, s)
    requires forall i :: 0 <= i < |s| ==> FirstIndex(xs, e.0) < FirstIndex(xs, s[i].0)
    ensures RankedBy(xs, Insert(e, s))
  {
    if s == [] || s[0].1 <= e.1 {
      forall i | 0 <= i < |s| ensures Before(xs, e, s[i]) {
        if i > 0 {
          assert Before(xs, s[0], s[i]);
        }
      }
      ConsRanked(xs, e, s);
    } else {
      var rest := Insert(e, s[1..]);
      InsertRanked(xs, e, s[1..]);
      InsertPermutes(e, s[1..]);
      forall j | 0 <= j < |rest| ensures Before(xs, s[0], rest[j]) {
        var y := rest[j];
        assert y in multiset(rest);
        if y != e {
          assert y in s[1..];
          var k :| 0 <= k < |s[1..]| && s[1..][k] == y;
          assert s[k + 1] == y;
          assert Before(xs, s[0], s[k + 1]);
        }
      }
      ConsRanked(xs, s[0], rest);
    }
  }

  /** most_common() is stable: a tally in first-seen order comes out ranked by count, ties in first-seen order. */
  lemma {:induction false} MostCommonRanked<T>(xs: seq<T>, t: seq<Entry<T>>)
    requires forall i :: 0 <= i < |t| ==> t[i].0 in xs
    requires forall i, j :: 0 <= i < j < |t| ==> FirstIndex(xs, t[i].0) < FirstIndex(xs, t[j].0)
    ensures RankedBy(xs, MostCommon(t))
  {
    if t != [] {
      var rest := MostCommon(t[1..]);
      MostCommonRanked(xs, t[1..]);
      MostCommonPermutes(t[1..]);
      forall i | 0 <= i < |rest| ensures FirstIndex(xs, t[0].0) < FirstIndex(xs, rest[i].0) {
        assert rest[i] in multiset(t[1..]);
        var k :| 0 <= k < |t[1..]| && t[1..][k] == rest[i];
        assert t[k + 1] == rest[i];
      }
      InsertRanked(xs, t[0], rest);
    }
  }

  // ---------------------------------------------------------------------------
  // The ranking as a whole
  // ---------------------------------------------------------------------------

  /** `Counter(xs).most_common()`. */
  function Rank<T(==)>(xs: seq<T>): seq<Entry<T>>
  {
    MostCommon(Tally(xs))
  }

  /**
   * What a ranking of `xs` is, independently of how it is computed: every
   * entry is a value of `xs` with its number of occurrences, every value of
   * `xs` has an entry, and the entries are ordered by count, largest first,
   * ties by first occurrence.
   */
  ghost predicate IsRankingOf<T>(xs: seq<T>, s: seq<Entry<T>>)
  {
    && (forall i :: 0 <= i < |s| ==> s[i].0 in xs && s[i].1 == multiset(xs)[s[i].0])
    && (forall x :: x in xs ==> x in Keys(s))
    && RankedBy(xs, s)
  }

  /** Reordering a tally keeps every entry's meaning: each is still a value with its count, and every value still has one. */
  lemma PermutedTally<T>(xs: seq<T>, t: seq<Entry<T>>, r: seq<Entry<T>>)
    requires IsTallyOf(xs, t) && multiset(r) == multiset(t)
    ensures forall i :: 0 <= i < |r| ==> r[i].0 in xs && r[i].1 == multiset(xs)[r[i].0]
    ensures forall x :: x in xs ==> x in Keys(r)
  {
    forall i | 0 <= i < |r| ensures r[i].0 in xs && r[i].1 == multiset(xs)[r[i].0] {
      assert r[i] in multiset(t);
      var k :| 0 <= k < |t| && t[k] == r[i];
    }
    forall x | x in xs ensures x in Keys(r) {
      var k :| 0 <= k < |t| && Keys(t)[k] == x;
      assert t[k] in multiset(r);
      var m :| 0 <= m < |r| && r[m] == t[k];
      assert Keys(r)[m] == x;
    }
  }

  lemma RankIsRanking<T>(xs: seq<T>)
    ensures IsRankingOf(xs, Rank(xs))
    ensures Total(Rank(xs)) == |xs|
  {
    var t := Tally(xs);
    TallyIsTallyOf(xs);
    MostCommonPermutes(t);
    MostCommonRanked(xs, t);
    PermutedTally(xs, t, Rank(xs));
  }

  /** The head of a ranked list comes before every other entry. */
  lemma HeadBefore<T>(xs: seq<T>, s: seq<Entry<T>>, k: nat)
    requires RankedBy(xs, s) && k < |s|
    ensures s[0] == s[k] || Before(xs, s[0], s[k])
  {
    if k != 0 {
      assert Before(xs, s[0], s[k]);
    }
  }

  /** Two lists strictly ordered by `Before` with the same elements are the same list. */
  lemma {:induction false} RankedUnique<T>(xs: seq<T>, a: seq<Entry<T>>, b: seq<Entry<T>>)
    requires RankedBy(xs, a) && RankedBy(xs, b)
    requires forall y :: y in a <==> y in b
    ensures a == b
    decreases |a|
  {
    assert |b| > 0 ==> b[0] in b;
    if a != [] {
      assert a[0] in a;
      var k :| 0 <= k < |b| && b[k] == a[0];
      assert b[0] in b;
      var m :| 0 <= m < |a| && a[m] == b[0];
      HeadBefore(xs, b, k);
      HeadBefore(xs, a, m);
      assert a[0] == b[0];
      forall y ensures y in a[1..] <==> y in b[1..] {
        if y in a[1..] {
          var i :| 0 <= i < |a[1..]| && a[1..][i] == y;
          assert Before(xs, a[0], a[i + 1]);
          assert y in b;
          var j :| 0 <= j < |b| && b[j] == y;
          assert j != 0;
          assert b[1..][j - 1] == y;
        }
        if y in b[1..] {
          var i :| 0 <= i < |b[1..]| && b[1..][i] == y;
          assert Before(xs, b[0], b[i + 1]);
          assert y in a;
          var j :| 0 <= j < |a| && a[j] == y;
          assert j != 0;
          assert a[1..][j - 1] == y;
        }
      }
      RankedUnique(xs, a[1..], b[1..]);
      assert a == [a[0]] + a[1..] && b == [b[0]] + b[1..];
    }
  }

  /** `Rank(xs)` is the one and only ranking of `xs`. */
  lemma RankCharacterization<T>(xs: seq<T>, s: seq<Entry<T>>)
    ensures IsRankingOf(xs, s) <==> s == Rank(xs)
  {
    var r := Rank(xs);
    RankIsRanking(xs);
    if IsRankingOf(xs, s) {
      forall y ensures y in s <==> y in r {
        if y in s {
          var i :| 0 <= i < |s| && s[i] == y;
          assert y.0 in Keys(r);
          var m :| 0 <= m < |r| && Keys(r)[m] == y.0;
          assert r[m] == y;
        }
        if y in r {
          var i :| 0 <= i < |r| && r[i] == y;
          assert y.0 in Keys(s);
          var m :| 0 <= m < |s| && Keys(s)[m] == y.0;
          assert s[m] == y;
        }
      }
      RankedUnique(xs, s, r);
    }
  }

  /** Each distinct value appears exactly once in the ranking. */
  lemma RankDistinct<T>(xs: seq<T>)
    ensures DistinctKeys(Rank(xs))
  {
    var r := Rank(xs);
    RankIsRanking(xs);
    forall i, j | 0 <= i < j < |r| ensures r[i].0 != r[j].0 {
      assert Before(xs, r[i], r[j]);
    }
  }

  /** Every count is at least one, and the counts add up to the number of values. */
  lemma RankCountsPositive<T>(xs: seq<T>)
    ensures forall i :: 0 <= i < |Rank(xs)| ==> Rank(xs)[i].1 >= 1
    ensures Total(Rank(xs)) == |xs|
  {
    var r := Rank(xs);
    RankIsRanking(xs);
    forall i | 0 <= i < |r| ensures r[i].1 >= 1 {
      assert r[i].0 in multiset(xs);
    }
  }

  /** No values, no entries; some values, some entries. */
  lemma RankEmpty<T>(xs: seq<T>)
    ensures Rank(xs) == [] <==> xs == []
  {
    RankIsRanking(xs);
    if xs != [] {
      assert xs[0] in xs;
      assert xs[0] in Keys(Rank(xs));
    }
  }

  /** Two different values, once each: they keep their order. */
  lemma RankTwoDistinct<T>(a: T, b: T)
    requires a != b
    ensures Rank([a, b]) == [(a, 1), (b, 1)]
  {
    assert [a, b][..1] == [a] && [a][..0] == [];
    assert Tally([a]) == [(a, 1)];
    assert Tally([a, b]) == Bump([(a, 1)], b) == [(a, 1), (b, 1)];
    assert MostCommon([(b, 1)]) == [(b, 1)];
  }

  /** Equal counts keep first-seen order. */
  lemma RankTieExample()
    ensures Rank(["India", "Thailand"]) == [("India", 1), ("Thailand", 1)]
  {
    assert "India"[0] != "Thailand"[0];
    RankTwoDistinct("India", "Thailand");
  }

  /** A value seen twice outranks one seen once after it. */
  lemma RankTwiceThenOnce<T>(a: T, b: T)
    requires a != b
    ensures Rank([a, a, b]) == [(a, 2), (b, 1)]
  {
    var xs := [a, a, b];
    assert xs[..2] == [a, a] && [a, a][..1] == [a] && [a][..0] == [];
    assert Tally([a]) == [(a, 1)];
    assert Keys([(a, 1)]) == [a];
    assert Tally([a, a]) == Bump([(a, 1)], a) == [(a, 2)];
    assert Keys([(a, 2)]) == [a];
    assert Tally(xs) == Bump([(a, 2)], b) == [(a, 2), (b, 1)];
    assert MostCommon([(b, 1)]) == [(b, 1)];
  }

  /** A value seen twice outranks one seen once before it. */
  lemma RankOnceThenTwice<T>(a: T, b: T)
    requires a != b
    ensures Rank([b, a, a]) == [(a, 2), (b, 1)]
  {
    var ys := [b, a, a];
    assert ys[..2] == [b, a] && [b, a][..1] == [b] && [b][..0] == [];
    assert Tally([b]) == [(b, 1)];
    assert Keys([(b, 1)]) == [b];
    assert Tally([b, a]) == Bump([(b, 1)], a) == [(b, 1), (a, 1)];
    assert Keys([(b, 1), (a, 1)]) == [b, a];
    assert FirstIndex([b, a], a) == 1 by { assert [b, a][1..] == [a]; }
    assert Tally(ys) == Bump([(b, 1), (a, 1)], a) == [(b, 1), (a, 2)];
    var t := [(b, 1), (a, 2)];
    assert t[1..] == [(a, 2)] && [(a, 2)][1..] == [];
    assert MostCommon([(a, 2)]) == [(a, 2)];
    assert Insert((b, 1), [(a, 2)]) == [(a, 2)] + Insert((b, 1), []);
  }

  /** A larger count comes first. */
  lemma RankCountExample()
    ensures Rank(["India", "India", "Thailand"]) == [("India", 2), ("Thailand", 1)]
  {
    assert "India"[0] != "Thailand"[0];
    RankTwiceThenOnce("India", "Thailand");
  }

  /** A larger count comes first even when its value was seen later. */
  lemma RankReorderExample()
    ensures Rank(["Thailand", "India", "India"]) == [("India", 2), ("Thailand", 1)]
  {
    assert "India"[0] != "Thailand"[0];
    RankOnceThenTwice("India", "Thailand");
  }
}
