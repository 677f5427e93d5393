/**
 * `sorted(symptoms.items(), key=lambda x: x[1], reverse=True)[:5]` from
 * backend/app/pipeline.py: a stable sort of the tally by descending count,
 * then its first five pairs.
 */
module Ranking {
  import opened Tally

  predicate SortedByCountDesc(c: Counts) {
    forall i, j :: 0 <= i < j < |c| ==> c[i].1 >= c[j].1
  }

  /** The pairs of `c` whose count is `v`, in their order in `c`. */
  function WithCount(c: Counts, v: nat): Counts {
    if c == [] then []
    else if c[0].1 == v then [c[0]] + WithCount(c[1..], v)
    else WithCount(c[1..], v)
  }

  /** Places `x` after every pair whose count is at least its own. */
  function Insert(x: (string, nat), s: Counts): (r: Counts)
    ensures |r| == |s| + 1
    ensures multiset(r) == multiset(s) + multiset{x}
  {
    if s == [] then [x]
    else if s[0].1 < x.1 then [x] + s
    else
      assert s == [s[0]] + s[1..];
      [s[0]] + Insert(x, s[1..])
  }

  lemma {:induction false} InsertBounded(x: (string, nat), s: Counts, m: nat)
    requires x.1 <= m
    requires forall i :: 0 <= i < |s| ==> s[i].1 <= m
    ensures forall i :: 0 <= i < |Insert(x, s)| ==> Insert(x, s)[i].1 <= m
    decreases |s|
  {
    if s != [] && s[0].1 >= x.1 {
      InsertBounded(x, s[1..], m);
      assert Insert(x, s) == [s[0]] + Insert(x, s[1..]);
    }
  }

  lemma {:induction false} InsertSorted(x: (string, nat), s: Counts)
    requires SortedByCountDesc(s)
    ensures SortedByCountDesc(Insert(x, s))
    decreases |s|
  {
    if s != [] && s[0].1 >= x.1 {
      var r' := Insert(x, s[1..]);
      InsertSorted(x, s[1..]);
      InsertBounded(x, s[1..], s[0].1);
      assert Insert(x, s) == [s[0]] + r';
    }
  }

  /** `sorted(c, key=count, reverse=True)`, one pair at a time from the front. */
  function SortByCount(c: Counts): (r: Counts)
    ensures |r| == |c|
    ensures SortedByCountDesc(r)
    ensures multiset(r) == multiset(c)
    decreases |c|
  {
    if c == [] then []
    else
      var init := c[..|c| - 1];
      assert c == init + [c[|c| - 1]];
      InsertSorted(c[|c| - 1], SortByCount(init));
      Insert(c[|c| - 1], SortByCount(init))
  }

  /** The `[:5]` slice of the sorted tally. */
  function TopFive(c: Counts): (r: Counts)
    ensures |r| == if |c| < 5 then |c| else 5
    ensures r == SortByCount(c)[..|r|]
  {
    var s := SortByCount(c);
    if |s| <= 5 then
      assert s[..|s|] == s;
      s
    else s[..5]
  }

  /**
   * The five pairs with the highest counts: sorted, taken from the tally, and no
   * pair left out counts more than the last one kept.
   */
  lemma TopFiveIsTop(c: Counts)
    ensures SortedByCountDesc(TopFive(c))
    ensures multiset(TopFive(c)) <= multiset(c)
    ensures forall p :: p in c && p !in TopFive(c) ==> |TopFive(c)| == 5 && p.1 <= TopFive(c)[4].1
  {
    var s := SortByCount(c);
    var r := TopFive(c);
    assert s == r + s[|r|..];
    assert multiset(s) == multiset(r) + multiset(s[|r|..]);
    forall p | p in c && p !in r
      ensures |r| == 5 && p.1 <= r[4].1
    {
      LeftOutOfTopFive(c, p);
    }
  }

  /** A pair of the tally that is not among the top five follows them in the sorted tally. */
  lemma LeftOutOfTopFive(c: Counts, p: (string, nat))
    requires p in c && p !in TopFive(c)
    ensures |TopFive(c)| == 5 && p.1 <= TopFive(c)[4].1
  {
    var s := SortByCount(c);
    var r := TopFive(c);
    assert p in multiset(s);
    var j :| 0 <= j < |s| && s[j] == p;
    assert j >= |r|;
  }

  // ---------------------------------------------------------------------------
  // Stability: pairs with equal counts keep their order
  // ---------------------------------------------------------------------------

  lemma {:induction false} WithCountConcat(a: Counts, b: Counts, v: nat)
    ensures WithCount(a + b, v) == WithCount(a, v) + WithCount(b, v)
    decreases |a|
  {
    if a == [] {
      assert a + b == b;
    } else {
      assert (a + b)[1..] == a[1..] + b;
      WithCountConcat(a[1..], b, v);
    }
  }

  lemma {:induction false} NoneWithLargerCount(s: Counts, v: nat)
    requires forall i :: 0 <= i < |s| ==> s[i].1 < v
    ensures WithCount(s, v) == []
    decreases |s|
  {
    if s != [] {
      NoneWithLargerCount(s[1..], v);
    }
  }

  lemma {:induction false} WithCountInsert(x: (string, nat), s: Counts, v: nat)
    requires SortedByCountDesc(s)
    ensures WithCount(Insert(x, s), v) == WithCount(s, v) + (if x.1 == v then [x] else [])
    decreases |s|
  {
    if s == [] {
    } else if s[0].1 < x.1 {
      assert Insert(x, s) == [x] + s;
      if x.1 == v {
        assert forall i :: 0 <= i < |s| ==> s[i].1 <= s[0].1;
        NoneWithLargerCount(s, v);
      }
    } else {
      WithCountInsert(x, s[1..], v);
      assert Insert(x, s) == [s[0]] + Insert(x, s[1..]);
    }
  }

  lemma StableStep(init: Counts, x: (string, nat), s: Counts, v: nat)
    requires SortedByCountDesc(s)
    requires WithCount(s, v) == WithCount(init, v)
    ensures WithCount(Insert(x, s), v) == WithCount(init + [x], v)
  {
    WithCountInsert(x, s, v);
    WithCountConcat(init, [x], v);
    assert WithCount([x], v) == if x.1 == v then [x] else [];
  }

  /**
   * Python's sort is stable, also with `reverse=True`: for every count, the
   * pairs with that count appear in the sorted list in their original order.
   */
  lemma {:induction false} SortIsStable(c: Counts, v: nat)
    ensures WithCount(SortByCount(c), v) == WithCount(c, v)
    decreases |c|
  {
    if c != [] {
      var init := c[..|c| - 1];
      var x := c[|c| - 1];
      SortIsStable(init, v);
      StableStep(init, x, SortByCount(init), v);
      assert c == init + [x];
    }
  }
}
