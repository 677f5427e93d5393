/**
 * Python's insertion-ordered `dict[str, int]` as the counters of
 * backend/app/pipeline.py use it: `d[k] = d.get(k, 0) + 1` on a dictionary
 * whose `items()` are later listed in insertion order.
 */
module Tally {

  /** The `(key, count)` pairs in insertion order. */
  type Counts = seq<(string, nat)>

  /** `list(d.keys())`. */
  function Keys(c: Counts): (r: seq<string>)
    ensures |r| == |c|
    ensures forall i :: 0 <= i < |c| ==> r[i] == c[i].0
  {
    seq(|c|, i requires 0 <= i < |c| => c[i].0)
  }

  predicate DistinctKeys(c: Counts) {
    forall i, j :: 0 <= i < j < |c| ==> c[i].0 != c[j].0
  }

  /** `d.get(k, 0)`. */
  function Get(c: Counts, k: string): nat {
    if c == [] then 0
    else if c[0].0 == k then c[0].1
    else Get(c[1..], k)
  }

  /** The sum of the counts, `sum(d.values())`. */
  function Sum(c: Counts): nat {
    if c == [] then 0 else c[0].1 + Sum(c[1..])
  }

  /**
   * `d[k] = d.get(k, 0) + 1`: the count of `k` goes up by one and every other
   * count stays.
   */
  function Bump(c: Counts, k: string): (r: Counts)
    ensures Get(r, k) == Get(c, k) + 1
    ensures forall j :: j != k ==> Get(r, j) == Get(c, j)
  {
    if c == [] then [(k, 1)]
    else if c[0].0 == k then [(k, c[0].1 + 1)] + c[1..]
    else [c[0]] + Bump(c[1..], k)
  }

  /** The total grows by one. */
  lemma {:induction false} BumpSum(c: Counts, k: string)
    ensures Sum(Bump(c, k)) == Sum(c) + 1
  {
    if c != [] && c[0].0 != k {
      BumpSum(c[1..], k);
    }
  }

  lemma KeysCons(p: (string, nat), c: Counts)
    ensures Keys([p] + c) == [p.0] + Keys(c)
  {
  }

  lemma KeysUncons(c: Counts)
    requires c != []
    ensures Keys(c) == [c[0].0] + Keys(c[1..])
  {
  }

  /** A key already present keeps its place; a new key is placed last. */
  lemma {:induction false} BumpKeys(c: Counts, k: string)
    ensures Keys(Bump(c, k)) == if k in Keys(c) then Keys(c) else Keys(c) + [k]
  {
    if c == [] {
    } else if c[0].0 == k {
      KeysUncons(c);
      KeysUncons(Bump(c, k));
    } else {
      var r' := Bump(c[1..], k);
      BumpKeys(c[1..], k);
      KeysUncons(c);
      assert Bump(c, k) == [c[0]] + r';
      KeysCons(c[0], r');
      assert (k in Keys(c)) == (k in Keys(c[1..]));
      if k !in Keys(c[1..]) {
        assert [c[0].0] + (Keys(c[1..]) + [k]) == ([c[0].0] + Keys(c[1..])) + [k];
      }
    }
  }

  /** No key is ever listed twice. */
  lemma BumpKeepsDistinct(c: Counts, k: string)
    requires DistinctKeys(c)
    ensures DistinctKeys(Bump(c, k))
  {
    BumpKeys(c, k);
    var r := Bump(c, k);
    forall i, j | 0 <= i < j < |r|
      ensures r[i].0 != r[j].0
    {
      assert r[i].0 == Keys(r)[i] && r[j].0 == Keys(r)[j];
      if k !in Keys(c) && j == |c| {
        assert Keys(c)[i] == c[i].0;
      }
    }
  }
}
