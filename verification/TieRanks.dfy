/** Half-step ranks for a list of standings, and what they count. */
module TieRanks {
  import opened Sums

  /** The key a standing is ordered by: higher score first, then the lower tiebreaker. */
  datatype Key = Key(score: real, tiebreaker: real)

  predicate Better(k: Key, l: Key) {
    k.score > l.score || (k.score == l.score && k.tiebreaker < l.tiebreaker)
  }

  ghost predicate Standing(keys: seq<Key>) {
    forall i, j | 0 <= i < j < |keys| :: !Better(keys[j], keys[i])
  }

  /** The end of the run of keys equal to keys[index], as the inner loop finds it from `end`. */
  function RunEnd(keys: seq<Key>, index: nat, end: nat): (e: nat)
    requires index < end <= |keys|
    requires forall k | index <= k < end :: keys[k] == keys[index]
    ensures end <= e <= |keys|
    ensures forall k | index <= k < e :: keys[k] == keys[index]
    ensures e < |keys| ==> keys[e] != keys[index]
    decreases |keys| - end
  {
    if end < |keys| && keys[end] == keys[index] then RunEnd(keys, index, end + 1) else end
  }

  function AverageRank(index: nat, end: nat): real {
    index as real + (end - index - 1) as real / 2.0
  }

  /** One run of equal keys: the same average rank for each of its positions. */
  function Block(index: nat, end: nat): (block: seq<real>)
    requires index <= end
    ensures |block| == end - index && forall r | r in block :: r == AverageRank(index, end)
  {
    seq(end - index, _ => AverageRank(index, end))
  }

  function RanksFrom(keys: seq<Key>, index: nat): (ranks: seq<real>)
    requires index <= |keys|
    ensures |ranks| == |keys| - index
    decreases |keys| - index
  {
    if index == |keys| then [] else
      var end := RunEnd(keys, index, index + 1);
      Block(index, end) + RanksFrom(keys, end)
  }

  method AssignRanks(keys: seq<Key>) returns (ranks: seq<real>)
    ensures ranks == RanksFrom(keys, 0)
  {
    ranks := [];
    var index := 0;
    while index < |keys|
      invariant index <= |keys|
      invariant ranks + RanksFrom(keys, index) == RanksFrom(keys, 0)
    {
      var end := index + 1;
      while end < |keys| && keys[end] == keys[index]
        invariant index < end <= |keys|
        invariant forall k | index <= k < end :: keys[k] == keys[index]
        invariant RunEnd(keys, index, end) == RunEnd(keys, index, index + 1)
      {
        end := end + 1;
      }
      var averageRank := index as real + (end - index - 1) as real / 2.0;
      var block := seq(end - index, _ => averageRank);
      assert block == Block(index, end);
      assert ranks + (block + RanksFrom(keys, end)) == (ranks + block) + RanksFrom(keys, end);
      ranks := ranks + block;
      index := end;
    }
  }

  /** The run that position i belongs to is [p, q), and its rank is that run's average position. */
  ghost predicate InRun(keys: seq<Key>, ranks: seq<real>, i: nat, p: nat, q: nat) {
    && |ranks| == |keys|
    && p <= i < q <= |keys|
    && (forall k | p <= k < q :: keys[k] == keys[i])
    && (q < |keys| ==> keys[q] != keys[i])
    && (p > 0 ==> keys[p - 1] != keys[i])
    && ranks[i] == AverageRank(p, q)
  }

  lemma {:induction false} RunOf(keys: seq<Key>, index: nat, i: nat) returns (p: nat, q: nat)
    requires index <= i < |keys|
    requires index > 0 ==> keys[index - 1] != keys[index]
    ensures index <= p
    ensures InRun(keys, seq(index, _ => 0.0) + RanksFrom(keys, index), i, p, q)
    decreases |keys| - index
  {
    var end := RunEnd(keys, index, index + 1);
    if i < end {
      p, q := index, end;
    } else {
      p, q := RunOf(keys, end, i);
      var ranks := seq(index, _ => 0.0) + RanksFrom(keys, index);
      assert ranks[i] == RanksFrom(keys, end)[i - end];
    }
  }

  lemma RunAt(keys: seq<Key>, i: nat) returns (p: nat, q: nat)
    requires i < |keys|
    ensures p <= i < q <= |keys| && InRun(keys, RanksFrom(keys, 0), i, p, q)
  {
    p, q := RunOf(keys, 0, i);
    hide RanksFrom, AverageRank;
    assert seq(0, _ => 0.0) + RanksFrom(keys, 0) == RanksFrom(keys, 0);
  }

  /** For any list at all, the ranks never decrease: the ordering the rating engine asks for. */
  lemma RanksNondecreasing(keys: seq<Key>, i: nat, j: nat)
    requires i <= j < |keys|
    ensures RanksFrom(keys, 0)[i] <= RanksFrom(keys, 0)[j]
  {
    var ranks := RanksFrom(keys, 0);
    var p, q := RunAt(keys, i);
    var r, s := RunAt(keys, j);
    if r < q && p < s {
      RunsCoincide(keys, ranks, i, p, q, j, r, s);
    }
  }

  lemma RunsCoincide(keys: seq<Key>, ranks: seq<real>, i: nat, p: nat, q: nat, j: nat, r: nat, s: nat)
    requires InRun(keys, ranks, i, p, q) && InRun(keys, ranks, j, r, s)
    requires r < q && p < s
    ensures p == r && q == s && keys[i] == keys[j] && ranks[i] == ranks[j]
  {
    var m := if p < r then r else p;
    assert keys[m] == keys[i] == keys[j];
  }

  /** For any list, the ranks add up to what distinct positions would: n(n-1)/2. */
  lemma RanksTotal(keys: seq<Key>)
    ensures var n := |keys| as real; Sum(RanksFrom(keys, 0)) == n * (n - 1.0) / 2.0
  {
    RanksSum(keys, 0);
  }

  lemma {:induction false} RanksSum(keys: seq<Key>, index: nat)
    requires index <= |keys|
    ensures 2.0 * Sum(RanksFrom(keys, index)) == Pairs(|keys| as real) - Pairs(index as real)
    decreases |keys| - index
  {
    if index == |keys| {
    } else {
      var end := RunEnd(keys, index, index + 1);
      RanksSum(keys, end);
      hide Pairs, Sum, AverageRank;
      SumAppend(Block(index, end), RanksFrom(keys, end));
      BlockSum(index, end);
    }
  }

  function Pairs(n: real): real { n * (n - 1.0) }

  lemma BlockSum(index: nat, end: nat)
    requires index <= end
    ensures 2.0 * Sum(Block(index, end)) == Pairs(end as real) - Pairs(index as real)
  {
    var i, e := index as real, end as real;
    ConstantSum(Block(index, end), AverageRank(index, end));
    assert 2.0 * AverageRank(index, end) == i + e - 1.0;
    assert (e - i) * (i + e - 1.0) == e * (e - 1.0) - i * (i - 1.0);
  }

  lemma {:induction false} ConstantSum(xs: seq<real>, c: real)
    requires forall x | x in xs :: x == c
    ensures Sum(xs) == |xs| as real * c
  {
    if xs == [] {
    } else {
      assert xs[0] in xs;
      assert forall x | x in xs[1..] :: x in xs;
      ConstantSum(xs[1..], c);
    }
  }

  // ----- what a rank counts

  function Count(keys: seq<Key>, f: Key -> bool): nat {
    if keys == [] then 0 else Count(keys[..|keys| - 1], f) + if f(keys[|keys| - 1]) then 1 else 0
  }

  /** A condition that holds exactly on positions [p, q) is counted q - p times. */
  lemma {:induction false} CountInterval(keys: seq<Key>, f: Key -> bool, p: nat, q: nat)
    requires p <= q
    requires forall k | 0 <= k < |keys| :: f(keys[k]) <==> p <= k < q
    ensures Count(keys, f) == (if q < |keys| then q else |keys|) - (if p < |keys| then p else |keys|)
  {
    if keys == [] {
    } else {
      var front := keys[..|keys| - 1];
      assert forall k | 0 <= k < |front| :: front[k] == keys[k];
      CountInterval(front, f, p, q);
    }
  }

  /**
   * In standing order a rank is the number of strictly better entries plus half the number of other
   * equal ones, so ranks agree exactly when keys do.
   */
  lemma RankCounts(keys: seq<Key>, i: nat)
    requires Standing(keys) && i < |keys|
    ensures RanksFrom(keys, 0)[i] ==
      Count(keys, k => Better(k, keys[i])) as real + (Count(keys, k => k == keys[i]) - 1) as real / 2.0
  {
    var p, q := RunAt(keys, i);
    hide RanksFrom;
    forall k | 0 <= k < |keys|
      ensures Better(keys[k], keys[i]) <==> 0 <= k < p
      ensures keys[k] == keys[i] <==> p <= k < q
    {
      if k < p {
        StrictBefore(keys, k, p);
      } else if k >= q {
        StrictBefore(keys, i, q);
        assert !Better(keys[k], keys[q]) || k == q;
        assert k == q || !Better(keys[k], keys[q]);
      }
    }
    CountInterval(keys, k => Better(k, keys[i]), 0, p);
    CountInterval(keys, k => k == keys[i], p, q);
  }

  lemma StrictBefore(keys: seq<Key>, k: nat, p: nat)
    requires Standing(keys) && k < p < |keys| && keys[p - 1] != keys[p]
    ensures Better(keys[k], keys[p])
  {
    assert !Better(keys[p], keys[p - 1]);
    assert k == p - 1 || !Better(keys[p - 1], keys[k]);
  }

  lemma RanksSeparate(keys: seq<Key>, i: nat, j: nat)
    requires Standing(keys) && i < |keys| && j < |keys|
    ensures RanksFrom(keys, 0)[i] == RanksFrom(keys, 0)[j] <==> keys[i] == keys[j]
  {
    hide RanksFrom, Standing, InRun, AverageRank;
    var ranks := RanksFrom(keys, 0);
    var p, q := RunAt(keys, i);
    var r, s := RunAt(keys, j);
    if r < q && p < s {
      RunsCoincide(keys, ranks, i, p, q, j, r, s);
    } else if q <= r {
      RunBefore(keys, ranks, i, p, q, j, r, s);
    } else {
      RunBefore(keys, ranks, j, r, s, i, p, q);
    }
  }

  lemma RunBefore(keys: seq<Key>, ranks: seq<real>, i: nat, p: nat, q: nat, j: nat, r: nat, s: nat)
    requires Standing(keys) && InRun(keys, ranks, i, p, q) && InRun(keys, ranks, j, r, s) && q <= r
    ensures ranks[i] < ranks[j] && keys[i] != keys[j]
  {
    StrictBefore(keys, i, q);
    assert q == j || !Better(keys[j], keys[q]);
  }
}
