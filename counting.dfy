/**
 * Aggregation of the commit-date stream: `collections.Counter(unique_commits)`
 * and the lookup `grouped_commits.get(current_day, 0)`.
 */
module Counting {

  /** `Counter(stream)`: each date that occurs in the stream, with its number of occurrences. */
  function Tally(stream: seq<int>): (counts: map<int, nat>)
    ensures forall d :: d in counts <==> d in stream
    ensures forall d :: d in counts ==> counts[d] == multiset(stream)[d]
  {
    if stream == [] then map[]
    else
      var rest, last := stream[..|stream| - 1], stream[|stream| - 1];
      assert stream == rest + [last];
      var before := Tally(rest);
      before[last := Get(before, last) + 1]
  }

  /** `counts.get(d, 0)`. */
  function Get(counts: map<int, nat>, d: int): nat
  {
    if d in counts then counts[d] else 0
  }

  /** Looking a date up in the tally gives its number of occurrences, 0 for an absent date. */
  lemma TallyGet(stream: seq<int>, d: int)
    ensures Get(Tally(stream), d) == multiset(stream)[d]
  {
  }

  /** The number of entries of the stream that fall in [lo, hi]. */
  function InRange(stream: seq<int>, lo: int, hi: int): nat
  {
    if stream == [] then 0
    else InRange(stream[..|stream| - 1], lo, hi) + (if lo <= stream[|stream| - 1] <= hi then 1 else 0)
  }

  /** The sum of the counts of the dates lo, lo + 1, ..., hi. */
  function SumCounts(counts: map<int, nat>, lo: int, hi: int): nat
    decreases hi - lo
  {
    if hi < lo then 0 else SumCounts(counts, lo, hi - 1) + Get(counts, hi)
  }

  lemma {:induction false} SumCountsBump(counts: map<int, nat>, x: int, lo: int, hi: int)
    ensures SumCounts(counts[x := Get(counts, x) + 1], lo, hi)
         == SumCounts(counts, lo, hi) + (if lo <= x <= hi then 1 else 0)
    decreases hi - lo
  {
    if lo <= hi {
      SumCountsBump(counts, x, lo, hi - 1);
    }
  }

  lemma {:induction false} SumCountsNone(lo: int, hi: int)
    ensures SumCounts(map[], lo, hi) == 0
    decreases hi - lo
  {
    if lo <= hi {
      SumCountsNone(lo, hi - 1);
    }
  }

  /** Conservation: the counts of the dates in [lo, hi] add up to the number of stream entries in [lo, hi]. */
  lemma {:induction false} TallyConservation(stream: seq<int>, lo: int, hi: int)
    ensures SumCounts(Tally(stream), lo, hi) == InRange(stream, lo, hi)
  {
    if stream == [] {
      SumCountsNone(lo, hi);
    } else {
      var rest, last := stream[..|stream| - 1], stream[|stream| - 1];
      assert Tally(stream) == Tally(rest)[last := Get(Tally(rest), last) + 1];
      assert InRange(stream, lo, hi) == InRange(rest, lo, hi) + (if lo <= last <= hi then 1 else 0);
      TallyConservation(rest, lo, hi);
      SumCountsBump(Tally(rest), last, lo, hi);
    }
  }
}
