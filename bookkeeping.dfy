/**
 Facts about logs, sets and multisets that the proofs of both crawl loops share: a
 loop that appends one element per processed member of a set keeps the log equal to
 that set as a multiset.
 */
module Bookkeeping {

  /**
   Appending the next element keeps the log equal, as a multiset, to the processed set;
   the first clause regroups the whole log as the loops' invariants write it.
   */
  lemma Appended<T>(start: seq<T>, log: seq<T>, x: T, done: set<T>)
    requires x !in done && multiset(log) == multiset(done)
    ensures start + log + [x] == start + (log + [x])
    ensures multiset(log + [x]) == multiset(done + {x})
  {
    assert multiset(done + {x}) == multiset(done) + multiset{x};
  }

  /** Moving one element from the remaining part of a set to its processed part. */
  lemma MoveOne<T>(queue: set<T>, done: set<T>, remaining: set<T>, x: T)
    requires remaining <= queue && done == queue - remaining && x in remaining
    ensures remaining - {x} <= queue && done + {x} == queue - (remaining - {x})
    ensures x !in done
  {
  }

  lemma AppendSlice<T>(a: seq<T>, b: seq<T>)
    ensures a <= a + b && (a + b)[|a|..] == b
  {
  }

  /** What a log gained over two consecutive stretches is the two gains one after the other. */
  lemma RequestsSplit<T>(first: seq<T>, mid: seq<T>, last: seq<T>, start: nat)
    requires start == |first| && first <= mid && mid <= last
    ensures last[start..] == mid[start..] + last[|mid|..]
    ensures multiset(last[start..]) == multiset(mid[start..]) + multiset(last[|mid|..])
    ensures first <= last
  {
    assert last[start..] == mid[start..] + last[|mid|..];
  }

  lemma SetMultisetSub<T>(a: set<T>, b: set<T>)
    requires a <= b
    ensures multiset(a) <= multiset(b)
  {
  }

  lemma MultisetSubSize<T>(a: multiset<T>, b: multiset<T>)
    requires a <= b
    ensures |a| <= |b|
  {
    assert b == a + (b - a);
  }

  lemma SubsetSize<T>(a: set<T>, b: set<T>)
    requires a <= b
    ensures |a| <= |b|
  {
    SetMultisetSub(a, b);
    MultisetSubSize(multiset(a), multiset(b));
  }
}
