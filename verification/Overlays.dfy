/** Partial updates: a disengaged optional keeps what is there. */
module Overlays {

  datatype Option<+T> = None | Some(value: T)

  /** One optional field over the current value. */
  function Over<T>(current: T, update: Option<T>): T {
    if update.Some? then update.value else current
  }

  /** Two updates of the same field as one: the later one wins. */
  function Merge<T>(first: Option<T>, second: Option<T>): Option<T> {
    if second.Some? then second else first
  }

  function OverEach<T>(current: seq<T>, updates: seq<Option<T>>): (r: seq<T>)
    requires |current| == |updates|
    ensures |r| == |current|
  {
    seq(|current|, i requires 0 <= i < |current| => Over(current[i], updates[i]))
  }

  function MergeEach<T>(first: seq<Option<T>>, second: seq<Option<T>>): (r: seq<Option<T>>)
    requires |first| == |second|
    ensures |r| == |first|
  {
    seq(|first|, i requires 0 <= i < |first| => Merge(first[i], second[i]))
  }

  function Nothing<T>(n: nat): (r: seq<Option<T>>)
    ensures |r| == n
  {
    seq(n, _ => None)
  }

  predicate Width<T>(all: seq<seq<T>>, n: nat) {
    forall k | 0 <= k < |all| :: |all[k]| == n
  }

  /** Updates one after the other. */
  function OverAll<T>(current: seq<T>, all: seq<seq<Option<T>>>): (r: seq<T>)
    requires Width(all, |current|)
    ensures |r| == |current|
    decreases |all|
  {
    if all == [] then current else OverAll(OverEach(current, all[0]), all[1..])
  }

  function MergeAll<T>(n: nat, all: seq<seq<Option<T>>>): (r: seq<Option<T>>)
    requires Width(all, n)
    ensures |r| == n
  {
    if all == [] then Nothing(n) else MergeEach(all[0], MergeAll(n, all[1..]))
  }

  /** Two updates in a row are their merge. */
  lemma OverTwice<T>(current: seq<T>, first: seq<Option<T>>, second: seq<Option<T>>)
    requires |current| == |first| == |second|
    ensures OverEach(OverEach(current, first), second) == OverEach(current, MergeEach(first, second))
  {
  }

  /** Merging is associative and the empty update is neutral on both sides. */
  lemma MergeIsMonoid<T>(a: seq<Option<T>>, b: seq<Option<T>>, c: seq<Option<T>>)
    requires |a| == |b| == |c|
    ensures MergeEach(MergeEach(a, b), c) == MergeEach(a, MergeEach(b, c))
    ensures MergeEach(Nothing(|a|), a) == a == MergeEach(a, Nothing(|a|))
  {
    assert forall i | 0 <= i < |a| :: Merge(Nothing(|a|)[i], a[i]) == a[i] == Merge(a[i], Nothing(|a|)[i]);
  }

  lemma NothingChanges<T>(current: seq<T>)
    ensures OverEach(current, Nothing(|current|)) == current
  {
  }

  /** Any sequence of updates is its right-biased merge. */
  lemma {:induction false} SequenceIsMerge<T>(current: seq<T>, all: seq<seq<Option<T>>>)
    requires Width(all, |current|)
    ensures OverAll(current, all) == OverEach(current, MergeAll(|current|, all))
    decreases |all|
  {
    if all == [] {
      NothingChanges(current);
    } else {
      SequenceIsMerge(OverEach(current, all[0]), all[1..]);
      OverTwice(current, all[0], MergeAll(|current|, all[1..]));
    }
  }

  /** What the merge holds for one position: the last update that mentions it, if any does. */
  lemma {:induction false} LastMentionWins<T>(n: nat, all: seq<seq<Option<T>>>, i: nat)
    requires Width(all, n) && i < n
    ensures MergeAll(n, all)[i].Some? <==> exists k | 0 <= k < |all| :: all[k][i].Some?
    ensures forall k | 0 <= k < |all| && all[k][i].Some? && (forall later | k < later < |all| :: all[later][i].None?) ::
              MergeAll(n, all)[i] == all[k][i]
  {
    if all != [] {
      var rest := all[1..];
      LastMentionWins(n, rest, i);
      assert forall k | 0 <= k < |rest| :: rest[k] == all[k + 1];
      assert MergeAll(n, all)[i] == Merge(all[0][i], MergeAll(n, rest)[i]);
      if exists k | 0 <= k < |rest| :: rest[k][i].Some? {
        var k :| 0 <= k < |rest| && rest[k][i].Some?;
        assert all[k + 1][i].Some?;
      }
      forall k | 0 <= k < |all| && all[k][i].Some? && (forall later | k < later < |all| :: all[later][i].None?)
        ensures MergeAll(n, all)[i] == all[k][i]
      {
        if k > 0 {
          assert rest[k - 1][i].Some?;
          assert forall later | k - 1 < later < |rest| :: rest[later] == all[later + 1];
        } else {
          assert forall m | 0 <= m < |rest| :: rest[m][i].None?;
        }
      }
    }
  }
}
