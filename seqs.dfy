/** Sequence helpers shared by the loaders, the parser and the scheduler. */
module Seqs {
  import opened Wrappers

  /** The elements `f` keeps, in order: the shape of every
      "for row in rows: if ...: continue; out.append(...)" loop of the source.
      Defined on the last element so that a loop over a prefix unfolds it one step. */
  function FilterMap<A, B>(xs: seq<A>, f: A -> Option<B>): (r: seq<B>)
    ensures |r| <= |xs|
    decreases |xs|
  {
    if xs == [] then []
    else
      var prev := FilterMap(xs[..|xs| - 1], f);
      match f(xs[|xs| - 1])
      case Some(y) => prev + [y]
      case None => prev
  }

  /** Strictly increasing indices. */
  ghost predicate Increasing(idx: seq<nat>)
  {
    forall s, t :: 0 <= s < t < |idx| ==> idx[s] < idx[t]
  }

  /** The output of FilterMap is exactly the kept elements of the input, in input order:
      an increasing index list picks out, for every output element, the input it came from,
      and every input that `f` keeps is picked. */
  lemma {:induction false} FilterMapIndices<A, B>(xs: seq<A>, f: A -> Option<B>) returns (idx: seq<nat>)
    ensures |idx| == |FilterMap(xs, f)|
    ensures Increasing(idx)
    ensures forall t :: 0 <= t < |idx| ==> idx[t] < |xs| && f(xs[idx[t]]) == Some(FilterMap(xs, f)[t])
    ensures forall i :: 0 <= i < |xs| && f(xs[i]).Some? ==> exists t :: 0 <= t < |idx| && idx[t] == i
    decreases |xs|
  {
    if xs == [] {
      idx := [];
    } else {
      var n := |xs| - 1;
      var init := xs[..n];
      var prevIdx := FilterMapIndices(init, f);
      var prev := FilterMap(init, f);
      forall t | 0 <= t < |prevIdx| ensures f(xs[prevIdx[t]]) == Some(prev[t]) {
        assert xs[prevIdx[t]] == init[prevIdx[t]];
      }
      match f(xs[n])
      case None =>
        idx := prevIdx;
        assert FilterMap(xs, f) == prev;
        forall i | 0 <= i < |xs| && f(xs[i]).Some? ensures exists t :: 0 <= t < |idx| && idx[t] == i {
          assert i < n && init[i] == xs[i];
        }
      case Some(y) =>
        idx := prevIdx + [n];
        var r := FilterMap(xs, f);
        assert r == prev + [y];
        forall t | 0 <= t < |idx| ensures idx[t] < |xs| && f(xs[idx[t]]) == Some(r[t]) {
          if t < |prevIdx| {
            assert idx[t] == prevIdx[t] && r[t] == prev[t];
          }
        }
        forall i | 0 <= i < |xs| && f(xs[i]).Some? ensures exists t :: 0 <= t < |idx| && idx[t] == i {
          if i == n {
            assert idx[|idx| - 1] == i;
          } else {
            assert init[i] == xs[i];
            var t :| 0 <= t < |prevIdx| && prevIdx[t] == i;
            assert idx[t] == i;
          }
        }
    }
  }

  /** `f` applied to every element, in order. */
  function MapSeq<A, B>(xs: seq<A>, f: A -> B): (r: seq<B>)
    ensures |r| == |xs|
    decreases |xs|
  {
    if xs == [] then []
    else MapSeq(xs[..|xs| - 1], f) + [f(xs[|xs| - 1])]
  }

  /** Each output element is `f` of the input element at the same position. */
  lemma {:induction false} MapSeqAt<A, B>(xs: seq<A>, f: A -> B, i: nat)
    requires i < |xs|
    ensures MapSeq(xs, f)[i] == f(xs[i])
    decreases |xs|
  {
    var n := |xs| - 1;
    if i < n {
      var init := xs[..n];
      assert xs[i] == init[i];
      MapSeqAt(init, f, i);
    }
  }

  /** Mapping one more element appends its image. */
  lemma MapSeqStep<A, B>(xs: seq<A>, f: A -> B, i: nat)
    requires i < |xs|
    ensures MapSeq(xs[..i + 1], f) == MapSeq(xs[..i], f) + [f(xs[i])]
  {
    assert xs[..i + 1][..i] == xs[..i];
  }
}
