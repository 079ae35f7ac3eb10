/**
 The filter-then-map shape both the config loader and the suggestion
 extractor share: map every element to an optional value and keep, in
 order, the values that are present.
 */
module Seqs {
  import opened JsValues

  function Collect<A, B>(xs: seq<A>, f: A -> Option<B>): (ys: seq<B>)
    ensures |ys| <= |xs|
    decreases |xs|
  {
    if xs == [] then []
    else
      var rest := Collect(xs[1..], f);
      match f(xs[0])
      case Some(y) => [y] + rest
      case None => rest
  }

  ghost predicate StrictlyIncreasing(idx: seq<nat>) {
    forall i, j :: 0 <= i < j < |idx| ==> idx[i] < idx[j]
  }

  /** `Collect` keeps exactly the elements `f` accepts, in their input order:
      `idx` lists the positions it kept, increasing; every accepted position
      is among them, and the k-th output is the image of the k-th kept input. */
  lemma CollectKeepsAcceptedInOrder<A, B>(xs: seq<A>, f: A -> Option<B>) returns (idx: seq<nat>)
    ensures |idx| == |Collect(xs, f)|
    ensures StrictlyIncreasing(idx)
    ensures forall k :: 0 <= k < |idx| ==> idx[k] < |xs| && f(xs[idx[k]]) == Some(Collect(xs, f)[k])
    ensures forall i :: 0 <= i < |xs| && f(xs[i]).Some? ==> i in idx
  {
    idx := Accepted(xs, f);
    AcceptedLength(xs, f);
    AcceptedIncreasing(xs, f);
    AcceptedImages(xs, f);
    AcceptedCovers(xs, f);
  }

  /** The positions of `xs` that `f` accepts, in increasing order. */
  function Accepted<A, B>(xs: seq<A>, f: A -> Option<B>): (idx: seq<nat>)
    ensures forall k :: 0 <= k < |idx| ==> idx[k] < |xs|
    decreases |xs|
  {
    if xs == [] then []
    else (if f(xs[0]).Some? then [0] else []) + Shift(Accepted(xs[1..], f))
  }

  lemma {:induction false} AcceptedLength<A, B>(xs: seq<A>, f: A -> Option<B>)
    ensures |Accepted(xs, f)| == |Collect(xs, f)|
    decreases |xs|
  {
    if xs != [] {
      AcceptedLength(xs[1..], f);
    }
  }

  lemma {:induction false} AcceptedIncreasing<A, B>(xs: seq<A>, f: A -> Option<B>)
    ensures StrictlyIncreasing(Accepted(xs, f))
    decreases |xs|
  {
    if xs != [] {
      AcceptedIncreasing(xs[1..], f);
      var head: seq<nat> := if f(xs[0]).Some? then [0] else [];
      ShiftedAfterZeroIncreasing(head, Accepted(xs[1..], f));
    }
  }

  /** An increasing list moved one place right stays increasing, even with a
      leading zero put in front. */
  lemma ShiftedAfterZeroIncreasing(head: seq<nat>, tail: seq<nat>)
    requires head == [] || head == [0]
    requires StrictlyIncreasing(tail)
    ensures StrictlyIncreasing(head + Shift(tail))
  {
    var shifted := Shift(tail);
    var idx := head + shifted;
    forall i, j | 0 <= i < j < |idx|
      ensures idx[i] < idx[j]
    {
      if i < |head| {
        assert idx[j] == shifted[j - |head|];
      } else {
        assert tail[i - |head|] < tail[j - |head|];
        assert idx[i] == shifted[i - |head|] && idx[j] == shifted[j - |head|];
      }
    }
  }

  lemma {:induction false} AcceptedImages<A, B>(xs: seq<A>, f: A -> Option<B>)
    ensures |Accepted(xs, f)| == |Collect(xs, f)|
    ensures forall k :: 0 <= k < |Accepted(xs, f)| ==> f(xs[Accepted(xs, f)[k]]) == Some(Collect(xs, f)[k])
    decreases |xs|
  {
    AcceptedLength(xs, f);
    if xs != [] {
      AcceptedImages(xs[1..], f);
      forall k | 0 <= k < |Accepted(xs, f)|
        ensures f(xs[Accepted(xs, f)[k]]) == Some(Collect(xs, f)[k])
      {
        if f(xs[0]).Some? && k == 0 {
          assert Accepted(xs, f)[0] == 0;
        } else {
          var m := if f(xs[0]).Some? then k - 1 else k;
          ImageFromTail(xs, f, k, m);
        }
      }
    }
  }

  /** The k-th kept position of `xs` is the m-th kept position of its tail,
      moved one place right, and has the same image. */
  lemma ImageFromTail<A, B>(xs: seq<A>, f: A -> Option<B>, k: nat, m: nat)
    requires xs != [] && k < |Accepted(xs, f)|
    requires |Accepted(xs[1..], f)| == |Collect(xs[1..], f)|
    requires k == m + (if f(xs[0]).Some? then 1 else 0)
    requires m < |Accepted(xs[1..], f)|
    requires f(xs[1..][Accepted(xs[1..], f)[m]]) == Some(Collect(xs[1..], f)[m])
    ensures f(xs[Accepted(xs, f)[k]]) == Some(Collect(xs, f)[k])
  {
    var tail := Accepted(xs[1..], f);
    var rest := Collect(xs[1..], f);
    var head: seq<nat> := if f(xs[0]).Some? then [0] else [];
    assert Accepted(xs, f) == head + Shift(tail);
    ShiftedIndex(head, tail, k, m);
    if f(xs[0]).Some? {
      assert Collect(xs, f) == [f(xs[0]).value] + rest;
      ConsIndex(f(xs[0]).value, rest);
    } else {
      assert Collect(xs, f) == rest;
    }
    assert xs[tail[m] + 1] == xs[1..][tail[m]];
  }

  /** Indexing past an optional leading position into a shifted list. */
  lemma ShiftedIndex(head: seq<nat>, tail: seq<nat>, k: nat, m: nat)
    requires |head| <= 1 && m < |tail| && k == m + |head|
    ensures k < |head + Shift(tail)| && (head + Shift(tail))[k] == tail[m] + 1
  {
  }

  lemma {:induction false} AcceptedCovers<A, B>(xs: seq<A>, f: A -> Option<B>)
    ensures forall i :: 0 <= i < |xs| && f(xs[i]).Some? ==> i in Accepted(xs, f)
    decreases |xs|
  {
    if xs != [] {
      AcceptedCovers(xs[1..], f);
      var tail := Accepted(xs[1..], f);
      var shifted := Shift(tail);
      var head: seq<nat> := if f(xs[0]).Some? then [0] else [];
      assert Accepted(xs, f) == head + shifted;
      forall i | 0 <= i < |xs| && f(xs[i]).Some?
        ensures i in head + shifted
      {
        if i == 0 {
          assert (head + shifted)[0] == 0;
        } else {
          assert xs[i] == xs[1..][i - 1];
          var k :| 0 <= k < |tail| && tail[k] == i - 1;
          assert (head + shifted)[|head| + k] == i;
        }
      }
    }
  }

  /** Every position moved one place to the right. */
  function Shift(idx: seq<nat>): (r: seq<nat>)
    ensures |r| == |idx|
    ensures forall k :: 0 <= k < |r| ==> r[k] == idx[k] + 1
  {
    seq(|idx|, k requires 0 <= k < |idx| => idx[k] + 1)
  }

  /** Indexing a sequence with one element put in front. */
  lemma ConsIndex<T>(head: T, tail: seq<T>)
    ensures ([head] + tail)[0] == head && |[head] + tail| == |tail| + 1
    ensures forall k :: 0 <= k < |tail| ==> ([head] + tail)[k + 1] == tail[k]
  {
  }

  /** A non-empty sequence is its head followed by its tail. */
  lemma HeadTail<T>(xs: seq<T>)
    requires |xs| >= 1
    ensures [xs[0]] + xs[1..] == xs
  {
  }
}
