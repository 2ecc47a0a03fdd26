/** Picking and rewriting elements of a list in order. */
module Picking {
  import opened Wrappers

  function Pick<A, B>(f: A -> Option<B>, xs: seq<A>): seq<B> {
    if xs == [] then []
    else
      var last := f(xs[|xs| - 1]);
      Pick(f, xs[..|xs| - 1]) + (if last.Some? then [last.value] else [])
  }

  /** The positions that are picked, in order. */
  ghost function Picked<A, B>(f: A -> Option<B>, xs: seq<A>): seq<nat> {
    if xs == [] then []
    else Picked(f, xs[..|xs| - 1]) + (if f(xs[|xs| - 1]).Some? then [|xs| - 1] else [])
  }

  ghost predicate Increasing(ks: seq<nat>) { forall i, j | 0 <= i < j < |ks| :: ks[i] < ks[j] }

  lemma {:induction false} PickedPositions<A, B>(f: A -> Option<B>, xs: seq<A>)
    ensures Increasing(Picked(f, xs)) && |Picked(f, xs)| == |Pick(f, xs)|
    ensures forall k | 0 <= k < |Picked(f, xs)| :: Picked(f, xs)[k] < |xs|
    ensures forall k | 0 <= k < |Picked(f, xs)| :: f(xs[Picked(f, xs)[k]]) == Some(Pick(f, xs)[k])
    ensures forall i: nat | i < |xs| :: f(xs[i]).Some? <==> i in Picked(f, xs)
  {
    if xs != [] {
      var init := xs[..|xs| - 1];
      PickedPositions(f, init);
      var before := Picked(f, init);
      forall i: nat | i < |xs| ensures f(xs[i]).Some? <==> i in Picked(f, xs) {
        if i < |init| {
          assert init[i] == xs[i];
        } else {
          assert i !in before;
        }
      }
    }
  }

  lemma PickHas<A, B>(f: A -> Option<B>, xs: seq<A>, i: nat)
    requires i < |xs| && f(xs[i]).Some?
    ensures exists k :: 0 <= k < |Pick(f, xs)| && Pick(f, xs)[k] == f(xs[i]).value
  {
    PickedPositions(f, xs);
    var k :| 0 <= k < |Picked(f, xs)| && Picked(f, xs)[k] == i;
    assert Pick(f, xs)[k] == f(xs[i]).value;
  }

  lemma PickFrom<A, B>(f: A -> Option<B>, xs: seq<A>, k: nat) returns (i: nat)
    requires k < |Pick(f, xs)|
    ensures i < |xs| && f(xs[i]) == Some(Pick(f, xs)[k])
  {
    PickedPositions(f, xs);
    i := Picked(f, xs)[k];
  }

  /** Picking leaves a list alone exactly when every element is picked as it is. */
  lemma {:induction false} PickUnchanged<A>(f: A -> Option<A>, xs: seq<A>)
    ensures |Pick(f, xs)| <= |xs|
    ensures Pick(f, xs) == xs <==> forall i | 0 <= i < |xs| :: f(xs[i]) == Some(xs[i])
  {
    if xs != [] {
      var init, last := xs[..|xs| - 1], xs[|xs| - 1];
      PickUnchanged(f, init);
      assert xs == init + [last];
      if Pick(f, xs) == xs {
        assert f(last).Some?;
        assert Pick(f, init) == xs[..|xs| - 1] && f(last) == Some(last);
        forall i | 0 <= i < |xs| ensures f(xs[i]) == Some(xs[i]) {
          assert i < |init| ==> init[i] == xs[i];
        }
      }
    }
  }

  lemma PickGrows<A, B>(f: A -> Option<B>, xs: seq<A>, n: nat)
    requires n < |xs|
    ensures Pick(f, xs[..n + 1]) == Pick(f, xs[..n]) + (if f(xs[n]).Some? then [f(xs[n]).value] else [])
  {
    assert xs[..n + 1][..n] == xs[..n];
  }
}
