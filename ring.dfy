/**
 * The dependency ring that `add_stage` builds: stage `i > 0` consumes the
 * output of stage `i - 1`, and stage 0 consumes the output of the last
 * stage, so the generator cannot start cycle t + 1 before the last stage has
 * finished cycle t.
 */
module Topology {

  /** The predecessor of stage `i` in a ring of `n` stages. */
  function Pred(i: nat, n: nat): (r: nat)
    requires i < n
    ensures r < n
  {
    if i == 0 then n - 1 else i - 1
  }

  /** The successor of stage `i`: the stage that consumes its output. */
  function Succ(i: nat, n: nat): (r: nat)
    requires i < n
    ensures r < n
  {
    if i == n - 1 then 0 else i + 1
  }

  /** Every stage is the predecessor of exactly one stage. */
  lemma PredSuccInverse(i: nat, n: nat)
    requires i < n
    ensures Pred(Succ(i, n), n) == i && Succ(Pred(i, n), n) == i
  {
  }

  /** The two numbers a stage descriptor keeps about the topology: its own
      `index` and its `pred`. */
  datatype Link = Link(index: nat, pred: nat)

  /** Descriptor `i` has index `i` and the ring predecessor of `i`. */
  ghost predicate IsRing(ls: seq<Link>)
  {
    forall i :: 0 <= i < |ls| ==> ls[i].index == i && ls[i].pred == Pred(i, |ls|)
  }

  /** What `add_stage` does to the links: stage 0 is re-pointed at the new
      stage, which is appended with the previous last stage as predecessor
      (itself when it is the first stage). */
  function AddLink(ls: seq<Link>): (r: seq<Link>)
    ensures |r| == |ls| + 1
    ensures forall i :: 0 < i < |ls| ==> r[i] == ls[i]
    ensures 0 < |ls| ==> r[0] == ls[0].(pred := |ls|)
    ensures r[0].pred == |ls|
    ensures r[|ls|] == Link(|ls|, if |ls| == 0 then 0 else |ls| - 1)
  {
    var index := |ls|;
    if index == 0 then [Link(0, 0)]
    else ls[0 := ls[0].(pred := index)] + [Link(index, index - 1)]
  }

  /** The links after `k` registrations on an empty pipeline. */
  function Registered(k: nat): seq<Link>
  {
    if k == 0 then [] else AddLink(Registered(k - 1))
  }

  /** Registration keeps the ring shape. */
  lemma AddLinkKeepsRing(ls: seq<Link>)
    requires IsRing(ls)
    ensures IsRing(AddLink(ls))
  {
    var r := AddLink(ls);
    forall i | 0 <= i < |r|
      ensures r[i].index == i && r[i].pred == Pred(i, |r|)
    {
      if 0 < i < |ls| {
        assert r[i] == ls[i];
      }
    }
  }

  /** After `k` registrations descriptor `i` has index `i`, predecessor
      `i - 1` for `i > 0`, and descriptor 0 points at stage `k - 1`. */
  lemma {:induction false} RegisteredIsRing(k: nat)
    ensures |Registered(k)| == k
    ensures IsRing(Registered(k))
  {
    if k > 0 {
      RegisteredIsRing(k - 1);
      AddLinkKeepsRing(Registered(k - 1));
    }
  }

  /** A single stage is its own predecessor. */
  lemma SingleStageLoopsOnItself()
    ensures Registered(1) == [Link(0, 0)]
  {
  }
}
