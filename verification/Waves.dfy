/** The jobs of one wave may finish in any order (generator.py). */
module Waves {
  import opened Boxes
  import opened Sorting
  import opened Individuals

  ghost predicate Ready(boxes: seq<seq<Box>>, replies: seq<Reply>, states: seq<Vitals>) {
    |boxes| == |replies| == |states| && forall i :: 0 <= i < |states| ==> Measured(boxes[i], states[i])
  }

  ghost predicate Within(order: seq<nat>, n: nat) { forall k :: 0 <= k < |order| ==> order[k] < n }

  /** The states after the jobs of a wave have run one after the other in the given order. */
  ghost function InOrder(ctx: Context, op: Operation, boxes: seq<seq<Box>>, replies: seq<Reply>, states: seq<Vitals>,
                         order: seq<nat>): (after: seq<Vitals>)
    requires Ready(boxes, replies, states) && Within(order, |states|)
    ensures Ready(boxes, replies, after)
  {
    if order == [] then states
    else
      var n := |order| - 1;
      var mid := InOrder(ctx, op, boxes, replies, states, order[..n]);
      var i := order[n];
      mid[i := AttemptStep(ctx, op, boxes[i], mid[i], replies[i])]
  }

  /** Whoever ran took one step from where he started; nobody else moved. */
  lemma {:induction false} EachOnItsOwn(ctx: Context, op: Operation, boxes: seq<seq<Box>>, replies: seq<Reply>,
                                        states: seq<Vitals>, order: seq<nat>, i: nat)
    requires Ready(boxes, replies, states) && Within(order, |states|) && Distinct(order) && i < |states|
    ensures InOrder(ctx, op, boxes, replies, states, order)[i] ==
            if i in order then AttemptStep(ctx, op, boxes[i], states[i], replies[i]) else states[i]
  {
    hide AttemptStep, Measured;
    if order != [] {
      var n := |order| - 1;
      EachOnItsOwn(ctx, op, boxes, replies, states, order[..n], i);
      assert i in order <==> i in order[..n] || i == order[n];
      assert order[n] !in order[..n];
    }
  }

  /** Any two orders of the same jobs lead to the same states; the outcomes depend on layout and reply alone. */
  lemma OrderDoesNotMatter(ctx: Context, op: Operation, boxes: seq<seq<Box>>, replies: seq<Reply>, states: seq<Vitals>,
                           first: seq<nat>, second: seq<nat>)
    requires Ready(boxes, replies, states) && Within(first, |states|) && Distinct(first)
    requires multiset(second) == multiset(first)
    ensures Within(second, |states|)
         && InOrder(ctx, op, boxes, replies, states, second) == InOrder(ctx, op, boxes, replies, states, first)
  {
    hide AttemptStep, Measured, InOrder;
    forall i: nat ensures i in second <==> i in first {
      assert i in second <==> i in multiset(second);
      assert i in first <==> i in multiset(first);
    }
    forall k | 0 <= k < |second| ensures second[k] < |states| {
      assert second[k] in second;
      var m :| 0 <= m < |first| && first[m] == second[k];
    }
    DistinctCounts(first);
    DistinctCounts(second);
    forall i | 0 <= i < |states|
      ensures InOrder(ctx, op, boxes, replies, states, second)[i] == InOrder(ctx, op, boxes, replies, states, first)[i]
    {
      EachOnItsOwn(ctx, op, boxes, replies, states, first, i);
      EachOnItsOwn(ctx, op, boxes, replies, states, second, i);
    }
  }
}
