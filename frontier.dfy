/**
 * The breadth-first and best-first worklists shared by the two strategy
 * families.  Breadth-first pops the front of a FIFO queue and stops once
 * the result holds `bound` states; best-first pops a state of least
 * heuristic value and runs until the frontier is empty.  Both append the
 * children of a branching state to the frontier in index order.
 *
 * Neither loop has a bound of its own on the number of states it pops, so
 * the model asks for a rank that every Decompose child has below its
 * parent (`RankDecreases`); this makes the tree below every state finite.
 * `Drain` and `BestDrain` are what the two loops emit when run to the end.
 */
module Frontier {
  import opened Verdicts

  /** Every child Decompose returns is ranked strictly below its parent. */
  ghost predicate RankDecreases<S(!new)>(classify: S -> Verdict<S>, rank: S -> nat)
  {
    forall s :: classify(s).Branch? ==>
      forall i :: 0 <= i < |classify(s).children| ==> rank(classify(s).children[i]) < rank(s)
  }

  /** The number of states in the tree below `s`, `s` included. */
  ghost function TreeSize<S(!new)>(classify: S -> Verdict<S>, rank: S -> nat, s: S): (r: nat)
    requires RankDecreases(classify, rank)
    decreases rank(s) + 1, 0
  {
    match classify(s)
      case Branch(children) => 1 + ForestSize(classify, rank, children, rank(s))
      case _ => 1
  }

  ghost function ForestSize<S(!new)>(classify: S -> Verdict<S>, rank: S -> nat, children: seq<S>, bound: nat): (r: nat)
    requires RankDecreases(classify, rank)
    requires forall i :: 0 <= i < |children| ==> rank(children[i]) < bound
    decreases bound, |children|
  {
    if |children| == 0 then 0
    else TreeSize(classify, rank, children[0]) + ForestSize(classify, rank, children[1..], bound)
  }

  /** The number of states a frontier still stands for. */
  ghost function QueueSize<S(!new)>(classify: S -> Verdict<S>, rank: S -> nat, q: seq<S>): (r: nat)
    requires RankDecreases(classify, rank)
  {
    if |q| == 0 then 0 else TreeSize(classify, rank, q[0]) + QueueSize(classify, rank, q[1..])
  }

  lemma {:induction false} QueueSizeAppend<S(!new)>(classify: S -> Verdict<S>, rank: S -> nat, a: seq<S>, b: seq<S>)
    requires RankDecreases(classify, rank)
    ensures QueueSize(classify, rank, a + b) == QueueSize(classify, rank, a) + QueueSize(classify, rank, b)
  {
    if |a| == 0 {
      assert a + b == b;
    } else {
      assert (a + b)[1..] == a[1..] + b;
      QueueSizeAppend(classify, rank, a[1..], b);
    }
  }

  lemma {:induction false} ForestIsQueue<S(!new)>(classify: S -> Verdict<S>, rank: S -> nat, children: seq<S>, bound: nat)
    requires RankDecreases(classify, rank)
    requires forall i :: 0 <= i < |children| ==> rank(children[i]) < bound
    ensures ForestSize(classify, rank, children, bound) == QueueSize(classify, rank, children)
  {
    if |children| > 0 {
      ForestIsQueue(classify, rank, children[1..], bound);
    }
  }

  /** Replacing a branching state by its children shrinks the frontier by one state. */
  lemma ExpandShrinks<S(!new)>(classify: S -> Verdict<S>, rank: S -> nat, s: S, rest: seq<S>)
    requires RankDecreases(classify, rank) && classify(s).Branch?
    ensures QueueSize(classify, rank, rest + classify(s).children) + 1
         == TreeSize(classify, rank, s) + QueueSize(classify, rank, rest)
  {
    QueueSizeAppend(classify, rank, rest, classify(s).children);
    ForestIsQueue(classify, rank, classify(s).children, rank(s));
  }

  /** Taking out the entry at `i` leaves a frontier smaller by that entry's tree. */
  lemma QueueSizeRemove<S(!new)>(classify: S -> Verdict<S>, rank: S -> nat, q: seq<S>, i: nat)
    requires RankDecreases(classify, rank) && i < |q|
    ensures QueueSize(classify, rank, q)
         == TreeSize(classify, rank, q[i]) + QueueSize(classify, rank, q[..i] + q[i + 1..])
  {
    var before, after := q[..i], q[i + 1..];
    var tail := [q[i]] + after;
    assert q == before + tail;
    QueueSizeAppend(classify, rank, before, tail);
    assert tail[0] == q[i] && tail[1..] == after;
    assert QueueSize(classify, rank, tail) == TreeSize(classify, rank, q[i]) + QueueSize(classify, rank, after);
    QueueSizeAppend(classify, rank, before, after);
  }

  // ------------------------------------------------------------ Breadth-first

  /** What the breadth-first loop emits from a queue when nothing stops it. */
  ghost function Drain<S(!new)>(classify: S -> Verdict<S>, rank: S -> nat, q: seq<S>): (r: seq<S>)
    requires RankDecreases(classify, rank)
    decreases QueueSize(classify, rank, q)
  {
    if |q| == 0 then []
    else
      var s := q[0];
      match classify(s)
        case Leaf => [s] + Drain(classify, rank, q[1..])
        case Branch(children) =>
          ExpandShrinks(classify, rank, s, q[1..]);
          Drain(classify, rank, q[1..] + children)
        case _ => Drain(classify, rank, q[1..])
  }

  /**
   * The breadth-first `execute` loop: while the queue is not empty and the
   * result holds fewer than `bound` states, pop the front state and handle
   * it.  It emits a prefix of the unbounded run, the whole run unless the
   * bound was reached, and never more than `bound` states.
   */
  method BreadthFirstSearch<S(==,!new)>(classify: S -> Verdict<S>, ghost rank: S -> nat, bound: nat, initial: S)
    returns (result: seq<S>)
    requires RankDecreases(classify, rank)
    ensures |result| <= bound
    ensures result <= Drain(classify, rank, [initial])
    ensures |result| < bound ==> result == Drain(classify, rank, [initial])
    ensures forall x | x in result :: classify(x).Leaf?
  {
    result := [];
    var queue := [initial];
    while |queue| > 0 && |result| < bound
      invariant |result| <= bound
      invariant result + Drain(classify, rank, queue) == Drain(classify, rank, [initial])
      decreases QueueSize(classify, rank, queue)
    {
      var s := queue[0];
      var rest := queue[1..];
      queue := rest;
      match classify(s) {
        case Leaf =>
          result := result + [s];
        case Branch(children) =>
          for i := 0 to |children|
            invariant queue == rest + children[..i]
          {
            queue := queue + [children[i]];
          }
          assert children[..|children|] == children;
          ExpandShrinks(classify, rank, s, rest);
        case _ =>
      }
    }
    DrainLeaves(classify, rank, [initial]);
  }

  // -------------------------------------------------------------- Best-first

  /**
   * The entry `std::priority_queue` with comparator `h(a) > h(b)` puts on
   * top: one of least heuristic value.  Among equal values the model takes
   * the earliest entry.
   */
  function ArgMin<S>(h: S -> int, q: seq<S>): (i: nat)
    requires |q| > 0
    ensures i < |q|
    ensures forall j :: 0 <= j < |q| ==> h(q[i]) <= h(q[j])
    ensures forall j :: 0 <= j < i ==> h(q[j]) > h(q[i])
  {
    if |q| == 1 then 0
    else
      var k := ArgMin(h, q[..|q| - 1]);
      if h(q[|q| - 1]) < h(q[k]) then |q| - 1 else k
  }

  /** What the best-first loop emits from a frontier. */
  ghost function BestDrain<S(!new)>(classify: S -> Verdict<S>, rank: S -> nat, h: S -> int, q: seq<S>): (r: seq<S>)
    requires RankDecreases(classify, rank)
    decreases QueueSize(classify, rank, q)
  {
    if |q| == 0 then []
    else
      var i := ArgMin(h, q);
      var s := q[i];
      var rest := q[..i] + q[i + 1..];
      QueueSizeRemove(classify, rank, q, i);
      match classify(s)
        case Leaf => [s] + BestDrain(classify, rank, h, rest)
        case Branch(children) =>
          ExpandShrinks(classify, rank, s, rest);
          BestDrain(classify, rank, h, rest + children)
        case _ => BestDrain(classify, rank, h, rest)
  }

  /** The best-first `execute` loop: pop a least-heuristic state until the frontier is empty. */
  method BestFirstSearch<S(==,!new)>(classify: S -> Verdict<S>, ghost rank: S -> nat, h: S -> int, initial: S)
    returns (result: seq<S>)
    requires RankDecreases(classify, rank)
    ensures result == BestDrain(classify, rank, h, [initial])
    ensures forall x | x in result :: classify(x).Leaf?
  {
    result := [];
    var queue := [initial];
    while |queue| > 0
      invariant result + BestDrain(classify, rank, h, queue) == BestDrain(classify, rank, h, [initial])
      decreases QueueSize(classify, rank, queue)
    {
      var i := ArgMin(h, queue);
      var s := queue[i];
      var rest := queue[..i] + queue[i + 1..];
      QueueSizeRemove(classify, rank, queue, i);
      queue := rest;
      match classify(s) {
        case Leaf =>
          result := result + [s];
        case Branch(children) =>
          for j := 0 to |children|
            invariant queue == rest + children[..j]
          {
            queue := queue + [children[j]];
          }
          assert children[..|children|] == children;
          ExpandShrinks(classify, rank, s, rest);
        case _ =>
      }
    }
    BestDrainLeaves(classify, rank, h, [initial]);
  }

  // ------------------------------------------------------ What is emitted

  /** The breadth-first run emits only states classified as leaves. */
  lemma {:induction false} DrainLeaves<S(!new)>(classify: S -> Verdict<S>, rank: S -> nat, q: seq<S>)
    requires RankDecreases(classify, rank)
    ensures forall x | x in Drain(classify, rank, q) :: classify(x).Leaf?
    decreases QueueSize(classify, rank, q)
  {
    if |q| > 0 {
      match classify(q[0])
        case Branch(children) =>
          ExpandShrinks(classify, rank, q[0], q[1..]);
          DrainLeaves(classify, rank, q[1..] + children);
        case _ =>
          DrainLeaves(classify, rank, q[1..]);
    }
  }

  /** The best-first run emits only states classified as leaves. */
  lemma {:induction false} BestDrainLeaves<S(!new)>(classify: S -> Verdict<S>, rank: S -> nat, h: S -> int, q: seq<S>)
    requires RankDecreases(classify, rank)
    ensures forall x | x in BestDrain(classify, rank, h, q) :: classify(x).Leaf?
    decreases QueueSize(classify, rank, q)
  {
    if |q| > 0 {
      var i := ArgMin(h, q);
      var rest := q[..i] + q[i + 1..];
      QueueSizeRemove(classify, rank, q, i);
      match classify(q[i])
        case Branch(children) =>
          ExpandShrinks(classify, rank, q[i], rest);
          BestDrainLeaves(classify, rank, h, rest + children);
        case _ =>
          BestDrainLeaves(classify, rank, h, rest);
    }
  }

  /** When no state is a leaf (say, Infeasible refutes everything), breadth-first emits nothing. */
  lemma {:induction false} NoLeafDrainsNothing<S(!new)>(classify: S -> Verdict<S>, rank: S -> nat, q: seq<S>)
    requires RankDecreases(classify, rank)
    requires forall t :: !classify(t).Leaf?
    ensures Drain(classify, rank, q) == []
    decreases QueueSize(classify, rank, q)
  {
    if |q| > 0 {
      match classify(q[0])
        case Leaf =>
          assert false;
        case Branch(children) =>
          ExpandShrinks(classify, rank, q[0], q[1..]);
          NoLeafDrainsNothing(classify, rank, q[1..] + children);
        case _ =>
          NoLeafDrainsNothing(classify, rank, q[1..]);
    }
  }

  /** When no state is a leaf, best-first emits nothing. */
  lemma {:induction false} NoLeafBestDrainsNothing<S(!new)>(classify: S -> Verdict<S>, rank: S -> nat, h: S -> int, q: seq<S>)
    requires RankDecreases(classify, rank)
    requires forall t :: !classify(t).Leaf?
    ensures BestDrain(classify, rank, h, q) == []
    decreases QueueSize(classify, rank, q)
  {
    if |q| > 0 {
      var i := ArgMin(h, q);
      var rest := q[..i] + q[i + 1..];
      QueueSizeRemove(classify, rank, q, i);
      match classify(q[i])
        case Leaf =>
          assert false;
        case Branch(children) =>
          ExpandShrinks(classify, rank, q[i], rest);
          NoLeafBestDrainsNothing(classify, rank, h, rest + children);
        case _ =>
          NoLeafBestDrainsNothing(classify, rank, h, rest);
    }
  }

  /** The leaves of the tree below `s`, counted with multiplicity. */
  ghost function TreeBag<S(!new)>(classify: S -> Verdict<S>, rank: S -> nat, s: S): (r: multiset<S>)
    requires RankDecreases(classify, rank)
    decreases rank(s) + 1, 0
  {
    match classify(s)
      case Leaf => multiset{s}
      case Branch(children) => ForestBag(classify, rank, children, rank(s))
      case _ => multiset{}
  }

  ghost function ForestBag<S(!new)>(classify: S -> Verdict<S>, rank: S -> nat, children: seq<S>, bound: nat): (r: multiset<S>)
    requires RankDecreases(classify, rank)
    requires forall i :: 0 <= i < |children| ==> rank(children[i]) < bound
    decreases bound, |children|
  {
    if |children| == 0 then multiset{}
    else TreeBag(classify, rank, children[0]) + ForestBag(classify, rank, children[1..], bound)
  }

  ghost function QueueBag<S(!new)>(classify: S -> Verdict<S>, rank: S -> nat, q: seq<S>): (r: multiset<S>)
    requires RankDecreases(classify, rank)
  {
    if |q| == 0 then multiset{} else TreeBag(classify, rank, q[0]) + QueueBag(classify, rank, q[1..])
  }

  lemma {:induction false} QueueBagAppend<S(!new)>(classify: S -> Verdict<S>, rank: S -> nat, a: seq<S>, b: seq<S>)
    requires RankDecreases(classify, rank)
    ensures QueueBag(classify, rank, a + b) == QueueBag(classify, rank, a) + QueueBag(classify, rank, b)
  {
    if |a| == 0 {
      assert a + b == b;
    } else {
      assert (a + b)[1..] == a[1..] + b;
      QueueBagAppend(classify, rank, a[1..], b);
    }
  }

  lemma {:induction false} ForestBagIsQueueBag<S(!new)>(classify: S -> Verdict<S>, rank: S -> nat, children: seq<S>, bound: nat)
    requires RankDecreases(classify, rank)
    requires forall i :: 0 <= i < |children| ==> rank(children[i]) < bound
    ensures ForestBag(classify, rank, children, bound) == QueueBag(classify, rank, children)
  {
    if |children| > 0 {
      ForestBagIsQueueBag(classify, rank, children[1..], bound);
    }
  }

  lemma QueueBagRemove<S(!new)>(classify: S -> Verdict<S>, rank: S -> nat, q: seq<S>, i: nat)
    requires RankDecreases(classify, rank) && i < |q|
    ensures QueueBag(classify, rank, q)
         == TreeBag(classify, rank, q[i]) + QueueBag(classify, rank, q[..i] + q[i + 1..])
  {
    var before, after := q[..i], q[i + 1..];
    var tail := [q[i]] + after;
    assert q == before + tail;
    QueueBagAppend(classify, rank, before, tail);
    assert tail[0] == q[i] && tail[1..] == after;
    assert QueueBag(classify, rank, tail) == TreeBag(classify, rank, q[i]) + QueueBag(classify, rank, after);
    QueueBagAppend(classify, rank, before, after);
  }

  /** The unbounded breadth-first run emits each leaf of the frontier's trees once per occurrence. */
  lemma {:induction false} DrainIsQueueBag<S(!new)>(classify: S -> Verdict<S>, rank: S -> nat, q: seq<S>)
    requires RankDecreases(classify, rank)
    ensures multiset(Drain(classify, rank, q)) == QueueBag(classify, rank, q)
    decreases QueueSize(classify, rank, q)
  {
    if |q| > 0 {
      var s, rest := q[0], q[1..];
      match classify(s)
        case Branch(children) =>
          ExpandShrinks(classify, rank, s, rest);
          DrainIsQueueBag(classify, rank, rest + children);
          QueueBagAppend(classify, rank, rest, children);
          ForestBagIsQueueBag(classify, rank, children, rank(s));
        case _ =>
          DrainIsQueueBag(classify, rank, rest);
    }
  }

  /** So does the best-first run, in another order. */
  lemma {:induction false} BestDrainIsQueueBag<S(!new)>(classify: S -> Verdict<S>, rank: S -> nat, h: S -> int, q: seq<S>)
    requires RankDecreases(classify, rank)
    ensures multiset(BestDrain(classify, rank, h, q)) == QueueBag(classify, rank, q)
    decreases QueueSize(classify, rank, q)
  {
    if |q| > 0 {
      var i := ArgMin(h, q);
      var s, rest := q[i], q[..i] + q[i + 1..];
      QueueSizeRemove(classify, rank, q, i);
      QueueBagRemove(classify, rank, q, i);
      match classify(s)
        case Branch(children) =>
          ExpandShrinks(classify, rank, s, rest);
          BestDrainIsQueueBag(classify, rank, h, rest + children);
          QueueBagAppend(classify, rank, rest, children);
          ForestBagIsQueueBag(classify, rank, children, rank(s));
        case _ =>
          BestDrainIsQueueBag(classify, rank, h, rest);
    }
  }

  /**
   * Run to the end, breadth-first and best-first emit the same states with
   * the same multiplicities, whatever the heuristic; only the order differs.
   */
  lemma BreadthAndBestFirstAgree<S(!new)>(classify: S -> Verdict<S>, rank: S -> nat, h: S -> int, initial: S)
    requires RankDecreases(classify, rank)
    ensures multiset(Drain(classify, rank, [initial])) == multiset(BestDrain(classify, rank, h, [initial]))
  {
    DrainIsQueueBag(classify, rank, [initial]);
    BestDrainIsQueueBag(classify, rank, h, [initial]);
  }

  // ------------------------------------------------------------ No model lost

  /**
   * The operators lose no model: a refuted state has none, Decompose never
   * fails, and the children of a branching state cover it.
   */
  ghost predicate LosesNothing<S(!new), M>(classify: S -> Verdict<S>, conc: S -> set<M>)
  {
    forall s ::
      && (classify(s).Refuted? ==> conc(s) == {})
      && !classify(s).Dropped?
      && (classify(s).Branch? ==>
            forall m | m in conc(s) ::
              exists i :: 0 <= i < |classify(s).children| && m in conc(classify(s).children[i]))
  }

  /** Every model of a frontier state is a model of some state the breadth-first run emits. */
  lemma {:induction false} DrainLosesNothing<S(!new), M>(classify: S -> Verdict<S>, rank: S -> nat,
                                                          conc: S -> set<M>, q: seq<S>, k: nat, m: M)
    requires RankDecreases(classify, rank) && LosesNothing(classify, conc)
    requires k < |q| && m in conc(q[k])
    ensures exists x :: x in Drain(classify, rank, q) && m in conc(x)
    decreases QueueSize(classify, rank, q)
  {
    var s, rest := q[0], q[1..];
    match classify(s)
      case Leaf =>
        if k == 0 {
          assert s in Drain(classify, rank, q);
        } else {
          assert rest[k - 1] == q[k];
          DrainLosesNothing(classify, rank, conc, rest, k - 1, m);
          var x :| x in Drain(classify, rank, rest) && m in conc(x);
          assert x in Drain(classify, rank, q);
        }
      case Branch(children) =>
        ExpandShrinks(classify, rank, s, rest);
        if k == 0 {
          var i :| 0 <= i < |children| && m in conc(children[i]);
          assert (rest + children)[|rest| + i] == children[i];
          DrainLosesNothing(classify, rank, conc, rest + children, |rest| + i, m);
        } else {
          assert (rest + children)[k - 1] == q[k];
          DrainLosesNothing(classify, rank, conc, rest + children, k - 1, m);
        }
      case Refuted =>
        if k == 0 {
          assert false;
        } else {
          assert rest[k - 1] == q[k];
          DrainLosesNothing(classify, rank, conc, rest, k - 1, m);
        }
      case Dropped =>
        assert false;
  }

  /**
   * When the operators lose nothing, every model of the initial state is a
   * model of some state emitted by the unbounded breadth-first run and by
   * the best-first run.
   */
  lemma RunsLoseNothing<S(!new), M>(classify: S -> Verdict<S>, rank: S -> nat, h: S -> int,
                                    conc: S -> set<M>, initial: S, m: M)
    requires RankDecreases(classify, rank) && LosesNothing(classify, conc)
    requires m in conc(initial)
    ensures exists x :: x in Drain(classify, rank, [initial]) && m in conc(x)
    ensures exists x :: x in BestDrain(classify, rank, h, [initial]) && m in conc(x)
  {
    DrainLosesNothing(classify, rank, conc, [initial], 0, m);
    var x :| x in Drain(classify, rank, [initial]) && m in conc(x);
    BreadthAndBestFirstAgree(classify, rank, h, initial);
    assert x in multiset(Drain(classify, rank, [initial]));
    assert x in BestDrain(classify, rank, h, [initial]);
  }
}
