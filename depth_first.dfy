/**
 * The depth-first worklist shared by `LegacyDepthFirstStrategy` and
 * `DepthFirstStrategy`: an explicit stack of (state, depth) pairs, the
 * initial state at depth 0, states deeper than `maxDepth` discarded
 * before any operator runs, a leaf appended to the result, and the
 * children of a branching state pushed in index order at depth + 1.
 *
 * `Leaves` is the reference definition: the states the search emits from
 * one state, in order.  Children are pushed in index order and popped
 * from the top, so the last child's subtree is emitted first.
 */
module DepthFirst {
  import opened Verdicts

  /** The states emitted from `s` found at `depth`. */
  function Leaves<S>(classify: S -> Verdict<S>, maxDepth: int, s: S, depth: int): (r: seq<S>)
    decreases maxDepth - depth + 1, 0
  {
    if depth > maxDepth then []
    else match classify(s)
      case Leaf => [s]
      case Branch(children) => ForestLeaves(classify, maxDepth, children, depth + 1)
      case _ => []
  }

  /** The states emitted from sibling states pushed in order at `depth`: last sibling first. */
  function ForestLeaves<S>(classify: S -> Verdict<S>, maxDepth: int, children: seq<S>, depth: int): (r: seq<S>)
    decreases maxDepth - depth + 1, |children|
  {
    if |children| == 0 then []
    else
      Leaves(classify, maxDepth, children[|children| - 1], depth)
      + ForestLeaves(classify, maxDepth, children[..|children| - 1], depth)
  }

  /** What a stack still has to emit: the top entry's states first. */
  function StackLeaves<S>(classify: S -> Verdict<S>, maxDepth: int, stack: seq<(S, int)>): (r: seq<S>)
  {
    if |stack| == 0 then []
    else
      Leaves(classify, maxDepth, stack[|stack| - 1].0, stack[|stack| - 1].1)
      + StackLeaves(classify, maxDepth, stack[..|stack| - 1])
  }

  /** The number of states the search pops below `s`, `s` included. */
  ghost function Size<S>(classify: S -> Verdict<S>, maxDepth: int, s: S, depth: int): (r: nat)
    decreases maxDepth - depth + 1, 0
  {
    if depth > maxDepth then 1
    else match classify(s)
      case Branch(children) => 1 + ForestSize(classify, maxDepth, children, depth + 1)
      case _ => 1
  }

  ghost function ForestSize<S>(classify: S -> Verdict<S>, maxDepth: int, children: seq<S>, depth: int): (r: nat)
    decreases maxDepth - depth + 1, |children|
  {
    if |children| == 0 then 0
    else
      Size(classify, maxDepth, children[|children| - 1], depth)
      + ForestSize(classify, maxDepth, children[..|children| - 1], depth)
  }

  ghost function StackSize<S>(classify: S -> Verdict<S>, maxDepth: int, stack: seq<(S, int)>): (r: nat)
  {
    if |stack| == 0 then 0
    else
      Size(classify, maxDepth, stack[|stack| - 1].0, stack[|stack| - 1].1)
      + StackSize(classify, maxDepth, stack[..|stack| - 1])
  }

  /**
   * The depth-first `execute` loop.  It terminates for every `maxDepth`,
   * emits exactly `Leaves` of the initial state, emits nothing when
   * `maxDepth` is negative, and emits only states classified as leaves.
   */
  method DepthFirstSearch<S(==)>(classify: S -> Verdict<S>, maxDepth: int, initial: S) returns (result: seq<S>)
    ensures result == Leaves(classify, maxDepth, initial, 0)
    ensures maxDepth < 0 ==> result == []
    ensures forall x | x in result :: classify(x).Leaf?
  {
    result := [];
    var stack: seq<(S, int)> := [(initial, 0)];
    assert stack[..0] == [];
    while |stack| > 0
      invariant result + StackLeaves(classify, maxDepth, stack) == Leaves(classify, maxDepth, initial, 0)
      decreases StackSize(classify, maxDepth, stack)
    {
      var (s, depth) := stack[|stack| - 1];
      var rest := stack[..|stack| - 1];
      stack := rest;
      if depth > maxDepth {
        continue;
      }
      match classify(s) {
        case Leaf =>
          result := result + [s];
        case Branch(children) =>
          for i := 0 to |children|
            invariant StackLeaves(classify, maxDepth, stack)
                   == ForestLeaves(classify, maxDepth, children[..i], depth + 1) + StackLeaves(classify, maxDepth, rest)
            invariant StackSize(classify, maxDepth, stack)
                   == ForestSize(classify, maxDepth, children[..i], depth + 1) + StackSize(classify, maxDepth, rest)
          {
            assert (stack + [(children[i], depth + 1)])[..|stack|] == stack;
            assert children[..i + 1][..i] == children[..i];
            stack := stack + [(children[i], depth + 1)];
          }
          assert children[..|children|] == children;
        case _ =>
      }
    }
    LeavesAreLeaves(classify, maxDepth, initial, 0);
  }

  /** Only states classified as leaves are emitted. */
  lemma {:induction false} LeavesAreLeaves<S>(classify: S -> Verdict<S>, maxDepth: int, s: S, depth: int)
    ensures forall i :: 0 <= i < |Leaves(classify, maxDepth, s, depth)| ==>
              classify(Leaves(classify, maxDepth, s, depth)[i]).Leaf?
    decreases maxDepth - depth + 1, 0
  {
    if depth <= maxDepth && classify(s).Branch? {
      ForestLeavesAreLeaves(classify, maxDepth, classify(s).children, depth + 1);
    }
  }

  lemma {:induction false} ForestLeavesAreLeaves<S>(classify: S -> Verdict<S>, maxDepth: int, children: seq<S>, depth: int)
    ensures forall i :: 0 <= i < |ForestLeaves(classify, maxDepth, children, depth)| ==>
              classify(ForestLeaves(classify, maxDepth, children, depth)[i]).Leaf?
    decreases maxDepth - depth + 1, |children|
  {
    if |children| > 0 {
      LeavesAreLeaves(classify, maxDepth, children[|children| - 1], depth);
      ForestLeavesAreLeaves(classify, maxDepth, children[..|children| - 1], depth);
    }
  }

  /** When no state is a leaf (say, Infeasible refutes everything), nothing is emitted. */
  lemma {:induction false} NoLeafNoResult<S>(classify: S -> Verdict<S>, maxDepth: int, s: S, depth: int)
    requires forall t :: !classify(t).Leaf?
    ensures Leaves(classify, maxDepth, s, depth) == []
    decreases maxDepth - depth + 1, 0
  {
    if depth <= maxDepth && classify(s).Branch? {
      ForestNoLeafNoResult(classify, maxDepth, classify(s).children, depth + 1);
    }
  }

  lemma {:induction false} ForestNoLeafNoResult<S>(classify: S -> Verdict<S>, maxDepth: int, children: seq<S>, depth: int)
    requires forall t :: !classify(t).Leaf?
    ensures ForestLeaves(classify, maxDepth, children, depth) == []
    decreases maxDepth - depth + 1, |children|
  {
    if |children| > 0 {
      NoLeafNoResult(classify, maxDepth, children[|children| - 1], depth);
      ForestNoLeafNoResult(classify, maxDepth, children[..|children| - 1], depth);
    }
  }

  /** A leaf initial state within the depth bound is the whole result. */
  lemma LeafInitialIsTheResult<S>(classify: S -> Verdict<S>, maxDepth: int, initial: S)
    requires classify(initial).Leaf? && maxDepth >= 0
    ensures Leaves(classify, maxDepth, initial, 0) == [initial]
  {
  }

  /**
   * A state that branches is not emitted: it is replaced by its children,
   * and when it has none it silently disappears.
   */
  lemma BranchWithoutChildrenIsDropped<S>(classify: S -> Verdict<S>, maxDepth: int, s: S, depth: int)
    requires classify(s) == Branch([]) && depth <= maxDepth
    ensures Leaves(classify, maxDepth, s, depth) == []
  {
  }

  /** `x` is reached from `root` by `n` Decompose steps, each into one of the returned children. */
  ghost predicate Descendant<S>(classify: S -> Verdict<S>, root: S, x: S, n: nat)
    decreases n
  {
    if n == 0 then x == root
    else
      classify(root).Branch?
      && exists i :: 0 <= i < |classify(root).children| && Descendant(classify, classify(root).children[i], x, n - 1)
  }

  /**
   * Every emitted state was popped from the stack: it descends from the
   * initial state through Decompose outputs, by a path short enough for the
   * depth bound.
   */
  lemma {:induction false} EmittedAreProduced<S>(classify: S -> Verdict<S>, maxDepth: int, s: S, depth: int)
    ensures forall x | x in Leaves(classify, maxDepth, s, depth) ::
              exists n: nat :: depth + n <= maxDepth && Descendant(classify, s, x, n)
    decreases maxDepth - depth + 1, 0
  {
    if depth <= maxDepth {
      match classify(s)
      case Leaf =>
        assert Descendant(classify, s, s, 0);
      case Branch(children) =>
        ForestEmittedAreProduced(classify, maxDepth, children, depth + 1);
        forall x | x in Leaves(classify, maxDepth, s, depth)
          ensures exists n: nat :: depth + n <= maxDepth && Descendant(classify, s, x, n)
        {
          var i, n: nat :| 0 <= i < |children| && depth + 1 + n <= maxDepth && Descendant(classify, children[i], x, n);
          assert Descendant(classify, s, x, n + 1);
        }
        assert forall x | x in Leaves(classify, maxDepth, s, depth) ::
              exists n: nat :: depth + n <= maxDepth && Descendant(classify, s, x, n);
      case _ =>
    }
  }

  lemma {:induction false} ForestEmittedAreProduced<S>(classify: S -> Verdict<S>, maxDepth: int, children: seq<S>, depth: int)
    ensures forall x | x in ForestLeaves(classify, maxDepth, children, depth) ::
              exists i, n: nat :: 0 <= i < |children| && depth + n <= maxDepth && Descendant(classify, children[i], x, n)
    decreases maxDepth - depth + 1, |children|
  {
    if |children| > 0 {
      var k := |children| - 1;
      var prefix := children[..k];
      EmittedAreProduced(classify, maxDepth, children[k], depth);
      ForestEmittedAreProduced(classify, maxDepth, prefix, depth);
      forall x | x in ForestLeaves(classify, maxDepth, children, depth)
        ensures exists i, n: nat :: 0 <= i < |children| && depth + n <= maxDepth && Descendant(classify, children[i], x, n)
      {
        if x in Leaves(classify, maxDepth, children[k], depth) {
          var n: nat :| depth + n <= maxDepth && Descendant(classify, children[k], x, n);
          assert 0 <= k < |children|;
        } else {
          assert x in ForestLeaves(classify, maxDepth, prefix, depth);
          var i, n: nat :| 0 <= i < |prefix| && depth + n <= maxDepth && Descendant(classify, prefix[i], x, n);
          assert prefix[i] == children[i];
        }
      }
      assert forall x | x in ForestLeaves(classify, maxDepth, children, depth) ::
              exists i, n: nat :: 0 <= i < |children| && depth + n <= maxDepth && Descendant(classify, children[i], x, n);
    }
  }
}
