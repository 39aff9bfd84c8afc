/**
 * The static shape of a behaviour tree (src/behaviourtree.ts): which node
 * classes exist, the parameters fixed by their constructors, and how nodes
 * are linked as children and parent.
 *
 * A tree is an arena: a sequence of `Shape`s whose children and parent
 * fields are indices into the same sequence.  Node 0 is the root that a
 * `BT` wraps.  Children always sit at larger indices than their parent,
 * which is what makes every recursion over a tree terminate.
 */
module BehaviourShape {
  import opened Wrappers

  /** BehaviorStatus. */
  datatype Status = Ready | Running | Success | Failed

  /**
   * The node classes, with the constructor arguments that stay fixed.
   *  - Base: a plain BehaviorNode or DecoratorNode, whose Visit fails.
   *  - Wait: waitTime in milliseconds.
   *  - Loop: maxreps, where None stands for `null` (repeat forever).
   *  - Priority: the period after `period || 1`, the noscatter flag and the
   *    Math.random() draw taken by the constructor.
   *  - Event: the priority after `priority || 0`.
   *  - Latch: a fixed latch duration, or None when the duration is a
   *    function that is called on every latch.
   */
  datatype Kind =
    | Base
    | Condition
    | MultiCondition
    | ConditionWait
    | Action
    | Wait(waitTime: real)
    | Sequence
    | Selector
    | Not
    | FailIfRunning
    | FailIfSuccess
    | Loop(maxreps: Option<int>)
    | Random
    | Priority(period: real, noscatter: bool, draw: real)
    | Parallel(stopOnAnyComplete: bool)
    | Event(priority: real)
    | Latch(duration: Option<real>)

  datatype Shape = Shape(kind: Kind, children: seq<nat>, parent: Option<nat>)

  /** Nodes that are built without children. */
  predicate IsLeafKind(k: Kind)
  {
    k.Condition? || k.MultiCondition? || k.ConditionWait? || k.Action? || k.Wait?
  }

  /** Decorators, Event and Latch wrap exactly one child. */
  predicate IsSingleChildKind(k: Kind)
  {
    k.Not? || k.FailIfRunning? || k.FailIfSuccess? || k.Event? || k.Latch?
  }

  /** Composites that walk their children with a 1-based `idx`. */
  predicate IsCursorKind(k: Kind)
  {
    k.Sequence? || k.Selector? || k.Loop?
  }

  /** The PriorityNode constructor turns a missing or zero period into 1. */
  function PriorityPeriod(period: Option<real>): (r: real)
    ensures r != 0.0
    ensures period.Some? && period.value != 0.0 ==> r == period.value
  {
    if period.None? || period.value == 0.0 then 1.0 else period.value
  }

  ghost predicate ArityOK(sh: Shape)
  {
    && (IsLeafKind(sh.kind) ==> |sh.children| == 0)
    && (IsSingleChildKind(sh.kind) ==> |sh.children| == 1)
    && (sh.kind.Random? ==> |sh.children| >= 1)
    && (sh.kind.Priority? ==> sh.kind.period != 0.0 && 0.0 <= sh.kind.draw < 1.0)
  }

  /**
   * The links of node `i` agree in both directions: each child comes after
   * it and names it as parent, no child is listed twice, and its parent
   * comes before it and lists it.
   */
  ghost predicate NodeLinks(shape: seq<Shape>, i: nat)
    requires i < |shape|
  {
    && (forall k :: 0 <= k < |shape[i].children| ==>
          i < shape[i].children[k] < |shape| && shape[shape[i].children[k]].parent == Some(i))
    && (forall k, m :: 0 <= k < m < |shape[i].children| ==> shape[i].children[k] != shape[i].children[m])
    && (shape[i].parent.Some? ==> shape[i].parent.value < i && i in shape[shape[i].parent.value].children)
  }

  /** Children come after their parent, every node's links agree and every node has the arity of its class. */
  ghost predicate WellFormed(shape: seq<Shape>)
  {
    && (forall i, k :: 0 <= i < |shape| && 0 <= k < |shape[i].children| ==> i < shape[i].children[k] < |shape|)
    && (forall i :: 0 <= i < |shape| ==> NodeLinks(shape, i))
    && (forall i :: 0 <= i < |shape| ==> ArityOK(shape[i]))
  }

  /** Links that agree at every node, and arities that fit, make a well-formed arena. */
  lemma WellFormedIntro(shape: seq<Shape>)
    requires forall i :: 0 <= i < |shape| ==> NodeLinks(shape, i) && ArityOK(shape[i])
    ensures WellFormed(shape)
  {
    forall i, k | 0 <= i < |shape| && 0 <= k < |shape[i].children|
      ensures i < shape[i].children[k] < |shape|
    {
      assert NodeLinks(shape, i);
    }
  }

  lemma Links(shape: seq<Shape>, i: nat)
    requires WellFormed(shape) && i < |shape|
    ensures NodeLinks(shape, i)
  {
  }

  /** Node `j` lies in the subtree rooted at `a` (it is `a` or a descendant). */
  ghost predicate Under(shape: seq<Shape>, a: nat, j: nat)
    requires j < |shape|
    decreases j
  {
    j == a || (shape[j].parent.Some? && shape[j].parent.value < j && Under(shape, a, shape[j].parent.value))
  }

  /** Every subtree node sits at an index no smaller than its root. */
  lemma {:induction false} UnderAtLeast(shape: seq<Shape>, a: nat, j: nat)
    requires j < |shape| && Under(shape, a, j)
    ensures a <= j
    decreases j
  {
    if j != a {
      UnderAtLeast(shape, a, shape[j].parent.value);
    }
  }

  /** The parent of a listed child is the node that lists it. */
  lemma ChildParent(shape: seq<Shape>, i: nat, c: nat)
    requires WellFormed(shape) && i < |shape| && c in shape[i].children
    ensures i < c < |shape| && shape[c].parent == Some(i)
  {
    Links(shape, i);
    var k :| 0 <= k < |shape[i].children| && shape[i].children[k] == c;
  }

  /** A child's subtree is part of its parent's subtree. */
  lemma {:induction false} UnderChild(shape: seq<Shape>, i: nat, c: nat, j: nat)
    requires WellFormed(shape) && i < |shape| && c in shape[i].children
    requires j < |shape| && Under(shape, c, j)
    ensures Under(shape, i, j)
    decreases j
  {
    ChildParent(shape, i, c);
    if j != c {
      UnderChild(shape, i, c, shape[j].parent.value);
    }
  }

  /** Subtrees nest: a subtree of a node below `a` lies below `a`. */
  lemma {:induction false} UnderTrans(shape: seq<Shape>, a: nat, b: nat, j: nat)
    requires b < |shape| && j < |shape| && Under(shape, a, b) && Under(shape, b, j)
    ensures Under(shape, a, j)
    decreases j
  {
    if j != b {
      UnderTrans(shape, a, b, shape[j].parent.value);
    }
  }

  /** Two subtrees that share a node are nested. */
  lemma {:induction false} UnderChain(shape: seq<Shape>, a: nat, b: nat, j: nat)
    requires a < |shape| && b < |shape| && j < |shape|
    requires Under(shape, a, j) && Under(shape, b, j)
    ensures Under(shape, a, b) || Under(shape, b, a)
    decreases j
  {
    if j != a && j != b {
      UnderChain(shape, a, b, shape[j].parent.value);
    }
  }

  /** No child lies in the subtree of one of its siblings. */
  lemma SiblingNotUnder(shape: seq<Shape>, i: nat, c: nat, d: nat)
    requires WellFormed(shape) && i < |shape|
    requires c in shape[i].children && d in shape[i].children && c != d
    ensures !Under(shape, c, d)
  {
    ChildParent(shape, i, c);
    ChildParent(shape, i, d);
    if Under(shape, c, d) {
      UnderAtLeast(shape, c, i);
    }
  }

  /** The subtrees of two different children of a node are disjoint. */
  lemma SiblingsDisjoint(shape: seq<Shape>, i: nat, c: nat, d: nat, j: nat)
    requires WellFormed(shape) && i < |shape|
    requires c in shape[i].children && d in shape[i].children && c != d
    requires j < |shape|
    ensures !(Under(shape, c, j) && Under(shape, d, j))
  {
    ChildParent(shape, i, c);
    ChildParent(shape, i, d);
    if Under(shape, c, j) && Under(shape, d, j) {
      UnderChain(shape, c, d, j);
      SiblingNotUnder(shape, i, c, d);
      SiblingNotUnder(shape, i, d, c);
    }
  }

  /** A proper descendant of `i` lies in the subtree of one of its children. */
  lemma {:induction false} UnderSomeChild(shape: seq<Shape>, i: nat, j: nat) returns (k: nat)
    requires WellFormed(shape) && i < |shape| && j < |shape|
    requires Under(shape, i, j) && j != i
    ensures k < |shape[i].children| && Under(shape, shape[i].children[k], j)
    decreases j
  {
    Links(shape, j);
    var p := shape[j].parent.value;
    if p == i {
      k :| 0 <= k < |shape[i].children| && shape[i].children[k] == j;
    } else {
      k := UnderSomeChild(shape, i, p);
    }
  }

  /** A node never lies in the subtree of a node that comes after it. */
  lemma NotUnderLater(shape: seq<Shape>, a: nat, j: nat)
    requires j < |shape| && j < a
    ensures !Under(shape, a, j)
  {
    if Under(shape, a, j) {
      UnderAtLeast(shape, a, j);
    }
  }
}
