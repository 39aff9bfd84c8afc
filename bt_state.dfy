/**
 * The mutable fields of every behaviour-tree node, the bounds they keep,
 * and the frame predicates used to say which nodes an operation touched.
 */
module BehaviourState {
  import opened Wrappers
  import opened BehaviourShape

  /**
   * Every field any node class updates; a node uses the ones of its class.
   *  - nextUpdateTime: written by BehaviorNode.Sleep.
   *  - cursor: the 1-based `idx` of Sequence, Selector and Loop.
   *  - choice: the 0-based `idx` of Random and Priority (None is `null`).
   *  - rep: Loop's repetition count.
   *  - running: MultiCondition's flag.
   *  - wakeTime: Wait's wake-up time in milliseconds.
   *  - lasttime: Priority's last evaluation time in seconds (None is `null`).
   *  - triggered: Event's flag.
   *  - lastlatchtime, currentlatchduration: Latch's window; None stands
   *    for the initial `-Infinity`.
   */
  datatype NodeState = NodeState(
    status: Status,
    lastResult: Status,
    nextUpdateTime: real,
    cursor: int,
    choice: Option<nat>,
    rep: int,
    running: bool,
    wakeTime: real,
    lasttime: Option<real>,
    triggered: bool,
    lastlatchtime: Option<real>,
    currentlatchduration: real)

  /** The state a node's constructor leaves it in. */
  function InitNode(k: Kind): (ns: NodeState)
    ensures ns.status == Ready && ns.lastResult == Ready && ns.cursor == 1 && ns.choice.None?
    ensures ns.lasttime.Some? <==> k.Priority? && !k.noscatter
  {
    NodeState(Ready, Ready, 0.0, 1, None, 0, false, 0.0,
              if k.Priority? && !k.noscatter then Some(k.period * 0.5 + k.period * k.draw) else None,
              false, None, 0.0)
  }

  function InitState(shape: seq<Shape>): (s: seq<NodeState>)
    ensures |s| == |shape|
    ensures forall j :: 0 <= j < |s| ==> s[j] == InitNode(shape[j].kind)
  {
    seq(|shape|, j requires 0 <= j < |shape| => InitNode(shape[j].kind))
  }

  /** The bounds a node's own fields keep between calls. */
  ghost predicate LocalOK(sh: Shape, ns: NodeState)
  {
    && (IsCursorKind(sh.kind) ==> 1 <= ns.cursor <= |sh.children| + 1)
    && ((sh.kind.Random? || sh.kind.Priority?) && ns.choice.Some? ==> ns.choice.value < |sh.children|)
    && (sh.kind.Random? && ns.status != Ready ==> ns.choice.Some?)
  }

  ghost predicate StateOK(shape: seq<Shape>, s: seq<NodeState>)
  {
    |s| == |shape| && forall j :: 0 <= j < |s| ==> LocalOK(shape[j], s[j])
  }

  /** Filler for the positions a view of the state leaves out. */
  const Blank: NodeState := InitNode(Base)

  /** The state with the subtree of `i` blanked out. */
  ghost function Outside(shape: seq<Shape>, s: seq<NodeState>, i: nat): (r: seq<NodeState>)
    requires |s| == |shape|
    ensures |r| == |s|
  {
    seq(|s|, j requires 0 <= j < |s| => if Under(shape, i, j) then Blank else s[j])
  }

  /** The state of the subtree of `c`, everything else blanked out. */
  ghost function Inside(shape: seq<Shape>, s: seq<NodeState>, c: nat): (r: seq<NodeState>)
    requires |s| == |shape|
    ensures |r| == |s|
  {
    seq(|s|, j requires 0 <= j < |s| => if Under(shape, c, j) then s[j] else Blank)
  }

  /** Every node's lastResult. */
  function Results(s: seq<NodeState>): (r: seq<Status>)
    ensures |r| == |s| && forall j :: 0 <= j < |s| ==> r[j] == s[j].lastResult
  {
    seq(|s|, j requires 0 <= j < |s| => s[j].lastResult)
  }

  /** Nothing outside the subtree of `i` changed from `s0` to `s1`. */
  ghost predicate Confined(shape: seq<Shape>, s0: seq<NodeState>, s1: seq<NodeState>, i: nat)
  {
    |s0| == |shape| && |s1| == |shape| && Outside(shape, s0, i) == Outside(shape, s1, i)
  }

  /** Nothing inside the subtree of `c` changed from `s0` to `s1`. */
  ghost predicate SubtreeSame(shape: seq<Shape>, s0: seq<NodeState>, s1: seq<NodeState>, c: nat)
  {
    |s0| == |shape| && |s1| == |shape| && Inside(shape, s0, c) == Inside(shape, s1, c)
  }

  /** No node's lastResult changed. */
  ghost predicate ResultsKept(s0: seq<NodeState>, s1: seq<NodeState>)
  {
    Results(s0) == Results(s1)
  }

  lemma ConfinedAt(shape: seq<Shape>, s0: seq<NodeState>, s1: seq<NodeState>, i: nat, j: nat)
    requires Confined(shape, s0, s1, i) && j < |shape| && !Under(shape, i, j)
    ensures s1[j] == s0[j]
  {
    assert Outside(shape, s0, i)[j] == Outside(shape, s1, i)[j];
  }

  lemma ConfinedIntro(shape: seq<Shape>, s0: seq<NodeState>, s1: seq<NodeState>, i: nat)
    requires |s0| == |shape| && |s1| == |shape|
    requires forall j :: 0 <= j < |shape| && !Under(shape, i, j) ==> s1[j] == s0[j]
    ensures Confined(shape, s0, s1, i)
  {
    assert forall j :: 0 <= j < |shape| ==> Outside(shape, s0, i)[j] == Outside(shape, s1, i)[j];
  }

  lemma SubtreeAt(shape: seq<Shape>, s0: seq<NodeState>, s1: seq<NodeState>, c: nat, j: nat)
    requires SubtreeSame(shape, s0, s1, c) && j < |shape| && Under(shape, c, j)
    ensures s1[j] == s0[j]
  {
    assert Inside(shape, s0, c)[j] == Inside(shape, s1, c)[j];
  }

  lemma SubtreeIntro(shape: seq<Shape>, s0: seq<NodeState>, s1: seq<NodeState>, c: nat)
    requires |s0| == |shape| && |s1| == |shape|
    requires forall j :: 0 <= j < |shape| && Under(shape, c, j) ==> s1[j] == s0[j]
    ensures SubtreeSame(shape, s0, s1, c)
  {
    assert forall j :: 0 <= j < |shape| ==> Inside(shape, s0, c)[j] == Inside(shape, s1, c)[j];
  }

  /** The root of a subtree that did not change did not change. */
  lemma SubtreeRoot(shape: seq<Shape>, s0: seq<NodeState>, s1: seq<NodeState>, c: nat)
    requires SubtreeSame(shape, s0, s1, c) && c < |shape|
    ensures s1[c] == s0[c]
  {
    SubtreeAt(shape, s0, s1, c, c);
  }

  lemma ResultsAt(s0: seq<NodeState>, s1: seq<NodeState>, j: nat)
    requires ResultsKept(s0, s1) && j < |s0|
    ensures s1[j].lastResult == s0[j].lastResult
  {
    assert Results(s0)[j] == Results(s1)[j];
  }

  /** Changing node `i` without touching its lastResult is a change confined to `i`'s subtree. */
  lemma OwnUpdate(shape: seq<Shape>, s: seq<NodeState>, i: nat, x: NodeState)
    requires WellFormed(shape) && |s| == |shape| && i < |shape| && x.lastResult == s[i].lastResult
    ensures Confined(shape, s, s[i := x], i) && ResultsKept(s, s[i := x])
    ensures forall m :: 0 <= m < |shape[i].children| ==> SubtreeSame(shape, s, s[i := x], shape[i].children[m])
  {
    ConfinedIntro(shape, s, s[i := x], i);
    assert Results(s) == Results(s[i := x]);
    forall m | 0 <= m < |shape[i].children|
      ensures SubtreeSame(shape, s, s[i := x], shape[i].children[m])
    {
      NotUnderLater(shape, shape[i].children[m], i);
      SubtreeIntro(shape, s, s[i := x], shape[i].children[m]);
    }
  }

  /** A change confined to a child's subtree is confined to the parent's. */
  lemma ConfinedChild(shape: seq<Shape>, s0: seq<NodeState>, s1: seq<NodeState>, i: nat, c: nat)
    requires WellFormed(shape) && i < |shape| && c in shape[i].children
    requires Confined(shape, s0, s1, c)
    ensures Confined(shape, s0, s1, i)
  {
    forall j | 0 <= j < |shape| && !Under(shape, i, j)
      ensures s1[j] == s0[j]
    {
      if Under(shape, c, j) {
        UnderChild(shape, i, c, j);
      }
      ConfinedAt(shape, s0, s1, c, j);
    }
    ConfinedIntro(shape, s0, s1, i);
  }

  /** A change confined to one child's subtree leaves every sibling's subtree alone. */
  lemma ConfinedSibling(shape: seq<Shape>, s0: seq<NodeState>, s1: seq<NodeState>, i: nat, c: nat, d: nat)
    requires WellFormed(shape) && i < |shape|
    requires c in shape[i].children && d in shape[i].children && c != d
    requires Confined(shape, s0, s1, c)
    ensures SubtreeSame(shape, s0, s1, d) && s1[d] == s0[d]
  {
    ChildParent(shape, i, d);
    forall j | 0 <= j < |shape| && Under(shape, d, j)
      ensures s1[j] == s0[j]
    {
      SiblingsDisjoint(shape, i, c, d, j);
      ConfinedAt(shape, s0, s1, c, j);
    }
    SubtreeIntro(shape, s0, s1, d);
  }

  /** A change confined to a subtree leaves every node before its root alone. */
  lemma ConfinedBefore(shape: seq<Shape>, s0: seq<NodeState>, s1: seq<NodeState>, c: nat, j: nat)
    requires Confined(shape, s0, s1, c) && j < c && j < |shape|
    ensures s1[j] == s0[j]
  {
    NotUnderLater(shape, c, j);
    ConfinedAt(shape, s0, s1, c, j);
  }

  /** The host inputs of one tree update. */
  datatype Env = Env(
    now: int,                   // Date.now(), in milliseconds
    test: nat -> bool,          // the function a Condition or MultiCondition calls
    proceed: nat -> bool,       // MultiCondition's `continue` function
    pick: nat -> nat,           // Random's Math.random() draw, as a start index
    latchLength: nat -> real)   // a Latch duration function's value

  /** GetTime(): Date.now() / 1000. */
  function Seconds(ms: int): (t: real)
    ensures ms >= 0 ==> t >= 0.0
  {
    ms as real / 1000.0
  }
}
