/**
 * The builders whileNode, ifNode and ifThenDoWhileNode of
 * src/behaviourtree.ts.  Each puts a fresh condition node in front of a
 * given subtree under a fresh composite: in the arena, the composite
 * becomes node 0, the condition node 1, and the subtree follows from
 * index 2 on, every link shifted by two.
 */
module BehaviourBuilders {
  import opened Wrappers
  import opened BehaviourShape

  /** A well-formed arena rooted at node 0: every other node has a parent. */
  ghost predicate IsTree(shape: seq<Shape>)
  {
    && WellFormed(shape) && |shape| > 0 && shape[0].parent.None?
    && forall j :: 0 < j < |shape| ==> shape[j].parent.Some?
  }

  /** Moves a node `d` places up the arena, with its links. */
  function Shift(sh: Shape, d: nat): (r: Shape)
    ensures r.kind == sh.kind && |r.children| == |sh.children|
    ensures forall k :: 0 <= k < |sh.children| ==> r.children[k] == sh.children[k] + d
    ensures r.parent.Some? <==> sh.parent.Some?
    ensures sh.parent.Some? ==> r.parent.value == sh.parent.value + d
  {
    Shape(sh.kind,
          seq(|sh.children|, k requires 0 <= k < |sh.children| => sh.children[k] + d),
          if sh.parent.Some? then Some(sh.parent.value + d) else None)
  }

  /**
   * `new k([new cond(...), node])`: the composite at 0 with children 1
   * (the condition) and 2 (the old root), whose parent links now point at
   * the composite.
   */
  function Combine(k: Kind, cond: Kind, sub: seq<Shape>): (r: seq<Shape>)
    requires IsTree(sub) && (k.Parallel? || k.Sequence?) && (cond.Condition? || cond.MultiCondition?)
    ensures |r| == |sub| + 2
    ensures r[0] == Shape(k, [1, 2], None) && r[1] == Shape(cond, [], Some(0))
    ensures forall j :: 0 <= j < |sub| ==> r[j + 2].kind == sub[j].kind
    ensures Combined(k, cond, sub, r)
    ensures IsTree(r)
  {
    var moved := seq(|sub|, j requires 0 <= j < |sub| =>
      if j == 0 then Shift(sub[0], 2).(parent := Some(0)) else Shift(sub[j], 2));
    var r := [Shape(k, [1, 2], None), Shape(cond, [], Some(0))] + moved;
    assert Combined(k, cond, sub, r);
    CombineWellFormed(k, cond, sub, r);
    r
  }

  /**
   * What `Combine` builds: the composite and the condition on top, then
   * every node of `sub` moved up by 2 with its children and parent links
   * shifted alike, the old root now the composite's second child.
   */
  ghost predicate Combined(k: Kind, cond: Kind, sub: seq<Shape>, r: seq<Shape>)
  {
    && |sub| > 0 && |r| == |sub| + 2
    && r[0] == Shape(k, [1, 2], None) && r[1] == Shape(cond, [], Some(0))
    && r[2] == Shift(sub[0], 2).(parent := Some(0))
    && forall j :: 0 < j < |sub| ==> r[j + 2] == Shift(sub[j], 2)
  }

  /** The moved node `i` (at least 2) keeps the links and arity it had in `sub`. */
  lemma CombineNode(k: Kind, cond: Kind, sub: seq<Shape>, r: seq<Shape>, i: nat)
    requires Combined(k, cond, sub, r) && 2 <= i < |r|
    requires NodeLinks(sub, i - 2) && ArityOK(sub[i - 2]) && (i > 2 ==> sub[i - 2].parent.Some?)
    ensures NodeLinks(r, i) && ArityOK(r[i]) && r[i].parent.Some?
  {
    var j := i - 2;
    assert r[i].children == Shift(sub[j], 2).children;
    forall m | 0 <= m < |r[i].children|
      ensures i < r[i].children[m] < |r| && r[r[i].children[m]].parent == Some(i)
    {
      var c := sub[j].children[m];
      assert r[i].children[m] == c + 2;
      assert r[c + 2] == Shift(sub[c], 2);
    }
    if j > 0 {
      var p := sub[j].parent.value;
      var m :| 0 <= m < |sub[p].children| && sub[p].children[m] == j;
      assert r[p + 2] == Shift(sub[p], 2) || p == 0;
      assert r[p + 2].children[m] == i;
    }
  }

  /** Every moved node keeps its links and arity. */
  lemma CombineMoved(k: Kind, cond: Kind, sub: seq<Shape>, r: seq<Shape>)
    requires IsTree(sub) && Combined(k, cond, sub, r)
    ensures forall i :: 2 <= i < |r| ==> NodeLinks(r, i) && ArityOK(r[i]) && r[i].parent.Some?
  {
    forall i | 2 <= i < |r|
      ensures NodeLinks(r, i) && ArityOK(r[i]) && r[i].parent.Some?
    {
      Links(sub, i - 2);
      CombineNode(k, cond, sub, r, i);
    }
  }

  /** The composite and the condition at the top keep their links and arity. */
  lemma CombineTop(k: Kind, cond: Kind, sub: seq<Shape>, r: seq<Shape>)
    requires (k.Parallel? || k.Sequence?) && (cond.Condition? || cond.MultiCondition?)
    requires Combined(k, cond, sub, r)
    ensures r[0].parent.None? && r[1].parent.Some?
    ensures NodeLinks(r, 0) && NodeLinks(r, 1) && ArityOK(r[0]) && ArityOK(r[1])
  {
    assert r[2].parent == Some(0);
  }

  /** Two top nodes and moved nodes whose links and arities hold make a tree. */
  lemma TreeIntro(r: seq<Shape>)
    requires |r| > 2 && r[0].parent.None? && r[1].parent.Some?
    requires NodeLinks(r, 0) && NodeLinks(r, 1) && ArityOK(r[0]) && ArityOK(r[1])
    requires forall i :: 2 <= i < |r| ==> NodeLinks(r, i) && ArityOK(r[i]) && r[i].parent.Some?
    ensures IsTree(r)
  {
    forall i | 0 <= i < |r|
      ensures NodeLinks(r, i) && ArityOK(r[i])
    {
    }
    WellFormedIntro(r);
  }

  lemma CombineWellFormed(k: Kind, cond: Kind, sub: seq<Shape>, r: seq<Shape>)
    requires IsTree(sub) && (k.Parallel? || k.Sequence?) && (cond.Condition? || cond.MultiCondition?)
    requires Combined(k, cond, sub, r)
    ensures IsTree(r)
  {
    CombineMoved(k, cond, sub, r);
    CombineTop(k, cond, sub, r);
    TreeIntro(r);
  }

  /** whileNode(cond, name, node): a ParallelNode over a ConditionNode and `node`. */
  function WhileNode(sub: seq<Shape>): (r: seq<Shape>)
    requires IsTree(sub)
    ensures IsTree(r) && |r| == |sub| + 2
    ensures r[0].kind == Parallel(false) && r[0].children == [1, 2]
    ensures r[1].kind == Condition && r[2].kind == sub[0].kind
    ensures Combined(Parallel(false), Condition, sub, r)
  {
    Combine(Parallel(false), Condition, sub)
  }

  /** ifNode(cond, name, node): a SequenceNode over a ConditionNode and `node`. */
  function IfNode(sub: seq<Shape>): (r: seq<Shape>)
    requires IsTree(sub)
    ensures IsTree(r) && |r| == |sub| + 2
    ensures r[0].kind == Sequence && r[0].children == [1, 2]
    ensures r[1].kind == Condition && r[2].kind == sub[0].kind
    ensures Combined(Sequence, Condition, sub, r)
  {
    Combine(Sequence, Condition, sub)
  }

  /** ifThenDoWhileNode(ifcond, whilecond, name, node): a ParallelNode over a MultiConditionNode and `node`. */
  function IfThenDoWhileNode(sub: seq<Shape>): (r: seq<Shape>)
    requires IsTree(sub)
    ensures IsTree(r) && |r| == |sub| + 2
    ensures r[0].kind == Parallel(false) && r[0].children == [1, 2]
    ensures r[1].kind == MultiCondition && r[2].kind == sub[0].kind
    ensures Combined(Parallel(false), MultiCondition, sub, r)
  {
    Combine(Parallel(false), MultiCondition, sub)
  }
}
