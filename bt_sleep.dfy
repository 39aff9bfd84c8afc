/**
 * How long a behaviour tree may sleep before it needs another Visit:
 * BehaviorNode.GetSleepTime, PriorityNode.GetSleepTime and
 * BehaviorNode.GetTreeSleepTime of src/behaviourtree.ts, as read-only
 * queries over the arena.  A sleep time is `None` for the source's null.
 */
module BehaviourSleep {
  import opened Wrappers
  import opened BehaviourShape
  import opened BehaviourState
  import opened BehaviourTree

  /**
   * A node's own sleep time.  Only a PriorityNode has one: while RUNNING,
   * the time left until its next evaluation (clamped at 0, and 0 when it
   * has no last evaluation or no period), and 0 while READY.  Every other
   * kind takes the base GetSleepTime, whose `!this.children` test never
   * holds because every node is built with a children array, so it is
   * null.
   */
  function OwnSleep(k: Kind, ns: NodeState, now: int): (r: Option<real>)
    ensures r.Some? <==> k.Priority? && (ns.status == Running || ns.status == Ready)
    ensures r.Some? ==> r.value >= 0.0
    ensures k.Priority? && ns.status == Ready ==> r == Some(0.0)
  {
    if k.Priority? && ns.status == Running then
      if k.period == 0.0 || ns.lasttime.None? then Some(0.0)
      else
        var timeTo := ns.lasttime.value + k.period - Seconds(now);
        Some(if timeTo < 0.0 then 0.0 else timeTo)
    else if k.Priority? && ns.status == Ready then Some(0.0)
    else None
  }

  /**
   * A RUNNING PriorityNode that reports a positive sleep time will not
   * re-evaluate at any time before that sleep has passed.
   */
  lemma SleepBeforeEval(k: Kind, ns: NodeState, now: int, t: real)
    requires k.Priority? && ns.status == Running
    requires OwnSleep(k, ns, now).Some? && OwnSleep(k, ns, now).value > 0.0
    requires t <= Seconds(now) + OwnSleep(k, ns, now).value
    ensures !DoEval(k, ns, t)
  {
  }

  /** A RUNNING PriorityNode whose evaluation is due reports a sleep time of 0. */
  lemma EvalDueNoSleep(k: Kind, ns: NodeState, now: int)
    requires k.Priority? && ns.status == Running && DoEval(k, ns, Seconds(now))
    ensures OwnSleep(k, ns, now) == Some(0.0)
  {
  }

  /** GetTreeSleepTime's update rule: take `t` when it is known and strictly smaller. */
  function Smaller(acc: Option<real>, t: Option<real>): (r: Option<real>)
  {
    if t.Some? && (acc.None? || acc.value > t.value) then t else acc
  }

  /**
   * GetTreeSleepTime of node `i`: the smallest of the tree sleep times of
   * its RUNNING children and of its own sleep time, or None if none of
   * them has one.
   */
  function TreeSleep(shape: seq<Shape>, s: seq<NodeState>, i: nat, now: int): (r: Option<real>)
    requires WellFormed(shape) && |s| == |shape| && i < |shape|
    decreases |shape| - i, 1, 0
  {
    Smaller(ChildrenSleep(shape, s, i, |shape[i].children|, now), OwnSleep(shape[i].kind, s[i], now))
  }

  /** The loop of GetTreeSleepTime over the first `n` children. */
  function ChildrenSleep(shape: seq<Shape>, s: seq<NodeState>, i: nat, n: nat, now: int): (r: Option<real>)
    requires WellFormed(shape) && |s| == |shape| && i < |shape| && n <= |shape[i].children|
    decreases |shape| - i, 0, n
  {
    if n == 0 then None
    else
      var c := shape[i].children[n - 1];
      Smaller(ChildrenSleep(shape, s, i, n - 1, now), if s[c].status == Running then TreeSleep(shape, s, c, now) else None)
  }

  /** The sleep time a RUNNING child contributes, None for the others. */
  function ChildCandidate(shape: seq<Shape>, s: seq<NodeState>, i: nat, m: nat, now: int): (r: Option<real>)
    requires WellFormed(shape) && |s| == |shape| && i < |shape| && m < |shape[i].children|
    ensures s[shape[i].children[m]].status != Running ==> r.None?
  {
    var c := shape[i].children[m];
    if s[c].status == Running then TreeSleep(shape, s, c, now) else None
  }

  /** `Smaller` keeps the minimum of what it has seen. */
  lemma SmallerMin(acc: Option<real>, t: Option<real>)
    ensures var r := Smaller(acc, t);
      && (r.None? <==> acc.None? && t.None?)
      && (r == acc || r == t)
      && (r.Some? && acc.Some? ==> r.value <= acc.value)
      && (r.Some? && t.Some? ==> r.value <= t.value)
  {
  }

  /** The loop over the first `n` children yields the minimum of their candidates. */
  lemma {:induction false} ChildrenSleepMin(shape: seq<Shape>, s: seq<NodeState>, i: nat, n: nat, now: int)
    requires WellFormed(shape) && |s| == |shape| && i < |shape| && n <= |shape[i].children|
    ensures var r := ChildrenSleep(shape, s, i, n, now);
      && (r.None? <==> forall m :: 0 <= m < n ==> ChildCandidate(shape, s, i, m, now).None?)
      && (r.Some? ==> exists m :: 0 <= m < n && ChildCandidate(shape, s, i, m, now) == r)
      && (forall m :: 0 <= m < n && ChildCandidate(shape, s, i, m, now).Some? ==>
            r.Some? && r.value <= ChildCandidate(shape, s, i, m, now).value)
    decreases n
  {
    if n > 0 {
      ChildrenSleepMin(shape, s, i, n - 1, now);
      var acc := ChildrenSleep(shape, s, i, n - 1, now);
      var t := ChildCandidate(shape, s, i, n - 1, now);
      SmallerMin(acc, t);
      var r := ChildrenSleep(shape, s, i, n, now);
      assert r == Smaller(acc, t);
      if r.Some? {
        if r == t {
          assert ChildCandidate(shape, s, i, n - 1, now) == r;
        } else {
          var m :| 0 <= m < n - 1 && ChildCandidate(shape, s, i, m, now) == acc;
          assert ChildCandidate(shape, s, i, m, now) == r;
        }
      }
    }
  }

  /**
   * GetTreeSleepTime is the minimum of the node's own sleep time and the
   * tree sleep times of its RUNNING children, and None exactly when none
   * of these is known.
   */
  lemma TreeSleepMin(shape: seq<Shape>, s: seq<NodeState>, i: nat, now: int)
    requires WellFormed(shape) && |s| == |shape| && i < |shape|
    ensures var r := TreeSleep(shape, s, i, now); var own := OwnSleep(shape[i].kind, s[i], now);
      var n := |shape[i].children|;
      && (r.None? <==> own.None? && forall m :: 0 <= m < n ==> ChildCandidate(shape, s, i, m, now).None?)
      && (r.Some? ==> r == own || exists m :: 0 <= m < n && ChildCandidate(shape, s, i, m, now) == r)
      && (own.Some? ==> r.Some? && r.value <= own.value)
      && (forall m :: 0 <= m < n && ChildCandidate(shape, s, i, m, now).Some? ==>
            r.Some? && r.value <= ChildCandidate(shape, s, i, m, now).value)
  {
    ChildrenSleepMin(shape, s, i, |shape[i].children|, now);
    SmallerMin(ChildrenSleep(shape, s, i, |shape[i].children|, now), OwnSleep(shape[i].kind, s[i], now));
  }

  /** A tree sleep time is never negative. */
  lemma {:induction false} TreeSleepNonNegative(shape: seq<Shape>, s: seq<NodeState>, i: nat, now: int)
    requires WellFormed(shape) && |s| == |shape| && i < |shape|
    ensures TreeSleep(shape, s, i, now).Some? ==> TreeSleep(shape, s, i, now).value >= 0.0
    decreases |shape| - i, 1, 0
  {
    ChildrenSleepNonNegative(shape, s, i, |shape[i].children|, now);
  }

  lemma {:induction false} ChildrenSleepNonNegative(shape: seq<Shape>, s: seq<NodeState>, i: nat, n: nat, now: int)
    requires WellFormed(shape) && |s| == |shape| && i < |shape| && n <= |shape[i].children|
    ensures ChildrenSleep(shape, s, i, n, now).Some? ==> ChildrenSleep(shape, s, i, n, now).value >= 0.0
    decreases |shape| - i, 0, n
  {
    if n > 0 {
      ChildrenSleepNonNegative(shape, s, i, n - 1, now);
      ChildParent(shape, i, shape[i].children[n - 1]);
      TreeSleepNonNegative(shape, s, shape[i].children[n - 1], now);
    }
  }

  /** A node with no RUNNING child reports its own sleep time. */
  lemma {:induction false} IdleChildrenOwnSleep(shape: seq<Shape>, s: seq<NodeState>, i: nat, now: int)
    requires WellFormed(shape) && |s| == |shape| && i < |shape|
    requires forall m :: 0 <= m < |shape[i].children| ==> s[shape[i].children[m]].status != Running
    ensures TreeSleep(shape, s, i, now) == OwnSleep(shape[i].kind, s[i], now)
  {
    ChildrenSleepMin(shape, s, i, |shape[i].children|, now);
  }
}
